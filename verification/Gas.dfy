/** Gas prices and the block gas pool (core/state_transition.go, core/gaspool.go, params). */
module Gas {
  import opened Chain

  const MAX_UINT64: nat := 0xFFFF_FFFF_FFFF_FFFF
  const TWO_TO_THE_256: nat := 0x1_0000_0000_0000_0000_0000_0000_0000_0000_0000_0000_0000_0000_0000_0000_0000_0000

  const TX_GAS: nat := 21000
  const TX_GAS_CONTRACT_CREATION: nat := 53000
  const TX_DATA_ZERO_GAS: nat := 4
  const TX_DATA_NON_ZERO_GAS_FRONTIER: nat := 68
  const TX_DATA_NON_ZERO_GAS_EIP2028: nat := 16
  const INIT_CODE_WORD_GAS: nat := 2
  const TX_ACCESS_LIST_ADDRESS_GAS: nat := 2400
  const TX_ACCESS_LIST_STORAGE_KEY_GAS: nat := 1900
  const REFUND_QUOTIENT: nat := 2
  const REFUND_QUOTIENT_EIP3529: nat := 5
  const MAX_INIT_CODE_SIZE: nat := 49152
  const BLOB_TX_BLOB_GAS_PER_BLOB: nat := 131072

  datatype AccessTuple = AccessTuple(address: nat, storageKeys: seq<nat>)

  function NonZeroBytes(data: seq<bv8>): (n: nat)
    ensures n <= |data|
  {
    if data == [] then 0 else NonZeroBytes(data[..|data| - 1]) + if data[|data| - 1] != 0 then 1 else 0
  }

  function StorageKeys(accessList: seq<AccessTuple>): nat {
    if accessList == [] then 0
      else StorageKeys(accessList[..|accessList| - 1]) + |accessList[|accessList| - 1].storageKeys|
  }

  /** Section 6.2 of the Yellow Paper over unbounded integers, with the init code charge of EIP-3860. */
  function DataPrice(data: seq<bv8>, creation: bool, homestead: bool, eip2028: bool, eip3860: bool): nat {
    (if creation && homestead then TX_GAS_CONTRACT_CREATION else TX_GAS)
    + NonZeroBytes(data) * (if eip2028 then TX_DATA_NON_ZERO_GAS_EIP2028 else TX_DATA_NON_ZERO_GAS_FRONTIER)
    + (|data| - NonZeroBytes(data)) * TX_DATA_ZERO_GAS
    + (if creation && eip3860 then (|data| + 31) / 32 * INIT_CODE_WORD_GAS else 0)
  }

  function AccessListPrice(accessList: seq<AccessTuple>): nat {
    |accessList| * TX_ACCESS_LIST_ADDRESS_GAS + StorageKeys(accessList) * TX_ACCESS_LIST_STORAGE_KEY_GAS
  }

  /** The number of 32-byte words that hold `size` bytes, without overflowing on the way. */
  function ToWordSize(size: nat): (words: nat)
    requires size <= MAX_UINT64
    ensures words * 32 - 32 < size <= words * 32
  {
    if size > MAX_UINT64 - 31 then MAX_UINT64 / 32 + 1 else (size + 31) / 32
  }

  lemma MulMono(a: nat, b: nat, n: nat)
    requires a <= b
    ensures a * n <= b * n
  {
  }

  lemma DivLess(d: nat, price: nat, n: nat)
    requires price > 0
    ensures d / price < n <==> d < n * price
  {
    var q := d / price;
    assert d == q * price + d % price;
    if q < n {
      MulMono(q + 1, n, price);
    } else {
      MulMono(n, q, price);
    }
  }

  /** `gas + n * price` fits into 64 bits exactly when the division says so. */
  lemma FitsIff(gas: nat, price: nat, n: nat)
    requires gas <= MAX_UINT64 && price > 0
    ensures (MAX_UINT64 - gas) / price < n <==> gas + n * price > MAX_UINT64
  {
    DivLess(MAX_UINT64 - gas, price, n);
  }

  method CountNonZero(data: seq<bv8>) returns (nz: nat)
    ensures nz == NonZeroBytes(data)
  {
    nz := 0;
    for i := 0 to |data|
      invariant nz == NonZeroBytes(data[..i])
    {
      assert data[..i + 1][..i] == data[..i];
      if data[i] != 0 {
        nz := nz + 1;
      }
    }
    assert data[..|data|] == data;
  }

  /** Adds `n` units at the given price unless that overflows 64 bits. */
  function Charge(gas: nat, n: nat, price: nat): (r: Option<nat>)
    requires gas <= MAX_UINT64 && price > 0
    ensures r == if gas + n * price > MAX_UINT64 then None else Some(gas + n * price)
  {
    FitsIff(gas, price, n);
    if (MAX_UINT64 - gas) / price < n then None else Some(gas + n * price)
  }

  method DataGas(data: seq<bv8>, creation: bool, homestead: bool, eip2028: bool, eip3860: bool) returns (r: Option<nat>)
    requires |data| <= MAX_UINT64
    ensures var price := DataPrice(data, creation, homestead, eip2028, eip3860);
      r == if price > MAX_UINT64 then None else Some(price)
  {
    var gas := if creation && homestead then TX_GAS_CONTRACT_CREATION else TX_GAS;
    var dataLen := |data|;
    if dataLen == 0 {
      return Some(gas);
    }
    var nz := CountNonZero(data);
    r := Charge(gas, nz, if eip2028 then TX_DATA_NON_ZERO_GAS_EIP2028 else TX_DATA_NON_ZERO_GAS_FRONTIER);
    if r.Some? {
      r := Charge(r.value, dataLen - nz, TX_DATA_ZERO_GAS);
    }
    if r.Some? && creation && eip3860 {
      r := Charge(r.value, ToWordSize(dataLen), INIT_CODE_WORD_GAS);
    }
    assert ToWordSize(dataLen) == (dataLen + 31) / 32;
  }

  /** The intrinsic gas of a message, `None` on overflow. Without an access list the result is the
      exact price, and there is an overflow exactly when that price does not fit into 64 bits; the
      access list is then added modulo 2^64. */
  method IntrinsicGas(data: seq<bv8>, accessList: Option<seq<AccessTuple>>, creation: bool, homestead: bool,
                      eip2028: bool, eip3860: bool)
    returns (r: Option<nat>)
    requires |data| <= MAX_UINT64
    ensures r == IntrinsicPrice(data, accessList, creation, homestead, eip2028, eip3860)
  {
    r := DataGas(data, creation, homestead, eip2028, eip3860);
    if r.Some? && accessList.Some? {
      r := Some((r.value + AccessListPrice(accessList.value)) % (MAX_UINT64 + 1));
    }
  }

  function IntrinsicPrice(data: seq<bv8>, accessList: Option<seq<AccessTuple>>, creation: bool, homestead: bool,
                          eip2028: bool, eip3860: bool): (r: Option<nat>)
    ensures r.Some? ==> r.value <= MAX_UINT64
  {
    var price := DataPrice(data, creation, homestead, eip2028, eip3860);
    if price > MAX_UINT64 then None
    else Some((price + if accessList.Some? then AccessListPrice(accessList.value) else 0) % (MAX_UINT64 + 1))
  }

  /** The price of a message byte by byte: the base price, 4 for a zero byte and 16 (68 before Istanbul) for
      any other, and 2 for every 32 bytes of init code begun. */
  lemma PriceByByte(data: seq<bv8>, b: bv8, creation: bool, homestead: bool, eip2028: bool, eip3860: bool)
    ensures DataPrice([], creation, homestead, eip2028, eip3860) == if creation && homestead then 53000 else 21000
    ensures DataPrice(data + [b], creation, homestead, eip2028, eip3860) ==
      DataPrice(data, creation, homestead, eip2028, eip3860)
      + (if b == 0 then 4 else if eip2028 then 16 else 68)
      + (if creation && eip3860 && |data| % 32 == 0 then 2 else 0)
  {
    assert (data + [b])[..|data|] == data;
    WordBegun(|data|);
  }

  lemma WordBegun(n: nat)
    ensures (n + 1 + 31) / 32 == (n + 31) / 32 + if n % 32 == 0 then 1 else 0
  {
  }

  /** The price of an access list entry by entry: 2400 for each address and 1900 for each storage key. */
  lemma PriceByEntry(accessList: seq<AccessTuple>, entry: AccessTuple)
    ensures AccessListPrice([]) == 0
    ensures AccessListPrice(accessList + [entry]) == AccessListPrice(accessList) + 2400 + 1900 * |entry.storageKeys|
  {
    assert (accessList + [entry])[..|accessList|] == accessList;
  }

  class GasPool {
    var gas: nat

    constructor ()
      ensures gas == 0
    {
      gas := 0;
    }

    /** Adds gas to the pool, and panics exactly if it would not fit into 64 bits. */
    method AddGas(amount: nat) returns (panicked: bool)
      requires gas <= MAX_UINT64 && amount <= MAX_UINT64
      modifies this
      ensures panicked <==> old(gas) + amount > MAX_UINT64
      ensures gas == if panicked then old(gas) else old(gas) + amount
    {
      panicked := gas > MAX_UINT64 - amount;
      if !panicked {
        gas := gas + amount;
      }
    }

    /** Deducts the amount if the pool holds it. */
    method SubGas(amount: nat) returns (ok: bool)
      modifies this
      ensures ok <==> amount <= old(gas)
      ensures gas == if ok then old(gas) - amount else old(gas)
    {
      ok := gas >= amount;
      if ok {
        gas := gas - amount;
      }
    }
  }
}
