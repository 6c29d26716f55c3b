/** Application of one transaction to the world state (core/state_transition.go). */
module StateTransitions {
  import opened Chain
  import opened Gas
  import opened Balances

  /** The accounts as far as a transaction's fees are concerned. */
  datatype World = World(balances: map<Address, nat>, nonces: map<Address, nat>, code: set<Address>)

  datatype Rules = Rules(homestead: bool, istanbul: bool, london: bool, shanghai: bool, cancun: bool)

  /** The block context; the base fees are present from London and Cancun on, as header validation demands. */
  datatype Env = Env(coinbase: Address, baseFee: nat, blobBaseFee: nat, rules: Rules)

  /** The gas price fields of a transaction: legacy ones carry one price, newer ones a tip and a cap. */
  datatype Fees = Legacy(price: nat) | Dynamic(tip: nat, cap: nat)

  datatype Transaction =
    Transaction(to: Option<Address>, sender: Address, nonce: nat, value: nat, gasLimit: nat, fees: Fees, data: seq<bv8>,
                accessList: Option<seq<AccessTuple>>, blobGasFeeCap: nat, blobHashes: Option<seq<seq<bv8>>>)

  datatype Message =
    Message(to: Option<Address>, from: Address, nonce: nat, value: nat, gasLimit: nat,
            gasPrice: nat, gasFeeCap: nat, gasTipCap: nat, data: seq<bv8>,
            accessList: Option<seq<AccessTuple>>, blobGasFeeCap: nat, blobHashes: Option<seq<seq<bv8>>>)

  datatype Error =
    | NonceTooHigh | NonceTooLow | NonceMax | SenderNoEOA
    | FeeCapVeryHigh | TipVeryHigh | TipAboveFeeCap | FeeCapTooLow
    | BlobTxCreate | MissingBlobHashes | InvalidBlobHash | BlobFeeCapTooLow
    | InsufficientFunds | GasLimitReached | GasUintOverflow | IntrinsicGasTooLow
    | InsufficientFundsForTransfer | MaxInitCodeSizeExceeded

  /** What a call into the EVM hands back: the world, the gas left, the refund counter, the ether
      destroyed on the way, and the accounts flagged for deletion. */
  datatype EvmResult =
    EvmResult(world: World, gasLeft: nat, refund: nat, destroyed: nat, failed: bool, destructed: set<Address>)

  datatype ExecutionResult = ExecutionResult(usedGas: nat, refundedGas: nat, failed: bool)

  function Min(a: nat, b: nat): nat {
    if a <= b then a else b
  }

  function TransactionToMessage(tx: Transaction, env: Env): Message {
    var (tip, cap) := match tx.fees
      case Legacy(price) => (price, price)
      case Dynamic(tip, cap) => (tip, cap);
    // the gas price of a transaction with a fee cap is that cap until a base fee is known
    var price := if env.rules.london then Min(tip + env.baseFee, cap) else cap;
    Message(tx.to, tx.sender, tx.nonce, tx.value, tx.gasLimit, price, cap, tip, tx.data, tx.accessList,
            tx.blobGasFeeCap, tx.blobHashes)
  }

  function BlobGas(msg: Message): nat {
    if msg.blobHashes.Some? then |msg.blobHashes.value| * BLOB_TX_BLOB_GAS_PER_BLOB else 0
  }

  predicate ValidVersionedHash(h: seq<bv8>) {
    |h| == 32 && h[0] == 0x01
  }

  function IntrinsicOf(msg: Message, rules: Rules): Option<nat> {
    IntrinsicPrice(msg.data, msg.accessList, msg.to.None?, rules.homestead, rules.istanbul, rules.shanghai)
  }

  /** The ether a transaction's sender must own before it is applied. */
  function UpfrontCost(msg: Message, env: Env): nat {
    msg.gasLimit * msg.gasFeeCap + msg.value + if env.rules.cancun then BlobGas(msg) * msg.blobGasFeeCap else 0
  }

  predicate BlobsOk(msg: Message, env: Env) {
    && (msg.blobHashes.Some? ==>
          && msg.to.Some? && msg.blobHashes.value != []
          && forall h :: h in msg.blobHashes.value ==> ValidVersionedHash(h))
    && (env.rules.cancun && BlobGas(msg) > 0 ==> env.blobBaseFee <= msg.blobGasFeeCap)
  }

  /** Initial validity in the sense of section 6.2 of the Yellow Paper with the fee market and blob
      extensions, over unbounded integers. */
  predicate Acceptable(msg: Message, world: World, pool: nat, env: Env) {
    && Get(world.nonces, msg.from) == msg.nonce < MAX_UINT64
    && msg.from !in world.code
    && (env.rules.london ==> msg.gasTipCap <= msg.gasFeeCap < TWO_TO_THE_256 && env.baseFee <= msg.gasFeeCap)
    && BlobsOk(msg, env)
    && UpfrontCost(msg, env) <= Get(world.balances, msg.from)
    && msg.gasLimit <= pool
    && IntrinsicOf(msg, env.rules).Some? && IntrinsicOf(msg, env.rules).value <= msg.gasLimit
    && (env.rules.shanghai && msg.to.None? ==> |msg.data| <= MAX_INIT_CODE_SIZE)
  }

  /** One condition of acceptance, with the error that reports its failure. */
  datatype Check = Check(holds: bool, error: Error)

  function AccountChecks(msg: Message, w: World): seq<Check> {
    [Check(msg.nonce <= Get(w.nonces, msg.from), NonceTooHigh),
     Check(msg.nonce >= Get(w.nonces, msg.from), NonceTooLow),
     Check(msg.nonce < MAX_UINT64, NonceMax),
     Check(msg.from !in w.code, SenderNoEOA)]
  }

  function FeeChecks(msg: Message, env: Env): seq<Check> {
    [Check(env.rules.london ==> msg.gasFeeCap < TWO_TO_THE_256, FeeCapVeryHigh),
     Check(env.rules.london ==> msg.gasTipCap < TWO_TO_THE_256, TipVeryHigh),
     Check(env.rules.london ==> msg.gasTipCap <= msg.gasFeeCap, TipAboveFeeCap),
     Check(env.rules.london ==> env.baseFee <= msg.gasFeeCap, FeeCapTooLow)]
  }

  function BlobChecks(msg: Message, env: Env): seq<Check> {
    [Check(msg.blobHashes.Some? ==> msg.to.Some?, BlobTxCreate),
     Check(msg.blobHashes.Some? ==> msg.blobHashes.value != [], MissingBlobHashes),
     Check(msg.blobHashes.Some? ==> (forall h :: h in msg.blobHashes.value ==> ValidVersionedHash(h)),
           InvalidBlobHash),
     Check(env.rules.cancun && msg.blobHashes.Some? && msg.blobHashes.value != []
           ==> env.blobBaseFee <= msg.blobGasFeeCap, BlobFeeCapTooLow)]
  }

  /** The sender covers gas and blobs at its caps and the value, and the block's pool holds the gas. */
  function PurchaseChecks(msg: Message, w: World, pool: nat, env: Env): seq<Check> {
    var blobGas := if env.rules.cancun && msg.blobHashes.Some? then |msg.blobHashes.value| * 131072 else 0;
    [Check(msg.gasLimit * msg.gasFeeCap + msg.value + blobGas * msg.blobGasFeeCap <= Get(w.balances, msg.from),
           InsufficientFunds),
     Check(msg.gasLimit <= pool, GasLimitReached)]
  }

  function RunChecks(msg: Message, env: Env): seq<Check> {
    var intrinsic := IntrinsicOf(msg, env.rules);
    [Check(intrinsic.Some?, GasUintOverflow),
     Check(intrinsic.Some? ==> intrinsic.value <= msg.gasLimit, IntrinsicGasTooLow),
     Check(env.rules.shanghai && msg.to.None? ==> |msg.data| <= MAX_INIT_CODE_SIZE, MaxInitCodeSizeExceeded)]
  }

  /** The checks up to the purchase of the gas, in order. */
  function EarlyChecks(msg: Message, w: World, pool: nat, env: Env): seq<Check> {
    AccountChecks(msg, w) + FeeChecks(msg, env) + BlobChecks(msg, env) + PurchaseChecks(msg, w, pool, env)
  }

  /** The first check that fails is the one reported. */
  ghost predicate Judged(checks: seq<Check>, err: Option<Error>) {
    match err
    case None => forall k :: 0 <= k < |checks| ==> checks[k].holds
    case Some(e) => exists k :: 0 <= k < |checks| && !checks[k].holds && checks[k].error == e
                                && forall j :: 0 <= j < k ==> checks[j].holds
  }

  lemma JudgedAt(checks: seq<Check>, k: nat)
    requires k < |checks| && !checks[k].holds && forall j :: 0 <= j < k ==> checks[j].holds
    ensures Judged(checks, Some(checks[k].error))
  {
  }

  /** Later checks matter only when all earlier ones hold. */
  lemma JudgedInTurn(first: seq<Check>, second: seq<Check>, err: Option<Error>)
    requires (err.Some? && Judged(first, err)) || (Judged(first, None) && Judged(second, err))
    ensures Judged(first + second, err)
  {
    if err.Some? && Judged(first, err) {
      var k: nat :| k < |first| && !first[k].holds && first[k].error == err.value
                    && forall j :: 0 <= j < k ==> first[j].holds;
      JudgedAt(first + second, k);
    } else if err.Some? {
      var k: nat :| k < |second| && !second[k].holds && second[k].error == err.value
                    && forall j :: 0 <= j < k ==> second[j].holds;
      JudgedAt(first + second, |first| + k);
    }
  }

  /** What derived messages and real worlds guarantee: 64-bit gas, nonces and data sizes, and a total
      supply below 2^256. */
  ghost predicate Sane(msg: Message, world: World) {
    && msg.gasLimit <= MAX_UINT64 && msg.nonce <= MAX_UINT64 && |msg.data| <= MAX_UINT64
    && SaneWorld(world)
  }

  ghost predicate SaneWorld(world: World) {
    && NoncesFit(world)
    && Total(world.balances) < TWO_TO_THE_256
  }

  ghost predicate NoncesFit(world: World) {
    forall a :: a in world.nonces ==> world.nonces[a] <= MAX_UINT64
  }

  /** The message was derived from some transaction in this block. */
  ghost predicate Derived(msg: Message, env: Env) {
    exists tx :: msg == TransactionToMessage(tx, env)
  }

  /** The effective gas price never exceeds the cap, and splits into the base fee and the tip that
      goes to the block's producer. */
  lemma EffectivePrice(msg: Message, env: Env)
    requires Derived(msg, env)
    ensures msg.gasPrice <= msg.gasFeeCap
    ensures env.rules.london && env.baseFee <= msg.gasFeeCap ==> msg.gasPrice == env.baseFee + EffectiveTip(msg, env)
    ensures !env.rules.london ==> msg.gasPrice == EffectiveTip(msg, env) == msg.gasFeeCap
  {
  }

  function EffectiveTip(msg: Message, env: Env): nat
    requires env.rules.london ==> env.baseFee <= msg.gasFeeCap
  {
    if env.rules.london then Min(msg.gasTipCap, msg.gasFeeCap - env.baseFee) else msg.gasPrice
  }

  /** The worlds a message of `from` may be executed in: the sender has no code and owns the value to
      transfer, and a creation can still bump its nonce. */
  ghost predicate Executable(w: World, from: Address, creation: bool, value: nat) {
    && SaneWorld(w) && from !in w.code
    && value <= Get(w.balances, from) && (creation ==> Get(w.nonces, from) < MAX_UINT64)
  }

  /** The contract of the EVM: gas is only consumed, and ether moves between accounts or is destroyed.
      A creation bumps the sender's nonce, a call leaves it alone; nonces stay within 64 bits; and the
      sender, which has no code, does not self-destruct. */
  ghost predicate WellBehaved(evm: (World, nat) -> EvmResult, from: Address, creation: bool, value: nat) {
    forall w: World, g: nat :: Executable(w, from, creation, value) ==> Behaves(w, g, evm(w, g), from, creation)
  }

  ghost predicate Behaves(w: World, g: nat, r: EvmResult, from: Address, creation: bool) {
    && r.gasLeft <= g
    && Total(r.world.balances) + r.destroyed == Total(w.balances)
    && Get(r.world.nonces, from) == Get(w.nonces, from) + (if creation then 1 else 0)
    && NoncesFit(r.world)
    && from !in r.destructed
  }

  /** The start of a contract creation: nothing happens, and no nonce is bumped, when the creator cannot
      cover the value; otherwise the nonce is bumped and all gas used up. */
  function FailedCreate(from: Address, value: nat): (World, nat) -> EvmResult {
    (w: World, g: nat) =>
      if Get(w.balances, from) < value then EvmResult(w, g, 0, 0, true, {})
      else EvmResult(w.(nonces := w.nonces[from := Get(w.nonces, from) + 1]), 0, 0, 0, true, {})
  }

  /** The contract admits a creation that carries value. */
  lemma CreateBehaves(from: Address, value: nat)
    ensures WellBehaved(FailedCreate(from, value), from, true, value)
  {
  }

  class StateDB {
    var world: World
    var refund: nat
    // the accounts flagged as self-destructed
    var destructed: set<Address>

    constructor (world: World)
      ensures this.world == world && refund == 0 && destructed == {}
    {
      this.world, refund, destructed := world, 0, {};
    }

    /** Deletes the flagged accounts with whatever they hold, and clears the refund counter. Deleting
        empty accounts as well changes no balance, nonce or code. */
    method Finalise()
      modifies this
      ensures world == Finalised(old(world), old(destructed)) && refund == 0 && destructed == {}
    {
      world := Finalised(world, destructed);
      refund, destructed := 0, {};
    }

    /** 256-bit subtraction; it wraps around below zero. */
    method SubBalance(a: Address, v: nat)
      requires v < TWO_TO_THE_256
      modifies this`world
      ensures v <= Get(old(world).balances, a) < TWO_TO_THE_256 ==> world == Debited(old(world), a, v)
      ensures var left := (Get(old(world).balances, a) + TWO_TO_THE_256 - v) % TWO_TO_THE_256;
        world == old(world).(balances := old(world).balances[a := left])
    {
      NoWrap(TWO_TO_THE_256, Get(world.balances, a), v);
      world := world.(balances := world.balances[a := (Get(world.balances, a) + TWO_TO_THE_256 - v) % TWO_TO_THE_256]);
    }

    /** 256-bit addition; it wraps around above the largest value. */
    method AddBalance(a: Address, v: nat)
      modifies this`world
      ensures Get(old(world).balances, a) + v < TWO_TO_THE_256 ==> world == Credited(old(world), a, v)
      ensures var sum := (Get(old(world).balances, a) + v) % TWO_TO_THE_256;
        world == old(world).(balances := old(world).balances[a := sum])
    {
      NoWrap(TWO_TO_THE_256, Get(world.balances, a), v);
      world := world.(balances := world.balances[a := (Get(world.balances, a) + v) % TWO_TO_THE_256]);
    }
  }

  /** Arithmetic modulo `m` is exact while it stays in range. */
  lemma NoWrap(m: nat, a: nat, v: nat)
    ensures v <= a < m ==> (a + m - v) % m == a - v && v % m == v
    ensures a + v < m ==> (a + v) % m == a + v
  {
    if v <= a < m {
      ModSmall(m, v);
      assert a + m - v == (a - v) + m;
      ModShift(m, a - v);
    }
    if a + v < m {
      ModSmall(m, a + v);
    }
  }

  lemma ModSmall(m: nat, a: nat)
    requires a < m
    ensures a % m == a
  {
  }

  lemma ModShift(m: nat, a: nat)
    requires a < m
    ensures (a + m) % m == a
  {
  }

  /** The world without the given accounts. */
  function Finalised(w: World, gone: set<Address>): World {
    World(w.balances - gone, w.nonces - gone, w.code - gone)
  }

  function Debited(w: World, a: Address, v: nat): World
    requires v <= Get(w.balances, a)
  {
    w.(balances := w.balances[a := Get(w.balances, a) - v])
  }

  function Credited(w: World, a: Address, v: nat): World {
    w.(balances := w.balances[a := Get(w.balances, a) + v])
  }

  lemma DebitedTotal(w: World, a: Address, v: nat)
    requires v <= Get(w.balances, a)
    ensures Total(Debited(w, a, v).balances) + v == Total(w.balances)
  {
    TotalSet(w.balances, a, Get(w.balances, a) - v);
  }

  lemma CreditedTotal(w: World, a: Address, v: nat)
    ensures Total(Credited(w, a, v).balances) == Total(w.balances) + v
  {
    TotalSet(w.balances, a, Get(w.balances, a) + v);
  }

  /** What the sender is charged before execution. */
  function Prepaid(msg: Message, env: Env): nat {
    msg.gasLimit * msg.gasPrice + if env.rules.cancun then BlobGas(msg) * env.blobBaseFee else 0
  }

  /** The balance check covers the charge and the transferred value. */
  lemma PrepaidCovered(msg: Message, env: Env)
    requires Derived(msg, env) && BlobsOk(msg, env)
    ensures Prepaid(msg, env) + msg.value <= UpfrontCost(msg, env)
  {
  }

  lemma MulLe(n: nat, a: nat, b: nat)
    requires a <= b
    ensures n * a <= n * b
  {
  }

  /** The refund for cleared state, capped to a fraction of the gas used. */
  function Refund(used: nat, counter: nat, london: bool): nat {
    Min(used / (if london then REFUND_QUOTIENT_EIP3529 else REFUND_QUOTIENT), counter)
  }

  /** What the sender gets back for the gas not used. */
  function Payback(msg: Message, used: nat): nat
    requires used <= msg.gasLimit
  {
    var left: nat := msg.gasLimit - used;
    left * msg.gasPrice
  }

  /** The world once the unused gas is paid back and the tip is paid out. */
  function Settled(out: World, msg: Message, env: Env, used: nat): World
    requires used <= msg.gasLimit
    requires env.rules.london ==> env.baseFee <= msg.gasFeeCap
  {
    Credited(Credited(out, msg.from, Payback(msg, used)), env.coinbase, used * EffectiveTip(msg, env))
  }

  /** The ether that leaves circulation with a transaction. */
  function Burnt(used: nat, msg: Message, env: Env): nat {
    (if env.rules.london then used * env.baseFee else 0)
    + if env.rules.cancun then BlobGas(msg) * env.blobBaseFee else 0
  }

  /** Splitting the prepaid amount: what is paid back, tipped and burnt adds up to it. */
  lemma PrepaidSplit(msg: Message, env: Env, used: nat)
    requires Derived(msg, env) && used <= msg.gasLimit && (env.rules.london ==> env.baseFee <= msg.gasFeeCap)
    ensures Prepaid(msg, env) == Payback(msg, used) + used * EffectiveTip(msg, env) + Burnt(used, msg, env)
  {
  }

  /** Ether is conserved: the total falls by what is burnt and what the EVM destroys. */
  lemma EtherConserved(before: World, called: World, out: EvmResult, msg: Message, env: Env, used: nat)
    requires Derived(msg, env) && used <= msg.gasLimit && (env.rules.london ==> env.baseFee <= msg.gasFeeCap)
    requires Prepaid(msg, env) <= Get(before.balances, msg.from)
    requires called.balances == Debited(before, msg.from, Prepaid(msg, env)).balances
    requires Total(out.world.balances) + out.destroyed == Total(called.balances)
    ensures Total(Settled(out.world, msg, env, used).balances) + Burnt(used, msg, env) + out.destroyed
      == Total(before.balances)
  {
    DebitedTotal(before, msg.from, Prepaid(msg, env));
    PrepaidSplit(msg, env, used);
    var back := Payback(msg, used);
    CreditedTotal(out.world, msg.from, back);
    CreditedTotal(Credited(out.world, msg.from, back), env.coinbase, used * EffectiveTip(msg, env));
  }

  /** What the EVM destroyed, counting the ether left at accounts it flagged for deletion. */
  ghost function DestroyedIn(out: EvmResult): nat {
    out.destroyed + Held(out.world.balances, out.destructed)
  }

  /** The tip that is lost because the block's producer is deleted together with it. */
  function TipLost(used: nat, msg: Message, env: Env, gone: set<Address>): nat {
    if env.coinbase in gone && (env.rules.london ==> env.baseFee <= msg.gasFeeCap)
    then used * EffectiveTip(msg, env) else 0
  }

  /** Settling adds to what the flagged accounts hold only a tip for the block's producer among them. */
  lemma SettledHeld(out: EvmResult, msg: Message, env: Env, used: nat)
    requires used <= msg.gasLimit && (env.rules.london ==> env.baseFee <= msg.gasFeeCap)
    requires msg.from !in out.destructed
    ensures Held(Settled(out.world, msg, env, used).balances, out.destructed)
            == Held(out.world.balances, out.destructed) + TipLost(used, msg, env, out.destructed)
  {
    hide EffectiveTip, Payback, Held;
    var back, tip := Payback(msg, used), used * EffectiveTip(msg, env);
    CreditedHeld(out.world, out.destructed, msg.from, back);
    CreditedHeld(Credited(out.world, msg.from, back), out.destructed, env.coinbase, tip);
  }

  lemma CreditedHeld(w: World, accounts: set<Address>, a: Address, v: nat)
    ensures Held(Credited(w, a, v).balances, accounts) == Held(w.balances, accounts) + if a in accounts then v else 0
  {
    HeldSet(w.balances, accounts, a, Get(w.balances, a) + v);
  }

  /** Deleting the flagged accounts loses what the EVM left at them, and the tip if the block's producer
      is among them. */
  lemma FinalisedTotal(out: EvmResult, msg: Message, env: Env, used: nat)
    requires used <= msg.gasLimit && (env.rules.london ==> env.baseFee <= msg.gasFeeCap)
    requires msg.from !in out.destructed
    ensures var settled := Settled(out.world, msg, env, used);
      Total(Finalised(settled, out.destructed).balances) + Held(out.world.balances, out.destructed)
      + TipLost(used, msg, env, out.destructed) == Total(settled.balances)
  {
    hide Settled, TipLost, Held;
    SettledHeld(out, msg, env, used);
    TotalSplit(Settled(out.world, msg, env, used).balances, out.destructed);
  }

  lemma PrepaidCoversGas(msg: Message, env: Env)
    ensures msg.gasLimit * msg.gasPrice <= Prepaid(msg, env)
  {
    MulLe(BlobGas(msg), 0, env.blobBaseFee);
  }

  /** Paying back the gas cannot wrap around, as the supply stays below the bound. */
  lemma PaybackInRange(before: World, called: World, out: EvmResult, msg: Message, env: Env, bound: nat)
    requires Total(before.balances) < bound
    requires Prepaid(msg, env) <= Get(before.balances, msg.from)
    requires called.balances == Debited(before, msg.from, Prepaid(msg, env)).balances
    requires Total(out.world.balances) + out.destroyed == Total(called.balances)
    ensures Get(out.world.balances, msg.from) + msg.gasLimit * msg.gasPrice < bound
  {
    hide Prepaid;
    PrepaidCoversGas(msg, env);
    DebitedTotal(before, msg.from, Prepaid(msg, env));
    GetBounded(out.world.balances, msg.from);
  }

  /** Neither can paying the tip afterwards. */
  lemma TipInRange(before: World, called: World, out: EvmResult, msg: Message, env: Env, used: nat, bound: nat)
    requires Total(before.balances) < bound && Derived(msg, env) && used <= msg.gasLimit
    requires env.rules.london ==> env.baseFee <= msg.gasFeeCap
    requires Prepaid(msg, env) <= Get(before.balances, msg.from)
    requires called.balances == Debited(before, msg.from, Prepaid(msg, env)).balances
    requires Total(out.world.balances) + out.destroyed == Total(called.balances)
    ensures Get(Credited(out.world, msg.from, Payback(msg, used)).balances, env.coinbase)
      + used * EffectiveTip(msg, env) < bound
  {
    hide Prepaid, Burnt, EffectiveTip, Derived;
    EtherConserved(before, called, out, msg, env, used);
    GetBounded(Settled(out.world, msg, env, used).balances, env.coinbase);
  }

  /** However much is refunded, at least the intrinsic gas less its own refundable share is used. */
  lemma UsedAtLeast(intrinsic: nat, gross: nat, counter: nat, london: bool)
    requires intrinsic <= gross
    ensures var q := if london then REFUND_QUOTIENT_EIP3529 else REFUND_QUOTIENT;
      intrinsic - intrinsic / q <= gross - Refund(gross, counter, london) <= gross
  {
  }

  lemma MulLeLeft(a: nat, b: nat, n: nat)
    requires a <= b
    ensures a * n <= b * n
  {
  }

  class StateTransition {
    const gp: GasPool
    const state: StateDB
    const msg: Message
    const env: Env
    var gasRemaining: nat
    var initialGas: nat

    constructor (gp: GasPool, state: StateDB, msg: Message, env: Env)
      ensures this.gp == gp && this.state == state && this.msg == msg && this.env == env
      ensures gasRemaining == initialGas == 0
    {
      this.gp, this.state, this.msg, this.env := gp, state, msg, env;
      gasRemaining, initialGas := 0, 0;
    }

    ghost predicate Ready()
      reads this, gp, state
    {
      && Sane(msg, state.world) && Derived(msg, env)
      && gasRemaining == initialGas == 0 && gp.gas <= MAX_UINT64
    }

    method CheckAccount() returns (err: Option<Error>)
      requires msg.nonce <= MAX_UINT64 && Get(state.world.nonces, msg.from) <= MAX_UINT64
      ensures err.None? <==>
        Get(state.world.nonces, msg.from) == msg.nonce < MAX_UINT64 && msg.from !in state.world.code
      ensures Judged(AccountChecks(msg, state.world), err)
    {
      ghost var checks := AccountChecks(msg, state.world);
      var stNonce := Get(state.world.nonces, msg.from);
      if stNonce < msg.nonce {
        JudgedAt(checks, 0);
        return Some(NonceTooHigh);
      } else if stNonce > msg.nonce {
        JudgedAt(checks, 1);
        return Some(NonceTooLow);
      } else if (stNonce + 1) % (MAX_UINT64 + 1) < stNonce {
        JudgedAt(checks, 2);
        return Some(NonceMax);
      }
      if msg.from in state.world.code {
        JudgedAt(checks, 3);
        return Some(SenderNoEOA);
      }
      return None;
    }

    method CheckFees() returns (err: Option<Error>)
      ensures err.None? <==> env.rules.london ==>
        msg.gasTipCap <= msg.gasFeeCap < TWO_TO_THE_256 && env.baseFee <= msg.gasFeeCap
      ensures Judged(FeeChecks(msg, env), err)
    {
      ghost var checks := FeeChecks(msg, env);
      if env.rules.london {
        if msg.gasFeeCap >= TWO_TO_THE_256 {
          JudgedAt(checks, 0);
          return Some(FeeCapVeryHigh);
        }
        if msg.gasTipCap >= TWO_TO_THE_256 {
          JudgedAt(checks, 1);
          return Some(TipVeryHigh);
        }
        if msg.gasFeeCap < msg.gasTipCap {
          JudgedAt(checks, 2);
          return Some(TipAboveFeeCap);
        }
        if msg.gasFeeCap < env.baseFee {
          JudgedAt(checks, 3);
          return Some(FeeCapTooLow);
        }
      }
      return None;
    }

    method CheckBlobs() returns (err: Option<Error>)
      ensures err.None? <==> BlobsOk(msg, env)
      ensures Judged(BlobChecks(msg, env), err)
    {
      ghost var checks := BlobChecks(msg, env);
      if msg.blobHashes.Some? {
        if msg.to.None? {
          JudgedAt(checks, 0);
          return Some(BlobTxCreate);
        }
        var hashes := msg.blobHashes.value;
        if |hashes| == 0 {
          JudgedAt(checks, 1);
          return Some(MissingBlobHashes);
        }
        for i := 0 to |hashes|
          invariant forall k :: 0 <= k < i ==> ValidVersionedHash(hashes[k])
        {
          if !ValidVersionedHash(hashes[i]) {
            assert hashes[i] in hashes;
            JudgedAt(checks, 2);
            return Some(InvalidBlobHash);
          }
        }
      }
      if env.rules.cancun && BlobGas(msg) > 0 && msg.blobGasFeeCap < env.blobBaseFee {
        JudgedAt(checks, 3);
        return Some(BlobFeeCapTooLow);
      }
      return None;
    }

    /** Takes the gas out of the block's pool and its price from the sender. */
    method BuyGas() returns (err: Option<Error>)
      requires Ready() && BlobsOk(msg, env)
      modifies this, gp, state`world
      ensures err.None? <==>
        UpfrontCost(msg, env) <= Get(old(state.world).balances, msg.from) && msg.gasLimit <= old(gp.gas)
      ensures Judged(PurchaseChecks(msg, old(state.world), old(gp.gas), env), err)
      ensures err.Some? ==> state.world == old(state.world) && gp.gas == old(gp.gas)
      ensures err.None? ==>
        && Prepaid(msg, env) + msg.value <= Get(old(state.world).balances, msg.from)
        && state.world == Debited(old(state.world), msg.from, Prepaid(msg, env))
        && gp.gas == old(gp.gas) - msg.gasLimit && gasRemaining == initialGas == msg.gasLimit
    {
      hide TWO_TO_THE_256;
      ghost var checks := PurchaseChecks(msg, state.world, gp.gas, env);
      var mgval := msg.gasLimit * msg.gasPrice;
      var balanceCheck := msg.gasLimit * msg.gasFeeCap + msg.value;
      if env.rules.cancun {
        var blobGas := BlobGas(msg);
        if blobGas > 0 {
          balanceCheck := balanceCheck + blobGas * msg.blobGasFeeCap;
          mgval := mgval + blobGas * env.blobBaseFee;
        }
      }
      assert balanceCheck == UpfrontCost(msg, env) && mgval == Prepaid(msg, env);
      GetBounded(state.world.balances, msg.from);
      if balanceCheck >= TWO_TO_THE_256 {
        JudgedAt(checks, 0);
        return Some(InsufficientFunds);
      }
      if Get(state.world.balances, msg.from) < balanceCheck {
        JudgedAt(checks, 0);
        return Some(InsufficientFunds);
      }
      var ok := gp.SubGas(msg.gasLimit);
      if !ok {
        JudgedAt(checks, 1);
        return Some(GasLimitReached);
      }
      PrepaidCovered(msg, env);
      NoWrap(TWO_TO_THE_256, Get(state.world.balances, msg.from), mgval);
      gasRemaining := gasRemaining + msg.gasLimit;
      initialGas := msg.gasLimit;
      state.SubBalance(msg.from, mgval % TWO_TO_THE_256);
      return None;
    }

    /** All checks before the purchase, then the purchase itself. */
    method PreCheck() returns (err: Option<Error>)
      requires Ready()
      modifies this, gp, state`world
      ensures err.None? ==> Purchased(old(state.world), old(gp.gas)) && gasRemaining == msg.gasLimit
      ensures err.Some? ==> state.world == old(state.world) && gp.gas == old(gp.gas)
      ensures Judged(EarlyChecks(msg, old(state.world), old(gp.gas), env), err)
      ensures err.None? <==>
        && Get(old(state.world).nonces, msg.from) == msg.nonce < MAX_UINT64 && msg.from !in old(state.world).code
        && (env.rules.london ==> msg.gasTipCap <= msg.gasFeeCap < TWO_TO_THE_256 && env.baseFee <= msg.gasFeeCap)
        && BlobsOk(msg, env)
        && UpfrontCost(msg, env) <= Get(old(state.world).balances, msg.from) && msg.gasLimit <= old(gp.gas)
    {
      ghost var w, pool := state.world, gp.gas;
      ghost var account, fees, blobs := AccountChecks(msg, w), FeeChecks(msg, env), BlobChecks(msg, env);
      err := CheckAccount();
      if err.None? {
        err := CheckFees();
      }
      JudgedInTurn(account, fees, err);
      if err.None? {
        err := CheckBlobs();
      }
      JudgedInTurn(account + fees, blobs, err);
      if err.None? {
        err := BuyGas();
      }
      JudgedInTurn(account + fees + blobs, PurchaseChecks(msg, w, pool, env), err);
    }

    /** The gas is bought: the pool and the sender have been charged. */
    ghost predicate Purchased(before: World, pool: nat)
      reads this, gp, state
    {
      && Prepaid(msg, env) + msg.value <= Get(before.balances, msg.from)
      && state.world == Debited(before, msg.from, Prepaid(msg, env))
      && msg.gasLimit <= pool && gp.gas == pool - msg.gasLimit && initialGas == msg.gasLimit
    }

    /** A fee cap of 2^256 or more is never affordable, as some gas has to be bought. */
    lemma HugeCapUnaffordable(w: World)
      requires Sane(msg, w) && msg.gasFeeCap >= TWO_TO_THE_256 && msg.gasLimit > 0
      ensures UpfrontCost(msg, env) > Get(w.balances, msg.from)
    {
      GetBounded(w.balances, msg.from);
      MulLe(msg.gasFeeCap, 1, msg.gasLimit);
    }

    /** The checks after the purchase, with the intrinsic gas taken off. The check that the sender can
        transfer the value never fails. */
    method ChargeIntrinsic() returns (err: Option<Error>)
      requires |msg.data| <= MAX_UINT64 && gasRemaining == msg.gasLimit
      requires msg.value <= Get(state.world.balances, msg.from) < TWO_TO_THE_256
      modifies this`gasRemaining
      ensures Judged(RunChecks(msg, env), err)
      ensures err.None? <==>
        && IntrinsicOf(msg, env.rules).Some? && IntrinsicOf(msg, env.rules).value <= msg.gasLimit
        && (env.rules.shanghai && msg.to.None? ==> |msg.data| <= MAX_INIT_CODE_SIZE)
      ensures err.None? ==> gasRemaining == msg.gasLimit - IntrinsicOf(msg, env.rules).value
    {
      hide TWO_TO_THE_256;
      ghost var checks := RunChecks(msg, env);
      var gas := IntrinsicGas(msg.data, msg.accessList, msg.to.None?, env.rules.homestead, env.rules.istanbul,
                              env.rules.shanghai);
      if gas.None? {
        JudgedAt(checks, 0);
        return Some(GasUintOverflow);
      }
      if gasRemaining < gas.value {
        JudgedAt(checks, 1);
        return Some(IntrinsicGasTooLow);
      }
      gasRemaining := gasRemaining - gas.value;
      if msg.value >= TWO_TO_THE_256 {
        return Some(InsufficientFundsForTransfer);
      }
      if msg.value != 0 && Get(state.world.balances, msg.from) < msg.value {
        return Some(InsufficientFundsForTransfer);
      }
      if env.rules.shanghai && msg.to.None? && |msg.data| > MAX_INIT_CODE_SIZE {
        JudgedAt(checks, 2);
        return Some(MaxInitCodeSizeExceeded);
      }
      return None;
    }

    /** Decides whether the message is acceptable, and charges for it if so. */
    method Admit() returns (err: Option<Error>)
      requires Ready()
      modifies this, gp, state`world
      ensures err.None? <==> Acceptable(msg, old(state.world), old(gp.gas), env)
      ensures Judged(EarlyChecks(msg, old(state.world), old(gp.gas), env) + RunChecks(msg, env), err)
      ensures if Judged(EarlyChecks(msg, old(state.world), old(gp.gas), env), None)
              then Purchased(old(state.world), old(gp.gas))
              else state.world == old(state.world) && gp.gas == old(gp.gas)
      ensures err.None? ==>
        Purchased(old(state.world), old(gp.gas)) && gasRemaining == msg.gasLimit - IntrinsicOf(msg, env.rules).value
    {
      hide EarlyChecks, RunChecks, BlobsOk, UpfrontCost, Prepaid, Derived, NoncesFit, IntrinsicOf;
      ghost var before := state.world;
      ghost var early, late := EarlyChecks(msg, before, gp.gas, env), RunChecks(msg, env);
      err := PreCheck();
      if err.None? {
        GetBounded(before.balances, msg.from);
        err := ChargeIntrinsic();
      }
      JudgedInTurn(early, late, err);
    }

    /** Pays the sender back for the gas left, refund included, and returns that gas to the pool. */
    method RefundGas() returns (refund: nat)
      requires gasRemaining <= initialGas == msg.gasLimit && gp.gas + initialGas <= MAX_UINT64
      requires Get(state.world.balances, msg.from) + initialGas * msg.gasPrice < TWO_TO_THE_256
      modifies this`gasRemaining, gp, state`world
      ensures refund == Refund(initialGas - old(gasRemaining), state.refund, env.rules.london)
      ensures gasRemaining == old(gasRemaining) + refund <= initialGas
      ensures state.world == Credited(old(state.world), msg.from, gasRemaining * msg.gasPrice)
      ensures gp.gas == old(gp.gas) + gasRemaining
    {
      hide TWO_TO_THE_256;
      refund := RefundFor(initialGas - gasRemaining);
      gasRemaining := gasRemaining + refund;
      var remaining := gasRemaining * msg.gasPrice;
      MulLeLeft(gasRemaining, initialGas, msg.gasPrice);
      ModSmall(TWO_TO_THE_256, remaining);
      state.AddBalance(msg.from, remaining % TWO_TO_THE_256);
      var panicked := gp.AddGas(gasRemaining);
      assert !panicked;
    }

    method RefundFor(used: nat) returns (refund: nat)
      ensures refund == Refund(used, state.refund, env.rules.london) <= used
    {
      refund := used / if env.rules.london then REFUND_QUOTIENT_EIP3529 else REFUND_QUOTIENT;
      if refund > state.refund {
        refund := state.refund;
      }
    }

    /** Runs an admitted message in the EVM; the nonce of a caller is bumped first. */
    method Execute(evm: (World, nat) -> EvmResult, ghost before: World, ghost pool: nat) returns (out: EvmResult)
      requires Purchased(before, pool) && Sane(msg, before)
      requires WellBehaved(evm, msg.from, msg.to.None?, msg.value)
      requires Get(before.nonces, msg.from) < MAX_UINT64 && msg.from !in before.code
      modifies this`gasRemaining, state
      ensures out == evm(Called(Debited(before, msg.from, Prepaid(msg, env)), msg), old(gasRemaining))
      ensures out.gasLeft <= old(gasRemaining) && gasRemaining == out.gasLeft
      ensures state.world == out.world && state.refund == out.refund && state.destructed == out.destructed
      ensures Total(before.balances) < TWO_TO_THE_256
      ensures Total(out.world.balances) + out.destroyed + Prepaid(msg, env) == Total(before.balances)
      ensures Get(out.world.nonces, msg.from) == Get(before.nonces, msg.from) + 1
      ensures NoncesFit(out.world) && msg.from !in out.destructed
    {
      DebitedTotal(before, msg.from, Prepaid(msg, env));
      BoughtExecutable(msg, before, state.world);
      ghost var called := Called(state.world, msg);
      out := evm(Called(state.world, msg), gasRemaining);
      assert Behaves(called, gasRemaining, out, msg.from, msg.to.None?);
      state.world, state.refund, state.destructed := out.world, out.refund, out.destructed;
      gasRemaining := out.gasLeft;
    }

    /** Pays the effective tip for the gas used to the block's producer. */
    method PayTip()
      requires gasRemaining <= initialGas && (env.rules.london ==> env.baseFee <= msg.gasFeeCap)
      requires Get(state.world.balances, env.coinbase)
        + (initialGas - gasRemaining) * EffectiveTip(msg, env) < TWO_TO_THE_256
      modifies state`world
      ensures state.world
        == Credited(old(state.world), env.coinbase, (initialGas - gasRemaining) * EffectiveTip(msg, env))
    {
      hide TWO_TO_THE_256, EffectiveTip, Credited;
      var fee := (initialGas - gasRemaining) * EffectiveTip(msg, env);
      ModSmall(TWO_TO_THE_256, fee);
      state.AddBalance(env.coinbase, fee % TWO_TO_THE_256);
    }

    /** Settles the fees of an executed message: pays back, refunds, tips. */
    method Settle(out: EvmResult, ghost before: World, ghost called: World, ghost pool: nat)
      returns (result: ExecutionResult)
      requires Total(before.balances) < TWO_TO_THE_256 && Derived(msg, env) && pool <= MAX_UINT64
      requires env.rules.london ==> env.baseFee <= msg.gasFeeCap
      requires Prepaid(msg, env) <= Get(before.balances, msg.from)
      requires called.balances == Debited(before, msg.from, Prepaid(msg, env)).balances
      requires Total(out.world.balances) + out.destroyed == Total(called.balances)
      requires state.world == out.world && state.refund == out.refund
      requires gasRemaining == out.gasLeft <= initialGas == msg.gasLimit <= pool && gp.gas == pool - msg.gasLimit
      modifies this`gasRemaining, gp, state`world
      ensures result.refundedGas == Refund(msg.gasLimit - out.gasLeft, out.refund, env.rules.london)
      ensures result.usedGas == msg.gasLimit - out.gasLeft - result.refundedGas && result.failed == out.failed
      ensures state.world == Settled(out.world, msg, env, result.usedGas)
      ensures gp.gas == pool - result.usedGas
    {
      hide TWO_TO_THE_256, Prepaid, Burnt, EffectiveTip, Derived, Debited;
      ghost var used := msg.gasLimit - out.gasLeft - Refund(msg.gasLimit - out.gasLeft, out.refund, env.rules.london);
      PaybackInRange(before, called, out, msg, env, TWO_TO_THE_256);
      TipInRange(before, called, out, msg, env, used, TWO_TO_THE_256);
      var gasRefund := RefundGas();
      PayTip();
      result := ExecutionResult(initialGas - gasRemaining, gasRefund, out.failed);
    }

    /** Runs an admitted message and settles its fees. */
    method Perform(evm: (World, nat) -> EvmResult, ghost before: World, ghost pool: nat)
      returns (result: ExecutionResult, out: EvmResult)
      requires Purchased(before, pool) && pool <= MAX_UINT64
      requires Sane(msg, before) && Derived(msg, env) && WellBehaved(evm, msg.from, msg.to.None?, msg.value)
      requires Get(before.nonces, msg.from) < MAX_UINT64 && msg.from !in before.code
      requires env.rules.london ==> env.baseFee <= msg.gasFeeCap
      requires IntrinsicOf(msg, env.rules).Some? && IntrinsicOf(msg, env.rules).value <= msg.gasLimit
      requires gasRemaining == msg.gasLimit - IntrinsicOf(msg, env.rules).value
      modifies this`gasRemaining, gp, state
      ensures Ran(msg, env, before, evm, out, result.usedGas) && Reported(msg, env, out, result)
      ensures state.world == Settled(out.world, msg, env, result.usedGas) && state.destructed == out.destructed
      ensures gp.gas == pool - result.usedGas
      ensures Total(out.world.balances) + out.destroyed + Prepaid(msg, env) == Total(before.balances)
      ensures Get(out.world.nonces, msg.from) == Get(before.nonces, msg.from) + 1
      ensures Total(state.world.balances) + Burnt(result.usedGas, msg, env) + out.destroyed == Total(before.balances)
      ensures NoncesFit(out.world) && msg.from !in out.destructed
    {
      hide TWO_TO_THE_256, Prepaid, Burnt, EffectiveTip, Derived, IntrinsicOf, Refund, Settled, WellBehaved, NoncesFit,
        Sane;
      ghost var called, given := Called(state.world, msg), gasRemaining;
      DebitedTotal(before, msg.from, Prepaid(msg, env));
      out := Execute(evm, before, pool);
      UsedAtLeast(msg.gasLimit - given, msg.gasLimit - out.gasLeft, out.refund, env.rules.london);
      result := Settle(out, before, called, pool);
      EtherConserved(before, called, out, msg, env, result.usedGas);
    }

    /** Applies the message. It is refused exactly if it is not acceptable; otherwise the world, the
        pool and the result are as follows, and ether is conserved. */
    method TransitionDb(evm: (World, nat) -> EvmResult)
      returns (result: ExecutionResult, err: Option<Error>, ghost out: EvmResult)
      requires Ready() && WellBehaved(evm, msg.from, msg.to.None?, msg.value)
      modifies this, gp, state
      ensures err.None? <==> Acceptable(msg, old(state.world), old(gp.gas), env)
      // a refusal names the first check that fails; one that comes after the purchase has charged the sender
      // and the pool
      ensures Judged(EarlyChecks(msg, old(state.world), old(gp.gas), env) + RunChecks(msg, env), err)
      ensures err.Some? && !Judged(EarlyChecks(msg, old(state.world), old(gp.gas), env), None) ==>
        state.world == old(state.world) && gp.gas == old(gp.gas)
      ensures err.Some? && Judged(EarlyChecks(msg, old(state.world), old(gp.gas), env), None) ==>
        && gp.gas == old(gp.gas) - msg.gasLimit && Prepaid(msg, env) <= Get(old(state.world).balances, msg.from)
        && state.world == Debited(old(state.world), msg.from, Prepaid(msg, env))
      ensures err.None? ==>
        && Ran(msg, env, old(state.world), evm, out, result.usedGas) && Reported(msg, env, out, result)
        && state.world == Settled(out.world, msg, env, result.usedGas) && state.destructed == out.destructed
      // the message runs in a world in which the sender has paid for all gas and the blobs, and a caller's
      // nonce is bumped
      ensures err.None? ==>
        var blobFee :=
          if env.rules.cancun && msg.blobHashes.Some? then |msg.blobHashes.value| * 131072 * env.blobBaseFee else 0;
        var w := old(state.world);
        && msg.gasLimit * msg.gasPrice + blobFee + msg.value <= Get(w.balances, msg.from)
        && out == evm(World(w.balances[msg.from := Get(w.balances, msg.from) - msg.gasLimit * msg.gasPrice - blobFee],
                            if msg.to.Some? then w.nonces[msg.from := msg.nonce + 1] else w.nonces, w.code),
                      msg.gasLimit - IntrinsicOf(msg, env.rules).value)
      // the refund is the largest that neither the counter nor the quotient forbids
      ensures err.None? ==>
        var gross, q := msg.gasLimit - out.gasLeft, if env.rules.london then 5 else 2;
        && result.usedGas == gross - result.refundedGas && result.failed == out.failed
        && result.refundedGas <= out.refund && result.refundedGas * q <= gross
        && (result.refundedGas == out.refund || (result.refundedGas + 1) * q > gross)
      // unused gas is paid back at the gas price, and the producer gets what the price exceeds the base fee by
      ensures err.None? ==>
        && state.world.nonces == out.world.nonces && state.world.code == out.world.code
        && forall a :: Get(state.world.balances, a) ==
             Get(out.world.balances, a)
             + (if a == msg.from then (msg.gasLimit - result.usedGas) * msg.gasPrice else 0)
             + (if a == env.coinbase
                then result.usedGas * (msg.gasPrice - if env.rules.london then env.baseFee else 0) else 0)
      ensures err.None? ==> gp.gas == old(gp.gas) - result.usedGas
      // the supply falls by the base fees, the blob fees and what the EVM destroyed
      ensures err.None? ==>
        Total(state.world.balances) + (if env.rules.london then result.usedGas * env.baseFee else 0)
        + (if env.rules.cancun && msg.blobHashes.Some? then |msg.blobHashes.value| * 131072 * env.blobBaseFee else 0)
        + out.destroyed == Total(old(state.world).balances)
      ensures err.None? ==>
        Total(state.world.balances) + Burnt(result.usedGas, msg, env) + out.destroyed
          == Total(old(state.world).balances)
      // an applied message is not acceptable a second time, even once its flagged accounts are deleted
      ensures err.None? ==>
        Get(state.world.nonces, msg.from) == msg.nonce + 1 && msg.from !in state.destructed && SaneWorld(state.world)
    {
      hide TWO_TO_THE_256, Prepaid, EffectiveTip, IntrinsicOf, Refund, Settled, WellBehaved, BlobsOk,
        UpfrontCost, Called, Debited, Judged, EarlyChecks, RunChecks, Acceptable, Derived, Burnt;
      ghost var before := state.world;
      err := Admit();
      if err.Some? {
        result, out := ExecutionResult(0, 0, false), EvmResult(state.world, 0, 0, 0, false, {});
        return;
      }
      ChargedExactly(msg, env, before, old(gp.gas));
      var returned;
      result, returned := Perform(evm, before, old(gp.gas));
      out := returned;
      RefundedExactly(msg.gasLimit - out.gasLeft, out.refund, env.rules.london);
      SettledExactly(out.world, msg, env, result.usedGas);
    }
  }

  /** What an acceptable message is charged, spelled out. */
  lemma ChargedExactly(msg: Message, env: Env, before: World, pool: nat)
    requires Derived(msg, env) && Acceptable(msg, before, pool, env)
    ensures Get(before.nonces, msg.from) == msg.nonce < MAX_UINT64 && msg.from !in before.code
    ensures env.rules.london ==> env.baseFee <= msg.gasFeeCap
    ensures IntrinsicOf(msg, env.rules).Some? && IntrinsicOf(msg, env.rules).value <= msg.gasLimit
    ensures var blobFee :=
        if env.rules.cancun && msg.blobHashes.Some? then |msg.blobHashes.value| * 131072 * env.blobBaseFee else 0;
      && Prepaid(msg, env) == msg.gasLimit * msg.gasPrice + blobFee
      && msg.gasLimit * msg.gasPrice + blobFee + msg.value <= Get(before.balances, msg.from)
      && Called(Debited(before, msg.from, Prepaid(msg, env)), msg) ==
           World(before.balances[msg.from := Get(before.balances, msg.from) - msg.gasLimit * msg.gasPrice - blobFee],
                 if msg.to.Some? then before.nonces[msg.from := msg.nonce + 1] else before.nonces, before.code)
  {
    PrepaidCovered(msg, env);
  }

  /** The refund is the largest that neither the counter nor the quotient forbids. */
  lemma RefundedExactly(gross: nat, counter: nat, london: bool)
    ensures var r, q := Refund(gross, counter, london), if london then 5 else 2;
      r <= counter && r * q <= gross && (r == counter || (r + 1) * q > gross)
  {
  }

  /** What settling does to every account, spelled out. */
  lemma SettledExactly(out: World, msg: Message, env: Env, used: nat)
    requires Derived(msg, env) && used <= msg.gasLimit && (env.rules.london ==> env.baseFee <= msg.gasFeeCap)
    ensures var after := Settled(out, msg, env, used);
      && after.nonces == out.nonces && after.code == out.code
      && forall a :: Get(after.balances, a) ==
           Get(out.balances, a) + (if a == msg.from then (msg.gasLimit - used) * msg.gasPrice else 0)
           + (if a == env.coinbase then used * (msg.gasPrice - if env.rules.london then env.baseFee else 0) else 0)
    ensures Burnt(used, msg, env) == (if env.rules.london then used * env.baseFee else 0)
      + (if env.rules.cancun && msg.blobHashes.Some? then |msg.blobHashes.value| * 131072 * env.blobBaseFee else 0)
  {
    EffectivePrice(msg, env);
    var tip := used * EffectiveTip(msg, env);
    assert tip == used * (msg.gasPrice - if env.rules.london then env.baseFee else 0);
    hide EffectiveTip;
  }

  /** Buying gas leaves a world in which an acceptable message can be executed. */
  lemma BoughtExecutable(msg: Message, before: World, bought: World)
    requires Sane(msg, before) && Get(before.nonces, msg.from) < MAX_UINT64 && msg.from !in before.code
    requires bought.nonces == before.nonces && bought.code == before.code
    requires Total(bought.balances) <= Total(before.balances) && msg.value <= Get(bought.balances, msg.from)
    ensures Executable(Called(bought, msg), msg.from, msg.to.None?, msg.value)
    ensures Total(before.balances) < TWO_TO_THE_256
  {
  }

  /** How an acceptable message ran: in the EVM with the purchased gas less the intrinsic gas, and with
      the refund taken off what it used. */
  ghost predicate Ran(msg: Message, env: Env, before: World, evm: (World, nat) -> EvmResult, out: EvmResult,
                      used: nat) {
    var intrinsic := IntrinsicOf(msg, env.rules);
    var q := if env.rules.london then REFUND_QUOTIENT_EIP3529 else REFUND_QUOTIENT;
    && intrinsic.Some? && intrinsic.value <= msg.gasLimit
    && Prepaid(msg, env) <= Get(before.balances, msg.from)
    && out == evm(Called(Debited(before, msg.from, Prepaid(msg, env)), msg), msg.gasLimit - intrinsic.value)
    && out.gasLeft <= msg.gasLimit - intrinsic.value
    && used == msg.gasLimit - out.gasLeft - Refund(msg.gasLimit - out.gasLeft, out.refund, env.rules.london)
    && intrinsic.value - intrinsic.value / q <= used <= msg.gasLimit
    && (env.rules.london ==> env.baseFee <= msg.gasFeeCap)
  }

  ghost predicate Reported(msg: Message, env: Env, out: EvmResult, result: ExecutionResult)
    requires out.gasLeft <= msg.gasLimit
  {
    && result.refundedGas == Refund(msg.gasLimit - out.gasLeft, out.refund, env.rules.london)
    && result.failed == out.failed
  }

  /** The world a message is executed in: the nonce of a caller is bumped before, that of a creator by
      the EVM. */
  function Called(w: World, msg: Message): World {
    if msg.to.None? then w else w.(nonces := w.nonces[msg.from := Get(w.nonces, msg.from) + 1])
  }
}
