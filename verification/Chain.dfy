/** The block tree every chain component works on.

    A header commits to its parent by hash. Hashes are taken to be collision free and every stored
    header to have been verified against its parent (number = parent number + 1), so a hash is
    represented by the block it is the hash of: two blocks are equal exactly when their hashes are.
    Whether a block is *stored* is a separate matter, kept by the databases of the other modules. */
module Chain {
  type TxHash = nat
  type Log = nat
  type Root = nat

  /** What a header commits to besides its parent. `logs` is what executing the block emits. */
  datatype Info = Info(difficulty: nat, time: nat, root: Root, txs: seq<TxHash>, logs: seq<Log>, extra: nat)

  datatype Block = Genesis(info: Info) | Child(parent: Block, info: Info)

  type Hash = Block

  /** A genesis block to build examples on. */
  const FIRST: Block := Genesis(Info(1, 0, 0, [], [], 0))

  datatype Option<+T> = None | Some(value: T)

  function Number(b: Block): nat {
    match b
    case Genesis(_) => 0
    case Child(p, _) => Number(p) + 1
  }

  /** The parent hash of a header; the genesis header carries the zero hash. */
  function ParentHash(b: Block): Option<Hash> {
    match b
    case Genesis(_) => None
    case Child(p, _) => Some(p)
  }

  /** The ancestor of `b` at height `n`: the plain parent walk. */
  function At(b: Block, n: nat): (a: Block)
    requires n <= Number(b)
    ensures Number(a) == n
  {
    if n == Number(b) then b else At(b.parent, n)
  }

  /** The ancestors of `b` above height `n`, highest first. */
  function Above(b: Block, n: nat): (s: seq<Block>)
    requires n <= Number(b)
    ensures |s| == Number(b) - n
  {
    if n == Number(b) then [] else [b] + Above(b.parent, n)
  }

  predicate IsAncestor(a: Block, b: Block) {
    Number(a) <= Number(b) && At(b, Number(a)) == a
  }

  lemma {:induction false} AtAt(b: Block, m: nat, n: nat)
    requires n <= m <= Number(b)
    ensures At(At(b, m), n) == At(b, n)
  {
    if m < Number(b) {
      AtAt(b.parent, m, n);
    }
  }

  lemma {:induction false} AboveIndex(b: Block, n: nat, i: nat)
    requires n <= Number(b) && i < Number(b) - n
    ensures Above(b, n)[i] == At(b, Number(b) - i)
  {
    if i > 0 {
      AboveIndex(b.parent, n, i - 1);
    }
  }

  /** Walking one block further back appends that block. */
  lemma {:induction false} AboveStep(b: Block, n: nat)
    requires 0 < n <= Number(b)
    ensures Above(b, n - 1) == Above(b, n) + [At(b, n)]
    ensures At(b, n).Child? && At(b, n).parent == At(b, n - 1)
  {
    if n < Number(b) {
      AboveStep(b.parent, n);
    }
  }

  lemma ParentIsAncestor(b: Block)
    requires b.Child?
    ensures IsAncestor(b.parent, b) && IsAncestor(b, b)
  {
  }

  lemma AncestorTransitive(a: Block, b: Block, c: Block)
    requires IsAncestor(a, b) && IsAncestor(b, c)
    ensures IsAncestor(a, c)
  {
    AtAt(c, Number(b), Number(a));
  }

  /** The canonical index of the chain ending in `b`: height to hash. */
  function CanonOf(b: Block): map<nat, Hash> {
    map n: nat | n <= Number(b) :: At(b, n)
  }

  /** Ancestry is exactly inclusion of canonical indexes. */
  lemma AncestorIffIndexIncluded(a: Block, b: Block)
    ensures IsAncestor(a, b) <==> (forall n :: n in CanonOf(a) ==> n in CanonOf(b) && CanonOf(b)[n] == CanonOf(a)[n])
  {
    if IsAncestor(a, b) {
      forall n | n in CanonOf(a)
        ensures n in CanonOf(b) && CanonOf(b)[n] == CanonOf(a)[n]
      {
        AtAt(b, Number(a), n);
      }
    }
    if forall n :: n in CanonOf(a) ==> n in CanonOf(b) && CanonOf(b)[n] == CanonOf(a)[n] {
      assert CanonOf(a)[Number(a)] == a;
    }
  }

  /** Sum of the difficulties from the genesis block along the parent links. */
  function TotalDifficulty(b: Block): nat {
    match b
    case Genesis(info) => info.difficulty
    case Child(p, info) => TotalDifficulty(p) + info.difficulty
  }

  /** The logs of all blocks of the chain ending in `b`. */
  function LogsOf(b: Block): multiset<Log> {
    match b
    case Genesis(info) => multiset(info.logs)
    case Child(p, info) => LogsOf(p) + multiset(info.logs)
  }

  function LogsIn(s: seq<Block>): multiset<Log> {
    if s == [] then multiset{} else LogsIn(s[..|s| - 1]) + multiset(s[|s| - 1].info.logs)
  }

  lemma NoLogs()
    ensures LogsIn([]) == multiset{}
  {
  }

  lemma Shift<T>(a: multiset<T>, b: multiset<T>, c: multiset<T>)
    ensures a + b + c == a + (c + b)
  {
  }

  lemma LogsInStep(s: seq<Block>, b: Block)
    ensures LogsIn(s + [b]) == LogsIn(s) + multiset(b.info.logs)
  {
    assert (s + [b])[..|s + [b]| - 1] == s;
  }

  lemma {:induction false} LogsSplit(b: Block, n: nat)
    requires n <= Number(b)
    ensures LogsOf(b) == LogsOf(At(b, n)) + LogsIn(Above(b, n))
    decreases Number(b) - n
  {
    hide LogsIn;
    if n < Number(b) {
      LogsSplit(b, n + 1);
      AboveStep(b, n + 1);
      LogsInStep(Above(b, n + 1), At(b, n + 1));
      Shift(LogsOf(At(b, n)), multiset(At(b, n + 1).info.logs), LogsIn(Above(b, n + 1)));
    } else {
      NoLogs();
    }
  }

  /** No transaction occurs in two blocks of the chain ending in `b`. */
  ghost predicate TxsUnique(b: Block) {
    forall m: nat, n: nat, t :: m <= Number(b) && n <= Number(b) && t in At(b, m).info.txs && t in At(b, n).info.txs ==>
      m == n
  }

  /** The lookup maps exactly the transactions of the chain ending in `b`, each to the height of its block. */
  ghost predicate LookupExact(lookup: map<TxHash, nat>, b: Block) {
    && (forall t :: t in lookup ==> lookup[t] <= Number(b) && t in At(b, lookup[t]).info.txs)
    && (forall n: nat, t :: n <= Number(b) && t in At(b, n).info.txs ==> t in lookup && lookup[t] == n)
  }

  /** A fork point of two chains: both agree up to `c` and nowhere above. */
  ghost predicate ForkPoint(c: Block, a: Block, b: Block) {
    && IsAncestor(c, a) && IsAncestor(c, b)
    && (Number(c) < Number(a) && Number(c) < Number(b) ==> At(a, Number(c) + 1) != At(b, Number(c) + 1))
  }

  /** Chains that differ at some height differ everywhere above it, so the fork point is unique. */
  lemma {:induction false} ForkPointUnique(c: Block, d: Block, a: Block, b: Block)
    requires ForkPoint(c, a, b) && ForkPoint(d, a, b)
    ensures c == d
  {
    if Number(c) < Number(d) {
      AtAt(a, Number(d), Number(c) + 1);
      AtAt(b, Number(d), Number(c) + 1);
    } else if Number(d) < Number(c) {
      AtAt(a, Number(c), Number(d) + 1);
      AtAt(b, Number(c), Number(d) + 1);
    }
  }

  /** Two chains with the same genesis block have a fork point. */
  lemma {:induction false} FindForkPoint(a: Block, b: Block, k: nat) returns (c: Block)
    requires k <= Number(a) && k <= Number(b) && At(a, 0) == At(b, 0)
    requires k == Number(a) || k == Number(b) || At(a, k + 1) != At(b, k + 1)
    ensures ForkPoint(c, a, b) && Number(c) <= k
  {
    if At(a, k) == At(b, k) {
      c := At(a, k);
    } else {
      c := FindForkPoint(a, b, k - 1);
    }
  }

  ghost predicate ParentClosed(blocks: set<Block>) {
    forall b {:trigger b.parent} :: b in blocks && b.Child? ==> b.parent in blocks
  }

  /** A set of blocks closed under parents contains every ancestor of its members. */
  lemma {:induction false} AncestorsIn(blocks: set<Block>, b: Block, n: nat)
    requires ParentClosed(blocks)
    requires b in blocks && n <= Number(b)
    ensures At(b, n) in blocks
  {
    if n < Number(b) {
      AncestorsIn(blocks, b.parent, n);
    }
  }

  /** The index after writing the ancestors of `b` above height `k`, highest first. */
  function CanonDown(m: map<nat, Hash>, b: Block, k: nat): map<nat, Hash>
    requires k <= Number(b)
    decreases Number(b) - k
  {
    if k == Number(b) then m else CanonDown(m, b, k + 1)[k + 1 := At(b, k + 1)]
  }

  lemma {:induction false} CanonDownAt(m: map<nat, Hash>, b: Block, k: nat, n: nat)
    requires k <= Number(b)
    ensures k < n <= Number(b) ==> n in CanonDown(m, b, k) && CanonDown(m, b, k)[n] == At(b, n)
    ensures !(k < n <= Number(b)) ==> (n in CanonDown(m, b, k) <==> n in m)
    ensures !(k < n <= Number(b)) && n in m ==> CanonDown(m, b, k)[n] == m[n]
    decreases Number(b) - k
  {
    if k < Number(b) {
      CanonDownAt(m, b, k + 1, n);
    }
  }
}
