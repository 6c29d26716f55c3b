/** Canonical chain maintenance of a full-sync node (core/blockchain.go). */
module BlockChains {
  import opened Chain
  import opened LogStream
  import ForkChoice

  datatype Error =
    | CurrentHeadMissing | InvalidOldChain | InvalidNewChain | UnknownAncestor | MissingTd
    | StateCommitFailed | StateMissing

  datatype WriteStatus = NonStat | CanonStat | SideStat

  /** Head changes. `committed` tells whether the state of a new block could be committed, `recovered`
      whether the state of a head was there or could be recovered. */
  datatype Op =
    | WriteAndSetHead(block: Block, hints: ForkChoice.Hints, committed: bool)
    | SetCanonical(block: Block, recovered: bool)
    | WriteKnown(block: Block)

  /** What a run of head changes comes to: the stored blocks, the head (which determines both
      indexes), the logs that were announced although a listener had them already, and those of new heads
      that were not announced. */
  datatype Summary = Summary(blocks: set<Block>, head: Block, again: multiset<Log>, missed: multiset<Log>)

  function TdOf(blocks: set<Block>): map<Hash, nat> {
    map b | b in blocks :: TotalDifficulty(b)
  }

  /** The logs announced a second time when `head` is installed although it is canonical already. */
  function Reannounced(oldHead: Block, head: Block): multiset<Log> {
    if IsAncestor(head, oldHead) then multiset(head.info.logs) else multiset{}
  }

  /** The logs that are not announced when `head` is made the head by `writeKnownBlock`. */
  function Unannounced(oldHead: Block, head: Block): multiset<Log> {
    if IsAncestor(head, oldHead) then multiset{} else multiset(head.info.logs)
  }

  function Step(s: Summary, ttd: Option<nat>, op: Op): Summary {
    match op
    case WriteAndSetHead(block, hints, committed) =>
      if block.Genesis? || block.parent !in s.blocks then s
      else
        var blocks := s.blocks + {block};
        if committed && ForkChoice.ReorgNeeded(TdOf(blocks), ttd, s.head, block, hints).Switch?
        then Summary(blocks, block, s.again + Reannounced(s.head, block), s.missed)
        else Summary(blocks, s.head, s.again, s.missed)
    case SetCanonical(head, recovered) =>
      if head in s.blocks && recovered then s.(head := head, again := s.again + Reannounced(s.head, head)) else s
    case WriteKnown(block) =>
      if block in s.blocks then s.(head := block, missed := s.missed + Unannounced(s.head, block)) else s
  }

  function Summarize(s: Summary, ttd: Option<nat>, ops: seq<Op>): Summary {
    if ops == [] then s else Step(Summarize(s, ttd, ops[..|ops| - 1]), ttd, ops[|ops| - 1])
  }

  lemma SummarizeStep(s: Summary, ttd: Option<nat>, ops: seq<Op>, i: nat)
    requires i < |ops|
    ensures Summarize(s, ttd, ops[..i + 1]) == Step(Summarize(s, ttd, ops[..i]), ttd, ops[i])
  {
    assert ops[..i + 1][..i] == ops[..i];
  }

  /** The step announces logs a listener has already: it makes a block the head that is canonical and
      has logs, other than by `writeKnownBlock`. */
  predicate AnnouncesAgain(s: Summary, ttd: Option<nat>, op: Op) {
    && IsAncestor(op.block, s.head) && op.block.info.logs != []
    && match op
       case WriteAndSetHead(block, hints, committed) =>
         committed && block.Child? && block.parent in s.blocks
         && ForkChoice.ReorgNeeded(TdOf(s.blocks + {block}), ttd, s.head, block, hints).Switch?
       case SetCanonical(head, recovered) => recovered && head in s.blocks
       case WriteKnown(_) => false
  }

  /** The step leaves a listener without logs of the new head: `writeKnownBlock` makes a stored block the
      head that is not canonical yet and has logs. */
  predicate MissesLogs(s: Summary, op: Op) {
    op.WriteKnown? && op.block in s.blocks && !IsAncestor(op.block, s.head) && op.block.info.logs != []
  }

  predicate MissesAt(s: Summary, ttd: Option<nat>, ops: seq<Op>, i: nat)
    requires i < |ops|
  {
    MissesLogs(Summarize(s, ttd, ops[..i]), ops[i])
  }

  lemma StepMisses(s: Summary, ttd: Option<nat>, op: Op)
    ensures s.missed <= Step(s, ttd, op).missed
    ensures Step(s, ttd, op).missed == s.missed <==> !MissesLogs(s, op)
  {
    var logs := op.block.info.logs;
    if logs != [] {
      assert logs[0] in multiset(logs);
      assert (s.missed + multiset(logs))[logs[0]] > s.missed[logs[0]];
    }
  }

  lemma StepAgain(s: Summary, ttd: Option<nat>, op: Op)
    ensures s.again <= Step(s, ttd, op).again
    ensures Step(s, ttd, op).again == s.again <==> !AnnouncesAgain(s, ttd, op)
  {
    var logs := op.block.info.logs;
    if logs != [] {
      assert logs[0] in multiset(logs);
      assert (s.again + multiset(logs))[logs[0]] > s.again[logs[0]];
    }
  }

  /** The operation at position `i` of a run announces logs again. */
  predicate AgainAt(s: Summary, ttd: Option<nat>, ops: seq<Op>, i: nat)
    requires i < |ops|
  {
    AnnouncesAgain(Summarize(s, ttd, ops[..i]), ttd, ops[i])
  }

  /** What was announced again by the first `n` operations. */
  function AgainUpTo(s: Summary, ttd: Option<nat>, ops: seq<Op>, n: nat): multiset<Log>
    requires n <= |ops|
  {
    Summarize(s, ttd, ops[..n]).again
  }

  lemma AgainNext(s: Summary, ttd: Option<nat>, ops: seq<Op>, n: nat)
    requires n < |ops|
    ensures AgainUpTo(s, ttd, ops, n) <= AgainUpTo(s, ttd, ops, n + 1)
    ensures AgainUpTo(s, ttd, ops, n + 1) == AgainUpTo(s, ttd, ops, n) <==> !AgainAt(s, ttd, ops, n)
  {
    hide Summarize, Step, AnnouncesAgain;
    SummarizeStep(s, ttd, ops, n);
    StepAgain(Summarize(s, ttd, ops[..n]), ttd, ops[n]);
  }

  /** Over the first `n` operations nothing is announced twice exactly if none announces logs again. */
  lemma {:induction false} NothingTwiceUpTo(s: Summary, ttd: Option<nat>, ops: seq<Op>, n: nat)
    requires n <= |ops|
    ensures AgainUpTo(s, ttd, ops, 0) <= AgainUpTo(s, ttd, ops, n)
    ensures AgainUpTo(s, ttd, ops, n) == AgainUpTo(s, ttd, ops, 0) <==>
            forall i :: 0 <= i < n ==> !AgainAt(s, ttd, ops, i)
  {
    hide AgainUpTo, AgainAt;
    if n > 0 {
      NothingTwiceUpTo(s, ttd, ops, n - 1);
      AgainNext(s, ttd, ops, n - 1);
      Between(AgainUpTo(s, ttd, ops, 0), AgainUpTo(s, ttd, ops, n - 1), AgainUpTo(s, ttd, ops, n));
    }
  }

  lemma Between<T>(a: multiset<T>, b: multiset<T>, c: multiset<T>)
    requires a <= b <= c
    ensures c == a <==> b == a && c == b
  {
  }

  /** Over a run nothing is announced twice exactly if no operation announces logs again. */
  lemma NothingTwice(s: Summary, ttd: Option<nat>, ops: seq<Op>)
    ensures Summarize(s, ttd, ops).again == s.again <==> forall i :: 0 <= i < |ops| ==> !AgainAt(s, ttd, ops, i)
  {
    NothingTwiceUpTo(s, ttd, ops, |ops|);
    assert ops[..|ops|] == ops && ops[..0] == [];
  }

  function MissedUpTo(s: Summary, ttd: Option<nat>, ops: seq<Op>, n: nat): multiset<Log>
    requires n <= |ops|
  {
    Summarize(s, ttd, ops[..n]).missed
  }

  lemma MissedNext(s: Summary, ttd: Option<nat>, ops: seq<Op>, n: nat)
    requires n < |ops|
    ensures MissedUpTo(s, ttd, ops, n) <= MissedUpTo(s, ttd, ops, n + 1)
    ensures MissedUpTo(s, ttd, ops, n + 1) == MissedUpTo(s, ttd, ops, n) <==> !MissesAt(s, ttd, ops, n)
  {
    hide Summarize, Step, MissesLogs;
    SummarizeStep(s, ttd, ops, n);
    StepMisses(Summarize(s, ttd, ops[..n]), ttd, ops[n]);
  }

  lemma {:induction false} NothingMissedUpTo(s: Summary, ttd: Option<nat>, ops: seq<Op>, n: nat)
    requires n <= |ops|
    ensures MissedUpTo(s, ttd, ops, 0) <= MissedUpTo(s, ttd, ops, n)
    ensures MissedUpTo(s, ttd, ops, n) == MissedUpTo(s, ttd, ops, 0) <==>
            forall i :: 0 <= i < n ==> !MissesAt(s, ttd, ops, i)
  {
    hide MissedUpTo, MissesAt;
    if n > 0 {
      NothingMissedUpTo(s, ttd, ops, n - 1);
      MissedNext(s, ttd, ops, n - 1);
      Between(MissedUpTo(s, ttd, ops, 0), MissedUpTo(s, ttd, ops, n - 1), MissedUpTo(s, ttd, ops, n));
    }
  }

  /** Over a run nothing is missed exactly if no operation makes a listener miss logs. */
  lemma NothingMissed(s: Summary, ttd: Option<nat>, ops: seq<Op>)
    ensures Summarize(s, ttd, ops).missed == s.missed <==> forall i :: 0 <= i < |ops| ==> !MissesAt(s, ttd, ops, i)
  {
    NothingMissedUpTo(s, ttd, ops, |ops|);
    assert ops[..|ops|] == ops && ops[..0] == [];
  }

  /** No stored block has a higher total difficulty than the head. */
  ghost predicate Heaviest(s: Summary) {
    s.head in s.blocks && forall b :: b in s.blocks ==> TotalDifficulty(b) <= TotalDifficulty(s.head)
  }

  /** Before the terminal total difficulty is reached, a node that only imports blocks always follows the
      heaviest chain it knows. */
  lemma {:induction false} HeaviestHead(s: Summary, ttd: Option<nat>, ops: seq<Op>)
    requires Heaviest(s)
    requires forall op :: op in ops ==>
      op.WriteAndSetHead? && op.committed && !ForkChoice.Trusted(ttd, TotalDifficulty(op.block))
    ensures Heaviest(Summarize(s, ttd, ops))
  {
    if ops != [] {
      HeaviestHead(s, ttd, ops[..|ops| - 1]);
      assert ops[|ops| - 1].WriteAndSetHead?;
      HeaviestStep(Summarize(s, ttd, ops[..|ops| - 1]), ttd, ops[|ops| - 1]);
    }
  }

  lemma HeaviestStep(s: Summary, ttd: Option<nat>, op: Op)
    requires Heaviest(s) && op.WriteAndSetHead? && op.committed
    requires !ForkChoice.Trusted(ttd, TotalDifficulty(op.block))
    ensures Heaviest(Step(s, ttd, op))
  {
  }

  /** The operation imports a block with a known parent and a total difficulty from the terminal one on. */
  predicate TrustedImport(s: Summary, ttd: Option<nat>, op: Op) {
    && op.WriteAndSetHead? && op.committed && op.block.Child? && op.block.parent in s.blocks
    && ForkChoice.Trusted(ttd, TotalDifficulty(op.block))
  }

  /** From the terminal total difficulty on every import is followed: after a run whose operations from
      position `i` on were refused or not committed, the head is the trusted block imported before. */
  lemma {:induction false} TrustedHead(s: Summary, ttd: Option<nat>, ops: seq<Op>, i: nat)
    requires s.head in s.blocks && i < |ops| && TrustedImport(Summarize(s, ttd, ops[..i]), ttd, ops[i])
    requires forall k :: i < k < |ops| ==> ops[k].WriteAndSetHead?
    requires forall k :: i < k < |ops| ==>
      !ops[k].committed || ops[k].block.Genesis? || ops[k].block.parent !in Summarize(s, ttd, ops[..k]).blocks
    ensures Summarize(s, ttd, ops).head == ops[i].block
  {
    var n := |ops| - 1;
    HeadStored(s, ttd, ops[..n]);
    if i == n {
      assert ops[..n + 1] == ops;
    } else {
      var front := ops[..n];
      assert front[..i] == ops[..i];
      forall k | i < k < n ensures front[..k] == ops[..k] {
      }
      TrustedHead(s, ttd, front, i);
      assert !ops[n].committed || ops[n].block.Genesis? || ops[n].block.parent !in Summarize(s, ttd, ops[..n]).blocks;
    }
  }

  lemma {:induction false} HeadStored(s: Summary, ttd: Option<nat>, ops: seq<Op>)
    requires s.head in s.blocks
    ensures Summarize(s, ttd, ops).head in Summarize(s, ttd, ops).blocks
  {
    if ops != [] {
      HeadStored(s, ttd, ops[..|ops| - 1]);
    }
  }

  /** `t` is a transaction of an ancestor of `b` strictly between the heights `lo` and `hi`. */
  ghost predicate TxBetween(b: Block, lo: nat, hi: nat, t: TxHash) {
    exists n: nat :: lo < n < hi && n <= Number(b) && t in At(b, n).info.txs
  }

  /** The transactions of the ancestors of `b` above height `k`, highest block first. */
  function TxsDown(b: Block, k: nat): seq<TxHash>
    requires k <= Number(b)
    decreases Number(b) - k
  {
    if k == Number(b) then [] else TxsDown(b, k + 1) + At(b, k + 1).info.txs
  }

  /** The transactions of the ancestors of `b` strictly between `lo` and `hi`, lowest block first. */
  function TxsUp(b: Block, lo: nat, hi: nat): seq<TxHash>
    requires hi <= Number(b) + 1
  {
    if hi <= lo + 1 then [] else TxsUp(b, lo, hi - 1) + At(b, hi - 1).info.txs
  }

  /** The lookup after writing the entries of the ancestors of `b` strictly between `lo` and `hi`. */
  function LookupUp(m: map<TxHash, nat>, b: Block, lo: nat, hi: nat): map<TxHash, nat>
    requires hi <= Number(b) + 1
  {
    if hi <= lo + 1 then m
    else LookupUp(m, b, lo, hi - 1) + LookupEntries(At(b, hi - 1))
  }

  /** The lookup entries of one block. */
  function LookupEntries(b: Block): map<TxHash, nat> {
    var n := Number(b);
    map t | t in b.info.txs :: n
  }

  /** The index after writing the entries of the ancestors of `b` strictly between `lo` and `hi`. */
  function CanonUp(m: map<nat, Hash>, b: Block, lo: nat, hi: nat): map<nat, Hash>
    requires hi <= Number(b) + 1
  {
    if hi <= lo + 1 then m else CanonUp(m, b, lo, hi - 1)[hi - 1 := At(b, hi - 1)]
  }

  lemma {:induction false} CanonUpAt(m: map<nat, Hash>, b: Block, lo: nat, hi: nat, n: nat)
    requires hi <= Number(b) + 1
    ensures lo < n < hi ==> n in CanonUp(m, b, lo, hi) && CanonUp(m, b, lo, hi)[n] == At(b, n)
    ensures !(lo < n < hi) ==> (n in CanonUp(m, b, lo, hi) <==> n in m)
    ensures !(lo < n < hi) && n in m ==> CanonUp(m, b, lo, hi)[n] == m[n]
  {
    if lo + 1 < hi {
      CanonUpAt(m, b, lo, hi - 1, n);
    }
  }

  lemma {:induction false} TxsDownIff(b: Block, k: nat, t: TxHash)
    requires k <= Number(b)
    ensures t in TxsDown(b, k) <==> TxBetween(b, k, Number(b) + 1, t)
    decreases Number(b) - k
  {
    if k < Number(b) {
      TxsDownIff(b, k + 1, t);
    }
  }

  lemma {:induction false} TxsUpIff(b: Block, lo: nat, hi: nat, t: TxHash)
    requires hi <= Number(b) + 1
    ensures t in TxsUp(b, lo, hi) <==> TxBetween(b, lo, hi, t)
  {
    if lo + 1 < hi {
      TxsUpIff(b, lo, hi - 1, t);
    }
  }

  /** A transaction of the written stretch points to its block, any other keeps its entry. */
  lemma {:induction false} LookupUpAt(m: map<TxHash, nat>, b: Block, lo: nat, hi: nat, t: TxHash)
    requires hi <= Number(b) + 1
    ensures !TxBetween(b, lo, hi, t) ==> (t in LookupUp(m, b, lo, hi) <==> t in m)
    ensures !TxBetween(b, lo, hi, t) && t in m ==> LookupUp(m, b, lo, hi)[t] == m[t]
    ensures TxsUnique(b) ==> forall n: nat :: lo < n < hi && t in At(b, n).info.txs ==>
      t in LookupUp(m, b, lo, hi) && LookupUp(m, b, lo, hi)[t] == n
  {
    if lo + 1 < hi {
      LookupUpAt(m, b, lo, hi - 1, t);
    }
  }

  /** Keeps the elements of `a` that do not occur in `b`. */
  function HashDifference(a: seq<TxHash>, b: seq<TxHash>): (keep: seq<TxHash>)
    ensures forall t :: t in keep <==> t in a && t !in b
  {
    if a == [] then []
    else (if a[0] in b then [] else [a[0]]) + HashDifference(a[1..], b)
  }

  /** The block whose chain the indexes describe once `reorg` is done and before its caller installs
      the new head: the head's parent, or the head itself when the old chain already contains it. */
  function ReorgTarget(oldHead: Block, newHead: Block): Block {
    if IsAncestor(newHead, oldHead) || newHead.Genesis? then newHead else newHead.parent
  }

  /** A common ancestor of two chains lies below every height at which they differ. */
  lemma CommonBelow(c: Block, a: Block, b: Block, k: nat)
    requires IsAncestor(c, a) && IsAncestor(c, b)
    requires k <= Number(a) && k <= Number(b) && At(a, k) != At(b, k)
    ensures Number(c) < k
  {
    if k <= Number(c) {
      AtAt(a, Number(c), k);
      AtAt(b, Number(c), k);
    }
  }

  /** The fork point is the new head exactly when the old chain already contains the new head. */
  lemma ForkPointCases(c: Block, oldHead: Block, newHead: Block)
    requires ForkPoint(c, oldHead, newHead)
    ensures c == newHead <==> IsAncestor(newHead, oldHead)
    ensures c != newHead ==>
      newHead.Child? && ReorgTarget(oldHead, newHead) == newHead.parent && IsAncestor(c, newHead.parent)
    ensures c == newHead ==> ReorgTarget(oldHead, newHead) == newHead
  {
    if IsAncestor(newHead, oldHead) {
      ForkPointUnique(c, newHead, oldHead, newHead);
    }
  }

  function Cut(m: map<nat, Hash>, number: nat): map<nat, Hash> {
    map n | n in m && n <= number :: m[n]
  }

  /** Overwriting the stretch of the new chain below its head and cutting above it leaves the index
      of the reorg target. */
  lemma ReorgCanon(c: Block, oldHead: Block, newHead: Block, canon: map<nat, Hash>)
    requires ForkPoint(c, oldHead, newHead)
    requires canon == CanonUp(CanonOf(oldHead), newHead, Number(c), Number(newHead))
    ensures forall n: nat :: n in canon <==> n <= Number(oldHead) || n < Number(newHead)
    ensures Cut(canon, Number(ReorgTarget(oldHead, newHead))) == CanonOf(ReorgTarget(oldHead, newHead))
  {
    ForkPointCases(c, oldHead, newHead);
    var t := ReorgTarget(oldHead, newHead);
    forall n: nat
      ensures n in canon <==> n <= Number(oldHead) || n < Number(newHead)
      ensures n <= Number(t) ==> n in canon && canon[n] == At(t, n)
    {
      CanonUpAt(CanonOf(oldHead), newHead, Number(c), Number(newHead), n);
      if n <= Number(c) {
        AtAt(oldHead, Number(c), n);
        AtAt(t, Number(c), n);
      }
    }
  }

  function Without(m: map<TxHash, nat>, deleted: seq<TxHash>, added: seq<TxHash>): map<TxHash, nat> {
    map t | t in m && !(t in deleted && t !in added) :: m[t]
  }

  /** The lookup once the new chain is written below its head and dropped-minus-added is deleted. */
  function LookupAfter(c: Block, oldHead: Block, newHead: Block, before: map<TxHash, nat>): map<TxHash, nat>
    requires IsAncestor(c, oldHead) && IsAncestor(c, newHead)
  {
    Without(LookupUp(before, newHead, Number(c), Number(newHead)), TxsDown(oldHead, Number(c)),
            TxsUp(newHead, Number(c), Number(newHead)))
  }

  lemma SharedPrefix(c: Block, oldHead: Block, newHead: Block, n: nat)
    requires IsAncestor(c, oldHead) && IsAncestor(c, newHead) && n <= Number(c)
    ensures At(oldHead, n) == At(newHead, n)
  {
  }

  lemma LookupAfterSound(c: Block, oldHead: Block, newHead: Block, before: map<TxHash, nat>, t: TxHash)
    requires ForkPoint(c, oldHead, newHead) && TxsUnique(newHead) && LookupExact(before, oldHead)
    requires t in LookupAfter(c, oldHead, newHead, before)
    ensures var n := LookupAfter(c, oldHead, newHead, before)[t];
      (n < Number(newHead) || n <= Number(c)) && t in At(newHead, n).info.txs
  {
    LookupUpAt(before, newHead, Number(c), Number(newHead), t);
    TxsDownIff(oldHead, Number(c), t);
    TxsUpIff(newHead, Number(c), Number(newHead), t);
    if !TxBetween(newHead, Number(c), Number(newHead), t) {
      assert t in At(oldHead, before[t]).info.txs;
      SharedPrefix(c, oldHead, newHead, before[t]);
    }
  }

  lemma LookupAfterComplete(c: Block, oldHead: Block, newHead: Block, before: map<TxHash, nat>, n: nat, t: TxHash)
    requires ForkPoint(c, oldHead, newHead) && TxsUnique(newHead) && LookupExact(before, oldHead)
    requires n <= Number(newHead) && (n < Number(newHead) || n <= Number(c)) && t in At(newHead, n).info.txs
    ensures t in LookupAfter(c, oldHead, newHead, before) && LookupAfter(c, oldHead, newHead, before)[t] == n
  {
    LookupUpAt(before, newHead, Number(c), Number(newHead), t);
    TxsDownIff(oldHead, Number(c), t);
    TxsUpIff(newHead, Number(c), Number(newHead), t);
    if n <= Number(c) {
      SharedPrefix(c, oldHead, newHead, n);
      assert before[t] == n;
    }
  }

  /** The reorg target reaches as far along the new chain as the indexes are written. */
  lemma TargetReach(c: Block, oldHead: Block, newHead: Block, n: nat)
    requires ForkPoint(c, oldHead, newHead)
    ensures n <= Number(ReorgTarget(oldHead, newHead)) <==>
      n <= Number(newHead) && (n < Number(newHead) || n <= Number(c))
    ensures n <= Number(ReorgTarget(oldHead, newHead)) ==> At(ReorgTarget(oldHead, newHead), n) == At(newHead, n)
  {
    ForkPointCases(c, oldHead, newHead);
  }

  lemma ReorgLookupAt(c: Block, oldHead: Block, newHead: Block, before: map<TxHash, nat>, n: nat, t: TxHash)
    requires ForkPoint(c, oldHead, newHead) && TxsUnique(newHead) && LookupExact(before, oldHead)
    ensures var target := ReorgTarget(oldHead, newHead);
      n <= Number(target) && t in At(target, n).info.txs <==> (t, n) in LookupAfter(c, oldHead, newHead, before).Items
  {
    TargetReach(c, oldHead, newHead, n);
    hide LookupAfter, ReorgTarget, TxsUnique, At, Number, LookupExact;
    if t in LookupAfter(c, oldHead, newHead, before) {
      LookupAfterSound(c, oldHead, newHead, before, t);
    }
    if n <= Number(newHead) && (n < Number(newHead) || n <= Number(c)) && t in At(newHead, n).info.txs {
      LookupAfterComplete(c, oldHead, newHead, before, n, t);
    }
  }

  /** Writing the entries of the new chain below its head and deleting dropped-minus-added leaves
      exactly the lookup of the reorg target. */
  lemma ReorgLookup(c: Block, oldHead: Block, newHead: Block, before: map<TxHash, nat>)
    requires ForkPoint(c, oldHead, newHead) && TxsUnique(newHead) && LookupExact(before, oldHead)
    ensures LookupExact(LookupAfter(c, oldHead, newHead, before), ReorgTarget(oldHead, newHead))
  {
    hide LookupAfter, ReorgTarget, TxsUnique, At, Number, LookupExact;
    var target, after := ReorgTarget(oldHead, newHead), LookupAfter(c, oldHead, newHead, before);
    forall n: nat, t
      ensures n <= Number(target) && t in At(target, n).info.txs <==> (t, n) in after.Items
    {
      ReorgLookupAt(c, oldHead, newHead, before, n, t);
    }
    ExactIfItems(after, target);
  }

  lemma ExactIfItems(lookup: map<TxHash, nat>, b: Block)
    requires forall n: nat, t :: n <= Number(b) && t in At(b, n).info.txs <==> (t, n) in lookup.Items
    ensures LookupExact(lookup, b)
  {
    forall t | t in lookup ensures lookup[t] <= Number(b) && t in At(b, lookup[t]).info.txs {
      assert (t, lookup[t]) in lookup.Items;
    }
    forall n: nat, t | n <= Number(b) && t in At(b, n).info.txs ensures t in lookup && lookup[t] == n {
      assert (t, n) in lookup.Items;
    }
  }

  lemma NothingInserted(b: Block, c: nat, m: map<nat, Hash>, l: map<TxHash, nat>)
    requires c <= Number(b)
    ensures CanonUp(m, b, c, c + 1) == m && TxsUp(b, c, c + 1) == [] && LookupUp(l, b, c, c + 1) == l
  {
  }

  /** Nothing lies between a block and itself. */
  lemma NothingBelow(b: Block, c: nat, m: map<nat, Hash>, l: map<TxHash, nat>)
    requires c <= Number(b)
    ensures c == Number(b) ==> CanonUp(m, b, c, c) == m && TxsUp(b, c, c) == [] && LookupUp(l, b, c, c) == l
    ensures c == Number(b) ==> CanonUp(m, b, c, c + 1) == m && TxsUp(b, c, c + 1) == [] && LookupUp(l, b, c, c + 1) == l
  {
  }

  /** The block at position `i` of the new chain extends what is written by its height. */
  lemma Inserted(b: Block, c: nat, i: nat, m: map<nat, Hash>, l: map<TxHash, nat>)
    requires c < Number(b) && 0 < i < Number(b) - c
    ensures var h, x := Number(b) - i, Above(b, c)[i];
      && Number(x) == h
      && CanonUp(m, b, c, h + 1) == CanonUp(m, b, c, h)[h := x]
      && TxsUp(b, c, h + 1) == TxsUp(b, c, h) + x.info.txs
      && LookupUp(l, b, c, h + 1) == LookupUp(l, b, c, h) + LookupEntries(x)
  {
    AboveIndex(b, c, i);
  }

  class BlockChain {
    // database
    var blocks: set<Block>
    var td: map<Hash, nat>
    var canon: map<nat, Hash>
    var lookup: map<TxHash, nat>
    var headHeaderHash: Hash
    var headFastHash: Hash
    var headBlockHash: Hash
    // memory
    var currentHeader: Block
    var currentSnapBlock: Block
    var currentBlock: Block
    // everything sent on the log feeds so far
    var feed: seq<LogEvent>

    const genesis: Block
    const ttd: Option<nat>

    /** A new chain stands at its genesis block. */
    constructor (genesis: Block, ttd: Option<nat>)
      requires genesis.Genesis? && genesis.info.txs == []
      ensures Valid() && blocks == {genesis} && currentBlock == genesis && feed == []
      ensures this.genesis == genesis && this.ttd == ttd
    {
      this.genesis, this.ttd := genesis, ttd;
      blocks, td, canon, lookup := {genesis}, map[genesis := genesis.info.difficulty], map[0 := genesis], map[];
      headHeaderHash, headFastHash, headBlockHash := genesis, genesis, genesis;
      currentHeader, currentSnapBlock, currentBlock := genesis, genesis, genesis;
      feed := [];
    }

    /** All six head markers agree. */
    ghost predicate Marked(b: Block)
      reads this
    {
      && headHeaderHash == b && headFastHash == b && headBlockHash == b
      && currentHeader == b && currentSnapBlock == b && currentBlock == b
    }

    /** The number to hash index is exactly the chain of the head, with nothing above it. */
    ghost predicate Indexed()
      reads this
    {
      Marked(currentBlock) && canon == CanonOf(currentBlock)
    }

    /** The stored blocks form a tree rooted in the genesis block and carry their total difficulty. */
    ghost predicate Stored()
      reads this
    {
      && genesis.Genesis? && genesis in blocks
      && td.Keys == blocks
      && (forall b :: b in td ==> td[b] == TotalDifficulty(b))
      && ParentClosed(blocks)
      && (forall b :: b in blocks ==> At(b, 0) == genesis)
    }

    ghost predicate Valid()
      reads this
    {
      && Indexed() && Stored()
      && currentBlock in blocks
      && LookupExact(lookup, currentBlock)
    }

    /** The database writes of `writeHeadBlock` are one batch; the memory markers follow. */
    method WriteHeadBlock(block: Block)
      modifies this`canon, this`lookup, this`headHeaderHash, this`headFastHash, this`headBlockHash,
               this`currentHeader, this`currentSnapBlock, this`currentBlock
      ensures Marked(block)
      ensures canon == old(canon)[Number(block) := block]
      ensures lookup == old(lookup) + LookupEntries(block)
    {
      headHeaderHash := block;
      headFastHash := block;
      canon := canon[Number(block) := block];
      lookup := lookup + LookupEntries(block);
      headBlockHash := block;

      currentHeader := block;
      currentSnapBlock := block;
      currentBlock := block;
    }

    function GetBlock(hash: Option<Hash>): Option<Block>
      reads this`blocks
    {
      if hash.Some? && hash.value in blocks then hash else None
    }

    /** Every block on the way from both heads down to their fork point is stored; the new head
        itself need not be. */
    ghost predicate Connected(oldHead: Block, newHead: Block)
      reads this`blocks
    {
      && oldHead in blocks
      && exists c :: Joined(c, oldHead, newHead)
    }

    ghost predicate Joined(c: Block, oldHead: Block, newHead: Block)
      reads this`blocks
    {
      ForkPoint(c, oldHead, newHead) && StoredFrom(oldHead, Number(c)) && StoredBelow(newHead, Number(c))
    }

    ghost predicate StoredFrom(head: Block, k: nat)
      reads this`blocks
    {
      forall n: nat :: k <= n <= Number(head) ==> At(head, n) in blocks
    }

    ghost predicate StoredBelow(head: Block, k: nat)
      reads this`blocks
    {
      forall n: nat :: k <= n < Number(head) ==> At(head, n) in blocks
    }

    /** Walks the old chain down to height `target`, stashing its blocks and their transactions. */
    method LowerOld(oldHead: Block, target: nat)
      returns (oldBlock: Option<Block>, oldChain: seq<Block>, deletedTxs: seq<TxHash>)
      requires oldHead in blocks && target <= Number(oldHead)
      ensures oldBlock.Some? ==> StoredFrom(oldHead, target) && oldBlock.value == At(oldHead, target)
      ensures oldBlock.Some? ==> oldChain == Above(oldHead, target) && deletedTxs == TxsDown(oldHead, target)
      ensures oldBlock.None? <==> !StoredFrom(oldHead, target)
    {
      oldBlock, oldChain, deletedTxs := Some(oldHead), [], [];
      ghost var k := Number(oldHead);
      while oldBlock.Some? && Number(oldBlock.value) != target
        invariant target <= k <= Number(oldHead)
        invariant oldBlock.Some? ==> StoredFrom(oldHead, k) && oldBlock.value == At(oldHead, k)
        invariant oldBlock.None? ==> At(oldHead, k) !in blocks
        invariant oldChain == Above(oldHead, k) && deletedTxs == TxsDown(oldHead, k)
        decreases oldBlock.Some?, k
      {
        AboveStep(oldHead, k);
        oldChain := oldChain + [oldBlock.value];
        deletedTxs := deletedTxs + oldBlock.value.info.txs;
        oldBlock := GetBlock(ParentHash(oldBlock.value));
        k := k - 1;
      }
    }

    /** Walks the new chain down to height `target`, stashing its blocks. */
    method LowerNew(newHead: Block, target: nat) returns (newBlock: Option<Block>, newChain: seq<Block>)
      requires target <= Number(newHead)
      ensures newBlock.Some? ==> StoredBelow(newHead, target) && newBlock.value == At(newHead, target)
      ensures newBlock.Some? ==> newChain == Above(newHead, target)
      ensures newBlock.None? <==> !StoredBelow(newHead, target)
    {
      newBlock, newChain := Some(newHead), [];
      ghost var k := Number(newHead);
      while newBlock.Some? && Number(newBlock.value) != target
        invariant target <= k <= Number(newHead)
        invariant newBlock.Some? ==> StoredBelow(newHead, k) && newBlock.value == At(newHead, k)
        invariant newBlock.None? ==> k < Number(newHead) && At(newHead, k) !in blocks
        invariant newChain == Above(newHead, k)
        decreases newBlock.Some?, k
      {
        AboveStep(newHead, k);
        newChain := newChain + [newBlock.value];
        newBlock := GetBlock(ParentHash(newBlock.value));
        k := k - 1;
      }
    }

    /** A block missing at a height where both chains are still above their fork point, or two
        different genesis blocks, leave the heads unconnected. */
    lemma NotConnected(oldHead: Block, newHead: Block, k: nat)
      requires k <= Number(oldHead) && k <= Number(newHead)
      requires At(oldHead, k) != At(newHead, k)
      requires k > 0 ==> At(oldHead, k - 1) !in blocks || At(newHead, k - 1) !in blocks
      ensures !Connected(oldHead, newHead)
    {
      forall c | ForkPoint(c, oldHead, newHead) ensures Number(c) < k {
        CommonBelow(c, oldHead, newHead, k);
      }
    }

    /** One step back on both chains. */
    lemma MeetStep(oldHead: Block, newHead: Block, k: nat)
      requires k <= Number(oldHead) && k <= Number(newHead)
      ensures ParentHash(At(oldHead, k)) == if k == 0 then None else Some(At(oldHead, k - 1))
      ensures ParentHash(At(newHead, k)) == if k == 0 then None else Some(At(newHead, k - 1))
      ensures k > 0 ==> Above(oldHead, k - 1) == Above(oldHead, k) + [At(oldHead, k)]
      ensures k > 0 ==> Above(newHead, k - 1) == Above(newHead, k) + [At(newHead, k)]
      ensures k > 0 ==> TxsDown(oldHead, k - 1) == TxsDown(oldHead, k) + At(oldHead, k).info.txs
      ensures k > 0 && StoredFrom(oldHead, k) && At(oldHead, k - 1) in blocks ==> StoredFrom(oldHead, k - 1)
      ensures k > 0 && StoredBelow(newHead, k) && At(newHead, k - 1) in blocks ==> StoredBelow(newHead, k - 1)
    {
      if k > 0 {
        AboveStep(oldHead, k);
        AboveStep(newHead, k);
      }
    }

    lemma Met(oldHead: Block, newHead: Block, k: nat)
      requires k <= Number(oldHead) && k <= Number(newHead) && At(oldHead, k) == At(newHead, k)
      requires k == Number(oldHead) || k == Number(newHead) || At(oldHead, k + 1) != At(newHead, k + 1)
      requires StoredFrom(oldHead, k) && StoredBelow(newHead, k)
      ensures Joined(At(oldHead, k), oldHead, newHead)
    {
    }

    /** Walks both chains, which are at the same height, back to their fork point. */
    method MeetBoth(oldHead: Block, newHead: Block, start: nat, oldChain0: seq<Block>, newChain0: seq<Block>,
                    deletedTxs0: seq<TxHash>)
      returns (err: Option<Error>, oldChain: seq<Block>, newChain: seq<Block>, common: Block, deletedTxs: seq<TxHash>)
      requires start <= Number(oldHead) && start <= Number(newHead)
        && (start == Number(oldHead) || start == Number(newHead))
      requires StoredFrom(oldHead, start) && StoredBelow(newHead, start)
      requires oldChain0 == Above(oldHead, start) && newChain0 == Above(newHead, start)
        && deletedTxs0 == TxsDown(oldHead, start)
      ensures err.None? ==> Joined(common, oldHead, newHead)
      ensures err.None? ==> oldChain == Above(oldHead, Number(common)) && newChain == Above(newHead, Number(common))
      ensures err.None? ==> deletedTxs == TxsDown(oldHead, Number(common))
      ensures err.Some? ==> !Connected(oldHead, newHead)
    {
      hide At, Above, TxsDown, StoredFrom, StoredBelow, ForkPoint, Connected, Joined;
      err, oldChain, newChain, common, deletedTxs := None, oldChain0, newChain0, newHead, deletedTxs0;
      var oldBlock, newBlock := At(oldHead, start), At(newHead, start);
      ghost var k := start;
      while oldBlock != newBlock
        invariant 0 <= k <= Number(oldHead) && k <= Number(newHead)
        invariant oldBlock == At(oldHead, k) && newBlock == At(newHead, k)
        invariant k == Number(oldHead) || k == Number(newHead) || At(oldHead, k + 1) != At(newHead, k + 1)
        invariant oldChain == Above(oldHead, k) && newChain == Above(newHead, k) && deletedTxs == TxsDown(oldHead, k)
        invariant StoredFrom(oldHead, k) && StoredBelow(newHead, k)
        decreases k
      {
        MeetStep(oldHead, newHead, k);
        oldChain := oldChain + [oldBlock];
        deletedTxs := deletedTxs + oldBlock.info.txs;
        newChain := newChain + [newBlock];
        var oldParent, newParent := GetBlock(ParentHash(oldBlock)), GetBlock(ParentHash(newBlock));
        if oldParent.None? {
          NotConnected(oldHead, newHead, k);
          err := Some(InvalidOldChain);
          return;
        }
        if newParent.None? {
          NotConnected(oldHead, newHead, k);
          err := Some(InvalidNewChain);
          return;
        }
        oldBlock, newBlock := oldParent.value, newParent.value;
        k := k - 1;
      }
      common := oldBlock;
      Met(oldHead, newHead, k);
    }

    /** Walks both chains back to their fork point; fails exactly when a block on the way is missing. */
    method CollectChains(oldHead: Block, newHead: Block)
      returns (err: Option<Error>, oldChain: seq<Block>, newChain: seq<Block>, common: Block, deletedTxs: seq<TxHash>)
      ensures err.None? <==> Connected(oldHead, newHead)
      ensures err.None? ==> Joined(common, oldHead, newHead)
      ensures err.None? ==> oldChain == Above(oldHead, Number(common)) && newChain == Above(newHead, Number(common))
      ensures err.None? ==> deletedTxs == TxsDown(oldHead, Number(common))
    {
      err, oldChain, newChain, common, deletedTxs := None, [], [], newHead, [];
      if GetBlock(Some(oldHead)).None? {
        err := Some(CurrentHeadMissing);
        return;
      }
      if Number(oldHead) > Number(newHead) {
        var oldBlock;
        oldBlock, oldChain, deletedTxs := LowerOld(oldHead, Number(newHead));
        if oldBlock.None? {
          err := Some(InvalidOldChain);
          return;
        }
      } else {
        var newBlock;
        newBlock, newChain := LowerNew(newHead, Number(oldHead));
        if newBlock.None? {
          err := Some(InvalidNewChain);
          return;
        }
      }
      var start := if Number(oldHead) > Number(newHead) then Number(newHead) else Number(oldHead);
      err, oldChain, newChain, common, deletedTxs := MeetBoth(oldHead, newHead, start, oldChain, newChain, deletedTxs);
    }

    /** Writes the new chain below its head, lowest block first, each in the way of a head block. */
    method InsertNewChain(newHead: Block, newChain: seq<Block>, ghost c: nat) returns (addedTxs: seq<TxHash>)
      requires c <= Number(newHead) && newChain == Above(newHead, c)
      modifies this`canon, this`lookup, this`headHeaderHash, this`headFastHash, this`headBlockHash,
               this`currentHeader, this`currentSnapBlock, this`currentBlock
      ensures canon == CanonUp(old(canon), newHead, c, Number(newHead))
      ensures addedTxs == TxsUp(newHead, c, Number(newHead))
      ensures lookup == LookupUp(old(lookup), newHead, c, Number(newHead))
    {
      hide At, Above, Number, CanonUp, TxsUp, LookupUp;
      addedTxs := [];
      var i := |newChain| - 1;
      ghost var h := c + 1;
      NothingInserted(newHead, c, canon, lookup);
      while i >= 1
        invariant if i >= 0 then h == Number(newHead) - i else h == c + 1 == Number(newHead) + 1
        invariant c < h && i < |newChain|
        invariant canon == CanonUp(old(canon), newHead, c, h)
        invariant addedTxs == TxsUp(newHead, c, h)
        invariant lookup == LookupUp(old(lookup), newHead, c, h)
      {
        Inserted(newHead, c, i, old(canon), old(lookup));
        WriteHeadBlock(newChain[i]);
        addedTxs := addedTxs + newChain[i].info.txs;
        i := i - 1;
        h := h + 1;
      }
      NothingBelow(newHead, c, old(canon), old(lookup));
    }

    /** Deletes the lookups of dropped transactions and every index entry above `number`, in one batch. */
    method DeleteUselessIndexes(deletedTxs: seq<TxHash>, addedTxs: seq<TxHash>, number: nat, ghost top: nat)
      requires forall n: nat :: number < n ==> (n in canon <==> n <= top)
      modifies this`canon, this`lookup
      ensures canon == Cut(old(canon), number)
      ensures lookup == Without(old(lookup), deletedTxs, addedTxs)
    {
      var diffs := HashDifference(deletedTxs, addedTxs);
      var stale: set<nat> := {};
      var i := number + 1;
      while i in canon
        invariant number < i && (i <= top + 1 || i == number + 1)
        invariant forall n :: n in stale <==> number < n < i
        decreases top + 1 - i
      {
        stale := stale + {i};
        i := i + 1;
      }
      canon := canon - stale;
      lookup := lookup - set t | t in diffs;
    }

    /** The receipts of a block are stored with it. */
    function CollectLogs(b: Block): seq<Log>
      reads this`blocks
    {
      if b in blocks then b.info.logs else []
    }

    method SendRemoved(logs: seq<Log>, ghost keep: multiset<Log>, ghost missing: multiset<Log>)
      modifies this`feed
      ensures feed == old(feed) + [RemovedLogs(logs)]
      ensures old(Tracks(feed, keep + multiset(logs), missing)) ==> Tracks(feed, keep, missing)
    {
      if Tracks(feed, keep + multiset(logs), missing) {
        TracksAfterRemoved(feed, logs, keep, missing);
      }
      feed := feed + [RemovedLogs(logs)];
    }

    method SendNew(logs: seq<Log>, ghost held: multiset<Log>, ghost missing: multiset<Log>)
      modifies this`feed
      ensures feed == old(feed) + [NewLogs(logs)]
      ensures old(Tracks(feed, held, missing)) ==> Tracks(feed, held + multiset(logs), missing)
    {
      if Tracks(feed, held, missing) {
        TracksAfterNew(feed, logs, held, missing);
      }
      feed := feed + [NewLogs(logs)];
    }

    /** Announces the logs of the dropped blocks, lowest block first, in batches: a listener is left
        with what it holds besides them. */
    method AnnounceRemoved(oldChain: seq<Block>, ghost keep: multiset<Log>, ghost missing: multiset<Log>)
      requires forall b :: b in oldChain ==> b in blocks
      modifies this`feed
      ensures old(Tracks(feed, keep + LogsIn(oldChain), missing)) ==> Tracks(feed, keep, missing)
      ensures Batched(old(feed), feed, true, LogsUp(oldChain, 0))
    {
      hide LogsIn, Tracks, Batched, FullBatches;
      var deletedLogs := [];
      var i := |oldChain|;
      ghost var done: seq<Log> := [];
      assert oldChain[..i] == oldChain;
      NothingPending(keep, oldChain);
      NoBatch(feed, true);
      while i > 0
        invariant 0 <= i <= |oldChain|
        invariant old(Tracks(feed, keep + LogsIn(oldChain), missing)) ==>
          Tracks(feed, keep + LogsIn(oldChain[..i]) + multiset(deletedLogs), missing)
        invariant FullBatches(old(feed), feed, true, done) && done + deletedLogs == LogsUp(oldChain, i)
      {
        i := i - 1;
        var logs := CollectLogs(oldChain[i]);
        PendingStep(keep, oldChain, i, deletedLogs);
        Appended(done, deletedLogs, logs);
        deletedLogs := deletedLogs + logs;
        if |deletedLogs| > 512 {
          NextBatch(old(feed), feed, true, done, RemovedLogs(deletedLogs));
          SendRemoved(deletedLogs, keep + LogsIn(oldChain[..i]), missing);
          done, deletedLogs := done + deletedLogs, [];
          Appended(done, [], []);
          NothingPending(keep, oldChain[..i]);
        }
      }
      NothingIn(keep, oldChain);
      FullIsBatched(old(feed), feed, true, done);
      if |deletedLogs| > 0 {
        NextBatch(old(feed), feed, true, done, RemovedLogs(deletedLogs));
        SendRemoved(deletedLogs, keep, missing);
      } else {
        Appended(done, [], []);
      }
    }

    /** Announces the logs of the reborn blocks, which are those of the new chain below its head, lowest
        block first. */
    method AnnounceReborn(newChain: seq<Block>, ghost held: multiset<Log>, ghost missing: multiset<Log>)
      requires forall i :: 1 <= i < |newChain| ==> newChain[i] in blocks
      modifies this`feed
      ensures old(Tracks(feed, held, missing)) ==>
        Tracks(feed, held + if newChain == [] then multiset{} else LogsIn(newChain[1..]), missing)
      ensures Batched(old(feed), feed, false, LogsUp(newChain, 1))
    {
      hide LogsIn, Tracks, Batched, FullBatches;
      var rebirthLogs := [];
      var i := |newChain| - 1;
      ghost var sent := held;
      ghost var done: seq<Log> := [];
      RebornStart(held, newChain);
      NoBatch(feed, false);
      while i >= 1
        invariant i < |newChain| && (newChain != [] ==> i >= 0)
        invariant newChain != [] ==>
          sent + multiset(rebirthLogs) + LogsIn(newChain[1..i + 1]) == held + LogsIn(newChain[1..])
        invariant newChain == [] ==> sent == held && rebirthLogs == []
        invariant old(Tracks(feed, held, missing)) ==> Tracks(feed, sent, missing)
        invariant FullBatches(old(feed), feed, false, done)
        invariant done + rebirthLogs == LogsUp(newChain, if newChain == [] then 1 else i + 1)
      {
        var logs := CollectLogs(newChain[i]);
        RebornStep(sent, newChain, i, rebirthLogs);
        Appended(done, rebirthLogs, logs);
        rebirthLogs := rebirthLogs + logs;
        if |rebirthLogs| > 512 {
          NextBatch(old(feed), feed, false, done, NewLogs(rebirthLogs));
          SendNew(rebirthLogs, sent, missing);
          sent := sent + multiset(rebirthLogs);
          done, rebirthLogs := done + rebirthLogs, [];
          Appended(done, [], []);
          assert sent + multiset([]) == sent;
        }
        i := i - 1;
      }
      RebornEnd(sent, newChain, rebirthLogs);
      FullIsBatched(old(feed), feed, false, done);
      if |rebirthLogs| > 0 {
        NextBatch(old(feed), feed, false, done, NewLogs(rebirthLogs));
        SendNew(rebirthLogs, sent, missing);
      } else {
        Appended(done, [], []);
      }
    }

    /** Moves both indexes from the chain of `oldHead` to that of the reorg target. */
    method SwitchIndexes(oldHead: Block, newHead: Block, common: Block, newChain: seq<Block>, deletedTxs: seq<TxHash>)
      requires canon == CanonOf(oldHead) && ForkPoint(common, oldHead, newHead)
      requires newChain == Above(newHead, Number(common)) && deletedTxs == TxsDown(oldHead, Number(common))
      modifies this`canon, this`lookup, this`headHeaderHash, this`headFastHash, this`headBlockHash,
               this`currentHeader, this`currentSnapBlock, this`currentBlock
      ensures canon == CanonOf(ReorgTarget(oldHead, newHead))
      ensures TxsUnique(newHead) && old(LookupExact(lookup, oldHead)) ==>
        LookupExact(lookup, ReorgTarget(oldHead, newHead))
    {
      ghost var before := lookup;
      var addedTxs := InsertNewChain(newHead, newChain, Number(common));
      var number := Number(common);
      if |newChain| > 1 {
        AboveIndex(newHead, Number(common), 1);
        number := Number(newChain[1]);
      }
      ForkPointCases(common, oldHead, newHead);
      ReorgCanon(common, oldHead, newHead, canon);
      ghost var top := if Number(newHead) > Number(oldHead) then Number(newHead) - 1 else Number(oldHead);
      DeleteUselessIndexes(deletedTxs, addedTxs, number, top);
      if TxsUnique(newHead) && LookupExact(before, oldHead) {
        ReorgLookup(common, oldHead, newHead, before);
      }
    }

    /** Takes a listener from the logs of the old chain to those of the reorg target. */
    method AnnounceSwitch(oldHead: Block, newHead: Block, common: Block, oldChain: seq<Block>, newChain: seq<Block>,
                          ghost surplus: multiset<Log>, ghost missing: multiset<Log>)
      requires Joined(common, oldHead, newHead)
      requires oldChain == Above(oldHead, Number(common)) && newChain == Above(newHead, Number(common))
      modifies this`feed
      ensures old(Tracks(feed, surplus + LogsOf(oldHead), missing)) ==>
        Tracks(feed, surplus + LogsOf(ReorgTarget(oldHead, newHead)), missing)
      ensures Announced(old(feed), feed, oldHead, newHead)
    {
      ChainsStored(oldHead, newHead, common);
      SwitchedLogs(common, oldHead, newHead, surplus);
      hide LogsOf, LogsIn, Tracks, Above, ReorgTarget, ForkPoint, Batched, Announced;
      ghost var before := feed;
      AnnounceRemoved(oldChain, surplus + LogsOf(common), missing);
      ghost var mid := feed;
      AnnounceReborn(newChain, surplus + LogsOf(common), missing);
      AnnouncedChains(before, mid, feed, oldHead, newHead, common);
    }

    lemma ChainsStored(oldHead: Block, newHead: Block, common: Block)
      requires Joined(common, oldHead, newHead)
      ensures forall b :: b in Above(oldHead, Number(common)) ==> b in blocks
      ensures forall i :: 1 <= i < |Above(newHead, Number(common))| ==> Above(newHead, Number(common))[i] in blocks
    {
      forall i | 0 <= i < Number(oldHead) - Number(common) ensures Above(oldHead, Number(common))[i] in blocks {
        AboveIndex(oldHead, Number(common), i);
      }
      forall i | 1 <= i < Number(newHead) - Number(common) ensures Above(newHead, Number(common))[i] in blocks {
        AboveIndex(newHead, Number(common), i);
      }
    }

    /** Switches the indexes from the chain of `oldHead` to that of `newHead`, leaving the new head
        itself to the caller. An unconnected new head changes nothing. `surplus` is whatever a
        listener already holds besides the logs of the old chain. */
    method Reorg(oldHead: Block, newHead: Block, ghost surplus: multiset<Log>, ghost missing: multiset<Log>)
      returns (err: Option<Error>)
      requires canon == CanonOf(oldHead)
      modifies this`canon, this`lookup, this`headHeaderHash, this`headFastHash, this`headBlockHash,
               this`currentHeader, this`currentSnapBlock, this`currentBlock, this`feed
      ensures err.None? <==> Connected(oldHead, newHead)
      ensures err.Some? ==> unchanged(this)
      ensures err.None? ==> canon == CanonOf(ReorgTarget(oldHead, newHead))
      ensures err.None? && TxsUnique(newHead) && old(LookupExact(lookup, oldHead)) ==>
        LookupExact(lookup, ReorgTarget(oldHead, newHead))
      ensures err.None? && old(Tracks(feed, surplus + LogsOf(oldHead), missing)) ==>
        Tracks(feed, surplus + LogsOf(ReorgTarget(oldHead, newHead)), missing)
      // the logs are sent in the order of their chains
      ensures err.None? ==> Announced(old(feed), feed, oldHead, newHead)
    {
      hide Announced;
      var oldChain, newChain, common, deletedTxs;
      err, oldChain, newChain, common, deletedTxs := CollectChains(oldHead, newHead);
      if err.Some? {
        return;
      }
      SwitchIndexes(oldHead, newHead, common, newChain, deletedTxs);
      AnnounceSwitch(oldHead, newHead, common, oldChain, newChain, surplus, missing);
    }

    lemma Installable(head: Block)
      ensures Stored() && currentBlock in blocks && head in blocks ==> Connected(currentBlock, head)
      ensures Connected(currentBlock, head) ==> head.Child? || IsAncestor(head, currentBlock)
    {
      if Stored() && currentBlock in blocks && head in blocks {
        StoredConnected(currentBlock, head);
      }
      if c :| Joined(c, currentBlock, head) {
        ForkPointCases(c, currentBlock, head);
      }
    }

    /** Installs `head`, switching chains first when its parent is not the current head. */
    method InstallHead(head: Block, ghost surplus: multiset<Log>, ghost missing: multiset<Log>)
      returns (err: Option<Error>)
      requires Indexed()
      modifies this`canon, this`lookup, this`headHeaderHash, this`headFastHash, this`headBlockHash,
               this`currentHeader, this`currentSnapBlock, this`currentBlock, this`feed
      ensures err.None? <==> ParentHash(head) == Some(old(currentBlock)) || Connected(old(currentBlock), head)
      ensures err.Some? ==> unchanged(this)
      ensures err.None? ==> Indexed() && currentBlock == head
      ensures err.None? && TxsUnique(head) && old(LookupExact(lookup, currentBlock)) ==> LookupExact(lookup, head)
      ensures err.None? && old(Tracks(feed, surplus + LogsOf(currentBlock), missing)) ==>
        Tracks(feed, surplus + LogsOf(ReorgTarget(old(currentBlock), head)), missing)
      ensures err.None? ==> head.Child? || IsAncestor(head, old(currentBlock))
      ensures err.None? ==> Announced(old(feed), feed, old(currentBlock), head)
      // in a stored tree every stored block can be made the head
      ensures old(Stored()) && old(currentBlock) in blocks && head in blocks ==> err.None?
    {
      hide Announced;
      err := None;
      ghost var old0 := currentBlock;
      Installable(head);
      if ParentHash(head) != Some(currentBlock) {
        err := Reorg(currentBlock, head, surplus, missing);
        if err.Some? {
          return;
        }
      } else {
        NothingAnnounced(feed, currentBlock, head);
      }
      InstallCanon(old0, head);
      InstallLookup(old0, head, lookup);
      WriteHeadBlock(head);
    }

    /** In a stored tree the way from one stored head to another is complete. */
    lemma StoredConnected(oldHead: Block, head: Block)
      requires Stored() && oldHead in blocks && head in blocks
      ensures Connected(oldHead, head)
    {
      var c := FindForkPoint(oldHead, head, if Number(head) < Number(oldHead) then Number(head) else Number(oldHead));
      forall n: nat | n <= Number(oldHead) ensures At(oldHead, n) in blocks {
        AncestorsIn(blocks, oldHead, n);
      }
      forall n: nat | n < Number(head) ensures At(head, n) in blocks {
        AncestorsIn(blocks, head, n);
      }
      assert Joined(c, oldHead, head);
    }

    /** Stores a block whose parent has a total difficulty, together with its receipts; then its state is
        committed, which may fail. */
    method WriteBlockWithState(block: Block, committed: bool) returns (err: Option<Error>)
      modifies this`blocks, this`td
      ensures err == if block.Genesis? || block.parent !in old(td) then Some(UnknownAncestor)
                     else if committed then None else Some(StateCommitFailed)
      ensures err == Some(UnknownAncestor) ==> blocks == old(blocks) && td == old(td)
      ensures err != Some(UnknownAncestor) ==>
        blocks == old(blocks) + {block} && td == old(td)[block := old(td)[block.parent] + block.info.difficulty]
      ensures old(Stored()) ==> Stored()
    {
      if block.Genesis? || block.parent !in td {
        return Some(UnknownAncestor);
      }
      var externTd := td[block.parent] + block.info.difficulty;
      td := td[block := externTd];
      blocks := blocks + {block};
      return if committed then None else Some(StateCommitFailed);
    }

    ghost function Summed(again: multiset<Log>, missed: multiset<Log>): Summary
      reads this
    {
      Summary(blocks, currentBlock, again, missed)
    }

    lemma TdDetermined()
      requires Stored()
      ensures td == TdOf(blocks)
    {
    }

    method WriteBlockAndSetHead(block: Block, hints: ForkChoice.Hints, committed: bool,
                                ghost surplus: multiset<Log>, ghost missing: multiset<Log>)
      returns (status: WriteStatus, err: Option<Error>)
      requires Indexed()
      modifies this
      ensures status.CanonStat? ==> Indexed() && currentBlock == block
      ensures !status.CanonStat? ==>
        canon == old(canon) && lookup == old(lookup) && feed == old(feed) && Marked(old(currentBlock))
      ensures err.None? || err == Some(StateCommitFailed) ==> blocks == old(blocks) + {block}
      ensures err.Some? <==> status.NonStat?
      ensures status.CanonStat? && TxsUnique(block) && old(LookupExact(lookup, currentBlock)) ==>
        LookupExact(lookup, block)
      ensures status.CanonStat? && old(Tracks(feed, surplus + LogsOf(currentBlock), missing)) ==>
        Tracks(feed, surplus + Reannounced(old(currentBlock), block) + LogsOf(block), missing)
      ensures status.CanonStat? ==> HeadAnnounced(old(feed), feed, old(currentBlock), block)
      // in a valid state nothing but an unknown parent or a failed commit is refused, and validity is kept
      ensures old(Valid()) ==> (err.None? <==> block.Child? && block.parent in old(blocks) && committed)
      ensures old(Valid()) && TxsUnique(block) ==> Valid()
      // the block becomes the head exactly if the fork choice rule says so, and otherwise the head stays
      ensures old(Valid()) ==>
        (status.CanonStat? <==>
          block.Child? && block.parent in old(blocks) && committed
          && ForkChoice.ReorgNeeded(td, ttd, old(currentBlock), block, hints).Switch?)
      ensures old(Valid()) && !status.CanonStat? ==> currentBlock == old(currentBlock)
      // which is what the summary says
      ensures old(Valid()) ==>
        var again := if status.CanonStat? then Reannounced(old(currentBlock), block) else multiset{};
        Summary(blocks, currentBlock, surplus + again, missing)
        == Step(old(Summed(surplus, missing)), ttd, WriteAndSetHead(block, hints, committed))
      // before the merge the head never loses total difficulty
      ensures old(Valid()) && TxsUnique(block) && ttd.None? ==>
        TotalDifficulty(old(currentBlock)) <= TotalDifficulty(currentBlock)
    {
      hide Held, Tracks, LogsOf, CanonOf, TxsUnique, LookupExact, Announced, HeadAnnounced;
      err := WriteBlockWithState(block, committed);
      if err.Some? {
        return NonStat, err;
      }
      if Stored() {
        TdDetermined();
      }
      var decision := ForkChoice.ReorgNeeded(td, ttd, currentBlock, block, hints);
      if decision.MissingTd? {
        return NonStat, Some(MissingTd);
      }
      if decision.Keep? {
        return SideStat, None;
      }
      err := InstallAndAnnounce(block, block.info.logs, surplus, missing);
      status := if err.None? then CanonStat else NonStat;
    }

    /** The head's own logs complete what a listener holds; it gets them twice if it had them before. */
    method AnnounceHead(ghost oldHead: Block, head: Block, logs: seq<Log>,
                        ghost surplus: multiset<Log>, ghost missing: multiset<Log>)
      requires head.Child? || IsAncestor(head, oldHead)
      modifies this`feed
      ensures logs == head.info.logs && old(Tracks(feed, surplus + LogsOf(ReorgTarget(oldHead, head)), missing)) ==>
        Tracks(feed, surplus + Reannounced(oldHead, head) + LogsOf(head), missing)
      ensures feed == old(feed) + if logs == [] then [] else [NewLogs(logs)]
    {
      HeadLogs(oldHead, head, surplus);
      hide LogsOf, Tracks, ReorgTarget, Reannounced;
      if |logs| > 0 {
        SendNew(logs, surplus + LogsOf(ReorgTarget(oldHead, head)), missing);
      }
    }

    /** Installs a head and announces its logs. */
    method InstallAndAnnounce(head: Block, logs: seq<Log>, ghost surplus: multiset<Log>, ghost missing: multiset<Log>)
      returns (err: Option<Error>)
      requires Indexed()
      modifies this`canon, this`lookup, this`headHeaderHash, this`headFastHash, this`headBlockHash,
               this`currentHeader, this`currentSnapBlock, this`currentBlock, this`feed
      ensures err.None? <==> ParentHash(head) == Some(old(currentBlock)) || Connected(old(currentBlock), head)
      ensures err.Some? ==> unchanged(this)
      ensures err.None? ==> Indexed() && currentBlock == head
      ensures err.None? && TxsUnique(head) && old(LookupExact(lookup, currentBlock)) ==> LookupExact(lookup, head)
      ensures err.None? && logs == head.info.logs ==>
        && HeadAnnounced(old(feed), feed, old(currentBlock), head)
        && (old(Tracks(feed, surplus + LogsOf(currentBlock), missing)) ==>
             Tracks(feed, surplus + Reannounced(old(currentBlock), head) + LogsOf(head), missing))
      ensures old(Stored()) && old(currentBlock) in blocks && head in blocks ==> err.None?
    {
      hide Announced, HeadAnnounced, Tracks, LogsOf, CanonOf, Stored, Connected, TxsUnique, LookupExact, Reannounced,
        ReorgTarget;
      ghost var oldHead := currentBlock;
      err := InstallHead(head, surplus, missing);
      if err.Some? {
        return;
      }
      ghost var mid := feed;
      AnnounceHead(oldHead, head, logs, surplus, missing);
      if logs == head.info.logs {
        AnnouncedWithHead(old(feed), mid, feed, oldHead, head);
      }
    }

    /** Makes a block the head, once its state is there. */
    method SetCanonical(head: Block, recovered: bool, ghost surplus: multiset<Log>, ghost missing: multiset<Log>)
      returns (err: Option<Error>)
      requires Indexed()
      modifies this`canon, this`lookup, this`headHeaderHash, this`headFastHash, this`headBlockHash,
               this`currentHeader, this`currentSnapBlock, this`currentBlock, this`feed
      ensures err.None? <==>
        recovered && (ParentHash(head) == Some(old(currentBlock)) || Connected(old(currentBlock), head))
      ensures err.Some? ==> unchanged(this)
      ensures err.None? ==> Indexed() && currentBlock == head
      ensures err.None? && TxsUnique(head) && old(LookupExact(lookup, currentBlock)) ==> LookupExact(lookup, head)
      ensures err.None? && head in blocks && old(Tracks(feed, surplus + LogsOf(currentBlock), missing)) ==>
        Tracks(feed, surplus + Reannounced(old(currentBlock), head) + LogsOf(head), missing)
      ensures err.None? && head in blocks ==> HeadAnnounced(old(feed), feed, old(currentBlock), head)
      ensures old(Valid()) && head in blocks ==> err.Some? == !recovered
      ensures old(Valid()) && head in blocks && TxsUnique(head) ==> Valid()
    {
      if !recovered {
        return Some(StateMissing);
      }
      hide HeadAnnounced, Tracks, LogsOf, CanonOf, TxsUnique, LookupExact;
      err := InstallAndAnnounce(head, CollectLogs(head), surplus, missing);
    }

    /** Makes an already stored block the head without executing it; its own logs are not announced,
        so a listener misses them unless the block was canonical. */
    method WriteKnownBlock(block: Block, ghost surplus: multiset<Log>, ghost missing: multiset<Log>)
      returns (err: Option<Error>)
      requires Indexed()
      modifies this`canon, this`lookup, this`headHeaderHash, this`headFastHash, this`headBlockHash,
               this`currentHeader, this`currentSnapBlock, this`currentBlock, this`feed
      ensures err.None? <==> ParentHash(block) == Some(old(currentBlock)) || Connected(old(currentBlock), block)
      ensures err.Some? ==> unchanged(this)
      ensures err.None? ==> Indexed() && currentBlock == block
      ensures err.None? && old(Tracks(feed, surplus + LogsOf(currentBlock), missing)) ==>
        Tracks(feed, surplus + LogsOf(block), missing + Unannounced(old(currentBlock), block))
      ensures err.None? ==> Announced(old(feed), feed, old(currentBlock), block)
      ensures old(Valid()) && block in blocks ==> err.None?
      ensures old(Valid()) && block in blocks && TxsUnique(block) ==> Valid()
    {
      TargetCases(currentBlock, block);
      hide Held, CanonOf, TxsUnique, LookupExact, Announced;
      ghost var target := ReorgTarget(currentBlock, block);
      ghost var unsent := Unannounced(currentBlock, block);
      err := InstallHead(block, surplus, missing);
      if err.None? {
        assert surplus + LogsOf(block) == surplus + LogsOf(target) + unsent;
        if Tracks(feed, surplus + LogsOf(target), missing) {
          TracksAfterMiss(feed, unsent, surplus + LogsOf(target), missing);
        }
      }
    }

    /** Any run of head changes ends in the head that the summary of the run says, with both indexes
        exactly those of its chain. A listener holds exactly the logs of that chain plus those that were
        announced again if and only if it missed none. */
    method Run(ops: seq<Op>) returns (sum: Summary)
      requires Valid() && Holds(feed, LogsOf(currentBlock))
      requires forall op :: op in ops ==> TxsUnique(op.block)
      modifies this
      ensures Valid()
      ensures sum == Summarize(old(Summed(multiset{}, multiset{})), ttd, ops)
      ensures sum.blocks == blocks && sum.head == currentBlock
      ensures Holds(feed, sum.again + LogsOf(currentBlock)) <==>
        forall i :: 0 <= i < |ops| ==> !MissesAt(old(Summed(multiset{}, multiset{})), ttd, ops, i)
      ensures Tracks(feed, sum.again + LogsOf(currentBlock), sum.missed)
    {
      sum := Summary(blocks, currentBlock, multiset{}, multiset{});
      ghost var start := sum;
      assert multiset{} + LogsOf(currentBlock) == LogsOf(currentBlock);
      assert Tracks(feed, sum.again + LogsOf(currentBlock), sum.missed);
      hide Step, Valid, Holds, Tracks, LogsOf, TxsUnique;
      for i := 0 to |ops|
        invariant Valid()
        invariant sum == Summarize(start, ttd, ops[..i]) && sum == Summed(sum.again, sum.missed)
        invariant Tracks(feed, sum.again + LogsOf(currentBlock), sum.missed)
      {
        SummarizeStep(start, ttd, ops, i);
        sum := Apply(ops[i], sum.again, sum.missed);
      }
      assert ops[..|ops|] == ops;
      TracksExactly(feed, sum.again + LogsOf(currentBlock), sum.missed);
      NothingMissed(start, ttd, ops);
    }

    /** One head change does what its step of the summary says, for a listener too. */
    method Apply(op: Op, again: multiset<Log>, missed: multiset<Log>) returns (sum: Summary)
      requires Valid() && TxsUnique(op.block)
      modifies this
      ensures Valid() && sum == Summed(sum.again, sum.missed)
      ensures sum == Step(old(Summed(again, missed)), ttd, op)
      ensures old(Tracks(feed, again + LogsOf(currentBlock), missed)) ==>
        Tracks(feed, sum.again + LogsOf(currentBlock), sum.missed)
    {
      sum := Step(Summary(blocks, currentBlock, again, missed), ttd, op);
      hide LogsOf, Held;
      match op
      case WriteAndSetHead(block, hints, committed) =>
        var status, err := WriteBlockAndSetHead(block, hints, committed, again, missed);
      case SetCanonical(head, recovered) =>
        // callers hand over a block they looked up in the database
        if head in blocks {
          var err := SetCanonical(head, recovered, again, missed);
        }
      case WriteKnown(block) =>
        if block in blocks {
          var err := WriteKnownBlock(block, again, missed);
        }
    }
  }

  /** The logs of a chain, given highest block first, from its lowest block up to position `i`. */
  function LogsUp(chain: seq<Block>, i: nat): seq<Log>
    decreases |chain| - i
  {
    if i >= |chain| then [] else LogsUp(chain, i + 1) + chain[i].info.logs
  }

  /** The logs of the ancestors of `b` above height `k`, in the order of the chain. */
  function LogsFrom(b: Block, k: nat): seq<Log>
    requires k <= Number(b)
  {
    if k == Number(b) then [] else LogsFrom(b.parent, k) + b.info.logs
  }

  lemma {:induction false} LogsUpTail(chain: seq<Block>, i: nat)
    requires chain != []
    ensures LogsUp(chain, i + 1) == LogsUp(chain[1..], i)
    decreases |chain| - i
  {
    if i + 1 < |chain| {
      LogsUpTail(chain, i + 1);
    }
  }

  lemma {:induction false} LogsUpAbove(b: Block, k: nat)
    requires k <= Number(b)
    ensures LogsUp(Above(b, k), 0) == LogsFrom(b, k)
    ensures k < Number(b) ==> LogsUp(Above(b, k), 1) == LogsFrom(b.parent, k)
  {
    if k < Number(b) {
      LogsUpAbove(b.parent, k);
      assert Above(b, k)[1..] == Above(b.parent, k);
      LogsUpTail(Above(b, k), 0);
    }
  }

  /** What a reorg sends: the logs of the dropped blocks as removed, then those of the new chain below its
      head as new, both in the order of their chains. */
  ghost predicate Announced(before: seq<LogEvent>, after: seq<LogEvent>, oldHead: Block, newHead: Block) {
    exists c, mid :: ForkPoint(c, oldHead, newHead) && AnnouncedAbove(before, mid, after, oldHead, newHead, c)
  }

  ghost predicate AnnouncedAbove(before: seq<LogEvent>, mid: seq<LogEvent>, after: seq<LogEvent>,
                                 oldHead: Block, newHead: Block, c: Block)
    requires ForkPoint(c, oldHead, newHead)
  {
    && Batched(before, mid, true, LogsFrom(oldHead, Number(c)))
    && Batched(mid, after, false, LogsFrom(ReorgTarget(oldHead, newHead), Number(c)))
  }

  lemma AnnouncedChains(before: seq<LogEvent>, mid: seq<LogEvent>, after: seq<LogEvent>,
                        oldHead: Block, newHead: Block, c: Block)
    requires ForkPoint(c, oldHead, newHead)
    requires Batched(before, mid, true, LogsUp(Above(oldHead, Number(c)), 0))
    requires Batched(mid, after, false, LogsUp(Above(newHead, Number(c)), 1))
    ensures Announced(before, after, oldHead, newHead)
  {
    hide Batched;
    ForkPointCases(c, oldHead, newHead);
    LogsUpAbove(oldHead, Number(c));
    LogsUpAbove(newHead, Number(c));
    assert AnnouncedAbove(before, mid, after, oldHead, newHead, c);
  }

  /** Extending the chain by one block needs no reorg. */
  lemma NothingAnnounced(feed: seq<LogEvent>, oldHead: Block, head: Block)
    requires ParentHash(head) == Some(oldHead)
    ensures Announced(feed, feed, oldHead, head)
  {
    NoBatch(feed, true);
    NoBatch(feed, false);
    TargetCases(oldHead, head);
    assert AnnouncedAbove(feed, feed, feed, oldHead, head, oldHead);
  }

  /** What a head change sends in all: what a reorg does, then the logs of the head, if there are any. */
  ghost predicate HeadAnnounced(before: seq<LogEvent>, after: seq<LogEvent>, oldHead: Block, head: Block) {
    var last := if head.info.logs == [] then [] else [NewLogs(head.info.logs)];
    exists mid :: Announced(before, mid, oldHead, head) && after == mid + last
  }

  lemma AnnouncedWithHead(before: seq<LogEvent>, mid: seq<LogEvent>, after: seq<LogEvent>, oldHead: Block, head: Block)
    requires Announced(before, mid, oldHead, head)
    requires after == mid + if head.info.logs == [] then [] else [NewLogs(head.info.logs)]
    ensures HeadAnnounced(before, after, oldHead, head)
  {
  }

  lemma Appended<T>(done: seq<T>, pending: seq<T>, more: seq<T>)
    ensures done + pending + more == done + (pending + more)
    ensures done + [] == done
  {
  }

  lemma FullIsBatched(before: seq<LogEvent>, feed: seq<LogEvent>, removed: bool, logs: seq<Log>)
    requires FullBatches(before, feed, removed, logs)
    ensures Batched(before, feed, removed, logs)
  {
  }

  lemma RebornStart(held: multiset<Log>, chain: seq<Block>)
    ensures chain != [] ==> held + multiset([]) + LogsIn(chain[1..|chain|]) == held + LogsIn(chain[1..])
  {
    assert chain != [] ==> chain[1..|chain|] == chain[1..];
  }

  /** The blocks still to do lose their last one, whose logs become pending. */
  lemma RebornStep(sent: multiset<Log>, chain: seq<Block>, i: nat, pending: seq<Log>)
    requires 1 <= i < |chain|
    ensures sent + multiset(pending) + LogsIn(chain[1..i + 1])
            == sent + multiset(pending + chain[i].info.logs) + LogsIn(chain[1..i])
  {
    assert chain[1..i + 1] == chain[1..i] + [chain[i]];
    LogsInStep(chain[1..i], chain[i]);
  }

  lemma RebornEnd(sent: multiset<Log>, chain: seq<Block>, pending: seq<Log>)
    ensures chain != [] ==> sent + multiset(pending) + LogsIn(chain[1..1]) == sent + multiset(pending)
    ensures sent + multiset{} == sent
    ensures pending == [] ==> sent + multiset(pending) == sent
  {
  }

  lemma NothingPending(keep: multiset<Log>, chain: seq<Block>)
    ensures keep + LogsIn(chain) + multiset([]) == keep + LogsIn(chain)
  {
  }

  lemma NothingIn(keep: multiset<Log>, chain: seq<Block>)
    ensures keep + LogsIn(chain[..0]) == keep && forall pending: multiset<Log> :: pending + multiset([]) == pending
  {
  }

  /** Collecting the logs of one more block moves them from the blocks still to do to the pending ones. */
  lemma PendingStep(keep: multiset<Log>, chain: seq<Block>, i: nat, pending: seq<Log>)
    requires i < |chain|
    ensures keep + LogsIn(chain[..i + 1]) + multiset(pending)
            == keep + LogsIn(chain[..i]) + multiset(pending + chain[i].info.logs)
  {
    assert chain[..i + 1] == chain[..i] + [chain[i]];
    LogsInStep(chain[..i], chain[i]);
  }

  /** The logs of the dropped chain and of the reborn part of the new chain, both above the fork point. */
  lemma SwitchedLogs(common: Block, oldHead: Block, newHead: Block, surplus: multiset<Log>)
    requires ForkPoint(common, oldHead, newHead)
    ensures surplus + LogsOf(oldHead) == surplus + LogsOf(common) + LogsIn(Above(oldHead, Number(common)))
    ensures var newChain := Above(newHead, Number(common));
      surplus + LogsOf(ReorgTarget(oldHead, newHead)) ==
      surplus + LogsOf(common) + (if newChain == [] then multiset{} else LogsIn(newChain[1..]))
  {
    RebornChain(common, oldHead, newHead);
    hide LogsOf, LogsIn, Above, ReorgTarget, ForkPoint;
    LogsSplit(oldHead, Number(common));
    LogsSplit(ReorgTarget(oldHead, newHead), Number(common));
    Associate(surplus, LogsOf(common), LogsIn(Above(oldHead, Number(common))));
    Associate(surplus, LogsOf(common), LogsIn(Above(ReorgTarget(oldHead, newHead), Number(common))));
  }

  /** The blocks of the new chain below its head are those of the reorg target. */
  lemma RebornChain(common: Block, oldHead: Block, newHead: Block)
    requires ForkPoint(common, oldHead, newHead)
    ensures var target, newChain := ReorgTarget(oldHead, newHead), Above(newHead, Number(common));
      && IsAncestor(common, target)
      && LogsIn(Above(target, Number(common))) == if newChain == [] then multiset{} else LogsIn(newChain[1..])
  {
    ForkPointCases(common, oldHead, newHead);
  }

  lemma Associate<T>(a: multiset<T>, b: multiset<T>, c: multiset<T>)
    ensures a + (b + c) == a + b + c
  {
  }

  /** The head's logs on top of those of the reorg target. */
  lemma HeadLogs(oldHead: Block, head: Block, surplus: multiset<Log>)
    requires head.Child? || IsAncestor(head, oldHead)
    ensures var before := surplus + LogsOf(ReorgTarget(oldHead, head));
      && before + multiset(head.info.logs) == surplus + Reannounced(oldHead, head) + LogsOf(head)
      && (head.info.logs == [] ==> before == surplus + Reannounced(oldHead, head) + LogsOf(head))
  {
    TargetCases(oldHead, head);
  }

  lemma TargetCases(oldHead: Block, head: Block)
    ensures var target := ReorgTarget(oldHead, head);
      target == head || (head.Child? && target == head.parent)
    ensures ParentHash(head) == Some(oldHead) ==> ReorgTarget(oldHead, head) == oldHead
  {
  }

  /** Adding the head's own entry to the index of the reorg target gives the index of the head. */
  lemma InstallCanon(oldHead: Block, head: Block)
    ensures CanonOf(ReorgTarget(oldHead, head))[Number(head) := head] == CanonOf(head)
  {
  }

  lemma InstallLookupAt(target: Block, head: Block, lookup: map<TxHash, nat>, n: nat, t: TxHash)
    requires target == head || (head.Child? && target == head.parent)
    requires TxsUnique(head) && LookupExact(lookup, target)
    ensures n <= Number(head) && t in At(head, n).info.txs <==> (t, n) in (lookup + LookupEntries(head)).Items
  {
    if t in head.info.txs {
      assert t in At(head, Number(head)).info.txs;
    } else if t in lookup {
      assert t in At(target, lookup[t]).info.txs;
    }
  }

  /** Adding the head's own transactions to the lookup of the reorg target gives the lookup of the head. */
  lemma InstallLookup(oldHead: Block, head: Block, lookup: map<TxHash, nat>)
    ensures TxsUnique(head) && LookupExact(lookup, ReorgTarget(oldHead, head)) ==>
      LookupExact(lookup + LookupEntries(head), head)
  {
    var target := ReorgTarget(oldHead, head);
    TargetCases(oldHead, head);
    hide LookupExact, TxsUnique, At, Number, LookupEntries, ReorgTarget;
    if TxsUnique(head) && LookupExact(lookup, target) {
      forall n: nat, t
        ensures n <= Number(head) && t in At(head, n).info.txs <==> (t, n) in (lookup + LookupEntries(head)).Items
      {
        InstallLookupAt(target, head, lookup, n, t);
      }
      ExactIfItems(lookup + LookupEntries(head), head);
    }
  }

  // ---- inputs that leave a listener with the wrong logs ----

  const HEAVY: Block := Child(FIRST, Info(5, 1, 1, [], [], 0))
  const LOGGED: Block := Child(FIRST, Info(1, 1, 2, [], [7], 0))

  /** A block with a log comes in on the side of a heavier one. */
  const IMPORTS: seq<Op> :=
    [WriteAndSetHead(HEAVY, ForkChoice.NO_HINTS, true), WriteAndSetHead(LOGGED, ForkChoice.NO_HINTS, true)]

  lemma Imported()
    ensures Summarize(Summary({FIRST}, FIRST, multiset{}, multiset{}), None, IMPORTS)
      == Summary({FIRST, HEAVY, LOGGED}, HEAVY, multiset{}, multiset{})
    ensures TxsUnique(HEAVY) && TxsUnique(LOGGED)
  {
    var start := Summary({FIRST}, FIRST, multiset{}, multiset{});
    assert IMPORTS[..0] == [] && IMPORTS[..2] == IMPORTS;
    SummarizeStep(start, None, IMPORTS, 0);
    SummarizeStep(start, None, IMPORTS, 1);
    assert {FIRST} + {HEAVY} + {LOGGED} == {FIRST, HEAVY, LOGGED};
  }

  /** Making the side block the head by `writeKnownBlock` misses its log. */
  lemma KnownBlockMisses()
    ensures MissesLogs(Summary({FIRST, HEAVY, LOGGED}, HEAVY, multiset{}, multiset{}), WriteKnown(LOGGED))
  {
    assert !IsAncestor(LOGGED, HEAVY);
  }

  method MissedLog() returns (c: BlockChain)
    ensures fresh(c) && c.Valid() && c.currentBlock == LOGGED && !Holds(c.feed, LogsOf(LOGGED))
  {
    Imported();
    KnownBlockMisses();
    c := new BlockChain(FIRST, None);
    assert Holds(c.feed, LogsOf(FIRST));
    var sum := c.Run(IMPORTS);
    sum := c.Apply(WriteKnown(LOGGED), multiset{}, multiset{});
    assert multiset([7])[7] == 1;
    TracksExactly(c.feed, multiset{} + LogsOf(LOGGED), sum.missed);
    assert multiset{} + LogsOf(LOGGED) == LogsOf(LOGGED);
  }

  /** Making the head canonical once more announces its log a second time. */
  lemma CanonicalAgain()
    ensures var s := Summary({FIRST, LOGGED}, LOGGED, multiset{}, multiset{});
      AnnouncesAgain(s, None, SetCanonical(LOGGED, true))
        && Step(s, None, SetCanonical(LOGGED, true)).again == multiset{7}
  {
    assert IsAncestor(LOGGED, LOGGED);
    assert multiset([7]) == multiset{7};
  }

  lemma LoggedImported()
    ensures var s := Summary({FIRST}, FIRST, multiset{}, multiset{});
      Step(s, None, WriteAndSetHead(LOGGED, ForkChoice.NO_HINTS, true))
      == Summary({FIRST, LOGGED}, LOGGED, multiset{}, multiset{})
  {
    assert {FIRST} + {LOGGED} == {FIRST, LOGGED};
    assert !IsAncestor(LOGGED, FIRST);
  }

  method LogTwice() returns (c: BlockChain)
    ensures fresh(c) && c.Valid() && c.currentBlock == LOGGED && Holds(c.feed, multiset{7} + LogsOf(LOGGED))
  {
    Imported();
    LoggedImported();
    CanonicalAgain();
    c := new BlockChain(FIRST, None);
    assert Holds(c.feed, LogsOf(FIRST));
    hide Step, Holds, Held, LogsOf, TxsUnique;
    var sum := c.Apply(WriteAndSetHead(LOGGED, ForkChoice.NO_HINTS, true), multiset{}, multiset{});
    sum := c.Apply(SetCanonical(LOGGED, true), multiset{}, multiset{});
  }
}
