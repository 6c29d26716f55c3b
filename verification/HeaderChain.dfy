/** The header chain: insertion, reorganisation, rewind and ancestor lookup (core/headerchain.go). */
module HeaderChains {
  import opened Chain
  import opened Rewinds
  import ForkChoice

  datatype Error = UnknownAncestor | Aborted | MissingTd | MissingParent

  datatype WriteStatus = NonStat | CanonStat | SideStat

  /** A validated import: consecutive headers, each the parent of the next. */
  ghost predicate Chained(list: seq<Block>) {
    forall i, j :: 0 <= i && i + 1 == j < |list| ==> ParentHash(list[j]) == Some(list[i])
  }

  /** The headers of an import are the ancestors of its last header. */
  lemma {:induction false} ChainedAt(list: seq<Block>, i: nat, j: nat)
    requires Chained(list) && i <= j < |list|
    ensures Number(list[i]) + j == Number(list[j]) + i
    ensures At(list[j], Number(list[i])) == list[i]
    decreases j
  {
    if i < j {
      ChainedAt(list, i, j - 1);
      assert ParentHash(list[j]) == Some(list[j - 1]);
    }
  }

  /** The hash of a header of an import, read off the next header where there is one. */
  function HashAt(list: seq<Block>, i: nat): (hash: Hash)
    requires Chained(list) && i < |list|
    ensures hash == list[i]
  {
    if i < |list| - 1 then
      assert ParentHash(list[i + 1]) == Some(list[i]);
      ParentHash(list[i + 1]).value
    else list[i]
  }

  /** The total difficulty just before the header at position `i` of an import. */
  ghost function TdBefore(list: seq<Block>, i: nat): nat
    requires i <= |list| && list != [] && list[0].Child?
  {
    if i == 0 then TotalDifficulty(list[0].parent) else TotalDifficulty(list[i - 1])
  }

  lemma TdStep(list: seq<Block>, i: nat)
    requires Chained(list) && i < |list| && list[0].Child?
    ensures TdBefore(list, i + 1) == TotalDifficulty(list[i]) == TdBefore(list, i) + list[i].info.difficulty
  {
    assert i > 0 ==> ParentHash(list[i]) == Some(list[i - 1]);
  }

  /** Headers stored at height `n` on any fork. */
  function AllHashes(headers: set<Hash>, n: nat): set<Hash> {
    set h | h in headers && Number(h) == n
  }

  /** The slots below `hi` hold the ancestors of `b`. */
  ghost predicate Slots(canon: map<nat, Hash>, b: Block, hi: nat)
    requires hi <= Number(b) + 1
  {
    forall n: nat :: n < hi ==> n in canon && canon[n] == At(b, n)
  }

  lemma SlotsComplete(canon: map<nat, Hash>, b: Block)
    requires Slots(canon, b, Number(b) + 1) && forall n :: n in canon ==> n <= Number(b)
    ensures canon == CanonOf(b)
  {
  }

  lemma SlotsLower(canon: map<nat, Hash>, a: Block, b: Block, hi: nat)
    requires IsAncestor(a, b) && hi <= Number(a) + 1 && Slots(canon, a, hi)
    ensures Slots(canon, b, hi)
  {
    forall n: nat | n < hi ensures At(a, n) == At(b, n) {
      AtAt(b, Number(a), n);
    }
  }

  lemma {:induction false} WriteLowest(m: map<nat, Hash>, b: Block, k: nat)
    requires k <= Number(b)
    ensures CanonDown(m, b, k)[0 := At(b, 0)] == CanonDown(m[0 := At(b, 0)], b, k)
    decreases Number(b) - k
  {
    if k < Number(b) {
      WriteLowest(m, b, k + 1);
    }
  }

  lemma SlotsLowered(canon: map<nat, Hash>, a: Block, top: Block, slots: set<nat>)
    requires IsAncestor(a, top) && canon == CanonOf(top) - slots && Covers(slots, Number(a), Number(top))
    ensures canon == CanonOf(a)
  {
    forall n: nat | n <= Number(a) ensures At(top, n) == At(a, n) {
      AtAt(top, Number(a), n);
    }
  }

  function NumbersOf(headers: set<Hash>): map<Hash, nat> {
    map h | h in headers :: Number(h)
  }

  /** The total difficulty of every header: the sum of difficulties along its parent links. */
  function TdsOf(headers: set<Hash>): map<Hash, nat> {
    map h | h in headers :: TotalDifficulty(h)
  }

  lemma FlushMaps(headers: set<Hash>, batch: map<Hash, nat>)
    requires batch == TdsOf(batch.Keys)
    ensures NumbersOf(headers) + NumbersOf(batch.Keys) == NumbersOf(headers + batch.Keys)
    ensures TdsOf(headers) + batch == TdsOf(headers + batch.Keys)
  {
  }

  /** A rewind target: a timestamp if one is given, otherwise a height. */
  predicate Done(h: Block, headBlock: nat, headTime: nat) {
    if headTime > 0 then h.info.time <= headTime else Number(h) <= headBlock
  }

  /** No ancestor of `top` above height `k`, nor `top` itself, meets the target. */
  ghost predicate UndoneAbove(top: Block, k: nat, headBlock: nat, headTime: nat) {
    forall n: nat :: k < n <= Number(top) ==> !Done(At(top, n), headBlock, headTime)
  }

  lemma UndoneTop(h: Block, top: Block, headBlock: nat, headTime: nat)
    requires IsAncestor(h, top) && h != top && UndoneAbove(top, Number(h), headBlock, headTime)
    ensures !Done(top, headBlock, headTime)
  {
    assert !Done(At(top, Number(top)), headBlock, headTime);
  }

  lemma UndoneStep(top: Block, k: nat, headBlock: nat, headTime: nat)
    requires 0 < k <= Number(top) && UndoneAbove(top, k, headBlock, headTime) && !Done(At(top, k), headBlock, headTime)
    ensures At(top, k).Child? && At(top, k).parent == At(top, k - 1)
    ensures UndoneAbove(top, k - 1, headBlock, headTime)
  {
    AboveStep(top, k);
  }

  /** The slots above height `k` up to `top` are among `slots`, and nothing at or below `k` is. */
  ghost predicate Covers(slots: set<nat>, k: nat, top: nat) {
    (forall n: nat :: k < n <= top ==> n in slots) && forall n :: n in slots ==> n > k
  }

  function HashesAbove(headers: set<Hash>, n: nat): set<Hash> {
    set h | h in headers && Number(h) > n
  }

  lemma NothingAbove(headers: set<Hash>, n: nat)
    ensures HashesAbove(headers - HashesAbove(headers, n), n) == {}
  {
  }

  function HashesAt(headers: set<Hash>, nums: seq<nat>): set<Hash> {
    set h | h in headers && Number(h) in nums
  }

  // ---- what a run of imports and rewinds comes to ----

  datatype Op =
    | Import(list: seq<Block>, hints: ForkChoice.Hints)
    | Rewind(headBlock: nat, headTime: nat)

  /** The stored headers and the head; the canonical slots and total difficulties follow from them. */
  datatype Summary = Summary(headers: set<Hash>, head: Block)

  /** The highest ancestor of `head` that meets a rewind target, or the genesis header. */
  function RewoundHead(head: Block, headBlock: nat, headTime: nat): (h: Block)
    ensures IsAncestor(h, head)
  {
    if head.Genesis? || Done(head, headBlock, headTime) then head
    else
      ParentIsAncestor(head);
      AncestorTransitive(RewoundHead(head.parent, headBlock, headTime), head.parent, head);
      RewoundHead(head.parent, headBlock, headTime)
  }

  lemma {:induction false} RewoundHeadUnique(h: Block, head: Block, headBlock: nat, headTime: nat)
    requires IsAncestor(h, head) && Done(h, headBlock, headTime) && UndoneAbove(head, Number(h), headBlock, headTime)
    ensures h == RewoundHead(head, headBlock, headTime)
  {
    if Number(h) < Number(head) {
      assert !Done(At(head, Number(head)), headBlock, headTime);
      forall n: nat | Number(h) < n <= Number(head.parent) ensures !Done(At(head.parent, n), headBlock, headTime) {
        assert !Done(At(head, n), headBlock, headTime);
      }
      RewoundHeadUnique(h, head.parent, headBlock, headTime);
    }
  }

  function Step(s: Summary, genesis: Block, ttd: Option<nat>, op: Op): Summary {
    match op
    case Import(list, hints) =>
      if list == [] || list[0].Genesis? || list[0].parent !in s.headers then s
      else
        var headers := s.headers + set h | h in list;
        var last := list[|list| - 1];
        // an import that is on the canonical chain already is left alone
        var switch := ForkChoice.ReorgNeeded(TdsOf(headers), ttd, s.head, last, hints).Switch?
          && !IsAncestor(last, s.head);
        Summary(headers, if switch then last else s.head)
    case Rewind(headBlock, headTime) =>
      if headTime > 0 && genesis.info.time > headTime then s
      else if Done(s.head, headBlock, headTime) then s
      else
        var head := RewoundHead(s.head, headBlock, headTime);
        Summary(s.headers - HashesAbove(s.headers, Number(head)), head)
  }

  function Summarize(s: Summary, genesis: Block, ttd: Option<nat>, ops: seq<Op>): Summary {
    if ops == [] then s else Step(Summarize(s, genesis, ttd, ops[..|ops| - 1]), genesis, ttd, ops[|ops| - 1])
  }

  lemma SummarizeStep(s: Summary, genesis: Block, ttd: Option<nat>, ops: seq<Op>, i: nat)
    requires i < |ops|
    ensures Summarize(s, genesis, ttd, ops[..i + 1]) == Step(Summarize(s, genesis, ttd, ops[..i]), genesis, ttd, ops[i])
  {
    assert ops[..i + 1][..i] == ops[..i];
  }

  ghost predicate Heaviest(s: Summary) {
    s.head in s.headers && forall h :: h in s.headers ==> TotalDifficulty(h) <= TotalDifficulty(s.head)
  }

  lemma {:induction false} TdGrows(a: Block, b: Block)
    requires IsAncestor(a, b)
    ensures TotalDifficulty(a) <= TotalDifficulty(b)
  {
    if Number(a) < Number(b) {
      TdGrows(a, b.parent);
    }
  }

  /** An import whose total difficulty has not reached the terminal one. */
  ghost predicate EarlyImport(ttd: Option<nat>, op: Op) {
    && op.Import? && Chained(op.list)
    && (op.list != [] ==> !ForkChoice.Trusted(ttd, TotalDifficulty(op.list[|op.list| - 1])))
  }

  lemma HeaviestStep(s: Summary, genesis: Block, ttd: Option<nat>, op: Op)
    requires Heaviest(s) && EarlyImport(ttd, op)
    ensures Heaviest(Step(s, genesis, ttd, op))
  {
    var list := op.list;
    if list != [] && list[0].Child? && list[0].parent in s.headers {
      var last := list[|list| - 1];
      forall h | h in list ensures TotalDifficulty(h) <= TotalDifficulty(last) {
        var i :| 0 <= i < |list| && list[i] == h;
        ChainedAt(list, i, |list| - 1);
        TdGrows(h, last);
      }
      if IsAncestor(last, s.head) {
        TdGrows(last, s.head);
      }
      var tds := TdsOf(s.headers + set h | h in list);
      assert tds[s.head] == TotalDifficulty(s.head) && tds[last] == TotalDifficulty(last);
    }
  }

  /** Before the terminal total difficulty is reached and without rewinds the head is always a heaviest
      header. */
  lemma {:induction false} HeaviestHead(s: Summary, genesis: Block, ttd: Option<nat>, ops: seq<Op>)
    requires Heaviest(s) && forall op :: op in ops ==> EarlyImport(ttd, op)
    ensures Heaviest(Summarize(s, genesis, ttd, ops))
  {
    if ops != [] {
      HeaviestHead(s, genesis, ttd, ops[..|ops| - 1]);
      assert EarlyImport(ttd, ops[|ops| - 1]);
      HeaviestStep(Summarize(s, genesis, ttd, ops[..|ops| - 1]), genesis, ttd, ops[|ops| - 1]);
    }
  }

  // ---- the head block on the way down ----

  /** The head block of `store` after a rewind from `b`, coming from `current`; `None` if some step of
      the way down dereferences a missing block. */
  ghost function WayDown(store: BlockStore, v: View, b: Block, headBlock: nat, headTime: nat,
                         current: Block): Option<Block> {
    if b.Genesis? || Done(b, headBlock, headTime) then Some(current)
    else
      match store.HeadAfter(v, b.parent, current)
      case None => None
      case Some(next) => WayDown(store, v, b.parent, headBlock, headTime, next)
  }

  /** Where the head block lands when the header chain is rewound to `header` with complete bodies, no
      requested root and no pivot: it stays if it was lower already, and otherwise goes to the highest
      block with a usable state at or below the header. */
  ghost predicate Landed(store: BlockStore, v: View, header: Block, before: Block, after: Block) {
    if Number(before) < Number(header) then after == before else store.Best(v, header, after)
  }

  /** What a rewind with complete bodies, no requested root and no pivot starts from. */
  ghost predicate Plain(store: BlockStore, v: View, b: Block, before: Block) {
    && store.root.None? && store.pivot.None? && store.genesisBlock.Genesis?
    && ParentClosed(v.blocks) && before in v.blocks && At(before, 0) == store.genesisBlock
    && (IsAncestor(before, b) || IsAncestor(b, before))
  }

  lemma LandedStep(store: BlockStore, v: View, b: Block, before: Block, current: Block)
    requires b.Child? && Plain(store, v, b, before)
    requires current == before || Landed(store, v, b, before, current)
    ensures Plain(store, v, b.parent, before)
    ensures var next := store.HeadAfter(v, b.parent, current);
      next.Some? && Landed(store, v, b.parent, before, next.value)
  {
    var p := b.parent;
    OnLine(b, before);
    if Number(p) <= Number(before) {
      ParentStored(v, b, before);
      store.WalkBest(v, p, Number(p));
      BestBelow(store, v, b, current);
    }
  }

  lemma OnLine(b: Block, before: Block)
    requires b.Child? && (IsAncestor(before, b) || IsAncestor(b, before))
    ensures IsAncestor(before, b.parent) || IsAncestor(b.parent, before)
  {
    ParentIsAncestor(b);
    if IsAncestor(b, before) {
      AncestorTransitive(b.parent, b, before);
    }
  }

  /** Below the head block the whole chain is stored. */
  lemma ParentStored(v: View, b: Block, before: Block)
    requires b.Child? && ParentClosed(v.blocks) && before in v.blocks
    requires IsAncestor(before, b) || IsAncestor(b, before)
    requires Number(b.parent) <= Number(before)
    ensures forall n: nat :: n <= Number(b.parent) ==> At(b.parent, n) in v.blocks
    ensures At(b.parent, 0) == At(before, 0)
  {
    forall n: nat | n <= Number(b.parent) ensures At(b.parent, n) == At(before, n) && At(before, n) in v.blocks {
      if IsAncestor(before, b) {
        AtAt(b, Number(before), n);
      } else {
        AtAt(before, Number(b), n);
      }
      AncestorsIn(v.blocks, before, n);
    }
  }

  /** The best block stays the best one as long as it is low enough. */
  lemma BestBelow(store: BlockStore, v: View, b: Block, best: Block)
    requires b.Child?
    ensures store.Best(v, b, best) && Number(best) <= Number(b.parent) ==> store.Best(v, b.parent, best)
  {
    if store.Best(v, b, best) && Number(best) <= Number(b.parent) {
      forall n: nat | Number(best) < n <= Number(b.parent) ensures At(b.parent, n).info.root !in v.roots {
        assert At(b, n) == At(b.parent, n);
      }
    }
  }

  /** A rewind of at least one step lands where it should. */
  lemma {:induction false} WayDownLands(store: BlockStore, v: View, b: Block, headBlock: nat, headTime: nat,
                                        before: Block, current: Block)
    requires Plain(store, v, b, before)
    requires Landed(store, v, b, before, current) || (current == before && !Done(b, headBlock, headTime) && b.Child?)
    ensures var end := WayDown(store, v, b, headBlock, headTime, current);
      end.Some? && Landed(store, v, RewoundHead(b, headBlock, headTime), before, end.value)
  {
    if b.Child? && !Done(b, headBlock, headTime) {
      LandedStep(store, v, b, before, current);
      WayDownLands(store, v, b.parent, headBlock, headTime, before, store.HeadAfter(v, b.parent, current).value);
    }
  }

  /** With complete bodies no step runs into a missing block. */
  lemma {:induction false} ClosedWayDown(store: BlockStore, b: Block, headBlock: nat, headTime: nat, current: Block)
    requires store.Closed()
    ensures WayDown(store, store.Seen(), b, headBlock, headTime, current).Some?
  {
    if b.Child? && !Done(b, headBlock, headTime) {
      if b.parent in store.bodies {
        store.ClosedEnd(b.parent, Number(b.parent));
      }
      ClosedWayDown(store, b.parent, headBlock, headTime, store.HeadAfter(store.Seen(), b.parent, current).value);
    }
  }

  datatype RewindResult = Rewound | Rejected | Panicked

  class HeaderChain {
    // database
    var headers: set<Hash>
    var numbers: map<Hash, nat>
    var tds: map<Hash, nat>
    var canon: map<nat, Hash>
    var headHeaderHash: Hash
    // memory
    var currentHeader: Block
    var currentHeaderHash: Hash
    const genesisHeader: Block
    const ttd: Option<nat>
    // caches; the header a hash stands for is the hash itself in this model
    var headerCache: set<Hash>
    var tdCache: map<Hash, nat>
    var numberCache: map<Hash, nat>

    /** A new chain stands at its genesis header. */
    constructor (genesisHeader: Block, ttd: Option<nat>)
      requires genesisHeader.Genesis?
      ensures Valid() && headers == {genesisHeader} && currentHeader == genesisHeader
      ensures this.genesisHeader == genesisHeader && this.ttd == ttd
    {
      this.genesisHeader, this.ttd := genesisHeader, ttd;
      headers, numbers := {genesisHeader}, map[genesisHeader := 0];
      tds, canon := map[genesisHeader := genesisHeader.info.difficulty], map[0 := genesisHeader];
      headHeaderHash, currentHeader, currentHeaderHash := genesisHeader, genesisHeader, genesisHeader;
      headerCache, tdCache, numberCache := {}, map[], map[];
    }

    /** Every stored header has its number, its parent and the sum of difficulties along its parents. */
    ghost predicate Stored()
      reads this`headers, this`numbers, this`tds
    {
      && genesisHeader.Genesis? && genesisHeader in headers
      && numbers == NumbersOf(headers) && tds == TdsOf(headers)
      && ParentClosed(headers)
      && (forall h :: h in headers ==> At(h, 0) == genesisHeader)
    }

    /** The canonical slots are exactly the ancestors of the current header. */
    ghost predicate Indexed()
      reads this`canon, this`headHeaderHash, this`currentHeader, this`currentHeaderHash
    {
      && canon == CanonOf(currentHeader)
      && headHeaderHash == currentHeader && currentHeaderHash == currentHeader
    }

    /** The caches hold nothing but members of `known`, each with its own number and total difficulty. */
    ghost predicate CachesWithin(known: set<Hash>)
      reads this`headerCache, this`tdCache, this`numberCache
    {
      && headerCache <= known && tdCache.Keys <= known && numberCache.Keys <= known
      && (forall h :: h in tdCache ==> tdCache[h] == TotalDifficulty(h))
      && (forall h :: h in numberCache ==> numberCache[h] == Number(h))
    }

    /** Whatever the caches hold is what the database holds. */
    ghost predicate Coherent()
      reads this`headers, this`headerCache, this`tdCache, this`numberCache
    {
      CachesWithin(headers)
    }

    ghost predicate Valid()
      reads this
    {
      Stored() && Indexed() && Coherent() && currentHeader in headers
    }

    /** Inserting into a full LRU cache evicts other entries; which ones is left open. */
    method CacheTd(hash: Hash, td: nat)
      modifies this`tdCache
      ensures hash in tdCache && tdCache[hash] == td
      ensures forall h :: h in tdCache && h != hash ==> h in old(tdCache) && tdCache[h] == old(tdCache)[h]
    {
      var kept: set<Hash> := *;
      tdCache := (map h | h in tdCache && h in kept :: tdCache[h])[hash := td];
    }

    method CacheHeader(hash: Hash)
      modifies this`headerCache
      ensures hash in headerCache && headerCache <= old(headerCache) + {hash}
    {
      var kept: set<Hash> := *;
      headerCache := headerCache * kept + {hash};
    }

    method CacheNumber(hash: Hash, number: nat)
      modifies this`numberCache
      ensures hash in numberCache && numberCache[hash] == number
      ensures forall h :: h in numberCache && h != hash ==>
        h in old(numberCache) && numberCache[h] == old(numberCache)[h]
    {
      var kept: set<Hash> := *;
      numberCache := (map h | h in numberCache && h in kept :: numberCache[h])[hash := number];
    }

    method GetTd(hash: Option<Hash>) returns (td: Option<nat>)
      requires Stored() && Coherent()
      modifies this`tdCache
      ensures Coherent()
      ensures td == if hash.Some? && hash.value in tds then Some(tds[hash.value]) else None
    {
      if hash.None? {
        return None;
      }
      if hash.value in tdCache {
        return Some(tdCache[hash.value]);
      }
      if hash.value !in tds {
        return None;
      }
      CacheTd(hash.value, tds[hash.value]);
      return Some(tds[hash.value]);
    }

    method GetHeader(hash: Option<Hash>) returns (header: Option<Block>)
      requires Coherent()
      modifies this`headerCache
      ensures Coherent()
      ensures header == if hash.Some? && hash.value in headers then hash else None
    {
      if hash.None? {
        return None;
      }
      if hash.value in headerCache {
        return hash;
      }
      if hash.value !in headers {
        return None;
      }
      CacheHeader(hash.value);
      return hash;
    }

    method GetBlockNumber(hash: Hash) returns (number: Option<nat>)
      requires Stored() && Coherent()
      modifies this`numberCache
      ensures Coherent()
      ensures number == if hash in numbers then Some(numbers[hash]) else None
    {
      if hash in numberCache {
        return Some(numberCache[hash]);
      }
      if hash !in numbers {
        return None;
      }
      CacheNumber(hash, numbers[hash]);
      return Some(numbers[hash]);
    }

    predicate HasHeader(hash: Hash)
      reads this`headers, this`headerCache, this`numberCache
    {
      hash in numberCache || hash in headerCache || hash in headers
    }

    /** The stored headers of an import form a prefix of it, as the database is closed under parents. */
    lemma KnownPrefix(list: seq<Block>, i: nat, j: nat)
      requires Stored() && Chained(list) && i <= j < |list| && list[j] in headers
      ensures list[i] in headers
    {
      ChainedAt(list, i, j);
      AncestorsIn(headers, list[j], Number(list[i]));
    }

    /** Adds a header to the batch and the caches unless it is known; after an unknown parent the
        database is not asked. */
    method Stage(batch: map<Hash, nat>, header: Block, td: nat, parentKnown: bool)
      returns (alreadyKnown: bool, next: map<Hash, nat>)
      requires Stored() && CachesWithin(headers + batch.Keys) && header !in batch && td == TotalDifficulty(header)
      requires if parentKnown then Coherent() else header !in headers
      modifies this`headerCache, this`tdCache, this`numberCache
      ensures alreadyKnown <==> header in headers
      ensures next == if alreadyKnown then batch else batch[header := td]
      ensures CachesWithin(headers + next.Keys)
      ensures alreadyKnown ==> Coherent()
      ensures !alreadyKnown ==> header in tdCache
    {
      alreadyKnown, next := parentKnown && HasHeader(header), batch;
      if !alreadyKnown {
        next := batch[header := td];
        CacheTd(header, td);
        CacheHeader(header);
        CacheNumber(header, Number(header));
      }
    }

    /** Flushes the batch: each header with its number and total difficulty. */
    method Flush(batch: map<Hash, nat>)
      requires Stored() && CachesWithin(headers + batch.Keys)
      requires batch.Keys !! headers
      requires forall h :: h in batch ==> h.Child? && (h.parent in headers || h.parent in batch)
      requires batch == TdsOf(batch.Keys)
      requires forall h :: h in batch ==> At(h, 0) == genesisHeader
      modifies this`headers, this`numbers, this`tds
      ensures Stored() && Coherent()
      ensures headers == old(headers) + batch.Keys
    {
      FlushMaps(headers, batch);
      hide NumbersOf, TdsOf;
      headers := headers + batch.Keys;
      numbers := numbers + NumbersOf(batch.Keys);
      tds := tds + batch;
    }

    /** The first `known` headers of the import are stored, and the batch holds exactly the following
        ones up to `i`, none of them stored, each with its total difficulty. */
    ghost predicate Staged(list: seq<Block>, known: nat, i: nat, batch: map<Hash, nat>)
      reads this`headers
    {
      && known <= i <= |list|
      && (forall k :: 0 <= k < known ==> list[k] in headers)
      && (forall k :: known <= k < i ==> list[k] !in headers && list[k] in batch)
      && (forall h :: h in batch ==> h in list[known..i])
      && batch == TdsOf(batch.Keys)
    }

    lemma StagedStep(list: seq<Block>, known: nat, i: nat, batch: map<Hash, nat>)
      requires Chained(list) && Stored() && Staged(list, known, i, batch) && i < |list|
      ensures list[i] !in batch
      ensures known < i ==> list[i] !in headers
      ensures list[i] in headers ==> known == i && Staged(list, i + 1, i + 1, batch)
      ensures list[i] !in headers ==> Staged(list, known, i + 1, batch[list[i] := TotalDifficulty(list[i])])
    {
      if known < i && list[i] in headers {
        KnownPrefix(list, known, i);
      }
      forall k | known <= k < i ensures list[k] != list[i] {
        ChainedAt(list, k, i);
      }
      assert list[known..i + 1] == list[known..i] + [list[i]];
    }

    lemma StagedDone(list: seq<Block>, known: nat, batch: map<Hash, nat>)
      requires Chained(list) && Stored() && list != [] && Staged(list, known, |list|, batch)
      requires list[0].Child? && list[0].parent in headers
      ensures batch.Keys !! headers && headers + batch.Keys == headers + set h | h in list
      ensures forall h :: h in batch ==> h.Child? && (h.parent in headers || h.parent in batch)
      ensures forall h :: h in batch ==> At(h, 0) == genesisHeader
    {
      forall h | h in batch
        ensures h.Child? && (h.parent in headers || h.parent in batch) && At(h, 0) == genesisHeader
      {
        var k :| known <= k < |list| && list[k] == h;
        ChainedAt(list, 0, k);
        AtAt(h, Number(list[0]), 0);
        if k > 0 {
          assert ParentHash(list[k]) == Some(list[k - 1]);
        }
      }
    }

    /** What the collection has reached before the header at position `i`. */
    ghost predicate Staging(list: seq<Block>, known: nat, i: nat, batch: map<Hash, nat>)
      reads this`headers, this`headerCache, this`tdCache, this`numberCache
    {
      && Staged(list, known, i, batch) && CachesWithin(headers + batch.Keys)
      && (known == i ==> Coherent())
      && (known < i ==> list[i - 1] in tdCache)
    }

    /** Takes the next header of an import into the batch, unless it is known. */
    method StageNext(list: seq<Block>, i: nat, td: nat, batch: map<Hash, nat>, parentKnown: bool, ghost known: nat)
      returns (alreadyKnown: bool, next: map<Hash, nat>)
      requires Chained(list) && Stored() && i < |list| && list[0].Child?
      requires Staging(list, known, i, batch) && (parentKnown <==> known == i) && td == TdBefore(list, i + 1)
      modifies this`headerCache, this`tdCache, this`numberCache
      ensures Staging(list, if alreadyKnown then known + 1 else known, i + 1, next)
      ensures alreadyKnown ==> known == i && next == batch
      ensures !alreadyKnown ==> |next| == |batch| + 1
    {
      var hash := HashAt(list, i);
      TdStep(list, i);
      StagedStep(list, known, i, batch);
      alreadyKnown, next := Stage(batch, hash, td, parentKnown);
    }

    /** Collects the headers of an import that are not known yet, with their total difficulty. Once
        one header is unknown the presence of the following ones is not checked any more. */
    method StageAll(list: seq<Block>, ptd: nat) returns (inserted: nat, batch: map<Hash, nat>, ghost known: nat)
      requires Chained(list) && Stored() && Coherent() && list != []
      requires list[0].Child? && ptd == TotalDifficulty(list[0].parent)
      modifies this`headerCache, this`tdCache, this`numberCache
      ensures Staged(list, known, |list|, batch) && CachesWithin(headers + batch.Keys)
      ensures inserted == |batch|
      // the caches are ahead of the database exactly if the last header is not stored yet
      ensures Coherent() <==> list[|list| - 1] in headers
    {
      inserted := 0;
      var newTD := ptd;
      var parentKnown := true;
      batch := map[];
      known := 0;
      var i := 0;
      while i < |list|
        invariant i <= |list| && Staging(list, known, i, batch) && inserted == |batch|
        invariant newTD == TdBefore(list, i)
        invariant parentKnown <==> known == i
      {
        TdStep(list, i);
        newTD := newTD + list[i].info.difficulty;
        parentKnown, batch := StageNext(list, i, newTD, batch, parentKnown, known);
        if parentKnown {
          known := known + 1;
        } else {
          inserted := inserted + 1;
        }
        i := i + 1;
      }
    }

    /** Stores the headers of an import that are not known yet, with their total difficulty. */
    method WriteHeaders(list: seq<Block>, interrupted: bool) returns (inserted: nat, err: Option<Error>)
      requires Chained(list) && Stored() && Coherent()
      modifies this`headers, this`numbers, this`tds, this`headerCache, this`tdCache, this`numberCache
      ensures Stored()
      ensures err == if list == [] then None
                     else if list[0].Genesis? || list[0].parent !in old(headers) then Some(UnknownAncestor)
                     else if interrupted then Some(Aborted) else None
      ensures err.Some? ==> headers == old(headers)
      ensures err.None? ==> headers == old(headers) + (set h | h in list)
      ensures err.None? ==> inserted == |headers - old(headers)|
      ensures err != Some(Aborted) ==> Coherent()
      // an abort leaves nothing in the caches but what is stored or was about to be, and so they agree with
      // the database exactly if the whole import was stored before
      ensures err == Some(Aborted) ==> CachesWithin(headers + (set h | h in list))
      ensures err == Some(Aborted) ==> (Coherent() <==> list[|list| - 1] in headers)
    {
      inserted, err := 0, None;
      if list == [] {
        return;
      }
      var ptd := GetTd(ParentHash(list[0]));
      if ptd.None? {
        return 0, Some(UnknownAncestor);
      }
      var batch; ghost var known;
      inserted, batch, known := StageAll(list, ptd.value);
      StagedDone(list, known, batch);
      if interrupted {
        return 0, Some(Aborted);
      }
      Flush(batch);
      assert headers - old(headers) == batch.Keys;
    }

    /** Deletes every canonical slot above `number` from the pending image of the database. */
    method DeleteAbove(number: nat) returns (pending: map<nat, Hash>)
      requires Indexed()
      ensures forall n :: n in pending <==> n in canon && n <= number
      ensures forall n :: n in pending ==> pending[n] == canon[n]
    {
      pending := canon;
      var i := number + 1;
      while i in canon
        invariant number < i && (i <= Number(currentHeader) + 1 || i == number + 1)
        invariant forall n :: n in pending <==> n in canon && !(number < n < i)
        invariant forall n :: n in pending ==> pending[n] == canon[n]
        decreases Number(currentHeader) + 1 - i
      {
        pending := pending - {i};
        i := i + 1;
      }
    }

    predicate Canonical(b: Block)
      reads this`canon
    {
      Number(b) in canon && canon[Number(b)] == b
    }

    /** No ancestor of `b` above height `k`, nor `b` itself, is canonical. */
    ghost predicate StaleAbove(b: Block, k: nat)
      reads this`canon
    {
      forall n: nat :: k < n <= Number(b) ==> !Canonical(At(b, n))
    }

    /** The ancestors of `b` from height `k` on are stored. */
    ghost predicate StoredDown(b: Block, k: nat)
      reads this`headers
    {
      forall n: nat :: k <= n < Number(b) ==> At(b, n) in headers
    }

    /** The walk back from `b` first meets a canonical ancestor at height `k`, or ends at height 0. */
    ghost predicate CrossLink(b: Block, k: nat)
      reads this`canon
    {
      k <= Number(b) && (k == 0 || Canonical(At(b, k))) && StaleAbove(b, k)
    }

    /** No header is missing on the walk back from `b` to its cross link. */
    ghost predicate Linked(b: Block)
      reads this`canon, this`headers
    {
      exists k: nat :: CrossLink(b, k) && StoredDown(b, k)
    }

    lemma WalkStep(b: Block, k: nat)
      requires 0 < k <= Number(b) && StaleAbove(b, k) && StoredDown(b, k) && !Canonical(At(b, k))
      ensures At(b, k).Child? && At(b, k).parent == At(b, k - 1)
      ensures StaleAbove(b, k - 1)
      ensures At(b, k - 1) in headers ==> StoredDown(b, k - 1)
      ensures At(b, k - 1) !in headers ==> !Linked(b)
    {
      AboveStep(b, k);
      if At(b, k - 1) !in headers {
        NotLinked(b, k);
      }
    }

    lemma NotLinked(b: Block, k: nat)
      requires 0 < k <= Number(b) && StaleAbove(b, k - 1) && At(b, k - 1) !in headers
      ensures !Linked(b)
    {
    }

    /** Below the cross link both chains agree, so the ancestors of `first` fill all slots up to it. */
    lemma CrossLinkAgrees(first: Block, k: nat, before: map<nat, Hash>)
      requires Indexed() && k <= Number(first)
        && (Canonical(At(first, k)) || (k == 0 && 0 in before && before[0] == At(first, 0)))
      requires forall n: nat :: n < k ==> n in before && n in canon && before[n] == canon[n]
      requires Canonical(At(first, k)) ==> k in before && before[k] == canon[k]
      ensures Slots(CanonDown(before, first, k), first, Number(first) + 1)
      ensures forall n: nat :: n > Number(first) ==> (n in CanonDown(before, first, k) <==> n in before)
    {
      forall n: nat | n <= Number(first)
        ensures n in CanonDown(before, first, k) && CanonDown(before, first, k)[n] == At(first, n)
      {
        CanonDownAt(before, first, k, n);
        if n < k {
          AtAt(currentHeader, k, n);
          AtAt(first, k, n);
        }
      }
      forall n: nat | n > Number(first) ensures n in CanonDown(before, first, k) <==> n in before {
        CanonDownAt(before, first, k, n);
      }
    }

    /** Overwrites stale slots from `first` backwards to the cross link between the two chains. */
    method OverwriteStale(first: Block, before: map<nat, Hash>) returns (missing: bool, pending: map<nat, Hash>)
      requires Indexed() && Coherent()
      requires forall n: nat :: n <= Number(first) ==>
        (n in before <==> n in canon) && (n in canon ==> before[n] == canon[n])
      modifies this`headerCache
      ensures Coherent()
      ensures missing <==> !Linked(first)
      ensures !missing ==> Slots(pending, first, Number(first) + 1)
      ensures !missing ==> forall n: nat :: n > Number(first) ==> (n in pending <==> n in before)
    {
      missing, pending := false, before;
      var header := first;
      var headNumber: nat := Number(first);
      while !Canonical(header)
        invariant Coherent()
        invariant headNumber <= Number(first) && header == At(first, headNumber)
        invariant StaleAbove(first, headNumber) && StoredDown(first, headNumber)
        invariant pending == CanonDown(before, first, headNumber)
        decreases headNumber
      {
        pending := pending[headNumber := header];
        if headNumber == 0 {
          assert CrossLink(first, 0);
          CrossLinkAgrees(first, 0, before[0 := At(first, 0)]);
          WriteLowest(before, first, 0);
          return;
        }
        WalkStep(first, headNumber);
        var parent := GetHeader(ParentHash(header));
        if parent.None? {
          missing := true;
          return;
        }
        header, headNumber := parent.value, headNumber - 1;
      }
      assert CrossLink(first, headNumber);
      CrossLinkAgrees(first, headNumber, before);
    }

    /** Piles the headers of an import onto the slots of its parent. */
    method PileUp(list: seq<Block>, before: map<nat, Hash>) returns (pending: map<nat, Hash>)
      requires Chained(list) && list != []
      requires Slots(before, list[0], Number(list[0]))
      requires forall n :: n in before ==> n <= Number(list[|list| - 1])
      ensures pending == CanonOf(list[|list| - 1])
    {
      pending := before;
      var last := list[|list| - 1];
      ChainedAt(list, 0, |list| - 1);
      var i := 0;
      SlotsLower(before, list[0], last, Number(list[0]));
      while i < |list| - 1
        invariant 0 <= i <= |list| - 1
        invariant Number(list[i]) <= Number(last) && Slots(pending, last, Number(list[i]))
        invariant forall n :: n in pending ==> n <= Number(last)
      {
        ChainedAt(list, i, |list| - 1);
        ChainedAt(list, i, i + 1);
        ChainedAt(list, i + 1, |list| - 1);
        assert ParentHash(list[i + 1]) == Some(list[i]);
        pending := pending[Number(list[i]) := ParentHash(list[i + 1]).value];
        i := i + 1;
      }
      pending := pending[Number(last) := last];
      SlotsComplete(pending, last);
    }

    /** The pending slots under an import that does not extend the current head. */
    method MakeRoom(first: Block, last: Block) returns (missing: bool, pending: map<nat, Hash>)
      requires Indexed() && Coherent() && Number(first) <= Number(last)
      modifies this`headerCache
      ensures Coherent()
      ensures missing <==> !Linked(first)
      ensures !missing ==> Slots(pending, first, Number(first)) && forall n :: n in pending ==> n <= Number(last)
    {
      pending := DeleteAbove(Number(last));
      missing, pending := OverwriteStale(first, pending);
    }

    /** Makes the last header of an import the head. If an ancestor is missing on the way to the
        current canonical chain, nothing in the database changes. */
    method Reorg(list: seq<Block>) returns (err: Option<Error>)
      requires Chained(list) && Indexed() && Coherent()
      modifies this`canon, this`headHeaderHash, this`currentHeader, this`currentHeaderHash, this`headerCache
      ensures Coherent()
      ensures err.None? <==> list == [] || ParentHash(list[0]) == Some(old(currentHeader)) || old(Linked(list[0]))
      ensures err.Some? || list == [] ==>
        canon == old(canon) && headHeaderHash == old(headHeaderHash) && currentHeader == old(currentHeader)
      ensures Indexed()
      ensures err.None? && list != [] ==> currentHeader == list[|list| - 1]
    {
      hide Linked, Chained, IsAncestor, Slots, CachesWithin;
      err := None;
      if list == [] {
        return;
      }
      var first, last := list[0], list[|list| - 1];
      var pending := canon;
      ChainedAt(list, 0, |list| - 1);
      if ParentHash(first) != Some(currentHeaderHash) {
        var missing;
        missing, pending := MakeRoom(first, last);
        if missing {
          return Some(MissingParent);
        }
      } else {
        Extends(first);
      }
      pending := PileUp(list, pending);
      canon, headHeaderHash := pending, last;
      currentHeaderHash := last;
      currentHeader := last;
    }

    /** A child of the current head finds all slots below it in place. */
    lemma Extends(first: Block)
      requires Indexed() && ParentHash(first) == Some(currentHeader)
      ensures Slots(canon, first, Number(first)) && forall n :: n in canon ==> n < Number(first)
    {
    }

    /** In a stored tree no ancestor is missing. */
    lemma StoredLinked(b: Block)
      requires Stored() && Indexed() && currentHeader in headers && b in headers
      ensures Linked(b)
    {
      var k := LowestMatch(b, Number(b));
      forall n: nat | k <= n < Number(b) ensures At(b, n) in headers {
        AncestorsIn(headers, b, n);
      }
    }

    lemma {:induction false} LowestMatch(b: Block, top: nat) returns (k: nat)
      requires top <= Number(b) && StaleAbove(b, top)
      ensures CrossLink(b, k)
    {
      if top == 0 || Canonical(At(b, top)) {
        k := top;
      } else {
        k := LowestMatch(b, top - 1);
      }
    }

    /** Asks the fork choice about a stored import, through the total difficulty cache. */
    method Decide(lastHeader: Block, hints: ForkChoice.Hints) returns (decision: ForkChoice.Decision)
      requires Valid() && lastHeader in headers
      modifies this`tdCache
      ensures Valid()
      ensures decision == ForkChoice.ReorgNeeded(tds, ttd, currentHeader, lastHeader, hints) && !decision.MissingTd?
    {
      var localTd := GetTd(Some(currentHeader));
      var externTd := GetTd(Some(lastHeader));
      decision := ForkChoice.ReorgNeeded(map[currentHeader := localTd.value, lastHeader := externTd.value], ttd,
                                         currentHeader, lastHeader, hints);
    }

    /** Makes the last header of a stored import the head if the fork choice says so. */
    method Adopt(list: seq<Block>, hints: ForkChoice.Hints, inserted: nat)
      returns (status: WriteStatus, err: Option<Error>)
      requires Chained(list) && list != [] && Valid()
      requires list[0] in headers && list[|list| - 1] in headers
      modifies this`canon, this`headHeaderHash, this`currentHeader, this`currentHeaderHash, this`headerCache,
        this`tdCache
      ensures Valid() && err.None?
      ensures var last := list[|list| - 1];
        var decision := ForkChoice.ReorgNeeded(tds, ttd, old(currentHeader), last, hints);
        // an import that is on the canonical chain already is left alone
        currentHeader
          == (if decision.Switch? && !IsAncestor(last, old(currentHeader)) then last else old(currentHeader))
        && (status.CanonStat? <==> decision.Switch? && !IsAncestor(last, old(currentHeader)))
        && (status.SideStat? <==> decision.Keep? && inserted != 0)
      // before the merge the head never loses total difficulty
      ensures ttd.None? ==> TotalDifficulty(old(currentHeader)) <= TotalDifficulty(currentHeader)
    {
      err := None;
      var lastHeader := list[|list| - 1];
      var decision := Decide(lastHeader, hints);
      if decision.Keep? {
        status := if inserted != 0 then SideStat else NonStat;
        return;
      }
      if Canonical(lastHeader) && Number(lastHeader) <= Number(currentHeader) {
        status := NonStat;
        return;
      }
      StoredLinked(list[0]);
      err := Reorg(list);
      status := CanonStat;
    }

    /** Stores an import and makes its last header the head if the fork choice says so. */
    method WriteHeadersAndSetHead(list: seq<Block>, hints: ForkChoice.Hints, interrupted: bool)
      returns (status: WriteStatus, err: Option<Error>)
      requires Chained(list) && list != [] && Valid()
      modifies this`headers, this`numbers, this`tds, this`canon, this`headHeaderHash, this`currentHeader,
               this`currentHeaderHash, this`headerCache, this`tdCache, this`numberCache
      ensures err == if list[0].Genesis? || list[0].parent !in old(headers) then Some(UnknownAncestor)
                     else if interrupted then Some(Aborted) else None
      // refused imports leave the database as it was
      ensures err.Some? ==> headers == old(headers) && currentHeader == old(currentHeader) && Stored() && Indexed()
      ensures err != Some(Aborted) || list[|list| - 1] in headers ==> Valid()
      ensures err == Some(Aborted) && list[|list| - 1] !in headers ==> !Coherent()
      ensures err.None? ==> headers == old(headers) + set h | h in list
      ensures err.None? ==>
        var last := list[|list| - 1];
        var decision := ForkChoice.ReorgNeeded(tds, ttd, old(currentHeader), last, hints);
        // an import that is on the canonical chain already is left alone
        currentHeader
          == (if decision.Switch? && !IsAncestor(last, old(currentHeader)) then last else old(currentHeader))
        && (status.CanonStat? <==> decision.Switch? && !IsAncestor(last, old(currentHeader)))
        && (status.SideStat? <==> decision.Keep? && headers != old(headers))
      // before the merge the head never loses total difficulty
      ensures ttd.None? ==> TotalDifficulty(old(currentHeader)) <= TotalDifficulty(currentHeader)
    {
      hide IsAncestor, TdsOf, NumbersOf, ForkChoice.ReorgNeeded;
      var inserted;
      inserted, err := WriteHeaders(list, interrupted);
      if err.Some? {
        return NonStat, err;
      }
      assert inserted == 0 <==> headers == old(headers) by {
        if inserted == 0 {
          assert headers - old(headers) == {};
        }
      }
      assert list[0] in headers && list[|list| - 1] in headers;
      status, err := Adopt(list, hints, inserted);
    }

    ghost function Summed(): Summary
      reads this
    {
      Summary(headers, currentHeader)
    }

    /** A block store beside the header chain: complete bodies, of stored headers only. */
    ghost predicate Beside(store: BlockStore?)
      reads this`headers, store
    {
      store != null ==> store.genesisBlock == genesisHeader && store.Closed() && store.bodies <= headers
    }

    /** Every run of uninterrupted imports and of rewinds, with or without a block store, ends with the
        headers and the head that its summary says, the slots being exactly the ancestors of that head;
        and no rewind panics. */
    method Run(ops: seq<Op>, store: BlockStore?)
      requires Valid() && Beside(store) && forall op :: op in ops && op.Import? ==> Chained(op.list)
      modifies this
      modifies if store == null then {} else {store}
      ensures Valid() && Beside(store) && Summed() == Summarize(old(Summed()), genesisHeader, ttd, ops)
    {
      for i := 0 to |ops|
        invariant Valid() && Beside(store) && Summed() == Summarize(old(Summed()), genesisHeader, ttd, ops[..i])
      {
        assert ops[i] in ops;
        SummarizeStep(old(Summed()), genesisHeader, ttd, ops, i);
        Apply(ops[i], store);
      }
      assert ops[..|ops|] == ops;
    }

    method Apply(op: Op, store: BlockStore?)
      requires Valid() && Beside(store) && (op.Import? ==> Chained(op.list))
      modifies this
      modifies if store == null then {} else {store}
      ensures Valid() && Beside(store) && Summed() == Step(old(Summed()), genesisHeader, ttd, op)
    {
      match op
      case Import(list, hints) =>
        if list != [] {
          ghost var before := headers;
          var status, err := WriteHeadersAndSetHead(list, hints, false);
          assert before <= headers;
        }
      case Rewind(headBlock, headTime) =>
        ApplyRewind(headBlock, headTime, store);
    }

    method ApplyRewind(headBlock: nat, headTime: nat, store: BlockStore?)
      requires Valid() && Beside(store)
      modifies this`headers, this`numbers, this`tds, this`canon, this`headHeaderHash, this`currentHeader,
               this`currentHeaderHash, this`headerCache, this`tdCache, this`numberCache
      modifies if store == null then {} else {store}
      ensures Valid() && Beside(store)
      ensures Summed() == Step(old(Summed()), genesisHeader, ttd, Rewind(headBlock, headTime))
    {
      var r := SetHead(headBlock, headTime, store);
      if r.Rewound? {
        RewoundHeadUnique(currentHeader, old(currentHeader), headBlock, headTime);
        if store != null {
          BodiesClosed(old(store.bodies), old(headers), Number(currentHeader), genesisHeader);
        }
      }
    }

    /** Dropping all headers above a height, and their bodies, keeps the bodies complete. */
    lemma BodiesClosed(bodies: set<Hash>, before: set<Hash>, n: nat, genesis: Block)
      requires bodies <= before && ParentClosed(bodies) && genesis in bodies && genesis.Genesis?
      ensures var left := bodies - HashesAbove(before, n);
        && ParentClosed(left) && genesis in left && left <= before - HashesAbove(before, n)
        && left == bodies - (before - (before - HashesAbove(before, n)))
      ensures bodies - (before - before) == bodies
    {
    }

    /** The heights above `num` with stored headers, highest first. Reading stops at the first empty
        height; none is missed, as the stored headers are closed under parents. */
    method LevelsAbove(num: nat) returns (nums: seq<nat>)
      requires Stored()
      ensures HashesAt(headers, nums) == HashesAbove(headers, num)
      ensures forall n :: n in nums ==> n > num && AllHashes(headers, n) != {}
    {
      nums := [];
      var n := num + 1;
      while AllHashes(headers, n) != {}
        invariant n > num
        invariant forall m :: m in nums <==> num < m < n
        invariant forall m :: m in nums ==> AllHashes(headers, m) != {}
        decreases HashesAbove(headers, n - 1)
      {
        ghost var h :| h in AllHashes(headers, n);
        assert h in HashesAbove(headers, n - 1) && h !in HashesAbove(headers, n);
        nums := [n] + nums;
        n := n + 1;
      }
      forall h | h in headers && Number(h) >= n ensures AllHashes(headers, n) != {} {
        LowerLevel(h, n);
      }
    }

    lemma LowerLevel(h: Block, n: nat)
      requires Stored() && h in headers && n <= Number(h)
      ensures AllHashes(headers, n) != {}
    {
      AncestorsIn(headers, h, n);
      assert At(h, n) in AllHashes(headers, n);
    }

    /** Collects the hashes stored at the given heights on all forks. */
    method GatherLevels(nums: seq<nat>, hdr: Block) returns (hashes: set<Hash>)
      requires forall n :: n in nums ==> AllHashes(headers, n) != {}
      ensures hashes == HashesAt(headers, nums)
    {
      hashes := {};
      for i := 0 to |nums|
        invariant hashes == HashesAt(headers, nums[..i])
      {
        var level := AllHashes(headers, nums[i]);
        if level == {} {
          level := {hdr};
        }
        hashes := hashes + level;
        assert nums[..i + 1] == nums[..i] + [nums[i]];
      }
      assert nums[..|nums|] == nums;
    }

    /** One step of a rewind: the head markers move to the parent, the block side follows. */
    method StepDown(store: BlockStore?) returns (ok: bool)
      requires Stored() && Coherent() && currentHeader in headers && currentHeader.Child?
      requires store != null ==> store.genesisBlock == genesisHeader
      modifies this`headHeaderHash, this`currentHeader, this`currentHeaderHash, this`headerCache
      modifies if store == null then {} else {store}
      ensures ok ==> currentHeader == currentHeaderHash == headHeaderHash == old(currentHeader).parent
      ensures Coherent()
      ensures store != null ==> store.bodies == old(store.bodies) && (ok ==> old(store.states) <= store.states)
      ensures store != null ==>
        store.HeadAfter(old(store.Seen()), old(currentHeader.parent), old(store.currentBlock))
        == (if ok then Some(store.currentBlock) else None) && store.Seen() == old(store.Seen())
      ensures ok && store != null ==>
        || store.currentBlock == old(store.currentBlock)
        || store.currentBlock == genesisHeader
        || store.currentBlock.info.root in store.states
      ensures ok && store != null && IsAncestor(old(store.currentBlock), old(currentHeader)) ==>
        IsAncestor(store.currentBlock, currentHeader)
      ensures ok && store != null ==> Number(store.currentBlock) <= Number(currentHeader)
      ensures store == null ==> ok
    {
      var parent := GetHeader(ParentHash(currentHeader));
      if parent.None? {
        parent := Some(genesisHeader);
      }
      ok := true;
      if store != null {
        ghost var k;
        ok, k := store.Update(parent.value);
        if !ok {
          return;
        }
      }
      headHeaderHash := parent.value;
      currentHeader := parent.value;
      currentHeaderHash := parent.value;
    }

    lemma DropAboveStored(keep: set<Hash>, n: nat)
      requires Stored() && keep == headers - HashesAbove(headers, n)
      ensures genesisHeader in keep && ParentClosed(keep)
      ensures numbers - (headers - keep) == NumbersOf(keep) && tds - (headers - keep) == TdsOf(keep)
    {
    }

    /** What a rewind leaves of the database: everything up to the new head, on all forks. */
    method DropAbove(hashes: set<Hash>, slots: set<nat>, ghost top: Block)
      requires Stored() && canon == CanonOf(top) && IsAncestor(currentHeader, top)
      requires headHeaderHash == currentHeader && currentHeaderHash == currentHeader && currentHeader in headers
      requires hashes == HashesAbove(headers, Number(currentHeader))
      requires Covers(slots, Number(currentHeader), Number(top))
      modifies this`headers, this`numbers, this`tds, this`canon, this`headerCache, this`tdCache, this`numberCache
      ensures Valid()
      ensures headers == old(headers) - hashes
    {
      DropAboveStored(headers - hashes, Number(currentHeader));
      assert hashes == headers - (headers - hashes);
      headers, numbers, tds := headers - hashes, numbers - hashes, tds - hashes;
      headerCache, tdCache, numberCache := {}, map[], map[];
      canon := canon - slots;
      SlotsLowered(canon, currentHeader, top, slots);
    }

    /** The state of a rewind that started at `top`: the markers are on the way down, and the pending
        batch deletes everything above them. */
    ghost predicate Rewinding(top: Block, headBlock: nat, headTime: nat, origin: bool, hashes: set<Hash>,
                              slots: set<nat>)
      reads this
    {
      && Stored() && Coherent() && currentHeader in headers && IsAncestor(currentHeader, top)
      && headHeaderHash == currentHeader && currentHeaderHash == currentHeader
      && UndoneAbove(top, Number(currentHeader), headBlock, headTime)
      && Covers(slots, Number(currentHeader), Number(top))
      && (origin <==> currentHeader == top)
      && hashes == (if origin then {} else HashesAbove(headers, Number(currentHeader)))
    }

    /** One iteration of a rewind. */
    method RewindStep(store: BlockStore?, ghost top: Block, headBlock: nat, headTime: nat, origin: bool,
                      hashes: set<Hash>, slots: set<nat>)
      returns (ok: bool, hashes': set<Hash>, slots': set<nat>)
      requires Rewinding(top, headBlock, headTime, origin, hashes, slots) && !Done(currentHeader, headBlock, headTime)
      requires currentHeader.Child?
      requires headTime > 0 ==> genesisHeader.info.time <= headTime
      requires store != null ==> store.genesisBlock == genesisHeader
      modifies this`headHeaderHash, this`currentHeader, this`currentHeaderHash, this`headerCache
      modifies if store == null then {} else {store}
      ensures ok ==>
        Rewinding(top, headBlock, headTime, false, hashes', slots') && currentHeader == old(currentHeader).parent
      ensures store != null ==> store.bodies == old(store.bodies) && (ok ==> old(store.states) <= store.states)
      ensures store == null ==> ok
      ensures store != null ==>
        store.HeadAfter(old(store.Seen()), old(currentHeader.parent), old(store.currentBlock))
        == (if ok then Some(store.currentBlock) else None) && store.Seen() == old(store.Seen())
      ensures ok && store != null ==>
        || store.currentBlock == old(store.currentBlock)
        || store.currentBlock == genesisHeader
        || store.currentBlock.info.root in store.states
      ensures ok && store != null && IsAncestor(old(store.currentBlock), old(currentHeader)) ==>
        IsAncestor(store.currentBlock, currentHeader)
      ensures ok && store != null ==> Number(store.currentBlock) <= Number(currentHeader)
    {
      hide Covers, HashesAbove, NumbersOf, TdsOf;
      var hdr := currentHeader;
      var num := Number(hdr);
      UndoneStep(top, num, headBlock, headTime);
      ok := StepDown(store);
      hashes', slots' := PendingDeletes(hdr, origin, hashes, slots, Number(top));
    }

    /** Adds everything stored at the height of the dropped head to the pending batch; the first time
        also whatever is stored above it. */
    method PendingDeletes(hdr: Block, origin: bool, hashes: set<Hash>, slots: set<nat>, ghost top: nat)
      returns (hashes': set<Hash>, slots': set<nat>)
      requires Stored() && hdr in headers && Number(hdr) > 0
      requires hashes == if origin then {} else HashesAbove(headers, Number(hdr))
      requires Covers(slots, Number(hdr), top)
      ensures hashes' == HashesAbove(headers, Number(hdr) - 1)
      ensures Covers(slots', Number(hdr) - 1, top)
    {
      var num := Number(hdr);
      var nums := [];
      if origin {
        nums := LevelsAbove(num);
      }
      assert hdr in AllHashes(headers, num);
      var gathered := GatherLevels(nums + [num], hdr);
      LevelsSplit(nums, num);
      hashes' := hashes + gathered;
      slots' := slots + set n | n in nums + [num];
    }

    lemma LevelsSplit(nums: seq<nat>, num: nat)
      requires num > 0
      ensures HashesAt(headers, nums + [num]) == HashesAt(headers, nums) + AllHashes(headers, num)
      ensures HashesAbove(headers, num) + AllHashes(headers, num) == HashesAbove(headers, num - 1)
      ensures HashesAt(headers, []) == {}
    {
    }

    /** Runs a rewind down to the first header that meets the target. */
    method RewindAll(store: BlockStore?, headBlock: nat, headTime: nat)
      returns (ok: bool, origin: bool, hashes: set<Hash>, slots: set<nat>)
      requires Valid()
      requires headTime > 0 ==> genesisHeader.info.time <= headTime
      requires store != null ==> store.genesisBlock == genesisHeader
      modifies this`headHeaderHash, this`currentHeader, this`currentHeaderHash, this`headerCache
      modifies if store == null then {} else {store}
      ensures ok ==>
        && Rewinding(old(currentHeader), headBlock, headTime, origin, hashes, slots)
        && Done(currentHeader, headBlock, headTime)
      ensures ok ==> (origin <==> Done(old(currentHeader), headBlock, headTime))
      ensures store == null ==> ok
      ensures store != null ==>
        WayDown(store, old(store.Seen()), old(currentHeader), headBlock, headTime, old(store.currentBlock))
        == if ok then Some(store.currentBlock) else None
      ensures ok && store != null ==> store.bodies == old(store.bodies)
      ensures ok && store != null && IsAncestor(old(store.currentBlock), old(currentHeader)) ==>
        IsAncestor(store.currentBlock, currentHeader)
      ensures ok && store != null && !origin ==> Number(store.currentBlock) <= Number(currentHeader)
      ensures ok && store != null ==>
        || store.currentBlock == old(store.currentBlock)
        || store.currentBlock == genesisHeader
        || store.currentBlock.info.root in store.states
    {
      ok, origin, hashes, slots := true, true, {}, {};
      ghost var top, v := currentHeader, if store == null then View({}, {}) else store.Seen();
      while !Done(currentHeader, headBlock, headTime)
        invariant Rewinding(top, headBlock, headTime, origin, hashes, slots)
        invariant store != null ==> store.bodies == old(store.bodies) && store.Seen() == v
        invariant store != null ==>
          WayDown(store, v, top, headBlock, headTime, old(store.currentBlock))
          == WayDown(store, v, currentHeader, headBlock, headTime, store.currentBlock)
        invariant store != null && IsAncestor(old(store.currentBlock), top) ==>
          IsAncestor(store.currentBlock, currentHeader)
        invariant store != null && !origin ==> Number(store.currentBlock) <= Number(currentHeader)
        invariant store != null ==>
          || store.currentBlock == old(store.currentBlock)
          || store.currentBlock == genesisHeader
          || store.currentBlock.info.root in store.states
        decreases Number(currentHeader)
      {
        GenesisDone(headBlock, headTime);
        ok, hashes, slots := RewindStep(store, top, headBlock, headTime, origin, hashes, slots);
        if !ok {
          return;
        }
        origin := false;
      }
      if currentHeader != top {
        UndoneTop(currentHeader, top, headBlock, headTime);
      }
    }

    /** Rewinds the chain to a height, or to a timestamp if `headTime` is given. The new head is the
        highest header of the old canonical chain that meets the target. */
    method SetHead(headBlock: nat, headTime: nat, store: BlockStore?) returns (r: RewindResult)
      requires Valid()
      requires store != null ==> store.genesisBlock == genesisHeader
      modifies this`headers, this`numbers, this`tds, this`canon, this`headHeaderHash, this`currentHeader,
               this`currentHeaderHash, this`headerCache, this`tdCache, this`numberCache
      modifies if store == null then {} else {store}
      ensures r.Rejected? <==> headTime > 0 && genesisHeader.info.time > headTime
      ensures r.Rejected? ==> Valid() && currentHeader == old(currentHeader) && headers == old(headers)
      ensures r.Rejected? && store != null ==> unchanged(store)
      // it panics exactly if a step of the way down does, and never with complete bodies
      ensures store == null ==> !r.Panicked?
      ensures store != null && !r.Rejected? ==>
        WayDown(store, old(store.Seen()), old(currentHeader), headBlock, headTime, old(store.currentBlock))
        == if r.Panicked? then None else Some(store.currentBlock)
      ensures store != null && old(store.Closed()) ==> !r.Panicked?
      // with complete bodies, no requested root and no pivot the head block goes to the highest block with a
      // usable state at or below the new head
      ensures r.Rewound? && store != null && !Done(old(currentHeader), headBlock, headTime)
              && old(Plain(store, store.Seen(), currentHeader, store.currentBlock)) ==>
        Landed(store, old(store.Seen()), currentHeader, old(store.currentBlock), store.currentBlock)
      ensures r.Rewound? ==>
        && Valid()
        && IsAncestor(currentHeader, old(currentHeader)) && Done(currentHeader, headBlock, headTime)
        && UndoneAbove(old(currentHeader), Number(currentHeader), headBlock, headTime)
      // everything above the new head is gone from every fork, unless the old head met the target already
      ensures r.Rewound? ==>
        headers ==
          if Done(old(currentHeader), headBlock, headTime) then old(headers)
          else old(headers) - HashesAbove(old(headers), Number(currentHeader))
      ensures r.Rewound? ==>
        (HashesAbove(headers, Number(currentHeader)) == {} <==>
         !Done(old(currentHeader), headBlock, headTime) || HashesAbove(old(headers), Number(old(currentHeader))) == {})
      ensures r.Rewound? && store != null ==> store.bodies == old(store.bodies) - (old(headers) - headers)
      // the block head never ends up above the header head
      ensures r.Rewound? && store != null && !Done(old(currentHeader), headBlock, headTime) ==>
        Number(store.currentBlock) <= Number(currentHeader)
      ensures r.Rewound? && store != null && IsAncestor(old(store.currentBlock), old(currentHeader)) ==>
        IsAncestor(store.currentBlock, currentHeader)
      ensures r.Rewound? && store != null ==>
        || store.currentBlock == old(store.currentBlock)
        || store.currentBlock == genesisHeader
        || store.currentBlock.info.root in store.states
    {
      hide WayDown, HashesAbove, IsAncestor, UndoneAbove, CachesWithin, BlockStore.Closed, BlockStore.Seen, Plain,
        Landed;
      if headTime > 0 && genesisHeader.info.time > headTime {
        return Rejected;
      }
      if store != null && store.Closed() {
        ClosedWayDown(store, currentHeader, headBlock, headTime, store.currentBlock);
      }
      LandsAt(store, headBlock, headTime);
      var ok, origin, hashes, slots := RewindAll(store, headBlock, headTime);
      if !ok {
        return Panicked;
      }
      NothingAbove(headers, Number(currentHeader));
      RewoundHeadUnique(currentHeader, old(currentHeader), headBlock, headTime);
      Finish(origin, hashes, slots, old(currentHeader), headBlock, headTime);
      if store != null {
        store.bodies := store.bodies - hashes;
      }
      return Rewound;
    }

    lemma LandsAt(store: BlockStore?, headBlock: nat, headTime: nat)
      requires Stored() && currentHeader in headers && (headTime > 0 ==> genesisHeader.info.time <= headTime)
      ensures store != null && !Done(currentHeader, headBlock, headTime)
              && Plain(store, store.Seen(), currentHeader, store.currentBlock) ==>
        var end := WayDown(store, store.Seen(), currentHeader, headBlock, headTime, store.currentBlock);
        && end.Some?
        && Landed(store, store.Seen(), RewoundHead(currentHeader, headBlock, headTime), store.currentBlock, end.value)
    {
      hide Plain, Landed, WayDown, BlockStore.Seen;
      if !Done(currentHeader, headBlock, headTime) {
        GenesisDone(headBlock, headTime);
        if store != null && Plain(store, store.Seen(), currentHeader, store.currentBlock) {
          WayDownLands(store, store.Seen(), currentHeader, headBlock, headTime, store.currentBlock, store.currentBlock);
        }
      }
    }

    /** Flushes the deletions of a rewind and empties the caches. */
    method Finish(origin: bool, hashes: set<Hash>, slots: set<nat>, ghost top: Block, ghost headBlock: nat,
                  ghost headTime: nat)
      requires Rewinding(top, headBlock, headTime, origin, hashes, slots) && canon == CanonOf(top)
      modifies this`headers, this`numbers, this`tds, this`canon, this`headerCache, this`tdCache, this`numberCache
      ensures Valid()
      ensures headers ==
              if origin then old(headers) else old(headers) - HashesAbove(old(headers), Number(currentHeader))
      ensures hashes == old(headers) - headers
    {
      if origin {
        headerCache, tdCache, numberCache := {}, map[], map[];
        return;
      }
      DropAbove(hashes, slots, top);
    }

    lemma GenesisDone(headBlock: nat, headTime: nat)
      requires Stored() && currentHeader in headers && !Done(currentHeader, headBlock, headTime)
      requires headTime > 0 ==> genesisHeader.info.time <= headTime
      ensures currentHeader.Child?
    {
      assert At(currentHeader, 0) == genesisHeader;
    }

    /** The number of steps a walk of length `ancestor` from `b` takes before it meets a canonical block. */
    function SideSteps(b: Block, ancestor: nat): (n: nat)
      requires ancestor <= Number(b)
      reads this`canon
      ensures n <= ancestor
    {
      if ancestor == 0 || Canonical(b) then 0 else 1 + SideSteps(b.parent, ancestor - 1)
    }

    /** The ancestor `ancestor` blocks above `hash`, by the canonical index once the walk meets it.
        `left` is what remains of the budget of blocks that may be visited off the canonical chain. */
    method GetAncestor(hash: Hash, number: nat, ancestor: nat, budget: nat)
      returns (r: Option<Hash>, at: nat, left: nat)
      requires Indexed() && Coherent() && number == Number(hash)
      modifies this`headerCache
      ensures Coherent()
      // whenever the lookup does not fail it returns the result of the plain walk
      ensures r.Some? ==> ancestor <= number && r.value == At(hash, number - ancestor) && at == number - ancestor
      ensures r.None? ==> at == 0
      ensures ancestor > number ==> r.None?
      ensures ancestor == 1 <= number ==> (r.Some? <==> hash in headers) && left == budget
      // otherwise it fails exactly when the budget does not cover the side steps or a header is missing
      ensures ancestor <= number && ancestor != 1 ==>
        (r.Some? <==> SideSteps(hash, ancestor) <= budget && StoredSteps(hash, SideSteps(hash, ancestor)))
      ensures ancestor != 1 && r.Some? ==> left == budget - SideSteps(hash, ancestor)
    {
      left := budget;
      if ancestor > number {
        return None, 0, left;
      }
      if ancestor == 1 {
        var header := GetHeader(Some(hash));
        AboveStep(hash, number);
        if header.Some? {
          return ParentHash(header.value), number - 1, left;
        }
        return None, 0, left;
      }
      var h, n: nat, a: nat := hash, number, ancestor;
      while a != 0
        invariant Coherent()
        invariant a <= n == Number(h) && left <= budget
        invariant At(h, n - a) == At(hash, number - ancestor)
        invariant SideSteps(hash, ancestor) == budget - left + SideSteps(h, a)
        invariant StoredSteps(hash, SideSteps(hash, ancestor)) <==> StoredSteps(h, SideSteps(h, a))
        decreases a
      {
        if Canonical(h) {
          var ancestorHash := if n - a in canon then Some(canon[n - a]) else None;
          if Canonical(h) {
            AtAt(currentHeader, n, n - a);
            return ancestorHash, n - a, left;
          }
        }
        if left == 0 {
          return None, 0, left;
        }
        left, a := left - 1, a - 1;
        var header := GetHeader(Some(h));
        if header.None? {
          return None, 0, left;
        }
        h, n := header.value.parent, n - 1;
      }
      r, at := Some(h), n;
    }

    /** In a stored tree no header is missing on a walk from a stored one, so `GetAncestor` fails
        there only for want of budget. */
    lemma {:induction false} StoredWalk(b: Block, n: nat)
      requires Stored() && b in headers
      ensures StoredSteps(b, n)
    {
      if n > 0 && b.Child? {
        StoredWalk(b.parent, n - 1);
      }
    }

    /** The first `n` headers of the walk from `b` are stored. */
    ghost predicate StoredSteps(b: Block, n: nat)
      reads this`headers
    {
      n > 0 ==> b in headers && (b.Child? ==> StoredSteps(b.parent, n - 1))
    }
  }

  // ---- a rewind that leaves headers above the head ----

  const HEAVY: Block := Child(FIRST, Info(9, 1, 0, [], [], 0))
  const LIGHT: Block := Child(FIRST, Info(1, 1, 0, [], [], 1))
  const LIGHTER: Block := Child(LIGHT, Info(1, 2, 0, [], [], 0))
  const FORKED: seq<Op> :=
    [Import([HEAVY], ForkChoice.NO_HINTS), Import([LIGHT, LIGHTER], ForkChoice.NO_HINTS), Rewind(1, 0)]

  lemma HeavyFirst()
    ensures Step(Summary({FIRST}, FIRST), FIRST, None, FORKED[0]) == Summary({FIRST, HEAVY}, HEAVY)
  {
    assert {FIRST} + (set h | h in [HEAVY]) == {FIRST, HEAVY};
    assert !IsAncestor(HEAVY, FIRST);
  }

  lemma LightBeside()
    ensures Step(Summary({FIRST, HEAVY}, HEAVY), FIRST, None, FORKED[1])
      == Summary({FIRST, HEAVY, LIGHT, LIGHTER}, HEAVY)
  {
    assert {FIRST, HEAVY} + (set h | h in [LIGHT, LIGHTER]) == {FIRST, HEAVY, LIGHT, LIGHTER};
  }

  /** A heavy child of the genesis header is the head, a light fork beside it is longer. The rewind to
      height 1 finds the head low enough and leaves the header at height 2. */
  lemma LeftAboveHead()
    ensures forall op :: op in FORKED && op.Import? ==> Chained(op.list)
    ensures var s := Summarize(Summary({FIRST}, FIRST), FIRST, None, FORKED);
      && s.head == HEAVY && Number(s.head) == 1
      && LIGHTER in HashesAbove(s.headers, 1)
  {
    var s0 := Summary({FIRST}, FIRST);
    assert FORKED[..0] == [] && FORKED[..3] == FORKED;
    SummarizeStep(s0, FIRST, None, FORKED, 0);
    SummarizeStep(s0, FIRST, None, FORKED, 1);
    SummarizeStep(s0, FIRST, None, FORKED, 2);
    HeavyFirst();
    LightBeside();
    hide Summarize, ForkChoice.ReorgNeeded;
    assert Done(HEAVY, 1, 0);
  }

  method LeftAbove() returns (c: HeaderChain)
    ensures fresh(c) && c.Valid() && HashesAbove(c.headers, Number(c.currentHeader)) != {}
  {
    LeftAboveHead();
    c := new HeaderChain(FIRST, None);
    hide Step, Summarize, HeaderChain.Valid;
    c.Run(FORKED, null);
  }
}
