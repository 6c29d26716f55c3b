/** The block side of a chain rewind: the callbacks `updateFn` and `delFn` that
    `setHeadBeyondRoot` (core/blockchain.go) hands to the header chain. */
module Rewinds {
  import opened Chain

  /** What a walk over blocks depends on: the stored blocks, and the state roots that are there or can be
      rolled back to. Recovering a state does not change it. */
  datatype View = View(blocks: set<Hash>, roots: set<Root>)

  class BlockStore {
    // database: bodies and receipts, head markers, available states
    var bodies: set<Hash>
    var headBlockHash: Hash
    var headFastHash: Hash
    var states: set<Root>
    // memory
    var currentBlock: Block
    var currentSnapBlock: Block
    var rootNumber: nat

    const genesisBlock: Block
    const recoverable: set<Root>   // roots the trie database can roll back to
    const pivot: Option<nat>       // last snap sync pivot
    const root: Option<Root>       // state root the rewind must pass, if any

    constructor (genesisBlock: Block, bodies: set<Hash>, states: set<Root>, head: Block,
                 recoverable: set<Root>, pivot: Option<nat>, root: Option<Root>)
      ensures this.genesisBlock == genesisBlock && this.recoverable == recoverable
      ensures this.pivot == pivot && this.root == root
      ensures this.bodies == bodies && this.states == states && currentBlock == currentSnapBlock == head
    {
      this.genesisBlock, this.recoverable, this.pivot, this.root := genesisBlock, recoverable, pivot, root;
      this.bodies, this.states, rootNumber := bodies, states, 0;
      headBlockHash, headFastHash, currentBlock, currentSnapBlock := head, head, head, head;
    }

    function Seen(): View
      reads this`bodies, this`states
    {
      View(bodies, states + recoverable)
    }

    function GetBlock(hash: Option<Hash>): Option<Block>
      reads this`bodies
    {
      if hash.Some? && hash.value in bodies then hash else None
    }

    predicate Usable(b: Block)
      reads this`states
    {
      b.info.root in states || b.info.root in recoverable
    }

    /** The requested root was seen on the walk from `start` down to height `k`. */
    ghost predicate Crossed(start: Block, k: nat) {
      root.None? || exists n: nat :: k <= n <= Number(start) && At(start, n).info.root == root.value
    }

    /** The walk from `start` may settle on its ancestor at height `k`. */
    ghost predicate Settles(v: View, start: Block, k: nat)
      requires k <= Number(start)
    {
      At(start, k).info.root in v.roots && (Crossed(start, k) || k == 0)
    }

    /** The block below height `k` on the walk is missing, or there is none. */
    ghost predicate NothingBelow(v: View, start: Block, k: nat)
      requires k <= Number(start)
    {
      k == 0 || At(start, k - 1) !in v.blocks
    }

    /** At height `k` the walk gives up and aims for the genesis block: a stateless block at or
        below the pivot, or one whose parent is missing. */
    ghost predicate GivesUp(v: View, start: Block, k: nat)
      requires k <= Number(start)
    {
      At(start, k).info.root !in v.roots && ((pivot.Some? && k <= pivot.value) || NothingBelow(v, start, k))
    }

    /** At height `k` the walk dereferences a missing block: the state is there, the requested root
        is not crossed yet, and the parent is gone. */
    ghost predicate Crashes(v: View, start: Block, k: nat)
      requires k <= Number(start)
    {
      At(start, k).info.root in v.roots && !Settles(v, start, k) && NothingBelow(v, start, k)
    }

    ghost predicate Stops(v: View, start: Block, k: nat)
      requires k <= Number(start)
    {
      Settles(v, start, k) || GivesUp(v, start, k) || Crashes(v, start, k)
    }

    /** `k` is the first height on the walk at which it stops. */
    ghost predicate FirstStop(v: View, start: Block, k: nat) {
      && k <= Number(start) && Stops(v, start, k)
      && forall n: nat :: k < n <= Number(start) ==> !Stops(v, start, n)
    }

    /** Where the walk from `start` ends, having come down to height `k`; `None` is the nil dereference. */
    ghost function WalkEnd(v: View, start: Block, k: nat): Option<Block>
      requires k <= Number(start)
    {
      if Settles(v, start, k) then Some(At(start, k))
      else if GivesUp(v, start, k) then Some(genesisBlock)
      else if Crashes(v, start, k) || k == 0 then None
      else WalkEnd(v, start, k - 1)
    }

    /** The walk ends where it first may stop. */
    lemma {:induction false} WalkEndsAt(v: View, start: Block, k: nat, m: nat)
      requires FirstStop(v, start, k) && k <= m <= Number(start)
      ensures Settles(v, start, k) ==> WalkEnd(v, start, m) == Some(At(start, k))
      ensures GivesUp(v, start, k) ==> WalkEnd(v, start, m) == Some(genesisBlock)
      ensures Crashes(v, start, k) <==> WalkEnd(v, start, m).None?
    {
      if k < m {
        assert !Stops(v, start, m);
        WalkEndsAt(v, start, k, m - 1);
      }
    }

    /** `r` is the highest height on the walk down to `k` with the requested root. */
    ghost predicate CrossedAt(start: Block, k: nat, r: nat)
      requires root.Some?
    {
      && k <= r <= Number(start) && At(start, r).info.root == root.value
      && forall n: nat :: r < n <= Number(start) ==> At(start, n).info.root != root.value
    }

    lemma CrossedStep(start: Block, k: nat)
      requires k <= Number(start)
      ensures root.Some? && !Crossed(start, k) ==>
        forall n: nat :: k <= n <= Number(start) ==> At(start, n).info.root != root.value
      ensures Crossed(start, k) <==>
        root.None? || At(start, k).info.root == root.value || (k < Number(start) && Crossed(start, k + 1))
      ensures ParentHash(At(start, k)) == if k == 0 then None else Some(At(start, k - 1))
    {
      if k > 0 {
        AboveStep(start, k);
      }
    }

    /** The walk of `FindHead`: the block it ends at, and the height of the requested root. */
    method Walk(start: Block) returns (head: Option<Block>, seenAt: nat, ghost k: nat)
      requires genesisBlock.Genesis?
      ensures FirstStop(Seen(), start, k)
      ensures Settles(Seen(), start, k) ==> head == Some(At(start, k))
      ensures GivesUp(Seen(), start, k) ==> head == Some(genesisBlock)
      ensures head.None? <==> Crashes(Seen(), start, k)
      ensures if root.Some? && Crossed(start, k) then CrossedAt(start, k, seenAt) else seenAt == rootNumber
    {
      var block := start;
      var beyondRoot := root.None?;
      seenAt := rootNumber;
      k := Number(start);
      while true
        invariant k <= Number(start) && block == At(start, k)
        invariant forall n: nat :: k < n <= Number(start) ==> !Stops(Seen(), start, n)
        invariant beyondRoot <==> root.None? || (k < Number(start) && Crossed(start, k + 1))
        invariant if root.Some? && beyondRoot then CrossedAt(start, k + 1, seenAt) else seenAt == rootNumber
        decreases k
      {
        if root.Some? && !beyondRoot && block.info.root == root.value {
          beyondRoot, seenAt := true, Number(block);
        }
        CrossedStep(start, k);
        if !Usable(block) {
          var parent := if pivot.None? || Number(block) > pivot.value then GetBlock(ParentHash(block)) else None;
          if parent.Some? {
            block := parent.value;
            k := k - 1;
            continue;
          }
          block := genesisBlock;
        }
        if beyondRoot || Number(block) == 0 {
          head := Some(block);
          return;
        }
        var parent := GetBlock(ParentHash(block));
        if parent.None? {
          head := None;
          return;
        }
        block := parent.value;
        k := k - 1;
      }
    }

    /** Walks back from a stored block to the new head block. The walk stops at the first height at
        which it may; `None` stands for the nil dereference. */
    method FindHead(start: Block) returns (head: Option<Block>, ghost k: nat)
      requires genesisBlock.Genesis?
      modifies this`states, this`rootNumber
      ensures FirstStop(old(Seen()), start, k) && head == WalkEnd(old(Seen()), start, Number(start))
      ensures Settles(old(Seen()), start, k) ==> head == Some(At(start, k))
      ensures GivesUp(old(Seen()), start, k) ==> head == Some(genesisBlock)
      ensures head.None? <==> Crashes(old(Seen()), start, k)
      // the state of the block chosen is made available if it can be recovered
      ensures states == old(states)
                        + if head.Some? && head.value.info.root in recoverable then {head.value.info.root} else {}
      // the highest block of the walk with the requested root is reported
      ensures if root.Some? && Crossed(start, k) then CrossedAt(start, k, rootNumber) else rootNumber == old(rootNumber)
    {
      hide FirstStop, Settles, GivesUp, Crashes, Crossed, CrossedAt, WalkEnd;
      head, rootNumber, k := Walk(start);
      WalkEndsAt(Seen(), start, k, Number(start));
      StopsThere(Seen(), start, k);
      if head.Some? {
        Recover(head.value);
      }
    }

    lemma StopsThere(v: View, start: Block, k: nat)
      requires FirstStop(v, start, k)
      ensures k <= Number(start) && (Settles(v, start, k) || GivesUp(v, start, k) || Crashes(v, start, k))
    {
    }

    /** Rolls the trie database back to the state of a block, if it is not there yet. */
    method Recover(block: Block)
      modifies this`states
      ensures states == old(states) + if block.info.root in recoverable then {block.info.root} else {}
    {
      if block.info.root !in states && block.info.root in recoverable {
        states := states + {block.info.root};
      }
    }

    ghost predicate Closed()
      reads this
    {
      && genesisBlock.Genesis? && genesisBlock in bodies
      && ParentClosed(bodies)
      && (forall b :: b in bodies ==> At(b, 0) == genesisBlock)
    }

    /** With complete bodies the walk never runs into a missing block: it settles on an ancestor with
        state, or ends at the genesis block because even that has no state or the pivot was passed. */
    lemma ClosedWalk(start: Block, k: nat)
      requires Closed() && start in bodies && FirstStop(Seen(), start, k)
      ensures !Crashes(Seen(), start, k) && WalkEnd(Seen(), start, Number(start)).Some?
      ensures GivesUp(Seen(), start, k) ==> k == 0 || (pivot.Some? && k <= pivot.value)
      ensures IsAncestor(genesisBlock, start)
    {
      if k > 0 {
        AncestorsIn(bodies, start, k - 1);
      }
      hide WalkEnd;
      WalkEndsAt(Seen(), start, k, Number(start));
    }

    /** Every stateless block the walk passes lies above the pivot. */
    lemma PassedAbovePivot(v: View, start: Block, k: nat, n: nat)
      requires FirstStop(v, start, k) && k < n <= Number(start) && At(start, n).info.root !in v.roots
      ensures pivot.None? || pivot.value < n
    {
      assert !Stops(v, start, n);
    }

    /** The head block after the header chain was rewound to `header`, coming from `current`; `None` is
        the nil dereference. */
    ghost function HeadAfter(v: View, header: Block, current: Block): Option<Block> {
      if Number(header) > Number(current) then Some(current)
      else if header !in v.blocks then Some(genesisBlock)
      else WalkEnd(v, header, Number(header))
    }

    lemma {:induction false} ClosedEnd(start: Block, k: nat)
      requires Closed() && start in bodies && k <= Number(start)
      ensures WalkEnd(Seen(), start, k).Some?
    {
      if k > 0 {
        AncestorsIn(bodies, start, k - 1);
        ClosedEnd(start, k - 1);
      }
    }

    lemma HeadIsLow(v: View, header: Block, k: nat)
      requires genesisBlock.Genesis? && k <= Number(header)
      ensures WalkEnd(v, header, k).Some? ==>
        var b := WalkEnd(v, header, k).value;
        Number(b) <= k && (b == genesisBlock || (IsAncestor(b, header) && b.info.root in v.roots))
    {
    }

    /** `b` is the highest block with a usable state among `start` and its ancestors, or the genesis block
        if there is none. */
    ghost predicate Best(v: View, start: Block, b: Block) {
      && IsAncestor(b, start) && (b.info.root in v.roots || Number(b) == 0)
      && forall n: nat :: Number(b) < n <= Number(start) ==> At(start, n).info.root !in v.roots
    }

    /** With complete bodies, no requested root and no pivot the walk ends at the best block. */
    lemma {:induction false} WalkBest(v: View, start: Block, k: nat)
      requires root.None? && pivot.None? && genesisBlock.Genesis? && k <= Number(start)
      requires At(start, 0) == genesisBlock && forall n: nat :: n <= Number(start) ==> At(start, n) in v.blocks
      requires forall n: nat :: k < n <= Number(start) ==> At(start, n).info.root !in v.roots
      ensures WalkEnd(v, start, k).Some? && Best(v, start, WalkEnd(v, start, k).value)
    {
      if k > 0 && At(start, k).info.root !in v.roots {
        WalkBest(v, start, k - 1);
      }
    }

    /** What `updateFn` does to the head block when the header chain is rewound to `header`, given the
        height `k` at which the walk from a stored header first stops. */
    ghost predicate Updated(v: View, header: Block, k: nat, before: Block, after: Block) {
      if Number(header) > Number(before) then after == before
      else if header !in v.blocks then after == genesisBlock
      else
        && FirstStop(v, header, k)
        && (Settles(v, header, k) ==> after == At(header, k))
        && (GivesUp(v, header, k) ==> after == genesisBlock)
        && !Crashes(v, header, k)
    }

    /** `updateFn` with an empty freezer: lowers the head block, and then the snap head, to the header
        the chain is rewound to. */
    method Update(header: Block) returns (ok: bool, ghost k: nat)
      requires genesisBlock.Genesis?
      modifies this`states, this`rootNumber, this`headBlockHash, this`headFastHash, this`currentBlock,
               this`currentSnapBlock
      ensures ok ==> Updated(old(Seen()), header, k, old(currentBlock), currentBlock)
      ensures !ok ==>
        Number(header) <= Number(old(currentBlock)) && header in bodies
        && FirstStop(old(Seen()), header, k) && Crashes(old(Seen()), header, k)
      ensures HeadAfter(old(Seen()), header, old(currentBlock)) == if ok then Some(currentBlock) else None
      ensures Seen() == old(Seen()) && bodies == old(bodies) && old(states) <= states
      ensures ok ==> Number(currentBlock) <= Number(header)
      ensures ok && Number(header) <= Number(old(currentBlock)) ==>
        && headBlockHash == currentBlock
        && (currentBlock == genesisBlock || (currentBlock.info.root in states && IsAncestor(currentBlock, header)))
      ensures Number(header) > Number(old(currentBlock)) ==>
        ok && currentBlock == old(currentBlock) && headBlockHash == old(headBlockHash) && states == old(states)
      // the highest block of the walk with the requested root is reported
      ensures ok && Number(header) <= Number(old(currentBlock)) && header in bodies ==>
        if root.Some? && Crossed(header, k) then CrossedAt(header, k, rootNumber) else rootNumber == old(rootNumber)
      // the snap head follows the header
      ensures ok ==>
        currentSnapBlock == (if Number(header) >= Number(old(currentSnapBlock)) then old(currentSnapBlock)
                             else if header in bodies then header else genesisBlock)
      ensures ok && Number(header) < Number(old(currentSnapBlock)) ==> headFastHash == currentSnapBlock
      ensures old(Closed()) ==> ok
    {
      ok, k := true, 0;
      if Number(header) <= Number(currentBlock) {
        var newHeadBlock := GetBlock(Some(header));
        if newHeadBlock.None? {
          newHeadBlock := Some(genesisBlock);
        } else {
          newHeadBlock, k := FindStored(header);
          if newHeadBlock.None? {
            ok := false;
            return;
          }
        }
        headBlockHash := newHeadBlock.value;
        currentBlock := newHeadBlock.value;
      }
      LowerSnap(header);
    }

    /** Walks back from a stored block, recovering the state of the block it ends at. */
    method FindStored(header: Block) returns (head: Option<Block>, ghost k: nat)
      requires genesisBlock.Genesis? && header in bodies
      modifies this`states, this`rootNumber
      ensures FirstStop(old(Seen()), header, k) && (head.None? <==> Crashes(old(Seen()), header, k))
      ensures Settles(old(Seen()), header, k) ==> head == Some(At(header, k))
      ensures GivesUp(old(Seen()), header, k) ==> head == Some(genesisBlock)
      ensures if root.Some? && Crossed(header, k) then CrossedAt(header, k, rootNumber)
              else rootNumber == old(rootNumber)
      ensures head == WalkEnd(old(Seen()), header, Number(header))
      ensures Seen() == old(Seen()) && old(states) <= states
      ensures head.Some? ==>
        && Number(head.value) <= Number(header)
        && (head.value == genesisBlock || (IsAncestor(head.value, header) && head.value.info.root in states))
      ensures old(Closed()) ==> head.Some?
    {
      hide WalkEnd, FirstStop, Settles, GivesUp, Crashes, Crossed, CrossedAt, Closed, IsAncestor;
      HeadIsLow(Seen(), header, Number(header));
      if Closed() {
        ClosedEnd(header, Number(header));
      }
      head, k := FindHead(header);
    }

    method LowerSnap(header: Block)
      modifies this`headFastHash, this`currentSnapBlock
      ensures currentSnapBlock ==
        if Number(header) >= Number(old(currentSnapBlock)) then old(currentSnapBlock)
        else if header in bodies then header else genesisBlock
      ensures Number(header) < Number(old(currentSnapBlock)) ==> headFastHash == currentSnapBlock
    {
      if Number(header) < Number(currentSnapBlock) {
        var newHeadSnapBlock := GetBlock(Some(header));
        if newHeadSnapBlock.None? {
          newHeadSnapBlock := Some(genesisBlock);
        }
        headFastHash := newHeadSnapBlock.value;
        currentSnapBlock := newHeadSnapBlock.value;
      }
    }
  }

  // ---- a walk that runs into a missing block ----

  const LOST: Block := Child(FIRST, Info(1, 1, 1, [], [], 0))
  const LAST: Block := Child(LOST, Info(1, 2, 2, [], [], 0))

  /** The head has its state, the block below it is missing, and a state root is requested that the head
      does not have: the walk dereferences the missing block. */
  lemma MissingBelowRoot(store: BlockStore)
    requires store.root == Some(3)
    ensures store.FirstStop(View({FIRST, LAST}, {2}), LAST, 2) && store.Crashes(View({FIRST, LAST}, {2}), LAST, 2)
  {
    assert At(LAST, 1) == LOST;
  }

  method NilDereference() returns (store: BlockStore, ok: bool)
    ensures fresh(store) && !ok
  {
    store := new BlockStore(FIRST, {FIRST, LAST}, {2}, LAST, {}, None, Some(3));
    MissingBelowRoot(store);
    assert store.Seen() == View({FIRST, LAST}, {2});
    store.WalkEndsAt(store.Seen(), LAST, 2, 2);
    ghost var k;
    ok, k := store.Update(LAST);
  }
}
