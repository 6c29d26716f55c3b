/** Garbage collection of in-memory state tries (core/blockchain.go, hash scheme, not archive). */
module TrieGCs {
  import opened Chain

  const TRIES_IN_MEMORY: nat := 128

  datatype Entry = Entry(root: Root, number: nat)

  function Roots(q: seq<Entry>): seq<Root> {
    if q == [] then [] else Roots(q[..|q| - 1]) + [q[|q| - 1].root]
  }

  function Without(q: seq<Entry>, i: nat): seq<Entry>
    requires i < |q|
  {
    q[..i] + q[i + 1..]
  }

  lemma {:induction false} RootsConcat(p: seq<Entry>, q: seq<Entry>)
    ensures Roots(p + q) == Roots(p) + Roots(q)
    decreases |q|
  {
    if q == [] {
      assert p + q == p;
    } else {
      RootsConcat(p, q[..|q| - 1]);
      assert (p + q)[..|p + q| - 1] == p + q[..|q| - 1];
    }
  }

  lemma RootsOne(e: Entry)
    ensures Roots([e]) == [e.root]
  {
    assert [e][..0] == [];
  }

  lemma RootsAround(p: seq<Entry>, e: Entry, q: seq<Entry>)
    ensures Roots(p + [e] + q) == Roots(p) + [e.root] + Roots(q)
  {
    hide Roots;
    RootsConcat(p + [e], q);
    RootsConcat(p, [e]);
    RootsOne(e);
  }

  lemma Drop<T>(before: seq<T>, x: T, after: seq<T>)
    ensures multiset(before + [x] + after) == multiset(before + after) + multiset{x}
  {
  }

  lemma WithoutCount(q: seq<Entry>, i: nat)
    requires i < |q|
    ensures multiset(q) == multiset(Without(q, i)) + multiset{q[i]}
    ensures multiset(Roots(q)) == multiset(Roots(Without(q, i))) + multiset{q[i].root}
  {
    hide Roots;
    assert q == q[..i] + [q[i]] + q[i + 1..];
    Drop(q[..i], q[i], q[i + 1..]);
    RootsAround(q[..i], q[i], q[i + 1..]);
    RootsConcat(q[..i], q[i + 1..]);
    Drop(Roots(q[..i]), q[i].root, Roots(q[i + 1..]));
  }

  /** `after` holds exactly the entries of `before` numbered above `chosen`. */
  ghost predicate OnlyAbove(before: seq<Entry>, after: seq<Entry>, chosen: nat) {
    forall e :: multiset(after)[e] == (if e.number > chosen then multiset(before)[e] else 0)
  }

  /** What is left of `before` while the entries up to `chosen` are being popped. */
  ghost predicate Popping(before: seq<Entry>, after: seq<Entry>, chosen: nat) {
    forall e: Entry ::
      multiset(after)[e] <= multiset(before)[e] && (e.number > chosen ==> multiset(after)[e] == multiset(before)[e])
  }

  lemma PopStart(q: seq<Entry>, chosen: nat)
    ensures Popping(q, q, chosen)
  {
  }

  lemma PopStep(before: seq<Entry>, mid: seq<Entry>, after: seq<Entry>, e: Entry, chosen: nat)
    requires Popping(before, mid, chosen) && multiset(mid) == multiset(after) + multiset{e} && e.number <= chosen
    ensures Popping(before, after, chosen)
  {
  }

  lemma PopEmpty(before: seq<Entry>, chosen: nat)
    requires Popping(before, [], chosen)
    ensures OnlyAbove(before, [], chosen)
  {
  }

  lemma PopLast(before: seq<Entry>, mid: seq<Entry>, rest: seq<Entry>, e: Entry, chosen: nat)
    requires Popping(before, mid, chosen) && multiset(mid) == multiset(rest) + multiset{e}
    requires e.number > chosen && forall x :: x in mid ==> e.number <= x.number
    ensures OnlyAbove(before, rest + [e], chosen)
  {
  }

  class TrieGC {
    // the chain's references to roots held by the trie database
    var refs: multiset<Root>
    // the priority queue of tries to collect
    var triegc: seq<Entry>

    constructor ()
      ensures Valid() && triegc == []
    {
      refs, triegc := multiset{}, [];
    }

    /** The chain holds one reference to a root for each of its occurrences in the queue. */
    ghost predicate Valid()
      reads this
    {
      refs == multiset(Roots(triegc))
    }

    method Push(e: Entry)
      modifies this`triegc
      ensures triegc == old(triegc) + [e]
      ensures multiset(Roots(triegc)) == multiset(Roots(old(triegc))) + multiset{e.root}
    {
      triegc := triegc + [e];
      RootsConcat(old(triegc), [e]);
      RootsOne(e);
    }

    /** Pops an entry of the highest priority, which is the lowest number; ties are broken arbitrarily. */
    method Pop() returns (e: Entry)
      requires triegc != []
      modifies this`triegc
      ensures e in old(triegc) && forall x :: x in old(triegc) ==> e.number <= x.number
      ensures multiset(old(triegc)) == multiset(triegc) + multiset{e}
      ensures multiset(Roots(old(triegc))) == multiset(Roots(triegc)) + multiset{e.root}
      ensures |triegc| == |old(triegc)| - 1
    {
      var i := 0;
      var j := 1;
      while j < |triegc|
        invariant 0 <= i < j <= |triegc|
        invariant forall k :: 0 <= k < j ==> triegc[i].number <= triegc[k].number
      {
        if triegc[j].number < triegc[i].number {
          i := j;
        } else if triegc[j].number == triegc[i].number {
          var tie := *;
          i := if tie then j else i;
        }
        j := j + 1;
      }
      e := triegc[i];
      WithoutCount(triegc, i);
      triegc := Without(triegc, i);
    }

    /** Dropping a reference that is not held would be a double free. */
    method Dereference(root: Root)
      requires root in refs
      modifies this`refs
      ensures refs == old(refs) - multiset{root}
    {
      refs := refs - multiset{root};
    }

    /** Drops everything numbered up to `chosen`, and nothing else. */
    method Collect(chosen: nat)
      requires Valid()
      modifies this`refs, this`triegc
      ensures Valid()
      ensures OnlyAbove(old(triegc), triegc, chosen)
    {
      hide Roots, Popping, OnlyAbove;
      PopStart(triegc, chosen);
      while triegc != []
        invariant Valid()
        invariant Popping(old(triegc), triegc, chosen)
        decreases |triegc|
      {
        ghost var mid := triegc;
        var e := Pop();
        if e.number > chosen {
          PopLast(old(triegc), mid, triegc, e, chosen);
          Push(e);
          return;
        }
        PopStep(old(triegc), mid, triegc, e, chosen);
        Dereference(e.root);
      }
      PopEmpty(old(triegc), chosen);
    }

    /** The reference bookkeeping of a block write: keep the new root alive, and past the first 128
        heights let go of everything that is 128 or more blocks old. */
    method WriteBlock(root: Root, number: nat)
      requires Valid()
      modifies this
      ensures Valid()
      ensures number <= TRIES_IN_MEMORY ==> triegc == old(triegc) + [Entry(root, number)]
      ensures number > TRIES_IN_MEMORY ==>
        OnlyAbove(old(triegc) + [Entry(root, number)], triegc, number - TRIES_IN_MEMORY)
      // the root just written is never dropped
      ensures root in refs && Entry(root, number) in triegc
    {
      hide Roots;
      refs := refs + multiset{root};
      Push(Entry(root, number));
      assert multiset(triegc)[Entry(root, number)] > 0;
      if number > TRIES_IN_MEMORY {
        Collect(number - TRIES_IN_MEMORY);
        assert multiset(triegc)[Entry(root, number)] > 0;
      }
      HeldRoot(triegc, Entry(root, number));
    }

    lemma HeldRoot(q: seq<Entry>, e: Entry)
      requires e in q
      ensures e.root in multiset(Roots(q))
    {
    }

    /** On shutdown the queue is drained, and no reference remains. */
    method Stop()
      requires Valid()
      modifies this
      ensures refs == multiset{} && triegc == []
    {
      while triegc != []
        invariant Valid()
        decreases |triegc|
      {
        var e := Pop();
        Dereference(e.root);
      }
    }

    /** Any run of block writes followed by a shutdown gives back every reference it took. */
    method Run(writes: seq<Entry>)
      requires Valid()
      modifies this
      ensures refs == multiset{}
    {
      for i := 0 to |writes|
        invariant Valid()
      {
        WriteBlock(writes[i].root, writes[i].number);
      }
      Stop();
    }
  }
}
