/** What the section indexer (core/chain_indexer.go) keeps in its database. */
module SectionIndexes {
  import opened Chain

  /** What the index database holds: the section count and the section heads. */
  datatype Disk = Disk(count: nat, heads: map<nat, Hash>)

  /** From section `base` on, every section below the count has a head at its last height, and that
      head descends from the head of the previous section. */
  ghost predicate Linked(d: Disk, base: nat, size: nat)
    requires size > 0
  {
    forall s :: base <= s < d.count ==> LinkedAt(d, s, size)
  }

  ghost predicate LinkedAt(d: Disk, s: nat, size: nat)
    requires size > 0
  {
    && s in d.heads && Number(d.heads[s]) + 1 == (s + 1) * size
    && (s > 0 ==> s - 1 in d.heads && IsAncestor(d.heads[s - 1], d.heads[s]) && Number(d.heads[s - 1]) + 1 == s * size)
  }

  ghost predicate AllLinked(history: seq<Disk>, base: nat, size: nat)
    requires size > 0
  {
    forall d :: d in history ==> Linked(d, base, size)
  }

  /** The section heads left when the sections from `lo` to before `hi` are dropped. */
  function Dropped(heads: map<nat, Hash>, lo: nat, hi: nat): map<nat, Hash> {
    map s | s in heads && !(lo <= s < hi) :: heads[s]
  }

  /** Lowering the count, and then losing heads at or above it, keeps the links. */
  lemma LinkedShrinks(d: Disk, e: Disk, base: nat, size: nat)
    requires size > 0 && Linked(d, base, size) && e.count <= d.count
    requires forall s :: s in d.heads && s < e.count ==> s in e.heads && e.heads[s] == d.heads[s]
    ensures Linked(e, base, size)
  {
    forall s | base <= s < e.count ensures LinkedAt(e, s, size) {
      assert LinkedAt(d, s, size);
    }
  }

  /** Raising the count over a linked head keeps the links. */
  lemma LinkedGrows(d: Disk, base: nat, size: nat)
    requires size > 0 && Linked(d, base, size) && LinkedAt(d, d.count, size)
    ensures Linked(d.(count := d.count + 1), base, size)
  {
    var e := d.(count := d.count + 1);
    forall s | base <= s < e.count ensures LinkedAt(e, s, size) {
      assert LinkedAt(d, s, size);
    }
  }

  /** A count above the base without its last head is not linked. */
  lemma HeadMissing(d: Disk, s: nat, base: nat, size: nat)
    requires size > 0 && base <= s < d.count && s !in d.heads
    ensures !Linked(d, base, size)
  {
    assert !LinkedAt(d, s, size);
  }

  /** Section heads descend from each other. */
  lemma {:induction false} HeadsDescend(d: Disk, base: nat, size: nat, s: nat, t: nat)
    requires size > 0 && Linked(d, base, size) && base <= s <= t < d.count
    ensures LinkedAt(d, s, size) && LinkedAt(d, t, size) && IsAncestor(d.heads[s], d.heads[t])
  {
    assert LinkedAt(d, t, size);
    if s < t {
      HeadsDescend(d, base, size, s, t - 1);
      AncestorTransitive(d.heads[s], d.heads[t - 1], d.heads[t]);
    }
  }

  // ---- sections of size one, to build examples on ----

  const NO_INFO: Info := Info(0, 0, 0, [], [], 0)

  function Line(n: nat): Block {
    if n == 0 then Genesis(NO_INFO) else Child(Line(n - 1), NO_INFO)
  }

  lemma {:induction false} LineAt(n: nat, m: nat)
    requires m <= n
    ensures Number(Line(n)) == n && At(Line(n), m) == Line(m)
  {
    if n > 0 {
      LineAt(n - 1, if m == n then m - 1 else m);
    }
  }

  /** The heads of the first `n` sections of size one. */
  function LineHeads(n: nat): map<nat, Hash> {
    map s: nat | s < n :: Line(s)
  }

  lemma LineLinked(count: nat, n: nat)
    ensures Linked(Disk(count, LineHeads(n)), 0, 1) <==> count <= n
  {
    forall s: nat | s < n ensures LinkedAt(Disk(count, LineHeads(n)), s, 1) {
      LineAt(s, s);
      if s > 0 {
        LineAt(s, s - 1);
        LineAt(s - 1, s - 1);
      }
    }
    if count > n {
      assert !LinkedAt(Disk(count, LineHeads(n)), n, 1);
    }
  }
}
