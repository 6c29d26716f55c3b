/** The block hash lookup of the EVM (core/evm.go). */
module HashFns {
  import opened Chain

  /** All headers from `ref`'s parent down to height `n + 1` are available. */
  ghost predicate Reachable(ref: Block, n: nat, headers: set<Hash>) {
    n < Number(ref) && forall m: nat :: n < m < Number(ref) ==> At(ref, m) in headers
  }

  /** The closure that `GetHashFn` returns: it caches the hashes met on the way back from `ref`. */
  class HashFn {
    const ref: Block
    var cache: seq<Hash>

    constructor (ref: Block)
      ensures this.ref == ref && cache == []
    {
      this.ref, cache := ref, [];
    }

    /** The cache holds the ancestors of `ref`, highest first, and all but the last were looked up. */
    ghost predicate Valid(headers: set<Hash>)
      reads this
    {
      ValidCache(cache, headers)
    }

    /** A cache stays valid while headers are only added. */
    lemma ValidGrows(headers: set<Hash>, more: set<Hash>)
      requires Valid(headers) && headers <= more
      ensures Valid(more)
    {
    }

    /** Answers like the plain walk from `ref`, whatever earlier queries left in the cache. */
    method Get(n: nat, headers: set<Hash>) returns (hash: Option<Hash>)
      requires Valid(headers)
      modifies this`cache
      ensures Valid(headers) && old(cache) <= cache
      ensures hash == if Reachable(ref, n, headers) then Some(At(ref, n)) else None
    {
      if Number(ref) <= n {
        return None;
      }
      hide Reachable, ValidCache;
      if |cache| == 0 {
        FirstEntry(headers);
        cache := [ParentHash(ref).value];
      }
      var idx := Number(ref) - n - 1;
      if idx < |cache| {
        CachedAnswer(n, headers);
        return Some(cache[idx]);
      }
      var lastKnownHash := cache[|cache| - 1];
      var lastKnownNumber := Number(ref) - |cache|;
      while true
        invariant Valid(headers) && old(cache) <= cache
        invariant 0 < |cache| && lastKnownNumber == Number(ref) - |cache| && n < lastKnownNumber
        invariant lastKnownHash == cache[|cache| - 1]
        decreases lastKnownNumber
      {
        LastEntry(headers);
        if lastKnownHash !in headers {
          Unreachable(n, lastKnownNumber, headers);
          return None;
        }
        var header := lastKnownHash;
        cache := cache + [header.parent];
        lastKnownHash := header.parent;
        lastKnownNumber := Number(header) - 1;
        if n == lastKnownNumber {
          CachedAnswer(n, headers);
          return Some(lastKnownHash);
        }
      }
      return None;
    }

    /** A sequence of hashes is a valid cache. */
    ghost predicate ValidCache(c: seq<Hash>, headers: set<Hash>) {
      && |c| <= Number(ref)
      && (forall i :: 0 <= i < |c| ==> c[i] == At(ref, Number(ref) - 1 - i))
      && (forall i :: 0 <= i < |c| - 1 ==> c[i] in headers)
    }

    lemma FirstEntry(headers: set<Hash>)
      requires Number(ref) > 0
      ensures ref.Child? && ValidCache([ref.parent], headers)
    {
      AboveStep(ref, Number(ref));
    }

    /** The last entry is the ancestor to look up next; its parent may be cached once it is present. */
    lemma LastEntry(headers: set<Hash>)
      requires Valid(headers) && 0 < |cache| < Number(ref)
      ensures var last := cache[|cache| - 1];
        && last == At(ref, Number(ref) - |cache|) && last.Child?
        && (last in headers ==> ValidCache(cache + [last.parent], headers))
    {
      AboveStep(ref, Number(ref) - |cache|);
    }

    lemma Unreachable(n: nat, m: nat, headers: set<Hash>)
      requires n < m < Number(ref) && At(ref, m) !in headers
      ensures !Reachable(ref, n, headers)
    {
    }

    lemma CachedAnswer(n: nat, headers: set<Hash>)
      requires Valid(headers) && n < Number(ref) && Number(ref) - n - 1 < |cache|
      ensures Reachable(ref, n, headers) && cache[Number(ref) - n - 1] == At(ref, n)
    {
      forall m: nat | n < m < Number(ref) ensures At(ref, m) in headers {
        assert cache[Number(ref) - 1 - m] == At(ref, m);
      }
    }

    /** A whole sequence of queries, between which headers may be added, is answered like the walk. */
    method Answers(queries: seq<(nat, set<Hash>)>) returns (hashes: seq<Option<Hash>>)
      requires |queries| > 0 ==> Valid(queries[0].1)
      requires forall i, j :: 0 <= i <= j < |queries| ==> queries[i].1 <= queries[j].1
      modifies this`cache
      ensures |hashes| == |queries|
      ensures forall i :: 0 <= i < |queries| ==>
        hashes[i] == if Reachable(ref, queries[i].0, queries[i].1) then Some(At(ref, queries[i].0)) else None
    {
      hashes := [];
      for i := 0 to |queries|
        invariant |hashes| == i
        invariant i < |queries| ==> Valid(queries[i].1)
        invariant forall k :: 0 <= k < i ==>
          hashes[k] == if Reachable(ref, queries[k].0, queries[k].1) then Some(At(ref, queries[k].0)) else None
      {
        var hash := Get(queries[i].0, queries[i].1);
        hashes := hashes + [hash];
        if i + 1 < |queries| {
          ValidGrows(queries[i].1, queries[i + 1].1);
        }
      }
    }
  }
}
