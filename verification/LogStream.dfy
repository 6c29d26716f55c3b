/** What a subscriber of the two log feeds of core/blockchain.go holds. */
module LogStream {
  import opened Chain

  datatype LogEvent = NewLogs(logs: seq<Log>) | RemovedLogs(logs: seq<Log>)

  /** A listener that adds every item of the log feed and takes away every item of the removed-log
      feed. It is lost (`None`) as soon as a log it does not hold is taken away. */
  function Held(feed: seq<LogEvent>): Option<multiset<Log>> {
    if feed == [] then Some(multiset{})
    else
      var before := Held(feed[..|feed| - 1]);
      if before.None? then None
      else match feed[|feed| - 1]
        case NewLogs(logs) => Some(before.value + multiset(logs))
        case RemovedLogs(logs) =>
          if multiset(logs) <= before.value then Some(before.value - multiset(logs)) else None
  }

  ghost predicate Holds(feed: seq<LogEvent>, m: multiset<Log>) {
    Held(feed).Some? && Held(feed).value == m
  }

  /** A listener that never got the logs `missing`: it holds what is expected without them, or it is
      lost; if nothing is missing it is not lost. */
  ghost predicate Tracks(feed: seq<LogEvent>, expected: multiset<Log>, missing: multiset<Log>) {
    if missing == multiset{} then Holds(feed, expected)
    else Held(feed).Some? ==> Held(feed).value + missing == expected
  }

  lemma TracksAfterNew(feed: seq<LogEvent>, logs: seq<Log>, m: multiset<Log>, missing: multiset<Log>)
    requires Tracks(feed, m, missing)
    ensures Tracks(feed + [NewLogs(logs)], m + multiset(logs), missing)
  {
    var sent := feed + [NewLogs(logs)];
    assert sent[..|sent| - 1] == feed;
    if Held(feed).Some? {
      assert Held(sent).value + missing == Held(feed).value + missing + multiset(logs);
    }
  }

  lemma TracksAfterRemoved(feed: seq<LogEvent>, logs: seq<Log>, m: multiset<Log>, missing: multiset<Log>)
    requires Tracks(feed, m + multiset(logs), missing)
    ensures Tracks(feed + [RemovedLogs(logs)], m, missing)
  {
    var sent := feed + [RemovedLogs(logs)];
    assert sent[..|sent| - 1] == feed;
    if Held(feed).Some? && multiset(logs) <= Held(feed).value {
      var left := Held(feed).value - multiset(logs);
      assert left + multiset(logs) == Held(feed).value;
      Cancel(left + missing, m, multiset(logs));
    }
  }

  lemma Cancel(a: multiset<Log>, b: multiset<Log>, c: multiset<Log>)
    ensures a + c == b + c ==> a == b
  {
    assert a + c - c == a && b + c - c == b;
  }

  /** Logs that are expected but not sent are missing from then on. */
  lemma TracksAfterMiss(feed: seq<LogEvent>, logs: multiset<Log>, m: multiset<Log>, missing: multiset<Log>)
    requires Tracks(feed, m, missing)
    ensures Tracks(feed, m + logs, missing + logs)
  {
    if Held(feed).Some? && missing + logs != multiset{} {
      assert Held(feed).value + missing == m;
      assert Held(feed).value + (missing + logs) == Held(feed).value + missing + logs;
    } else if missing + logs == multiset{} {
      Nothing(missing, logs);
    }
  }

  lemma Nothing(a: multiset<Log>, b: multiset<Log>)
    ensures a + b == multiset{} <==> a == multiset{} && b == multiset{}
  {
    if a + b == multiset{} {
      assert a <= a + b && b <= a + b;
    }
  }

  /** A listener holds what is expected exactly if nothing is missing. */
  lemma TracksExactly(feed: seq<LogEvent>, m: multiset<Log>, missing: multiset<Log>)
    requires Tracks(feed, m, missing)
    ensures Holds(feed, m) <==> missing == multiset{}
  {
    if missing != multiset{} {
      var x :| x in missing;
      assert (m + missing)[x] != m[x];
    }
  }

  // ---- the order in which logs are sent ----

  /** All logs of a stretch of feed items, in order. */
  function Sent(events: seq<LogEvent>): seq<Log> {
    if events == [] then [] else Sent(events[..|events| - 1]) + events[|events| - 1].logs
  }

  /** From `before` to `after` exactly these logs were sent in order, all as removed or all as new ones,
      in non-empty batches of which all but the last hold more than 512. */
  ghost predicate Batched(before: seq<LogEvent>, after: seq<LogEvent>, removed: bool, logs: seq<Log>) {
    && before <= after
    && (forall i :: |before| <= i < |after| ==> after[i].RemovedLogs? == removed && after[i].logs != [])
    && (forall i :: |before| <= i < |after| - 1 ==> |after[i].logs| > 512)
    && Sent(after[|before|..]) == logs
  }

  ghost predicate FullBatches(before: seq<LogEvent>, after: seq<LogEvent>, removed: bool, logs: seq<Log>) {
    Batched(before, after, removed, logs) && (before < after ==> |after[|after| - 1].logs| > 512)
  }

  lemma NoBatch(feed: seq<LogEvent>, removed: bool)
    ensures FullBatches(feed, feed, removed, [])
  {
    assert feed[|feed|..] == [];
  }

  /** Another batch after full ones. */
  lemma NextBatch(before: seq<LogEvent>, feed: seq<LogEvent>, removed: bool, logs: seq<Log>, e: LogEvent)
    requires FullBatches(before, feed, removed, logs) && e.RemovedLogs? == removed && e.logs != []
    ensures Batched(before, feed + [e], removed, logs + e.logs)
    ensures |e.logs| > 512 ==> FullBatches(before, feed + [e], removed, logs + e.logs)
  {
    hide Sent;
    SentNext(feed[|before|..], e);
    var stretch := (feed + [e])[|before|..];
    assert stretch == feed[|before|..] + [e];
  }

  lemma SentNext(events: seq<LogEvent>, e: LogEvent)
    ensures Sent(events + [e]) == Sent(events) + e.logs
  {
    assert (events + [e])[..|events|] == events;
  }
}
