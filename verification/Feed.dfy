/** One-to-many event feeds (event/feed.go). The send cases live in one array: `sendCases` is its
    prefix of length `sendLen`, and while a value is being sent `cases` is the shorter prefix of
    length `casesLen`, so both slices alias each other as in the source. */
module Feeds {
  type Chan = nat
  type SubId = nat

  /** Slot 0 receives removal requests; every other case sends to one subscribed channel. */
  datatype Case = RemoveSub | SendTo(ch: Chan)

  ghost predicate CasesOk(cs: seq<Case>) {
    |cs| >= 1 && cs[0] == RemoveSub && forall i :: 1 <= i < |cs| ==> cs[i].SendTo?
  }

  lemma DeleteOk(cs: seq<Case>, i: nat)
    requires CasesOk(cs) && i < |cs| && cs[i].SendTo?
    ensures i >= 1 && CasesOk(DeleteAt(cs, i))
  {
  }

  function DeleteAt(cs: seq<Case>, i: nat): seq<Case>
    requires i < |cs|
  {
    cs[..i] + cs[i + 1..]
  }

  lemma ShiftedDown(cs: seq<Case>, shifted: seq<Case>, i: nat)
    requires i < |cs| && |shifted| == |cs| - 1
    requires forall k :: 0 <= k < i ==> shifted[k] == cs[k]
    requires forall k :: i <= k < |shifted| ==> shifted[k] == cs[k + 1]
    ensures shifted == DeleteAt(cs, i)
  {
  }

  lemma DeleteCount(cs: seq<Case>, i: nat)
    requires i < |cs|
    ensures multiset(cs) == multiset(DeleteAt(cs, i)) + multiset{cs[i]}
    ensures multiset(DeleteAt(cs, i)) == multiset(cs) - multiset{cs[i]}
  {
    assert cs == cs[..i] + [cs[i]] + cs[i + 1..];
  }

  /** Swaps the case at `i` with the last one of the prefix of length `n`. */
  function SwapOut(cs: seq<Case>, n: nat, i: nat): seq<Case>
    requires i < n <= |cs|
  {
    cs[i := cs[n - 1]][n - 1 := cs[i]]
  }

  lemma SwapOutPrefix(cs: seq<Case>, n: nat, i: nat)
    requires i < n <= |cs|
    ensures multiset(cs[..n]) == multiset(SwapOut(cs, n, i)[..n - 1]) + multiset{cs[i]}
  {
    var q := cs[..n - 1];
    assert cs[..n] == q + [cs[n - 1]];
    if i < n - 1 {
      assert SwapOut(cs, n, i)[..n - 1] == q[i := cs[n - 1]];
    } else {
      assert SwapOut(cs, n, i)[..n - 1] == q;
    }
  }

  /** Serving a case moves it out of the active prefix and changes nothing else. */
  lemma SwapOutCount(cs: seq<Case>, n: nat, i: nat)
    requires i < n <= |cs|
    ensures multiset(SwapOut(cs, n, i)) == multiset(cs)
  {
  }

  lemma SwapOk(cs: seq<Case>, n: nat, i: nat)
    requires CasesOk(cs) && 1 <= i < n <= |cs|
    ensures CasesOk(SwapOut(cs, n, i))
  {
  }

  /** What was merged into a Send is still to be served, was served, or was removed before its turn;
      the removal channel stays active throughout. */
  ghost predicate Account(merged: multiset<Case>, active: multiset<Case>, delivered: multiset<Case>,
                          missed: multiset<Case>) {
    merged + multiset{RemoveSub} == active + delivered + missed
  }

  lemma AccountServe(merged: multiset<Case>, active: multiset<Case>, delivered: multiset<Case>, missed: multiset<Case>,
                     c: Case)
    requires Account(merged, active + multiset{c}, delivered, missed)
    ensures Account(merged, active, delivered + multiset{c}, missed)
  {
    assert active + multiset{c} + delivered + missed == active + (delivered + multiset{c}) + missed;
  }

  /** Serving a case moves it from the active prefix to the delivered ones. */
  lemma ServeAccount(merged: multiset<Case>, cs: seq<Case>, n: nat, i: nat, delivered: seq<Case>,
                     missed: multiset<Case>)
    requires i < n <= |cs| && Account(merged, multiset(cs[..n]), multiset(delivered), missed)
    ensures Account(merged, multiset(SwapOut(cs, n, i)[..n - 1]), multiset(delivered + [cs[i]]), missed)
  {
    SwapOutPrefix(cs, n, i);
    AccountServe(merged, multiset(SwapOut(cs, n, i)[..n - 1]), multiset(delivered), missed, cs[i]);
    assert multiset(delivered + [cs[i]]) == multiset(delivered) + multiset{cs[i]};
  }

  /** Removing a case that is still active makes it a missed one; any other removal leaves the
      account alone. */
  lemma RemoveAccount(merged: multiset<Case>, cs: seq<Case>, n: nat, i: nat, delivered: seq<Case>,
                      missed: multiset<Case>)
    requires n <= |cs| && i < |cs| && Account(merged, multiset(cs[..n]), multiset(delivered), missed)
    ensures i < n ==> Account(merged, multiset(DeleteAt(cs, i)[..n - 1]), multiset(delivered), missed + multiset{cs[i]})
    ensures i >= n ==> Account(merged, multiset(DeleteAt(cs, i)[..n]), multiset(delivered), missed)
  {
    DeletePrefix(cs, n, i);
    if i < n {
      AccountMiss(merged, multiset(DeleteAt(cs, i)[..n - 1]), multiset(delivered), missed, cs[i]);
    }
  }

  lemma AccountMiss(merged: multiset<Case>, active: multiset<Case>, delivered: multiset<Case>, missed: multiset<Case>,
                    c: Case)
    requires Account(merged, active + multiset{c}, delivered, missed)
    ensures Account(merged, active, delivered, missed + multiset{c})
  {
    assert active + multiset{c} + delivered + missed == active + delivered + (missed + multiset{c});
  }

  lemma AccountEnd(merged: multiset<Case>, delivered: multiset<Case>, missed: multiset<Case>)
    requires Account(merged, multiset{RemoveSub}, delivered, missed)
    ensures merged == delivered + missed
  {
    assert merged + multiset{RemoveSub} - multiset{RemoveSub} == merged;
    assert multiset{RemoveSub} + delivered + missed - multiset{RemoveSub} == delivered + missed;
  }

  /** Deleting a case takes it out of the prefix it lies in, and leaves a shorter prefix alone. */
  lemma DeletePrefix(cs: seq<Case>, n: nat, i: nat)
    requires n <= |cs| && i < |cs|
    ensures i < n ==> multiset(cs[..n]) == multiset(DeleteAt(cs, i)[..n - 1]) + multiset{cs[i]}
    ensures i >= n ==> DeleteAt(cs, i)[..n] == cs[..n]
  {
    if i < n {
      assert DeleteAt(cs, i)[..n - 1] == DeleteAt(cs[..n], i);
      DeleteCount(cs[..n], i);
    }
  }

  /** The subscriptions among `ids` on channel `ch`. */
  function On(live: map<SubId, Chan>, ids: set<SubId>, ch: Chan): set<SubId> {
    set id | id in ids && id in live && live[id] == ch
  }

  lemma OnWithout(live: map<SubId, Chan>, ids: set<SubId>, id: SubId, ch: Chan)
    requires id in live && id in ids
    ensures |On(live - {id}, ids - {id}, ch)| == |On(live, ids, ch)| - if live[id] == ch then 1 else 0
    ensures |On(live, ids, ch)| >= if live[id] == ch then 1 else 0
  {
    assert On(live - {id}, ids - {id}, ch) == On(live, ids, ch) - {id};
  }

  lemma OnWith(live: map<SubId, Chan>, ids: set<SubId>, id: SubId, ch: Chan)
    requires id in live && id !in ids
    ensures |On(live, ids + {id}, ch)| == |On(live, ids, ch)| + if live[id] == ch then 1 else 0
  {
    assert On(live, ids + {id}, ch) == On(live, ids, ch) + if live[id] == ch then {id} else {};
  }

  lemma OnOld(live: map<SubId, Chan>, ids: set<SubId>, id: SubId, c: Chan, ch: Chan)
    requires id !in live && ids <= live.Keys
    ensures |On(live[id := c], ids, ch)| == |On(live, ids, ch)|
  {
    assert On(live[id := c], ids, ch) == On(live, ids, ch);
  }

  lemma OnNew(live: map<SubId, Chan>, id: SubId, c: Chan, ch: Chan)
    requires id !in live
    ensures |On(live[id := c], live.Keys + {id}, ch)| == |On(live, live.Keys, ch)| + if c == ch then 1 else 0
  {
    OnOld(live, live.Keys, id, c, ch);
    OnWith(live[id := c], live.Keys, id, ch);
  }

  lemma OnSubset(live: map<SubId, Chan>, ids: set<SubId>, jds: set<SubId>, ch: Chan)
    requires ids <= jds
    ensures |On(live, ids, ch)| <= |On(live, jds, ch)|
  {
    SetSize(On(live, ids, ch), On(live, jds, ch));
  }

  lemma SetSize(a: set<SubId>, b: set<SubId>)
    requires a <= b
    ensures |a| <= |b|
  {
    assert b == a + (b - a);
  }

  /** Each live subscription has exactly one entry, in the inbox or among the send cases, and every one
      waiting for its removal has it among the send cases. */
  ghost predicate Balance(inbox: multiset<Case>, cases: multiset<Case>, live: map<SubId, Chan>, pending: set<SubId>) {
    && pending <= live.Keys
    && (forall ch :: inbox[SendTo(ch)] + cases[SendTo(ch)] == |On(live, live.Keys, ch)|)
    && (forall ch :: |On(live, pending, ch)| <= cases[SendTo(ch)])
  }

  lemma BalanceSubscribe(inbox: multiset<Case>, cases: multiset<Case>, live: map<SubId, Chan>, pending: set<SubId>,
                         id: SubId, ch: Chan)
    requires Balance(inbox, cases, live, pending) && id !in live
    ensures Balance(inbox + multiset{SendTo(ch)}, cases, live[id := ch], pending)
  {
    forall c
      ensures |On(live[id := ch], pending, c)| == |On(live, pending, c)|
      ensures |On(live[id := ch], live.Keys + {id}, c)| == |On(live, live.Keys, c)| + if ch == c then 1 else 0
    {
      OnOld(live, pending, id, ch, c);
      OnNew(live, id, ch, c);
    }
    assert live[id := ch].Keys == live.Keys + {id};
  }

  lemma BalanceInboxDrop(inbox: multiset<Case>, cases: multiset<Case>, live: map<SubId, Chan>, pending: set<SubId>,
                         id: SubId)
    requires Balance(inbox, cases, live, pending) && id in live && id !in pending && SendTo(live[id]) in inbox
    ensures Balance(inbox - multiset{SendTo(live[id])}, cases, live - {id}, pending)
  {
    forall ch
      ensures |On(live - {id}, live.Keys - {id}, ch)| == |On(live, live.Keys, ch)| - if live[id] == ch then 1 else 0
      ensures |On(live - {id}, pending, ch)| == |On(live, pending, ch)|
    {
      OnWithout(live, live.Keys, id, ch);
      assert On(live - {id}, pending, ch) == On(live, pending, ch);
    }
    assert (live - {id}).Keys == live.Keys - {id};
  }

  lemma BalancePend(inbox: multiset<Case>, cases: multiset<Case>, live: map<SubId, Chan>, pending: set<SubId>,
                    id: SubId)
    requires Balance(inbox, cases, live, pending) && id in live && id !in pending && SendTo(live[id]) !in inbox
    ensures Balance(inbox, cases, live, pending + {id})
  {
    forall ch ensures |On(live, pending + {id}, ch)| <= cases[SendTo(ch)] {
      OnWith(live, pending, id, ch);
      OnSubset(live, pending + {id}, live.Keys, ch);
    }
  }

  lemma BalanceRemove(inbox: multiset<Case>, cases: multiset<Case>, live: map<SubId, Chan>, pending: set<SubId>,
                      id: SubId)
    requires Balance(inbox, cases, live, pending) && id in pending
    ensures id in live && SendTo(live[id]) in cases
    ensures Balance(inbox, cases - multiset{SendTo(live[id])}, live - {id}, pending - {id})
  {
    OnWithout(live, pending, id, live[id]);
    forall ch
      ensures |On(live - {id}, live.Keys - {id}, ch)| == |On(live, live.Keys, ch)| - if live[id] == ch then 1 else 0
      ensures |On(live - {id}, pending - {id}, ch)| == |On(live, pending, ch)| - if live[id] == ch then 1 else 0
    {
      OnWithout(live, live.Keys, id, ch);
      OnWithout(live, pending, id, ch);
    }
    assert (live - {id}).Keys == live.Keys - {id};
  }

  /** The entries of the subscriptions in `gone`, channel by channel. */
  ghost predicate EntriesOf(gone: map<SubId, Chan>, entries: multiset<Case>) {
    forall ch :: entries[SendTo(ch)] == |On(gone, gone.Keys, ch)|
  }

  lemma EntriesNone()
    ensures EntriesOf(map[], multiset{})
  {
    forall ch ensures On(map[], {}, ch) == {} {
    }
  }

  lemma EntriesMore(gone: map<SubId, Chan>, entries: multiset<Case>, id: SubId, ch: Chan)
    requires EntriesOf(gone, entries) && id !in gone
    ensures EntriesOf(gone[id := ch], entries + multiset{SendTo(ch)})
  {
    forall c ensures (entries + multiset{SendTo(ch)})[SendTo(c)] == |On(gone[id := ch], gone.Keys + {id}, c)| {
      OnNew(gone, id, ch, c);
    }
    assert gone[id := ch].Keys == gone.Keys + {id};
  }

  /** Without anyone who may be gone, no entry is. */
  lemma NobodyGone(gone: map<SubId, Chan>, entries: multiset<Case>)
    requires EntriesOf(gone, entries) && gone == map[] && entries[RemoveSub] == 0
    ensures entries == multiset{}
  {
    forall c: Case ensures entries[c] == 0 {
      if c.SendTo? {
        assert On(gone, gone.Keys, c.ch) == {};
      }
    }
  }

  lemma MergeOk(cs: seq<Case>, inbox: seq<Case>)
    requires CasesOk(cs) && forall c :: c in inbox ==> c.SendTo?
    ensures CasesOk(cs + inbox)
    ensures multiset((cs + inbox)[1..]) + multiset{RemoveSub} == multiset(cs + inbox) == multiset(cs) + multiset(inbox)
  {
    assert cs + inbox == [RemoveSub] + (cs + inbox)[1..];
  }

  lemma AccountStart(cs: seq<Case>)
    requires CasesOk(cs)
    ensures Account(multiset(cs[1..]), multiset(cs[..|cs|]), multiset([]), multiset{})
  {
    assert cs == [RemoveSub] + cs[1..] && cs[..|cs|] == cs;
  }

  lemma BalanceMerge(inbox: multiset<Case>, cases: multiset<Case>, live: map<SubId, Chan>, pending: set<SubId>)
    requires Balance(inbox, cases, live, pending)
    ensures Balance(multiset{}, cases + inbox, live, pending)
  {
  }

  /** Merging the inbox at the start of a Send keeps every entry and opens a fresh account. */
  lemma MergeFacts(cs: seq<Case>, inbox: seq<Case>, live: map<SubId, Chan>, pending: set<SubId>)
    requires CasesOk(cs) && (forall c :: c in inbox ==> c.SendTo?)
    requires Balance(multiset(inbox), multiset(cs), live, pending)
    ensures |cs + inbox| >= 1 && CasesOk(cs + inbox)
    ensures Balance(multiset([]), multiset(cs + inbox), live, pending)
    ensures Account(multiset((cs + inbox)[1..]), multiset((cs + inbox)[..|cs + inbox|]), multiset([]), multiset{})
  {
    MergeOk(cs, inbox);
    BalanceMerge(multiset(inbox), multiset(cs), live, pending);
    AccountStart(cs + inbox);
  }

  class Feed {
    var buf: array<Case>
    var sendLen: nat      // len(f.sendCases)
    var inbox: seq<Case>
    // the Send in progress, if any
    var sending: bool
    var casesLen: nat     // len(cases)
    var delivered: seq<Case>
    // subscriptions that were not removed yet, and those among them that wait for their removal
    var live: map<SubId, Chan>
    var pending: set<SubId>
    // every subscription there ever was: none is made twice
    var known: set<SubId>

    /** The cases merged into the Send in progress, and those removed from it before being served. */
    ghost var merged: multiset<Case>
    ghost var missed: multiset<Case>

    function SendCases(): seq<Case>
      reads this`buf, this`sendLen, buf
      requires sendLen <= buf.Length
    {
      buf[..sendLen]
    }

    /** Slot 0 is the removal channel and the only one. */
    ghost predicate Shaped()
      reads this`buf, this`sendLen, this`inbox, this`sending, this`casesLen, buf
    {
      && 1 <= sendLen <= buf.Length
      && CasesOk(SendCases())
      && (forall c :: c in inbox ==> c.SendTo?)
      && (sending ==> 1 <= casesLen <= sendLen)
    }

    ghost predicate Balanced()
      reads this`buf, this`sendLen, this`inbox, this`live, this`pending, this`known, buf
      requires sendLen <= buf.Length
    {
      live.Keys <= known && Balance(multiset(inbox), multiset(SendCases()), live, pending)
    }

    ghost predicate Accounted()
      reads this, buf
      requires sendLen <= buf.Length && casesLen <= sendLen
    {
      Account(merged, multiset(SendCases()[..casesLen]), multiset(delivered), missed)
    }

    ghost predicate Valid()
      reads this, buf
    {
      Shaped() && Balanced() && (sending ==> Accounted())
    }

    /** The index of the first send case equal to `c`, or -1. */
    method Find(c: Case) returns (index: int)
      requires sendLen <= buf.Length
      ensures index == -1 <==> c !in SendCases()
      ensures index != -1 ==> 0 <= index < sendLen && buf[index] == c && c !in buf[..index]
    {
      index := 0;
      while index < sendLen
        invariant 0 <= index <= sendLen && c !in buf[..index]
      {
        if buf[index] == c {
          return;
        }
        index := index + 1;
      }
      index := -1;
    }

    /** Removes the case at `i` from the send cases by shifting the following ones down. */
    method DeleteCase(i: nat)
      requires i < sendLen <= buf.Length
      modifies this`sendLen, buf
      ensures sendLen == old(sendLen) - 1
      ensures SendCases() == DeleteAt(old(SendCases()), i)
    {
      ghost var cs := SendCases();
      var j := i;
      while j < sendLen - 1
        invariant i <= j <= sendLen - 1
        invariant forall k :: 0 <= k < i ==> buf[k] == cs[k]
        invariant forall k :: i <= k < j ==> buf[k] == cs[k + 1]
        invariant forall k :: j <= k < sendLen ==> buf[k] == cs[k]
        modifies buf
      {
        buf[j] := buf[j + 1];
        j := j + 1;
      }
      sendLen := sendLen - 1;
      ShiftedDown(cs, SendCases(), i);
    }

    /** Moves the case at `i` into the inaccessible part of the active prefix. */
    method Deactivate(i: nat)
      requires i < casesLen <= sendLen <= buf.Length
      modifies this`casesLen, buf
      ensures casesLen == old(casesLen) - 1
      ensures SendCases() == SwapOut(old(SendCases()), old(casesLen), i)
    {
      var last := casesLen - 1;
      buf[i], buf[last] := buf[last], buf[i];
      casesLen := last;
    }

    constructor ()
      ensures Valid() && fresh(buf) && inbox == [] && live == map[] && !sending
    {
      var a := new Case[1](_ => RemoveSub);
      buf, sendLen, inbox, sending, casesLen, delivered := a, 1, [], false, 1, [];
      live, pending, known := map[], {}, {};
      merged, missed := multiset{}, multiset{};
      new;
      assert SendCases() == [RemoveSub];
    }

    method Subscribe(id: SubId, ch: Chan)
      requires Valid() && id !in known
      modifies this`inbox, this`live, this`known
      ensures Valid() && live == old(live)[id := ch] && known == old(known) + {id}
      ensures inbox == old(inbox) + [SendTo(ch)]
    {
      BalanceSubscribe(multiset(inbox), multiset(SendCases()), live, pending, id, ch);
      inbox := inbox + [SendTo(ch)];
      live, known := live[id := ch], known + {id};
    }

    /** The index of `c` in the inbox, or -1. */
    method FindInbox(c: Case) returns (index: int)
      ensures index == -1 <==> c !in inbox
      ensures index != -1 ==> 0 <= index < |inbox| && inbox[index] == c
    {
      index := 0;
      while index < |inbox|
        invariant 0 <= index <= |inbox| && c !in inbox[..index]
      {
        if inbox[index] == c {
          return;
        }
        index := index + 1;
      }
      index := -1;
    }

    /** Cancels a subscription. One still in the inbox goes at once; otherwise the caller has to wait
        for a Send in progress, or for the send lock. */
    method Unsubscribe(id: SubId)
      requires Valid()
      modifies this`inbox, this`live, this`pending
      ensures Valid()
      ensures old(id !in live || id in pending) ==> live == old(live) && pending == old(pending) && inbox == old(inbox)
      ensures old(id in live && id !in pending && SendTo(live[id]) in inbox) ==>
        live == old(live) - {id} && pending == old(pending)
          && multiset(inbox) == multiset(old(inbox)) - multiset{SendTo(old(live)[id])}
      ensures old(id in live && id !in pending && SendTo(live[id]) !in inbox) ==>
        live == old(live) && pending == old(pending) + {id} && inbox == old(inbox)
    {
      if id !in live || id in pending {
        return;
      }
      var c := SendTo(live[id]);
      var index := FindInbox(c);
      if index != -1 {
        DropFromInbox(id, index);
      } else {
        MarkPending(id);
      }
    }

    method MarkPending(id: SubId)
      requires Valid() && id in live && id !in pending && SendTo(live[id]) !in inbox
      modifies this`pending
      ensures Valid() && pending == old(pending) + {id}
    {
      BalancePend(multiset(inbox), multiset(SendCases()), live, pending, id);
      pending := pending + {id};
    }

    method DropFromInbox(id: SubId, index: nat)
      requires Valid() && id in live && id !in pending
      requires index < |inbox| && inbox[index] == SendTo(live[id])
      modifies this`inbox, this`live
      ensures Valid()
      ensures live == old(live) - {id}
      ensures multiset(inbox) == multiset(old(inbox)) - multiset{SendTo(old(live)[id])}
    {
      hide Balance, Account, CasesOk;
      BalanceInboxDrop(multiset(inbox), multiset(SendCases()), live, pending, id);
      DeleteCount(inbox, index);
      inbox := DeleteAt(inbox, index);
      live := live - {id};
    }

    /** Removes one entry of a subscription that waits for its removal; the entry is always there. */
    method RemoveEntry(id: SubId) returns (index: int)
      requires Shaped() && Balanced() && id in pending
      modifies this`sendLen, this`live, this`pending, buf
      ensures 1 <= index < old(sendLen) && old(buf[index]) == SendTo(old(live)[id])
      ensures sendLen == old(sendLen) - 1 && SendCases() == DeleteAt(old(SendCases()), index)
      ensures CasesOk(SendCases()) && Balanced()
      ensures live == old(live) - {id} && pending == old(pending) - {id}
    {
      hide Balance, CasesOk, DeleteAt;
      BalanceRemove(multiset(inbox), multiset(SendCases()), live, pending, id);
      index := Find(SendTo(live[id]));
      assert SendCases()[index] == buf[index];
      DeleteCount(SendCases(), index);
      DeleteOk(SendCases(), index);
      DeleteCase(index);
      live, pending := live - {id}, pending - {id};
    }

    /** No Send is in progress: the waiting caller takes the send lock and removes its entry itself. */
    method RemoveIdle(id: SubId)
      requires Valid() && !sending && id in pending
      modifies this`sendLen, this`live, this`pending, buf
      ensures Valid() && live == old(live) - {id} && pending == old(pending) - {id}
      ensures multiset(SendCases()) == old(multiset(SendCases())) - multiset{SendTo(old(live)[id])}
    {
      ghost var before := SendCases();
      var index := RemoveEntry(id);
      DeleteCount(before, index);
    }

    /** Takes the send lock and merges the inbox. */
    method BeginSend()
      requires Valid() && !sending
      modifies this`buf, this`sendLen, this`inbox, this`sending, this`casesLen, this`delivered, this`merged,
        this`missed, buf
      ensures Valid() && sending && inbox == [] && delivered == [] && casesLen == sendLen
      ensures SendCases() == old(SendCases() + inbox)
      ensures merged == multiset(old(SendCases() + inbox)[1..]) && missed == multiset{}
      ensures fresh(buf) || buf == old(buf)
    {
      hide Balance, Account, CasesOk;
      ghost var all := SendCases() + inbox;
      MergeFacts(SendCases(), inbox, live, pending);
      MergeInbox();
      assert SendCases()[..sendLen] == all[..|all|];
      sending, casesLen, delivered := true, sendLen, [];
      merged, missed := multiset(all[1..]), multiset{};
    }

    method MergeInbox()
      requires Shaped() && Balanced() && !sending
      modifies this`buf, this`sendLen, this`inbox, buf
      ensures Shaped() && Balanced() && inbox == [] && SendCases() == old(SendCases() + inbox)
      ensures fresh(buf) || buf == old(buf)
    {
      hide Balance, CasesOk;
      MergeFacts(SendCases(), inbox, live, pending);
      Append();
      inbox := [];
    }

    /** Moves the send cases to a larger array. */
    method Grow(n: nat)
      requires sendLen <= buf.Length && sendLen <= n
      modifies this`buf
      ensures fresh(buf) && buf.Length >= n && sendLen <= buf.Length
      ensures SendCases() == old(SendCases())
    {
      var larger := new Case[2 * n](_ => RemoveSub);
      forall i | 0 <= i < sendLen {
        larger[i] := buf[i];
      }
      buf := larger;
    }

    /** Appends the inbox to the send cases, in a larger array if the current one is full. */
    method Append()
      requires sendLen <= buf.Length
      modifies this`buf, this`sendLen, buf
      ensures sendLen == old(sendLen) + |inbox| <= buf.Length
      ensures SendCases() == old(SendCases()) + inbox
      ensures fresh(buf) || buf == old(buf)
    {
      ghost var before := SendCases();
      var n := sendLen + |inbox|;
      if n > buf.Length {
        Grow(n);
      }
      var k := 0;
      while k < |inbox|
        invariant 0 <= k <= |inbox|
        invariant buf[..sendLen + k] == before + inbox[..k]
        modifies buf
      {
        buf[sendLen + k] := inbox[k];
        assert buf[..sendLen + k + 1] == buf[..sendLen + k] + [inbox[k]];
        k := k + 1;
      }
      sendLen := n;
    }

    /** The value reaches the channel of an active case. */
    method Serve(i: nat)
      requires Valid() && sending && 1 <= i < casesLen
      modifies this`casesLen, this`delivered, buf
      ensures Valid() && casesLen == old(casesLen) - 1
      ensures delivered == old(delivered) + [old(SendCases()[i])]
      ensures SendCases() == SwapOut(old(SendCases()), old(casesLen), i)
    {
      hide Balance, Account, SwapOut, CasesOk;
      ghost var cs := SendCases();
      SwapOutCount(cs, casesLen, i);
      SwapOk(cs, casesLen, i);
      ServeAccount(merged, cs, casesLen, i, delivered, missed);
      delivered := delivered + [buf[i]];
      Deactivate(i);
    }

    /** A removal request is received in the middle of a Send. */
    method RemoveSending(id: SubId) returns (index: int)
      requires Valid() && sending && id in pending
      modifies this`sendLen, this`casesLen, this`live, this`pending, this`missed, buf
      ensures Valid() && sendLen == old(sendLen) - 1
      ensures live == old(live) - {id} && pending == old(pending) - {id}
      ensures 1 <= index < old(sendLen) && old(SendCases())[index] == SendTo(old(live)[id])
      ensures SendCases() == DeleteAt(old(SendCases()), index)
      // the removed case counts as missed exactly if it was still active
      ensures casesLen == old(casesLen) - (if index < old(casesLen) then 1 else 0)
      ensures missed == old(missed) + if index < old(casesLen) then multiset{SendTo(old(live)[id])} else multiset{}
    {
      hide Balance, Account, DeleteAt, CasesOk;
      ghost var cs := SendCases();
      index := RemoveEntry(id);
      RemoveAccount(merged, cs, casesLen, index, delivered, missed);
      if index < casesLen {
        casesLen := casesLen - 1;
        missed := missed + multiset{cs[index]};
      }
    }

    /** Nothing is left to serve: hands off the send lock. */
    method EndSend() returns (nsent: nat)
      requires Valid() && sending && casesLen == 1
      modifies this`sending
      ensures Valid() && !sending
      ensures nsent == |delivered| && merged == multiset(delivered) + missed
    {
      assert SendCases()[..1] == [RemoveSub];
      AccountEnd(merged, multiset(delivered), missed);
      nsent := |delivered|;
      sending := false;
    }

    /** Whatever other goroutines do meanwhile: any number of subscriptions, and cancellations of
        those subscriptions that are in `allowed`. */
    method Environment(allowed: set<SubId>)
      requires Valid() && pending <= allowed
      modifies this`inbox, this`live, this`pending, this`known
      ensures Valid() && pending <= allowed
      ensures Stays(old(live), allowed) && old(known) <= known && live.Keys * old(known) <= old(live).Keys
    {
      hide Balance, Account, CasesOk;
      var steps: nat := *;
      while steps > 0
        invariant Valid() && pending <= allowed
        invariant Stays(old(live), allowed) && old(known) <= known && live.Keys * old(known) <= old(live).Keys
      {
        var id: SubId, ch: Chan := *, *;
        if id in live && id in allowed {
          Unsubscribe(id);
        } else if id !in known {
          Subscribe(id, ch);
        }
        steps := steps - 1;
      }
    }

    /** Every subscription of `before` that may not be cancelled is still there. */
    ghost predicate Stays(before: map<SubId, Chan>, allowed: set<SubId>)
      reads this`live
    {
      forall id :: id in before && id !in allowed ==> id in live && live[id] == before[id]
    }

    /** The entries in `removed` belonged to the subscriptions in `gone`: cancelled ones, each of them
        removed for good. */
    ghost predicate Tallied(removed: multiset<Case>, gone: map<SubId, Chan>, allowed: set<SubId>)
      reads this`live, this`pending, this`known
    {
      && pending <= allowed && gone.Keys <= allowed
      && gone.Keys <= known && gone.Keys !! live.Keys
      && EntriesOf(gone, removed) && removed[RemoveSub] == 0
    }

    /** Tries the case at `i` once; a receiver that is ready takes the value. */
    method TrySend(i: nat, allowed: set<SubId>, ghost removed: multiset<Case>, ghost gone: map<SubId, Chan>)
      returns (sent: bool)
      requires Valid() && sending && Kept(removed) && Tallied(removed, gone, allowed) && 1 <= i < casesLen
      modifies this`casesLen, this`delivered, this`inbox, this`live, this`pending, this`known, buf
      ensures Valid() && sending && Kept(removed) && Tallied(removed, gone, allowed)
      ensures Stays(old(live), allowed)
      ensures casesLen == if sent then old(casesLen) - 1 else old(casesLen)
      ensures delivered == if sent then old(delivered + [SendCases()[i]]) else old(delivered)
    {
      hide Balance, Account, CasesOk, SwapOut, EntriesOf;
      Environment(allowed);
      sent := *;
      if sent {
        SwapOutCount(SendCases(), casesLen, i);
        Serve(i);
      }
    }

    /** Tries every active case once without blocking. */
    method TrySendAll(allowed: set<SubId>, ghost removed: multiset<Case>, ghost gone: map<SubId, Chan>)
      requires Valid() && sending && Kept(removed) && Tallied(removed, gone, allowed)
      modifies this`casesLen, this`delivered, this`inbox, this`live, this`pending, this`known, buf
      ensures Valid() && sending && Kept(removed) && Tallied(removed, gone, allowed)
      ensures Stays(old(live), allowed)
      ensures casesLen <= old(casesLen)
    {
      hide Balance, Account, CasesOk, EntriesOf, Kept, Tallied;
      var i := 1;
      while i < casesLen
        invariant Valid() && sending && Kept(removed) && Tallied(removed, gone, allowed)
        invariant Stays(old(live), allowed) && 1 <= i && casesLen <= old(casesLen)
        decreases casesLen - i
      {
        var sent := TrySend(i, allowed, removed, gone);
        if !sent {
          i := i + 1;
        }
      }
    }

    /** The send cases are the merged ones without `removed`, which includes everything missed. */
    ghost predicate Kept(removed: multiset<Case>)
      reads this`buf, this`sendLen, this`merged, this`missed, buf
      requires sendLen <= buf.Length
    {
      merged + multiset{RemoveSub} == multiset(SendCases()) + removed && missed <= removed
    }

    lemma KeptMeans(removed: multiset<Case>)
      requires sendLen <= buf.Length && Kept(removed)
      ensures merged + multiset{RemoveSub} == multiset(SendCases()) + removed && missed <= removed
    {
    }

    lemma KeptStart()
      requires 1 <= sendLen <= buf.Length && CasesOk(SendCases())
      requires merged == multiset(SendCases()[1..]) && missed == multiset{}
      ensures Kept(multiset{})
    {
      assert SendCases() == [RemoveSub] + SendCases()[1..];
    }

    lemma KeptRemove(removed: multiset<Case>, cs: seq<Case>, i: nat)
      requires i < |cs| && merged + multiset{RemoveSub} == multiset(cs) + removed
      ensures merged + multiset{RemoveSub} == multiset(DeleteAt(cs, i)) + (removed + multiset{cs[i]})
    {
      DeleteCount(cs, i);
    }

    /** One blocking select: a receiver takes the value, or a removal request comes in. */
    method Select(ghost allowed: set<SubId>, ghost removed: multiset<Case>, ghost gone: map<SubId, Chan>)
      returns (ghost removed': multiset<Case>, ghost gone': map<SubId, Chan>)
      requires Valid() && sending && casesLen > 1 && Kept(removed) && Tallied(removed, gone, allowed)
      modifies this`casesLen, this`sendLen, this`delivered, this`live, this`pending, this`missed, buf
      ensures Valid() && sending && Kept(removed') && Tallied(removed', gone', allowed)
      ensures Stays(old(live), allowed)
      ensures casesLen <= old(casesLen) && sendLen <= old(sendLen)
      ensures casesLen + sendLen < old(casesLen) + old(sendLen)
    {
      hide Balance, Account, CasesOk, SwapOut, DeleteAt, EntriesOf;
      ghost var cs := SendCases();
      var chosen: nat :| chosen < casesLen && (chosen == 0 ==> pending != {});
      if chosen == 0 {
        var id :| id in pending;
        PendingLive(id);
        EntriesMore(gone, removed, id, live[id]);
        gone' := gone[id := live[id]];
        var index := RemoveSending(id);
        KeptRemove(removed, cs, index);
        removed' := removed + multiset{cs[index]};
      } else {
        SwapOutCount(cs, casesLen, chosen);
        Serve(chosen);
        removed', gone' := removed, gone;
      }
    }

    lemma PendingLive(id: SubId)
      requires Valid() && id in pending
      ensures id in live
    {
    }

    /** Serves and removes until only the removal channel is active. */
    method SendLoop(allowed: set<SubId>) returns (ghost removed: multiset<Case>, ghost gone: map<SubId, Chan>)
      requires Valid() && sending && Kept(multiset{}) && Tallied(multiset{}, map[], allowed)
      modifies this`casesLen, this`sendLen, this`delivered, this`inbox, this`live, this`pending, this`known,
        this`missed, buf
      ensures Valid() && sending && casesLen == 1 && Kept(removed) && Tallied(removed, gone, allowed)
      ensures Stays(old(live), allowed)
    {
      hide Balance, Account, CasesOk, SwapOut, DeleteAt, EntriesOf, Kept;
      removed, gone := multiset{}, map[];
      while true
        invariant Valid() && sending && Kept(removed) && Tallied(removed, gone, allowed)
        invariant Stays(old(live), allowed)
        decreases casesLen + sendLen
      {
        TrySendAll(allowed, removed, gone);
        if casesLen == 1 {
          break;
        }
        Environment(allowed);
        removed, gone := Select(allowed, removed, gone);
      }
    }

    /** Sends a value: every channel merged from the inbox or subscribed before gets it exactly once,
        unless its entry is removed first. `quitters` are the subscriptions that may be cancelled
        meanwhile, `removed` the entries taken out, and `gone` the subscriptions they belonged to. */
    method Send(quitters: set<SubId>)
      returns (nsent: nat, ghost removed: multiset<Case>, ghost gone: map<SubId, Chan>)
      requires Valid() && !sending
      modifies this, buf
      ensures Valid() && !sending && (fresh(buf) || buf == old(buf))
      ensures merged == multiset(old(SendCases() + inbox)[1..])
      ensures nsent == |delivered| && merged == multiset(delivered) + missed
      ensures merged + multiset{RemoveSub} == multiset(SendCases()) + removed && missed <= removed
      // nobody who did not ask for it is removed
      ensures EntriesOf(gone, removed) && removed[RemoveSub] == 0
      ensures gone.Keys <= old(pending) + quitters && gone.Keys !! live.Keys && pending <= old(pending) + quitters
      ensures Stays(old(live), old(pending) + quitters)
      // so the value reaches everyone when nobody leaves
      ensures old(pending) + quitters == {} ==>
        multiset(delivered) == multiset(old(SendCases() + inbox)[1..]) && nsent == |old(SendCases() + inbox)| - 1
    {
      hide Balance, Account, CasesOk, SwapOut, DeleteAt, Kept, EntriesOf;
      var allowed := pending + quitters;
      EntriesNone();
      BeginSend();
      KeptStart();
      removed, gone := SendLoop(allowed);
      nsent := EndSend();
      KeptMeans(removed);
      if allowed == {} {
        NobodyGone(gone, removed);
        Reached(merged, delivered, missed);
      }
    }

    lemma Reached(merged: multiset<Case>, delivered: seq<Case>, missed: multiset<Case>)
      requires merged == multiset(delivered) + missed && missed <= multiset{}
      ensures merged == multiset(delivered) && |merged| == |delivered|
    {
      assert missed == multiset{};
    }

    /** One step between two sends, or a whole Send. */
    method Step(allowed: set<SubId>)
      requires Valid() && !sending && pending <= allowed
      modifies this, buf
      ensures Valid() && !sending && pending <= allowed && Stays(old(live), allowed)
      ensures fresh(buf) || buf == old(buf)
    {
      hide Balance, Account, CasesOk, SwapOut, DeleteAt, EntriesOf, Kept, Shaped;
      var choice: nat := *;
      if choice == 0 {
        Environment(allowed);
      } else if choice == 1 {
        if pending != {} {
          var id :| id in pending;
          RemoveIdle(id);
        }
      } else {
        ghost var removed, gone;
        var nsent;
        nsent, removed, gone := Send(allowed);
      }
    }

    /** Any run of subscriptions, cancellations, removals and sends keeps every live subscription at
        exactly one entry, and loses none that was not cancelled. */
    method Run(quitters: set<SubId>)
      requires Valid() && !sending
      modifies this, buf
      ensures Valid() && !sending
      ensures Stays(old(live), old(pending) + quitters)
    {
      hide Valid;
      var allowed := pending + quitters;
      var steps: nat := *;
      while steps > 0
        invariant Valid() && !sending && (fresh(buf) || buf == old(buf))
        invariant pending <= allowed && Stays(old(live), allowed)
      {
        Step(allowed);
        steps := steps - 1;
      }
    }
  }
}
