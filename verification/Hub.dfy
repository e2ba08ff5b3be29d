/** The shared state of the notification client: callers of `Subscribe`, the subscriber
    table, the dispatcher's pending sends, and the one-slot receiver channels. Each
    operation here is one atomic step of some goroutine. */
module Hub {
  import opened Wrappers
  import opened Subscribers

  /** Where a call of `Subscribe`, and the wait on its channel, has got to. */
  datatype Phase =
    | Rejected              // streamErr was set: Subscribe returned it
    | Checked               // streamErr was nil; not registered yet
    | First                 // registered as the first for its transaction
    | Pushing               // its context was open; about to push the request
    | RollingBack           // its context is done; about to roll back
    | Withdrawn             // rolled back: Subscribe returned the context error
    | Subscribed            // Subscribe returned the channel
    | Received(status: int) // WaitForEvent returned this status

  /** `since` is the number of responses dispatched before the caller registered;
      `first` says whether it created the entry of its transaction. */
  datatype Caller = Caller(tx: TxID, phase: Phase, since: nat, first: bool)

  datatype HubState = HubState(
    callers: map<Chan, Caller>,
    subs: Table,
    pending: seq<Notification>,
    buf: map<Chan, int>,
    log: seq<map<TxID, int>>,   // parsed responses, in the order they were dispatched
    cleared: bool)

  const EMPTY_HUB := HubState(map[], map[], [], map[], [], false)

  // ---------- atomic operations ----------

  function SetPhase(h: HubState, c: Chan, phase: Phase): HubState
    requires c in h.callers
  {
    h.(callers := h.callers[c := h.callers[c].(phase := phase)])
  }

  function Arrive(h: HubState, c: Chan, tx: TxID, failed: bool): HubState
  {
    h.(callers := h.callers[c := Caller(tx, if failed then Rejected else Checked, |h.log|, false)])
  }

  function Join(h: HubState, c: Chan): HubState
    requires c in h.callers
  {
    var k := h.callers[c];
    var isFirst := List(h.subs, k.tx) == [];
    h.(callers := h.callers[c := Caller(k.tx, if isFirst then First else Subscribed, |h.log|, isFirst)],
       subs := Registered(h.subs, k.tx, c))
  }

  function Leave(h: HubState, c: Chan): HubState
    requires c in h.callers
  {
    SetPhase(h, c, Withdrawn).(subs := RolledBack(h.subs, h.callers[c].tx, c))
  }

  function Dispatch(h: HubState, res: map<TxID, int>, order: seq<TxID>): HubState
  {
    h.(subs := h.subs - res.Keys, pending := Notifications(h.subs, res, order), log := h.log + [res])
  }

  function Send(h: HubState): HubState
    requires h.pending != []
  {
    var n := h.pending[0];
    h.(pending := h.pending[1..], buf := if n.receiver in h.buf then h.buf else h.buf[n.receiver := n.status])
  }

  function Take(h: HubState, c: Chan): HubState
    requires c in h.callers && c in h.buf
  {
    SetPhase(h, c, Received(h.buf[c])).(buf := h.buf - {c})
  }

  function Drop(h: HubState): HubState
  {
    h.(subs := map[], cleared := true)
  }

  // ---------- what a caller is owed ----------

  /** The status in the first response from `from` on that mentions `tx`. */
  function FirstMention(log: seq<map<TxID, int>>, from: nat, tx: TxID): Option<int>
    decreases |log| - from
  {
    if from >= |log| then None
    else if tx in log[from] then Some(log[from][tx])
    else FirstMention(log, from + 1, tx)
  }

  lemma {:induction false} FirstMentionAppend(log: seq<map<TxID, int>>, res: map<TxID, int>, from: nat, tx: TxID)
    requires from <= |log|
    ensures FirstMention(log + [res], from, tx) ==
            if FirstMention(log, from, tx).Some? then FirstMention(log, from, tx)
            else if tx in res then Some(res[tx]) else None
    decreases |log| - from
  {
    if from < |log| {
      FirstMentionAppend(log, res, from + 1, tx);
    }
  }

  /** The status in the first response dispatched since the caller registered that mentions
      its transaction. */
  function Owed(h: HubState, c: Chan): Option<int>
    requires c in h.callers
  {
    FirstMention(h.log, h.callers[c].since, h.callers[c].tx)
  }

  // ---------- the invariant ----------

  predicate Enrolled(phase: Phase)
  {
    phase.First? || phase.Pushing? || phase.RollingBack? || phase.Subscribed?
  }

  /** A message may still be sent to the caller's channel: a withdrawn caller may have been
      collected before it rolled back. */
  predicate Addressable(phase: Phase)
  {
    Enrolled(phase) || phase.Withdrawn?
  }

  ghost predicate NoRepeats(s: seq<Chan>)
  {
    forall i, j :: 0 <= i < j < |s| ==> s[i] != s[j]
  }

  ghost predicate Waiting(h: HubState, c: Chan)
  {
    c in h.callers && c in List(h.subs, h.callers[c].tx)
  }

  /** Lists are never empty, name each channel once, and only enrolled callers of their
      transaction that nobody has answered yet. */
  ghost predicate TableOk(h: HubState)
  {
    && (forall tx :: tx in h.subs ==> h.subs[tx] != [] && NoRepeats(h.subs[tx]))
    && (forall tx, c :: tx in h.subs && c in h.subs[tx] ==>
          c in h.callers && h.callers[c].tx == tx && Enrolled(h.callers[c].phase) && Owed(h, c) == None)
  }

  ghost predicate DistinctReceivers(s: seq<Notification>)
  {
    forall i, j :: 0 <= i < j < |s| ==> s[i].receiver != s[j].receiver
  }

  /** A message still to be sent, or lying in a channel, is what its caller is owed. */
  ghost predicate MessageOk(h: HubState, c: Chan, status: int)
  {
    && c in h.callers
    && Addressable(h.callers[c].phase)
    && Owed(h, c) == Some(status)
  }

  ghost predicate MessagesOk(h: HubState)
  {
    && DistinctReceivers(h.pending)
    && (forall n :: n in h.pending ==> MessageOk(h, n.receiver, n.status) && n.receiver !in h.buf)
    && (forall c :: c in h.buf ==> MessageOk(h, c, h.buf[c]))
  }

  ghost predicate OnItsWay(h: HubState, c: Chan, status: int)
  {
    Notification(c, status) in h.pending || (c in h.buf && h.buf[c] == status)
  }

  /** Nobody is forgotten, and nobody received anything but what it was owed. */
  ghost predicate CallerOk(h: HubState, c: Chan)
    requires c in h.callers
  {
    var k := h.callers[c];
    && k.since <= |h.log|
    && (k.phase.Received? ==> Owed(h, c) == Some(k.phase.status))
    && (Enrolled(k.phase) && Owed(h, c).Some? ==> OnItsWay(h, c, Owed(h, c).value))
    && (Enrolled(k.phase) && Owed(h, c).None? && !h.cleared ==> Waiting(h, c))
  }

  ghost predicate Inv(h: HubState)
  {
    && TableOk(h)
    && MessagesOk(h)
    && (forall c :: c in h.callers ==> CallerOk(h, c))
  }

  // ---------- every operation keeps it ----------

  /** Caller `d` is the same registration in both states. */
  predicate SameRegistration(h: HubState, h': HubState, d: Chan)
    requires d in h.callers
  {
    && d in h'.callers
    && h'.callers[d].tx == h.callers[d].tx
    && h'.callers[d].since == h.callers[d].since
  }

  /** Operations that only touch callers and the table keep every message owed. */
  lemma MessagesStay(h: HubState, h': HubState)
    requires MessagesOk(h)
    requires h'.pending == h.pending && h'.buf == h.buf && h'.log == h.log
    requires forall d :: d in h.callers && Addressable(h.callers[d].phase) ==>
               SameRegistration(h, h', d) && Addressable(h'.callers[d].phase)
    ensures MessagesOk(h')
  {
    forall d, status | MessageOk(h, d, status)
      ensures MessageOk(h', d, status)
    {
    }
  }

  /** The same for a caller whose record, messages and membership are unchanged. */
  lemma CallerStays(h: HubState, h': HubState, d: Chan)
    requires d in h.callers && CallerOk(h, d)
    requires d in h'.callers && h'.callers[d] == h.callers[d] && h'.log == h.log
    requires forall status :: OnItsWay(h, d, status) ==> OnItsWay(h', d, status)
    requires h'.cleared || h'.cleared == h.cleared
    requires !h'.cleared && Waiting(h, d) ==> Waiting(h', d)
    ensures CallerOk(h', d)
  {
    assert Owed(h', d) == Owed(h, d);
  }

  lemma ArriveKeeps(h: HubState, c: Chan, tx: TxID, failed: bool)
    requires Inv(h) && c !in h.callers
    ensures Inv(Arrive(h, c, tx, failed))
  {
    var h' := Arrive(h, c, tx, failed);
    MessagesStay(h, h');
    forall d | d in h.callers
      ensures h'.callers[d] == h.callers[d] && Owed(h', d) == Owed(h, d) && CallerOk(h', d)
    {
      CallerStays(h, h', d);
    }
  }

  lemma PhaseKeeps(h: HubState, c: Chan, phase: Phase)
    requires Inv(h) && c in h.callers
    requires Enrolled(h.callers[c].phase) && Enrolled(phase)
    ensures Inv(SetPhase(h, c, phase))
  {
    var h' := SetPhase(h, c, phase);
    MessagesStay(h, h');
    forall d | d in h.callers
      ensures Owed(h', d) == Owed(h, d) && CallerOk(h', d)
    {
      if d != c {
        CallerStays(h, h', d);
      }
    }
  }

  lemma JoinTable(h: HubState, c: Chan)
    requires Inv(h) && c in h.callers && h.callers[c].phase.Checked?
    ensures TableOk(Join(h, c))
  {
    var h' := Join(h, c);
    var tx := h.callers[c].tx;
    assert c !in List(h.subs, tx);
    assert Owed(h', c) == None;
    forall t, d | t in h'.subs && d in h'.subs[t]
      ensures d in h'.callers && h'.callers[d].tx == t && Enrolled(h'.callers[d].phase) && Owed(h', d) == None
    {
      if d != c {
        assert t in h.subs && d in h.subs[t];
        assert Owed(h', d) == Owed(h, d);
      }
    }
  }

  lemma JoinKeeps(h: HubState, c: Chan)
    requires Inv(h) && c in h.callers && h.callers[c].phase.Checked?
    ensures Inv(Join(h, c))
  {
    var h' := Join(h, c);
    JoinTable(h, c);
    MessagesStay(h, h');
    forall d | d in h'.callers
      ensures CallerOk(h', d)
    {
      if d == c {
        assert Owed(h', c) == None;
        assert c in [c] && Waiting(h', c);
      } else {
        CallerStays(h, h', d);
      }
    }
  }

  lemma {:induction false} WithoutAbsent(s: seq<Chan>, c: Chan)
    requires c !in s
    ensures Without(s, c) == s
  {
    if s != [] {
      WithoutAbsent(s[1..], c);
    }
  }

  lemma WithoutShape(s: seq<Chan>, c: Chan)
    requires NoRepeats(s)
    ensures c !in s ==> Without(s, c) == s
    ensures c in s ==> exists i :: 0 <= i < |s| && s[i] == c && Without(s, c) == s[..i] + s[i + 1..]
  {
    if c in s {
      var i :| 0 <= i < |s| && s[i] == c;
      assert s == s[..i] + [c] + s[i + 1..];
      WithoutSplit(s[..i], c, s[i + 1..]);
    } else {
      WithoutAbsent(s, c);
    }
  }

  lemma CutMembers(s: seq<Chan>, i: nat)
    requires NoRepeats(s) && i < |s|
    ensures forall d :: d in s[..i] + s[i + 1..] <==> d in s && d != s[i]
  {
    assert s == s[..i] + [s[i]] + s[i + 1..];
  }

  /** Rolling back removes exactly one channel and keeps the others in their order. */
  lemma WithoutMembers(s: seq<Chan>, c: Chan)
    requires NoRepeats(s)
    ensures NoRepeats(Without(s, c))
    ensures forall d :: d in Without(s, c) <==> d in s && d != c
  {
    WithoutShape(s, c);
    if c in s {
      var i :| 0 <= i < |s| && s[i] == c && Without(s, c) == s[..i] + s[i + 1..];
      CutMembers(s, i);
    }
  }

  lemma LeaveMembers(h: HubState, c: Chan, tx: TxID)
    requires TableOk(h) && c in h.callers
    ensures var t := RolledBack(h.subs, h.callers[c].tx, c);
            && (forall d :: d in List(t, tx) <==> d in List(h.subs, tx) && d != c)
            && (tx in t ==> tx in h.subs && t[tx] != [] && NoRepeats(t[tx]))
  {
    var own := h.callers[c].tx;
    if own in h.subs {
      WithoutMembers(h.subs[own], c);
      assert c !in h.subs[own] || List(RolledBack(h.subs, own, c), own) == Without(h.subs[own], c);
    }
  }

  lemma LeaveTable(h: HubState, c: Chan)
    requires Inv(h) && c in h.callers && h.callers[c].phase.RollingBack?
    ensures TableOk(Leave(h, c))
  {
    var h' := Leave(h, c);
    forall t | t in h'.subs
      ensures h'.subs[t] != [] && NoRepeats(h'.subs[t])
    {
      LeaveMembers(h, c, t);
    }
    forall t, d | t in h'.subs && d in h'.subs[t]
      ensures d in h'.callers && h'.callers[d].tx == t && Enrolled(h'.callers[d].phase) && Owed(h', d) == None
    {
      LeaveMembers(h, c, t);
      assert d in List(h'.subs, t);
      assert d in h.subs[t] && d != c;
      assert Owed(h', d) == Owed(h, d);
    }
  }

  lemma LeaveKeeps(h: HubState, c: Chan)
    requires Inv(h) && c in h.callers && h.callers[c].phase.RollingBack?
    ensures Inv(Leave(h, c)) && !Waiting(Leave(h, c), c)
  {
    var h' := Leave(h, c);
    MessagesStay(h, h');
    forall d | d in h.callers
      ensures CallerOk(h', d)
    {
      LeaveMembers(h, c, h.callers[d].tx);
      if d != c {
        CallerStays(h, h', d);
      }
    }
    LeaveTable(h, c);
    LeaveMembers(h, c, h.callers[c].tx);
  }

  lemma SendMessages(h: HubState)
    requires Inv(h) && h.pending != []
    ensures MessagesOk(Send(h))
  {
    var h' := Send(h);
    assert h.pending == [h.pending[0]] + h'.pending;
    forall d, status | MessageOk(h, d, status)
      ensures MessageOk(h', d, status)
    {
    }
  }

  /** The channel of the message being sent is empty, so the message is not dropped. */
  lemma SendKeeps(h: HubState)
    requires Inv(h) && h.pending != []
    ensures Inv(Send(h))
    ensures h.pending[0].receiver !in h.buf
  {
    var h' := Send(h);
    assert h.pending[0] in h.pending;
    assert h.pending == [h.pending[0]] + h'.pending;
    SendMessages(h);
    forall d | d in h.callers
      ensures Owed(h', d) == Owed(h, d) && CallerOk(h', d)
    {
      CallerStays(h, h', d);
    }
  }

  lemma TakeMessages(h: HubState, c: Chan)
    requires Inv(h) && c in h.callers && c in h.buf && h.callers[c].phase.Subscribed?
    ensures MessagesOk(Take(h, c))
  {
    var h' := Take(h, c);
    forall d, status | MessageOk(h, d, status) && d != c
      ensures MessageOk(h', d, status)
    {
    }
  }

  lemma TakeKeeps(h: HubState, c: Chan)
    requires Inv(h) && c in h.callers && c in h.buf && h.callers[c].phase.Subscribed?
    ensures Inv(Take(h, c))
  {
    var h' := Take(h, c);
    TakeMessages(h, c);
    assert Owed(h', c) == Owed(h, c) == Some(h.buf[c]);
    forall d | d in h.callers
      ensures Owed(h', d) == Owed(h, d) && CallerOk(h', d)
    {
      if d != c {
        CallerStays(h, h', d);
      }
    }
  }

  lemma DropKeeps(h: HubState)
    requires Inv(h)
    ensures Inv(Drop(h))
  {
    var h' := Drop(h);
    MessagesStay(h, h');
    forall d | d in h.callers
      ensures CallerOk(h', d)
    {
      CallerStays(h, h', d);
    }
  }

  // ---------- dispatching ----------

  lemma {:induction false} NotificationsIff(t: Table, res: map<TxID, int>, order: seq<TxID>, n: Notification)
    ensures n in Notifications(t, res, order) <==>
            exists tx :: tx in order && tx in res && n.receiver in List(t, tx) && n.status == res[tx]
  {
    if order != [] {
      var front, last := order[..|order| - 1], order[|order| - 1];
      NotificationsIff(t, res, front, n);
      assert order == front + [last];
      if last in res && n.receiver in List(t, last) && n.status == res[last] {
        var i :| 0 <= i < |List(t, last)| && List(t, last)[i] == n.receiver;
        assert ForTx(t, res, last)[i] == n;
      }
    }
  }

  lemma ListsDisjoint(h: HubState, tx: TxID, c: Chan, tx': TxID, c': Chan)
    requires TableOk(h) && tx != tx'
    requires c in List(h.subs, tx) && c' in List(h.subs, tx')
    ensures c != c'
  {
    assert h.callers[c].tx == tx;
  }

  lemma {:induction false} NotificationsDistinct(h: HubState, res: map<TxID, int>, order: seq<TxID>)
    requires TableOk(h)
    requires forall i, j :: 0 <= i < j < |order| ==> order[i] != order[j]
    ensures DistinctReceivers(Notifications(h.subs, res, order))
  {
    if order != [] {
      var front, last := order[..|order| - 1], order[|order| - 1];
      NotificationsDistinct(h, res, front);
      var a, b := Notifications(h.subs, res, front), ForTx(h.subs, res, last);
      forall i, j | 0 <= i < |a| && 0 <= j < |b|
        ensures a[i].receiver != b[j].receiver
      {
        NotificationsIff(h.subs, res, front, a[i]);
        var tx :| tx in front && tx in res && a[i].receiver in List(h.subs, tx);
        assert last !in front;
        ListsDisjoint(h, tx, a[i].receiver, last, b[j].receiver);
      }
      assert Notifications(h.subs, res, order) == a + b;
    }
  }

  lemma DispatchNotifies(h: HubState, res: map<TxID, int>, order: seq<TxID>, d: Chan)
    requires Inv(h) && IsOrder(order, res.Keys) && Waiting(h, d)
    ensures var tx := h.callers[d].tx;
            tx in res ==> Notification(d, res[tx]) in Dispatch(h, res, order).pending
  {
    var tx := h.callers[d].tx;
    if tx in res {
      assert tx in order;
      NotificationsIff(h.subs, res, order, Notification(d, res[tx]));
    }
  }

  lemma DispatchOwes(h: HubState, res: map<TxID, int>, order: seq<TxID>, d: Chan)
    requires Inv(h) && d in h.callers
    ensures Owed(Dispatch(h, res, order), d) ==
            if Owed(h, d).Some? then Owed(h, d)
            else if h.callers[d].tx in res then Some(res[h.callers[d].tx]) else None
  {
    assert CallerOk(h, d);
    FirstMentionAppend(h.log, res, h.callers[d].since, h.callers[d].tx);
  }

  lemma DispatchMessages(h: HubState, res: map<TxID, int>, order: seq<TxID>)
    requires Inv(h) && h.pending == [] && IsOrder(order, res.Keys)
    ensures MessagesOk(Dispatch(h, res, order))
  {
    var h' := Dispatch(h, res, order);
    NotificationsDistinct(h, res, order);
    forall n | n in h'.pending
      ensures MessageOk(h', n.receiver, n.status) && n.receiver !in h'.buf
    {
      NotificationsIff(h.subs, res, order, n);
      DispatchOwes(h, res, order, n.receiver);
    }
    forall d | d in h.buf
      ensures MessageOk(h', d, h.buf[d])
    {
      DispatchOwes(h, res, order, d);
    }
  }

  lemma DispatchKeeps(h: HubState, res: map<TxID, int>, order: seq<TxID>)
    requires Inv(h) && h.pending == [] && !h.cleared && IsOrder(order, res.Keys)
    ensures Inv(Dispatch(h, res, order))
  {
    var h' := Dispatch(h, res, order);
    DispatchMessages(h, res, order);
    forall d | d in h.callers
      ensures CallerOk(h', d)
    {
      DispatchOwes(h, res, order, d);
      if Waiting(h, d) {
        DispatchNotifies(h, res, order, d);
      }
    }
    forall t, d | t in h'.subs && d in h'.subs[t]
      ensures Owed(h', d) == None
    {
      DispatchOwes(h, res, order, d);
    }
  }
}
