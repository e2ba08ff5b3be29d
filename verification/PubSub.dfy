/** An atomic publish/subscribe topic, and the forward simulation that shows the
    notification client behaves like one. */
module PubSub {
  import opened Wrappers
  import opened Subscribers
  import opened Hub

  /** Who waits for which transaction, which statuses lie ready, and who has taken one. */
  datatype Topic = Topic(waiting: map<Chan, TxID>, inbox: map<Chan, int>, received: map<Chan, int>)

  const EMPTY_TOPIC := Topic(map[], map[], map[])

  datatype Action =
    | Skip
    | Subscribe(c: Chan, tx: TxID)
    | Unsubscribe(c: Chan)
    | Publish(res: map<TxID, int>)
    | Take(c: Chan, status: int)
    | Shutdown

  /** The specification: publishing hands its status, in one step, to exactly the channels
      waiting for a transaction it mentions. */
  function Perform(t: Topic, a: Action): Topic
  {
    match a
    case Skip => t
    case Subscribe(c, tx) => t.(waiting := t.waiting[c := tx])
    case Unsubscribe(c) => t.(waiting := t.waiting - {c})
    case Publish(res) =>
      t.(waiting := map c | c in t.waiting && t.waiting[c] !in res :: t.waiting[c],
         inbox := t.inbox + map c | c in t.waiting && t.waiting[c] in res :: res[t.waiting[c]])
    case Take(c, status) => t.(inbox := t.inbox - {c}, received := t.received[c := status])
    case Shutdown => t.(waiting := map[])
  }

  /** A channel subscribes at most once, and takes only what lies ready for it. */
  predicate Possible(t: Topic, a: Action)
  {
    match a
    case Subscribe(c, _) => c !in t.waiting && c !in t.inbox && c !in t.received
    case Take(c, status) => c in t.inbox && t.inbox[c] == status && c !in t.received
    case _ => true
  }

  // ---------- the abstraction ----------

  function Lookup(pending: seq<Notification>, c: Chan): Option<int>
  {
    if pending == [] then None
    else if pending[0].receiver == c then Some(pending[0].status)
    else Lookup(pending[1..], c)
  }

  /** A status counts as delivered as soon as the dispatcher has collected its receiver,
      although the send into the channel comes later. */
  function Ready(h: HubState, c: Chan): Option<int>
  {
    if c in h.buf then Some(h.buf[c]) else Lookup(h.pending, c)
  }

  /** The client and the topic agree on caller `c`. */
  ghost predicate Agree(h: HubState, t: Topic, c: Chan)
  {
    && (c in t.waiting <==> Waiting(h, c))
    && (c in t.waiting ==> t.waiting[c] == h.callers[c].tx)
    && (c in t.inbox <==> Ready(h, c).Some?)
    && (c in t.inbox ==> t.inbox[c] == Ready(h, c).value)
    && (c in t.received <==> c in h.callers && h.callers[c].phase.Received?)
    && (c in t.received ==> t.received[c] == h.callers[c].phase.status)
  }

  /** The simulation relation. */
  ghost predicate Represents(h: HubState, t: Topic)
  {
    forall c :: Agree(h, t, c)
  }

  /** A state of the client shows one topic. */
  lemma TopicUnique(h: HubState, t: Topic, t': Topic)
    requires Represents(h, t) && Represents(h, t')
    ensures t == t'
  {
    forall c
      ensures c in t.waiting <==> c in t'.waiting
      ensures c in t.waiting ==> t.waiting[c] == t'.waiting[c]
      ensures c in t.inbox <==> c in t'.inbox
      ensures c in t.inbox ==> t.inbox[c] == t'.inbox[c]
      ensures c in t.received <==> c in t'.received
      ensures c in t.received ==> t.received[c] == t'.received[c]
    {
      assert Agree(h, t, c) && Agree(h, t', c);
    }
    assert t.waiting == t'.waiting && t.inbox == t'.inbox && t.received == t'.received;
  }

  lemma {:induction false} LookupIff(pending: seq<Notification>, c: Chan)
    requires DistinctReceivers(pending)
    ensures forall status :: Lookup(pending, c) == Some(status) <==> Notification(c, status) in pending
  {
    if pending != [] {
      var rest := pending[1..];
      assert DistinctReceivers(rest);
      LookupIff(rest, c);
      assert pending == [pending[0]] + rest;
      if pending[0].receiver == c {
        forall n | n in rest
          ensures n.receiver != c
        {
          var i :| 0 <= i < |rest| && rest[i] == n;
          assert pending[i + 1] == n;
        }
      }
    }
  }

  /** What lies ready for a caller is what it is owed. */
  lemma ReadyIsOwed(h: HubState, c: Chan)
    requires Inv(h)
    ensures Ready(h, c).Some? ==> c in h.callers && Ready(h, c) == Owed(h, c) && Addressable(h.callers[c].phase)
    ensures Waiting(h, c) ==> Ready(h, c).None?
    ensures forall status :: OnItsWay(h, c, status) <==> Ready(h, c) == Some(status)
  {
    LookupIff(h.pending, c);
    if Ready(h, c).Some? && c !in h.buf {
      assert Notification(c, Ready(h, c).value) in h.pending;
    }
  }

  // ---------- one step of the client is one action of the topic ----------

  lemma ArriveSimulates(h: HubState, t: Topic, c: Chan, tx: TxID, failed: bool)
    requires Inv(h) && c !in h.callers && Represents(h, t)
    ensures Represents(Arrive(h, c, tx, failed), t)
  {
    var h' := Arrive(h, c, tx, failed);
    ReadyIsOwed(h, c);
    assert c !in List(h.subs, tx);
    forall d
      ensures Agree(h', t, d)
    {
      assert Agree(h, t, d);
    }
  }

  lemma PhaseSimulates(h: HubState, t: Topic, c: Chan, phase: Phase)
    requires c in h.callers && Enrolled(h.callers[c].phase) && Enrolled(phase)
    requires Represents(h, t)
    ensures Represents(SetPhase(h, c, phase), t)
  {
    forall d
      ensures Agree(SetPhase(h, c, phase), t, d)
    {
      assert Agree(h, t, d);
    }
  }

  lemma JoinWaiting(h: HubState, c: Chan, d: Chan)
    requires c in h.callers
    ensures Waiting(Join(h, c), d) <==> d == c || Waiting(h, d)
  {
    assert c in [c];
  }

  lemma JoinSimulates(h: HubState, t: Topic, c: Chan)
    requires Inv(h) && c in h.callers && h.callers[c].phase.Checked? && Represents(h, t)
    ensures Possible(t, Subscribe(c, h.callers[c].tx))
    ensures Represents(Join(h, c), Perform(t, Subscribe(c, h.callers[c].tx)))
  {
    var h' := Join(h, c);
    ReadyIsOwed(h, c);
    assert !Waiting(h, c) && Agree(h, t, c);
    forall d
      ensures Agree(h', Perform(t, Subscribe(c, h.callers[c].tx)), d)
    {
      assert Agree(h, t, d);
      JoinWaiting(h, c, d);
    }
  }

  lemma LeaveSimulates(h: HubState, t: Topic, c: Chan)
    requires Inv(h) && c in h.callers && h.callers[c].phase.RollingBack? && Represents(h, t)
    ensures Represents(Leave(h, c), Perform(t, Unsubscribe(c)))
  {
    forall d
      ensures Agree(Leave(h, c), Perform(t, Unsubscribe(c)), d)
    {
      assert Agree(h, t, d);
      if d in h.callers {
        LeaveMembers(h, c, h.callers[d].tx);
      }
    }
  }

  lemma SendSimulates(h: HubState, t: Topic)
    requires Inv(h) && h.pending != [] && Represents(h, t)
    ensures Represents(Send(h), t)
  {
    SendKeeps(h);
    forall d
      ensures Agree(Send(h), t, d)
    {
      assert Agree(h, t, d);
    }
  }

  lemma TakeSimulates(h: HubState, t: Topic, c: Chan)
    requires Inv(h) && c in h.callers && c in h.buf && h.callers[c].phase.Subscribed? && Represents(h, t)
    ensures Possible(t, Take(c, h.buf[c]))
    ensures Represents(Hub.Take(h, c), Perform(t, Take(c, h.buf[c])))
  {
    TakeKeeps(h, c);
    ReadyIsOwed(Hub.Take(h, c), c);
    assert Agree(h, t, c);
    forall d
      ensures Agree(Hub.Take(h, c), Perform(t, Take(c, h.buf[c])), d)
    {
      assert Agree(h, t, d);
    }
  }

  lemma DropSimulates(h: HubState, t: Topic)
    requires Represents(h, t)
    ensures Represents(Drop(h), Perform(t, Shutdown))
  {
    forall d
      ensures Agree(Drop(h), Perform(t, Shutdown), d)
    {
      assert Agree(h, t, d);
    }
  }

  lemma DispatchReady(h: HubState, res: map<TxID, int>, order: seq<TxID>, d: Chan)
    requires Inv(h) && h.pending == [] && IsOrder(order, res.Keys)
    requires Inv(Dispatch(h, res, order))
    ensures Ready(Dispatch(h, res, order), d) ==
            if Waiting(h, d) && h.callers[d].tx in res then Some(res[h.callers[d].tx]) else Ready(h, d)
  {
    var h' := Dispatch(h, res, order);
    ReadyIsOwed(h, d);
    ReadyIsOwed(h', d);
    if Waiting(h, d) {
      DispatchNotifies(h, res, order, d);
      if h.callers[d].tx in res {
        assert OnItsWay(h', d, res[h.callers[d].tx]);
      }
    }
    if Ready(h', d).Some? && d !in h.buf {
      var n := Notification(d, Ready(h', d).value);
      assert OnItsWay(h', d, n.status);
      NotificationsIff(h.subs, res, order, n);
      var tx :| tx in order && tx in res && d in List(h.subs, tx);
      assert h.callers[d].tx == tx;
    }
  }

  /** The key step: collecting under the lock is one atomic publication, in whatever order
      the response map is visited. */
  lemma DispatchSimulates(h: HubState, t: Topic, res: map<TxID, int>, order: seq<TxID>)
    requires Inv(h) && h.pending == [] && !h.cleared && IsOrder(order, res.Keys) && Represents(h, t)
    ensures Represents(Dispatch(h, res, order), Perform(t, Publish(res)))
  {
    DispatchKeeps(h, res, order);
    forall d
      ensures Agree(Dispatch(h, res, order), Perform(t, Publish(res)), d)
    {
      assert Agree(h, t, d);
      DispatchReady(h, res, order, d);
    }
  }
}
