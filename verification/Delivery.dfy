/** What every run of the notification client delivers, and to whom. */
module Delivery {
  import opened Wrappers
  import opened Subscribers
  import opened Hub
  import PubSub
  import opened Multiplexer

  // ---------- refinement of atomic publish/subscribe ----------

  /** The action of the topic that a step of the client stands for. */
  function ActionOf(s: State, step: Step): PubSub.Action
    requires Enabled(s, step)
  {
    match step
    case Register(c) => PubSub.Subscribe(c, s.hub.callers[c].tx)
    case Rollback(c) => PubSub.Unsubscribe(c)
    case Collect(_) => PubSub.Publish(Parse(s.dispatcher.resp))
    case Wake(c) => PubSub.Take(c, s.hub.buf[c])
    case Clear => PubSub.Shutdown
    case _ => PubSub.Skip
  }

  /** What the topic shows after the actions of a run, performed one by one. */
  function Play(steps: seq<Step>): PubSub.Topic
    requires Run(steps).Some?
  {
    if steps == [] then PubSub.EMPTY_TOPIC
    else
      var front := steps[..|steps| - 1];
      PubSub.Perform(Play(front), ActionOf(Run(front).value, steps[|steps| - 1]))
  }

  lemma StepSimulates(s: State, t: PubSub.Topic, step: Step)
    requires Safe(s) && Enabled(s, step) && PubSub.Represents(s.hub, t)
    ensures PubSub.Possible(t, ActionOf(s, step))
    ensures PubSub.Represents(Apply(s, step).hub, PubSub.Perform(t, ActionOf(s, step)))
  {
    match step
    case Call(c, tx) => PubSub.ArriveSimulates(s.hub, t, c, tx, s.streamErr);
    case Register(c) => PubSub.JoinSimulates(s.hub, t, c);
    case ContextOpen(c) => PubSub.PhaseSimulates(s.hub, t, c, Pushing);
    case ContextDone(c) => PubSub.PhaseSimulates(s.hub, t, c, RollingBack);
    case Rollback(c) => PubSub.LeaveSimulates(s.hub, t, c);
    case Push(c) => PubSub.PhaseSimulates(s.hub, t, c, Subscribed);
    case Wake(c) => WakeOnce(s, c); PubSub.TakeSimulates(s.hub, t, c);
    case Collect(order) => PubSub.DispatchSimulates(s.hub, t, Parse(s.dispatcher.resp), order);
    case Deliver => PubSub.SendSimulates(s.hub, t);
    case Clear => PubSub.DropSimulates(s.hub, t);
    case _ =>
  }

  /** Every run of the client, under every interleaving, is a run of the atomic topic:
      collecting under the lock followed by sends one at a time looks like one atomic
      publication to exactly the channels registered for the response's transactions. */
  lemma {:induction false} RefinesPubSub(steps: seq<Step>, s: State)
    requires Run(steps) == Some(s)
    ensures PubSub.Represents(s.hub, Play(steps))
  {
    if steps != [] {
      var front := steps[..|steps| - 1];
      var before := RunLast(steps, s);
      RefinesPubSub(front, before);
      RunSafe(front, before);
      StepSimulates(before, Play(front), steps[|steps| - 1]);
    }
  }

  lemma {:induction false} PrefixRuns(steps: seq<Step>, i: nat)
    requires Run(steps).Some? && i < |steps|
    ensures Run(steps[..i]).Some? && Enabled(Run(steps[..i]).value, steps[i])
    decreases |steps|
  {
    var front := steps[..|steps| - 1];
    if i < |front| {
      PrefixRuns(front, i);
      assert front[..i] == steps[..i];
    } else {
      assert steps[..i] == front;
    }
  }

  /** And each action of that run is one the topic allows: a channel subscribes once, and a
      waiter takes only a status that was published to it. */
  lemma ActionsPossible(steps: seq<Step>, i: nat)
    requires Run(steps).Some? && i < |steps|
    ensures Run(steps[..i]).Some? && Enabled(Run(steps[..i]).value, steps[i])
    ensures PubSub.Possible(Play(steps[..i]), ActionOf(Run(steps[..i]).value, steps[i]))
  {
    PrefixRuns(steps, i);
    var s := Run(steps[..i]).value;
    RunSafe(steps[..i], s);
    RefinesPubSub(steps[..i], s);
    StepSimulates(s, Play(steps[..i]), steps[i]);
  }

  // ---------- exactly once ----------

  ghost predicate Arrived(s: State, n: Notification)
  {
    || (n.receiver in s.hub.buf && s.hub.buf[n.receiver] == n.status)
    || At(s, n.receiver, Received(n.status))
  }

  /** Every message that was sent lies in its channel or was received, each channel got at
      most one, and none was dropped. */
  ghost predicate DeliveredOk(s: State)
  {
    && s.dropped == []
    && DistinctReceivers(s.delivered)
    && (forall n :: n in s.delivered ==> Arrived(s, n))
    && (forall c :: c in s.hub.buf ==> Notification(c, s.hub.buf[c]) in s.delivered)
  }

  /** A pending message goes to a channel that never got one. */
  lemma PendingIsNew(s: State, n: Notification)
    requires Safe(s) && DeliveredOk(s) && n in s.hub.pending
    ensures forall m :: m in s.delivered ==> m.receiver != n.receiver
  {
    forall m | m in s.delivered
      ensures m.receiver != n.receiver
    {
      assert Arrived(s, m);
      assert MessageOk(s.hub, n.receiver, n.status);
    }
  }

  lemma DeliverKept(s: State)
    requires Safe(s) && Enabled(s, Deliver) && DeliveredOk(s)
    ensures DeliveredOk(Apply(s, Deliver))
  {
    var s' := Apply(s, Deliver);
    var n := s.hub.pending[0];
    assert n in s.hub.pending;
    SendKeeps(s.hub);
    PendingIsNew(s, n);
    forall m | m in s'.delivered
      ensures Arrived(s', m)
    {
      if m != n {
        assert Arrived(s, m);
      }
    }
  }

  lemma WakeKept(s: State, c: Chan)
    requires Safe(s) && Enabled(s, Wake(c)) && DeliveredOk(s)
    ensures DeliveredOk(Apply(s, Wake(c)))
  {
    WakeOnce(s, c);
    forall m | m in s.delivered
      ensures Arrived(Apply(s, Wake(c)), m)
    {
      assert Arrived(s, m);
    }
  }

  /** A caller that received its status takes no further step. */
  lemma ReceivedStays(s: State, step: Step, c: Chan)
    requires Safe(s) && Enabled(s, step)
    requires c in s.hub.callers && s.hub.callers[c].phase.Received?
    ensures c in Apply(s, step).hub.callers && Apply(s, step).hub.callers[c] == s.hub.callers[c]
  {
    if step.Wake? {
      WakeOnce(s, step.c);
    }
  }

  lemma ArrivedStays(s: State, step: Step, n: Notification)
    requires Safe(s) && Enabled(s, step) && Arrived(s, n) && !step.Deliver? && !step.Wake?
    ensures Arrived(Apply(s, step), n)
  {
    if At(s, n.receiver, Received(n.status)) {
      ReceivedStays(s, step, n.receiver);
    }
  }

  /** Only delivering and waking touch the channels and the record of what went in. */
  lemma ChannelsStay(s: State, step: Step)
    requires Enabled(s, step) && !step.Deliver? && !step.Wake?
    ensures var s' := Apply(s, step);
            s'.dropped == s.dropped && s'.delivered == s.delivered && s'.hub.buf == s.hub.buf
  {
    if Internal(step) {
      HubStays(s, step);
    }
  }

  lemma DeliveredKept(s: State, step: Step)
    requires Safe(s) && Enabled(s, step) && DeliveredOk(s)
    ensures DeliveredOk(Apply(s, step))
  {
    if step.Deliver? {
      DeliverKept(s);
    } else if step.Wake? {
      WakeKept(s, step.c);
    } else {
      ChannelsStay(s, step);
      forall n | n in s.delivered
        ensures Arrived(Apply(s, step), n)
      {
        ArrivedStays(s, step, n);
      }
    }
  }

  /** In every run each channel gets at most one message, and no message is dropped: the
      `default` branch of the dispatcher's send is never taken. */
  lemma {:induction false} ExactlyOnce(steps: seq<Step>, s: State)
    requires Run(steps) == Some(s)
    ensures DistinctReceivers(s.delivered) && s.dropped == []
    ensures DeliveredOk(s)
  {
    if steps != [] {
      var before := RunLast(steps, s);
      RunSafe(steps[..|steps| - 1], before);
      ExactlyOnce(steps[..|steps| - 1], before);
      DeliveredKept(before, steps[|steps| - 1]);
    }
  }

  lemma ListedIsNotPending(h: HubState, c: Chan, tx: TxID)
    requires Inv(h) && c in List(h.subs, tx)
    ensures c in h.callers && h.callers[c].tx == tx
    ensures c !in h.buf && forall n :: n in h.pending ==> n.receiver != c
  {
    assert Owed(h, c) == None;
    forall n | n in h.pending
      ensures n.receiver != c
    {
      assert MessageOk(h, n.receiver, n.status);
    }
  }

  /** The channel is at most in one list, once, or in the dispatcher's pending sends, once,
      or holds a message. */
  ghost predicate InOnePlace(h: HubState, c: Chan)
  {
    && (forall tx, other :: c in List(h.subs, tx) && c in List(h.subs, other) ==> tx == other)
    && (forall tx :: c in List(h.subs, tx) ==> NoRepeats(h.subs[tx]))
    && (forall i, j :: 0 <= i < j < |h.pending| ==> h.pending[i].receiver != c || h.pending[j].receiver != c)
    && (forall tx :: c in List(h.subs, tx) ==> c !in h.buf && forall n :: n in h.pending ==> n.receiver != c)
    && (c in h.buf ==> forall n :: n in h.pending ==> n.receiver != c)
  }

  lemma InvInOnePlace(h: HubState, c: Chan)
    requires Inv(h)
    ensures InOnePlace(h, c)
  {
    forall tx | c in List(h.subs, tx)
      ensures c in h.callers && h.callers[c].tx == tx && NoRepeats(h.subs[tx])
      ensures c !in h.buf && forall n :: n in h.pending ==> n.receiver != c
    {
      ListedIsNotPending(h, c, tx);
    }
  }

  /** In every run each channel is in one place at most. */
  lemma ChannelInOnePlace(steps: seq<Step>, s: State, c: Chan)
    requires Run(steps) == Some(s)
    ensures InOnePlace(s.hub, c)
  {
    RunSafe(steps, s);
    InvInOnePlace(s.hub, c);
  }

  /** The fate of a caller is a function of the responses dispatched since it registered:
      it is owed the status of the first one that mentions its transaction. It received
      that and nothing else; if it is still enrolled, the status is on its way exactly when
      there is such a response; and until then it stays in the table, unless the listener
      has cleared it. A caller whose `Subscribe` failed is in no list. */
  lemma CallerFate(steps: seq<Step>, s: State, c: Chan)
    requires Run(steps) == Some(s) && c in s.hub.callers
    ensures s.hub.callers[c].phase.Received? ==> Owed(s.hub, c) == Some(s.hub.callers[c].phase.status)
    ensures Enrolled(s.hub.callers[c].phase) ==>
              forall status :: OnItsWay(s.hub, c, status) <==> Owed(s.hub, c) == Some(status)
    ensures Enrolled(s.hub.callers[c].phase) && !s.listener.Done? ==> (Waiting(s.hub, c) <==> Owed(s.hub, c) == None)
    ensures !Enrolled(s.hub.callers[c].phase) ==> forall tx :: c !in List(s.hub.subs, tx)
  {
    RunSafe(steps, s);
    assert CallerOk(s.hub, c);
    PubSub.ReadyIsOwed(s.hub, c);
  }

  // ---------- rollback ----------

  lemma RollbackOne(t: Table, tx: TxID, c: Chan)
    requires tx in t && NoRepeats(t[tx]) && c in t[tx]
    ensures exists p, q :: t[tx] == p + [c] + q && List(RolledBack(t, tx, c), tx) == p + q
  {
    var s := t[tx];
    WithoutShape(s, c);
    var i :| 0 <= i < |s| && s[i] == c && Without(s, c) == s[..i] + s[i + 1..];
    assert s == s[..i] + [s[i]] + s[i + 1..];
    var p, q := s[..i], s[i + 1..];
    assert Without(s, c) == p + q && List(RolledBack(t, tx, c), tx) == p + q;
  }

  /** Rollback removes exactly its own channel and keeps the others in order; the entry goes
      when it was the last one; and when the dispatcher or the shutdown was faster, nothing
      changes, even if a newer list exists for the same transaction. */
  lemma RollbackExact(h: HubState, c: Chan)
    requires Inv(h) && c in h.callers && h.callers[c].phase.RollingBack?
    ensures var tx, after := h.callers[c].tx, Leave(h, c).subs;
            && (forall t :: t != tx ==> List(after, t) == List(h.subs, t))
            && (!Waiting(h, c) ==> after == h.subs)
            && (Waiting(h, c) ==> exists p, q :: h.subs[tx] == p + [c] + q && List(after, tx) == p + q)
            && (forall t :: t in after ==> after[t] != [])
  {
    LeaveTable(h, c);
    if Waiting(h, c) {
      RollbackOne(h.subs, h.callers[c].tx, c);
    }
  }

  /** `Subscribe` returned an error to this caller. */
  predicate Refused(s: State, c: Chan)
  {
    c in s.hub.callers && (s.hub.callers[c].phase.Rejected? || s.hub.callers[c].phase.Withdrawn?)
  }

  lemma RefusedStays(s: State, step: Step, c: Chan)
    requires Enabled(s, step) && Refused(s, c)
    ensures Refused(Apply(s, step), c)
  {
    OthersStay(s, step, c);
  }

  lemma {:induction false} RefusedLater(steps: seq<Step>, more: seq<Step>, s: State, s': State, c: Chan)
    requires Run(steps) == Some(s) && Refused(s, c)
    requires Run(steps + more) == Some(s')
    ensures Refused(s', c)
    decreases |more|
  {
    if more == [] {
      assert steps + more == steps;
    } else {
      var before := RunLastMore(steps, more, s');
      RefusedLater(steps, more[..|more| - 1], s, before, c);
      RefusedStays(before, more[|more| - 1], c);
    }
  }

  /** After an erroring `Subscribe` the channel is in no list, in this and every later state. */
  lemma RefusedForever(steps: seq<Step>, more: seq<Step>, s: State, s': State, c: Chan)
    requires Run(steps) == Some(s) && Refused(s, c)
    requires Run(steps + more) == Some(s')
    ensures Refused(s', c) && forall tx :: c !in List(s'.hub.subs, tx)
  {
    RefusedLater(steps, more, s, s', c);
    CallerFate(steps + more, s', c);
  }
}
