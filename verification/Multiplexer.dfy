/** The notification client as a whole: callers of `Subscribe` and `WaitForEvent`, the
    stream receiver, the stream sender, the dispatcher and the listener, as one state
    machine in which any goroutine may take the next step. */
module Multiplexer {
  import opened Wrappers
  import opened Subscribers
  import opened Hub

  /** An error is either `context.Canceled` or something else. */
  datatype Err = Canceled | Failed

  datatype Sender = SenderIdle | SenderHolds(c: Chan) | SenderExited

  datatype Receiver = ReceiverIdle | ReceiverHolds(resp: Response) | ReceiverExited

  datatype Dispatcher = DispatcherIdle | DispatcherHolds(resp: Response) | Delivering | DispatcherExited

  datatype Listener =
    | Opening
    | OpenFailed   // streamErr stored, nothing started
    | Running
    | Joined       // g.Wait() has returned
    | ErrStored    // past the error store, before the lock
    | Done         // the subscriber map has been cleared

  datatype State = State(
    hub: HubState,
    listener: Listener,
    sender: Sender,
    receiver: Receiver,
    dispatcher: Dispatcher,
    closed: bool,                  // Close() has cancelled the context
    groupErr: Option<Err>,         // first error of the errgroup
    streamErr: bool,
    // what has happened so far
    responses: seq<Response>,      // dispatched, in order
    creators: seq<Chan>,           // callers that found no entry for their transaction
    handed: seq<Chan>,             // callers whose request the sender took
    sent: seq<Chan>,               // callers whose request went upstream
    delivered: seq<Notification>,  // successful sends into receiver channels
    dropped: seq<Notification>)    // sends that found the channel full

  const INIT := State(EMPTY_HUB, Opening, SenderIdle, ReceiverIdle, DispatcherIdle, false, None, false,
                      [], [], [], [], [], [])

  datatype Step =
    // a call of Subscribe, and the wait on its channel
    | Call(c: Chan, tx: TxID)          // streamErr check
    | Register(c: Chan)                // locked registration
    | ContextOpen(c: Chan)             // first select: the context is still open
    | ContextDone(c: Chan)             // either select: the context is done
    | Rollback(c: Chan)                // locked rollback
    | Push(c: Chan)                    // rendezvous with the sender
    | Wake(c: Chan)                    // WaitForEvent takes the status
    // stream sender
    | SendOk
    | SendFails(err: Err)
    | SenderStops
    // stream receiver
    | Recv(resp: Response)
    | RecvCanceled
    | RecvFails
    | ReceiverStops
    | Hand                             // rendezvous with the dispatcher
    // dispatcher
    | Collect(order: seq<TxID>)        // the locked section
    | Deliver                          // one non-blocking send
    | Rest                             // all sends done
    | DispatcherStops
    // listener
    | Open
    | OpenFails
    | Close
    | Join
    | StoreErr
    | Clear

  predicate GroupDone(s: State)
  {
    s.closed || s.groupErr.Some?
  }

  predicate At(s: State, c: Chan, phase: Phase)
  {
    c in s.hub.callers && s.hub.callers[c].phase == phase
  }

  predicate Enabled(s: State, step: Step)
  {
    match step
    case Call(c, _) => c !in s.hub.callers
    case Register(c) => At(s, c, Checked)
    case ContextOpen(c) => At(s, c, First)
    case ContextDone(c) => At(s, c, First) || At(s, c, Pushing)
    case Rollback(c) => At(s, c, RollingBack)
    case Push(c) => At(s, c, Pushing) && s.listener.Running? && s.sender.SenderIdle?
    case Wake(c) =>
      && c in s.hub.callers
      && (s.hub.callers[c].phase.Subscribed? || s.hub.callers[c].phase.Received?)
      && c in s.hub.buf
    case SendOk => s.sender.SenderHolds?
    case SendFails(_) => s.sender.SenderHolds?
    case SenderStops => s.listener.Running? && s.sender.SenderIdle? && GroupDone(s)
    case Recv(_) => s.listener.Running? && s.receiver.ReceiverIdle?
    case RecvCanceled => s.listener.Running? && s.receiver.ReceiverIdle?
    case RecvFails => s.listener.Running? && s.receiver.ReceiverIdle?
    case ReceiverStops => s.receiver.ReceiverHolds? && GroupDone(s)
    case Hand => s.receiver.ReceiverHolds? && s.dispatcher.DispatcherIdle?
    case Collect(order) => s.dispatcher.DispatcherHolds? && IsOrder(order, Parse(s.dispatcher.resp).Keys)
    case Deliver => s.dispatcher.Delivering? && s.hub.pending != []
    case Rest => s.dispatcher.Delivering? && s.hub.pending == []
    case DispatcherStops => s.listener.Running? && s.dispatcher.DispatcherIdle? && GroupDone(s)
    case Open => s.listener.Opening?
    case OpenFails => s.listener.Opening?
    case Close => true
    case Join =>
      && s.listener.Running?
      && s.sender.SenderExited? && s.receiver.ReceiverExited? && s.dispatcher.DispatcherExited?
    case StoreErr => s.listener.Joined?
    case Clear => s.listener.ErrStored?
  }

  /** The first error of a goroutine cancels the group. */
  function Raise(s: State, err: Err): State
  {
    if s.groupErr.None? then s.(groupErr := Some(err)) else s
  }

  function Apply(s: State, step: Step): State
    requires Enabled(s, step)
  {
    match step
    case Call(c, tx) => s.(hub := Arrive(s.hub, c, tx, s.streamErr))
    case Register(c) =>
      s.(hub := Hub.Join(s.hub, c),
         creators := if List(s.hub.subs, s.hub.callers[c].tx) == [] then s.creators + [c] else s.creators)
    case ContextOpen(c) => s.(hub := SetPhase(s.hub, c, Pushing))
    case ContextDone(c) => s.(hub := SetPhase(s.hub, c, RollingBack))
    case Rollback(c) => s.(hub := Leave(s.hub, c))
    case Push(c) => s.(hub := SetPhase(s.hub, c, Subscribed), sender := SenderHolds(c), handed := s.handed + [c])
    case Wake(c) => s.(hub := Take(s.hub, c))
    case SendOk => s.(sender := SenderIdle, sent := s.sent + [s.sender.c])
    case SendFails(err) => Raise(s, err).(sender := SenderExited)
    case SenderStops => Raise(s, Canceled).(sender := SenderExited)
    case Recv(resp) => s.(receiver := ReceiverHolds(resp))
    case RecvCanceled => s.(receiver := ReceiverExited)
    case RecvFails => Raise(s, Failed).(receiver := ReceiverExited)
    case ReceiverStops => Raise(s, Canceled).(receiver := ReceiverExited)
    case Hand => s.(receiver := ReceiverIdle, dispatcher := DispatcherHolds(s.receiver.resp))
    case Collect(order) =>
      s.(hub := Dispatch(s.hub, Parse(s.dispatcher.resp), order),
         responses := s.responses + [s.dispatcher.resp],
         dispatcher := Delivering)
    case Deliver =>
      var n := s.hub.pending[0];
      if n.receiver in s.hub.buf then s.(hub := Send(s.hub), dropped := s.dropped + [n])
      else s.(hub := Send(s.hub), delivered := s.delivered + [n])
    case Rest => s.(dispatcher := DispatcherIdle)
    case DispatcherStops => Raise(s, Canceled).(dispatcher := DispatcherExited)
    case Open => s.(listener := Running)
    case OpenFails => s.(listener := OpenFailed, streamErr := true)
    case Close => s.(closed := true)
    case Join => s.(listener := Joined)
    case StoreErr => s.(listener := ErrStored, streamErr := s.streamErr || s.groupErr == Some(Failed))
    case Clear => s.(listener := Done, hub := Drop(s.hub))
  }

  /** The state after a run, if every step of it was enabled. */
  function Run(steps: seq<Step>): Option<State>
  {
    if steps == [] then Some(INIT)
    else
      match Run(steps[..|steps| - 1])
      case None => None
      case Some(s) => if Enabled(s, steps[|steps| - 1]) then Some(Apply(s, steps[|steps| - 1])) else None
  }

  // ---------- invariants of the goroutines ----------

  ghost predicate ThreadsOk(s: State)
  {
    && (!s.dispatcher.Delivering? ==> s.hub.pending == [])
    && (s.hub.cleared <==> s.listener.Done?)
    && (s.listener.Opening? || s.listener.OpenFailed? ==>
          s.sender.SenderIdle? && s.receiver.ReceiverIdle? && s.dispatcher.DispatcherIdle?)
    && (s.listener.Joined? || s.listener.ErrStored? || s.listener.Done? ==>
          s.sender.SenderExited? && s.receiver.ReceiverExited? && s.dispatcher.DispatcherExited?)
  }

  ghost predicate LogOk(s: State)
  {
    && |s.responses| == |s.hub.log|
    && forall i :: 0 <= i < |s.responses| ==> s.hub.log[i] == Parse(s.responses[i])
  }

  ghost predicate Safe(s: State)
  {
    Inv(s.hub) && ThreadsOk(s) && LogOk(s)
  }

  /** A status in a channel is for a caller that has received nothing yet. */
  lemma WakeOnce(s: State, c: Chan)
    requires Inv(s.hub) && Enabled(s, Wake(c))
    ensures s.hub.callers[c].phase.Subscribed?
  {
    assert MessageOk(s.hub, c, s.hub.buf[c]);
  }

  /** Every step of every goroutine keeps the hub's invariant. */
  lemma HubKept(s: State, step: Step)
    requires Safe(s) && Enabled(s, step)
    ensures Inv(Apply(s, step).hub)
  {
    match step
    case Call(c, tx) => ArriveKeeps(s.hub, c, tx, s.streamErr);
    case Register(c) => JoinKeeps(s.hub, c);
    case ContextOpen(c) => PhaseKeeps(s.hub, c, Pushing);
    case ContextDone(c) => PhaseKeeps(s.hub, c, RollingBack);
    case Rollback(c) => LeaveKeeps(s.hub, c);
    case Push(c) => PhaseKeeps(s.hub, c, Subscribed);
    case Wake(c) => WakeOnce(s, c); TakeKeeps(s.hub, c);
    case Collect(order) => DispatchKeeps(s.hub, Parse(s.dispatcher.resp), order);
    case Deliver => SendKeeps(s.hub);
    case Clear => DropKeeps(s.hub);
    case _ =>
  }

  /** The steps of calls of `Subscribe` and `WaitForEvent`. */
  predicate OfCaller(step: Step)
  {
    step.Call? || step.Register? || step.ContextOpen? || step.ContextDone? || step.Rollback? || step.Push? || step.Wake?
  }

  predicate ByCaller(step: Step, c: Chan)
  {
    OfCaller(step) && step.c == c
  }

  /** The steps that leave the callers, the table and the channels alone. */
  predicate Internal(step: Step)
  {
    !OfCaller(step) && !step.Collect? && !step.Deliver? && !step.Clear?
  }

  lemma HubStays(s: State, step: Step)
    requires Enabled(s, step) && Internal(step)
    ensures Apply(s, step).hub == s.hub
  {
  }

  /** A caller moves by its own steps only. */
  lemma OthersStay(s: State, step: Step, c: Chan)
    requires Enabled(s, step) && !ByCaller(step, c)
    ensures c in Apply(s, step).hub.callers <==> c in s.hub.callers
    ensures c in s.hub.callers ==> Apply(s, step).hub.callers[c] == s.hub.callers[c]
  {
    if Internal(step) {
      HubStays(s, step);
    }
  }

  /** Only registering and rolling back change a list that stays in the table. */
  lemma ListsStay(s: State, step: Step, tx: TxID)
    requires Enabled(s, step) && !step.Register? && !step.Rollback? && tx in Apply(s, step).hub.subs
    ensures tx in s.hub.subs && Apply(s, step).hub.subs[tx] == s.hub.subs[tx]
  {
    if Internal(step) {
      HubStays(s, step);
    }
  }

  /** The part of `ThreadsOk` about the dispatcher's pending sends and the clearing. */
  lemma PendingKept(s: State, step: Step)
    requires ThreadsOk(s) && Enabled(s, step)
    ensures var s' := Apply(s, step);
            (!s'.dispatcher.Delivering? ==> s'.hub.pending == []) && (s'.hub.cleared <==> s'.listener.Done?)
  {
    if Internal(step) {
      HubStays(s, step);
    }
  }

  /** Goroutines start when the stream opens and have all exited when they are joined. */
  lemma PhasesKept(s: State, step: Step)
    requires ThreadsOk(s) && Enabled(s, step)
    ensures var s' := Apply(s, step);
            && (s'.listener.Opening? || s'.listener.OpenFailed? ==>
                  s'.sender.SenderIdle? && s'.receiver.ReceiverIdle? && s'.dispatcher.DispatcherIdle?)
            && (s'.listener.Joined? || s'.listener.ErrStored? || s'.listener.Done? ==>
                  s'.sender.SenderExited? && s'.receiver.ReceiverExited? && s'.dispatcher.DispatcherExited?)
  {
  }

  lemma ThreadsKept(s: State, step: Step)
    requires ThreadsOk(s) && Enabled(s, step)
    ensures ThreadsOk(Apply(s, step))
  {
    PendingKept(s, step);
    PhasesKept(s, step);
  }

  lemma LogKept(s: State, step: Step)
    requires LogOk(s) && Enabled(s, step)
    ensures LogOk(Apply(s, step))
  {
    if step.Collect? {
      var s' := Apply(s, step);
      assert s'.hub.log == s.hub.log + [Parse(s.dispatcher.resp)];
    } else if Internal(step) {
      HubStays(s, step);
    } else {
      assert Apply(s, step).hub.log == s.hub.log;
    }
  }

  lemma SafeKept(s: State, step: Step)
    requires Safe(s) && Enabled(s, step)
    ensures Safe(Apply(s, step))
  {
    HubKept(s, step);
    ThreadsKept(s, step);
    LogKept(s, step);
  }

  lemma {:induction false} RunSafe(steps: seq<Step>, s: State)
    requires Run(steps) == Some(s)
    ensures Safe(s)
  {
    if steps != [] {
      var before := Run(steps[..|steps| - 1]).value;
      RunSafe(steps[..|steps| - 1], before);
      SafeKept(before, steps[|steps| - 1]);
    }
  }

  lemma RunStep(steps: seq<Step>, s: State, step: Step)
    requires Run(steps) == Some(s) && Enabled(s, step)
    ensures Run(steps + [step]) == Some(Apply(s, step))
  {
    assert (steps + [step])[..|steps|] == steps;
  }

  /** A run can be taken apart before its last step. */
  lemma RunLast(steps: seq<Step>, s: State) returns (before: State)
    requires Run(steps) == Some(s) && steps != []
    ensures Run(steps[..|steps| - 1]) == Some(before)
    ensures Enabled(before, steps[|steps| - 1]) && s == Apply(before, steps[|steps| - 1])
  {
    before := Run(steps[..|steps| - 1]).value;
  }

  /** The same for a run continued by `more`. */
  lemma RunLastMore(steps: seq<Step>, more: seq<Step>, s': State) returns (before: State)
    requires Run(steps + more) == Some(s') && more != []
    ensures Run(steps + more[..|more| - 1]) == Some(before)
    ensures Enabled(before, more[|more| - 1]) && s' == Apply(before, more[|more| - 1])
  {
    assert (steps + more)[..|steps + more| - 1] == steps + more[..|more| - 1];
    before := RunLast(steps + more, s');
  }

  // ---------- making runs ----------

  lemma Next(steps: seq<Step>, s: State, step: Step) returns (steps': seq<Step>, s': State)
    requires Run(steps) == Some(s) && Enabled(s, step)
    ensures s' == Apply(s, step) && Run(steps') == Some(s')
  {
    RunStep(steps, s, step);
    steps', s' := steps + [step], Apply(s, step);
  }

  lemma More(steps: seq<Step>, more: seq<Step>, s: State, step: Step) returns (s': State)
    requires Run(steps + more) == Some(s) && Enabled(s, step)
    ensures s' == Apply(s, step) && Run(steps + (more + [step])) == Some(s')
  {
    RunStep(steps + more, s, step);
    assert steps + (more + [step]) == steps + more + [step];
    s' := Apply(s, step);
  }
}
