/** What the goroutines of the notification client pass on to each other, which error they
    end with, and that they can always be shut down. */
module Goroutines {
  import opened Wrappers
  import opened Subscribers
  import opened Hub
  import opened Multiplexer
  import opened Requests

  // ---------- responses ----------

  /** The responses received from the stream, in order. */
  function FromStream(steps: seq<Step>): seq<Response>
  {
    if steps == [] then []
    else
      var step := steps[|steps| - 1];
      FromStream(steps[..|steps| - 1]) + if step.Recv? then [step.resp] else []
  }

  /** The response the dispatcher has yet to handle. */
  function AtDispatcher(d: Dispatcher): seq<Response>
  {
    if d.DispatcherHolds? then [d.resp] else []
  }

  /** The response the receiver has yet to hand over. */
  function AtReceiver(r: Receiver): seq<Response>
  {
    if r.ReceiverHolds? then [r.resp] else []
  }

  /** The responses dispatched, then those still held. */
  function Flow(s: State): seq<Response>
  {
    s.responses + AtDispatcher(s.dispatcher) + AtReceiver(s.receiver)
  }

  /** Every response received was dispatched, or is still held, in the order of the stream;
      at most one, the last, was lost when the receiver stopped. */
  ghost predicate Passed(received: seq<Response>, s: State, lost: seq<Response>)
  {
    && received == Flow(s) + lost
    && |lost| <= 1
    && (lost != [] ==> s.receiver.ReceiverExited?)
  }

  /** The steps of the receiver, and those of the dispatcher between responses. */
  predicate ReceiverMoves(step: Step)
  {
    step.Recv? || step.RecvCanceled? || step.RecvFails? || step.ReceiverStops?
  }

  predicate DispatcherMoves(step: Step)
  {
    step.Hand? || step.Collect? || step.Rest? || step.DispatcherStops?
  }

  lemma NothingPasses(s: State, step: Step)
    requires Enabled(s, step) && !ReceiverMoves(step) && !DispatcherMoves(step)
    ensures Apply(s, step).responses == s.responses
    ensures Apply(s, step).dispatcher == s.dispatcher && Apply(s, step).receiver == s.receiver
  {
  }

  lemma DispatcherPasses(s: State, step: Step)
    requires Enabled(s, step) && DispatcherMoves(step)
    ensures Flow(Apply(s, step)) == Flow(s)
    ensures s.receiver.ReceiverExited? ==> Apply(s, step).receiver.ReceiverExited?
  {
  }

  lemma ReceiverPasses(s: State, step: Step)
    requires Enabled(s, step) && ReceiverMoves(step)
    ensures Flow(Apply(s, step)) + (if step.ReceiverStops? then [s.receiver.resp] else [])
         == Flow(s) + (if step.Recv? then [step.resp] else [])
    ensures !s.receiver.ReceiverExited?
    ensures step.ReceiverStops? ==> Apply(s, step).receiver.ReceiverExited?
  {
  }

  lemma PassedOn(received: seq<Response>, s: State, step: Step, lost: seq<Response>) returns (lost': seq<Response>)
    requires Passed(received, s, lost) && Enabled(s, step)
    ensures Passed(received + if step.Recv? then [step.resp] else [], Apply(s, step), lost')
  {
    lost' := lost;
    if ReceiverMoves(step) {
      ReceiverPasses(s, step);
      if step.ReceiverStops? {
        lost' := [s.receiver.resp];
      }
    } else if DispatcherMoves(step) {
      DispatcherPasses(s, step);
    } else {
      NothingPasses(s, step);
    }
  }

  /** In every run the dispatcher handles the responses of the stream, unchanged and in order. */
  lemma {:induction false} ResponsesPassOn(steps: seq<Step>, s: State) returns (lost: seq<Response>)
    requires Run(steps) == Some(s)
    ensures Passed(FromStream(steps), s, lost)
    ensures s.responses <= FromStream(steps)
  {
    lost := [];
    if steps != [] {
      var before := RunLast(steps, s);
      lost := ResponsesPassOn(steps[..|steps| - 1], before);
      lost := PassedOn(FromStream(steps[..|steps| - 1]), before, steps[|steps| - 1], lost);
    }
  }

  // ---------- errors ----------

  /** The error a goroutine of the group returns by this step. */
  function ErrorOf(step: Step): Option<Err>
  {
    match step
    case SendFails(err) => Some(err)
    case RecvFails => Some(Failed)
    case SenderStops => Some(Canceled)
    case ReceiverStops => Some(Canceled)
    case DispatcherStops => Some(Canceled)
    case _ => None
  }

  /** Step `i` is the first to return an error. */
  predicate FirstError(steps: seq<Step>, i: nat)
  {
    i < |steps| && ErrorOf(steps[i]).Some? && forall j :: 0 <= j < i ==> ErrorOf(steps[j]).None?
  }

  lemma GroupErrStep(s: State, step: Step)
    requires Enabled(s, step)
    ensures Apply(s, step).groupErr == if s.groupErr.Some? then s.groupErr else ErrorOf(step)
  {
  }

  /** The error of the group is the first one that a goroutine of it returned. */
  lemma {:induction false} GroupErrIsFirst(steps: seq<Step>, s: State)
    requires Run(steps) == Some(s)
    ensures s.groupErr.None? <==> forall i :: 0 <= i < |steps| ==> ErrorOf(steps[i]).None?
    ensures forall i: nat :: FirstError(steps, i) ==> s.groupErr == ErrorOf(steps[i])
  {
    if steps != [] {
      var n := |steps| - 1;
      var front := steps[..n];
      var before := RunLast(steps, s);
      GroupErrIsFirst(front, before);
      GroupErrStep(before, steps[n]);
      assert forall i :: 0 <= i < n ==> front[i] == steps[i];
      forall i: nat | FirstError(steps, i)
        ensures s.groupErr == ErrorOf(steps[i])
      {
        if i < n {
          assert FirstError(front, i);
        }
      }
    }
  }

  lemma {:induction false} SomeFirstError(steps: seq<Step>, k: nat) returns (i: nat)
    requires k < |steps| && ErrorOf(steps[k]).Some?
    ensures FirstError(steps, i)
  {
    if j: nat :| j < k && ErrorOf(steps[j]).Some? {
      i := SomeFirstError(steps, j);
    } else {
      i := k;
    }
  }

  /** Once `listen` has returned, an error is stored exactly when the stream did not open or
      the first error that a goroutine returned is not the cancellation of the context. */
  lemma StoredIff(steps: seq<Step>, s: State)
    requires Run(steps) == Some(s) && Returned(s)
    ensures s.streamErr <==>
              s.listener.OpenFailed? || exists i: nat :: FirstError(steps, i) && ErrorOf(steps[i]) == Some(Failed)
  {
    ErrStoredIff(steps, s);
    GroupErrIsFirst(steps, s);
    if s.groupErr.Some? {
      var k :| 0 <= k < |steps| && ErrorOf(steps[k]).Some?;
      var i := SomeFirstError(steps, k);
    }
  }

  // ---------- shutdown ----------

  /** The stream is open, and its group has been told to stop. */
  predicate Stopping(s: State)
  {
    s.listener.Running? && GroupDone(s)
  }

  /** No caller of `Subscribe` or `WaitForEvent` takes part. */
  predicate Unaided(steps: seq<Step>)
  {
    forall step :: step in steps ==> !OfCaller(step)
  }

  lemma SenderDown(steps: seq<Step>, more: seq<Step>, s: State) returns (more': seq<Step>, s': State)
    requires Unaided(more) && Run(steps + more) == Some(s) && Stopping(s)
    ensures Unaided(more') && Run(steps + more') == Some(s') && Stopping(s') && s'.sender.SenderExited?
    ensures s'.receiver == s.receiver && s'.dispatcher == s.dispatcher
  {
    more', s' := more, s;
    if !s.sender.SenderExited? {
      var step := if s.sender.SenderIdle? then SenderStops else SendFails(Failed);
      s' := More(steps, more, s, step);
      more' := more + [step];
    }
  }

  lemma ReceiverDown(steps: seq<Step>, more: seq<Step>, s: State) returns (more': seq<Step>, s': State)
    requires Unaided(more) && Run(steps + more) == Some(s) && Stopping(s)
    ensures Unaided(more') && Run(steps + more') == Some(s') && Stopping(s') && s'.receiver.ReceiverExited?
    ensures s'.sender == s.sender && s'.dispatcher == s.dispatcher
  {
    more', s' := more, s;
    if !s.receiver.ReceiverExited? {
      var step := if s.receiver.ReceiverIdle? then RecvCanceled else ReceiverStops;
      s' := More(steps, more, s, step);
      more' := more + [step];
    }
  }

  lemma {:induction false} OrderExists(keys: set<TxID>) returns (order: seq<TxID>)
    ensures IsOrder(order, keys)
    decreases keys
  {
    order := [];
    if keys != {} {
      var tx :| tx in keys;
      order := OrderExists(keys - {tx});
      ExtendOrder(order, keys - {tx}, tx);
      order := order + [tx];
      assert keys - {tx} + {tx} == keys;
    }
  }

  /** The dispatcher gets rid of its pending sends, whoever receives them. */
  lemma {:induction false} DeliverAll(steps: seq<Step>, more: seq<Step>, s: State) returns (more': seq<Step>, s': State)
    requires Unaided(more) && Run(steps + more) == Some(s) && Stopping(s) && s.dispatcher.Delivering?
    ensures Unaided(more') && Run(steps + more') == Some(s') && Stopping(s') && s'.dispatcher.DispatcherIdle?
    ensures s'.sender == s.sender && s'.receiver == s.receiver
    decreases |s.hub.pending|
  {
    if s.hub.pending == [] {
      s' := More(steps, more, s, Rest);
      more' := more + [Rest];
    } else {
      var next := More(steps, more, s, Deliver);
      more', s' := DeliverAll(steps, more + [Deliver], next);
    }
  }

  lemma DispatcherIdles(steps: seq<Step>, more: seq<Step>, s: State) returns (more': seq<Step>, s': State)
    requires Unaided(more) && Run(steps + more) == Some(s) && Stopping(s) && !s.dispatcher.DispatcherExited?
    ensures Unaided(more') && Run(steps + more') == Some(s') && Stopping(s') && s'.dispatcher.DispatcherIdle?
    ensures s'.sender == s.sender && s'.receiver == s.receiver
  {
    more', s' := more, s;
    if s.dispatcher.DispatcherHolds? {
      var order := OrderExists(Parse(s.dispatcher.resp).Keys);
      s' := More(steps, more, s, Collect(order));
      more' := more + [Collect(order)];
    }
    if s'.dispatcher.Delivering? {
      more', s' := DeliverAll(steps, more', s');
    }
  }

  lemma DispatcherDown(steps: seq<Step>, more: seq<Step>, s: State) returns (more': seq<Step>, s': State)
    requires Unaided(more) && Run(steps + more) == Some(s) && Stopping(s)
    ensures Unaided(more') && Run(steps + more') == Some(s') && Stopping(s') && s'.dispatcher.DispatcherExited?
    ensures s'.sender == s.sender && s'.receiver == s.receiver
  {
    more', s' := more, s;
    if !s.dispatcher.DispatcherExited? {
      more', s' := DispatcherIdles(steps, more, s);
      var idle := s';
      s' := More(steps, more', idle, DispatcherStops);
      more' := more' + [DispatcherStops];
    }
  }

  lemma ListenerReturns(steps: seq<Step>, more: seq<Step>, s: State) returns (more': seq<Step>, s': State)
    requires Unaided(more) && Run(steps + more) == Some(s) && s.listener.Running?
    requires s.sender.SenderExited? && s.receiver.ReceiverExited? && s.dispatcher.DispatcherExited?
    ensures Unaided(more') && Run(steps + more') == Some(s') && s'.listener.Done?
  {
    var joined := More(steps, more, s, Multiplexer.Join);
    var stored := More(steps, more + [Multiplexer.Join], joined, StoreErr);
    s' := More(steps, more + [Multiplexer.Join] + [StoreErr], stored, Clear);
    more' := more + [Multiplexer.Join] + [StoreErr] + [Clear];
  }

  /** From every reachable state with an open stream whose group has been told to stop, by
      `Close` or by an error, the goroutines can exit and the listener can return, without any
      step of a caller: nothing they wait for on the way is ever missing. */
  lemma ShutdownCompletes(steps: seq<Step>, s: State) returns (more: seq<Step>, s': State)
    requires Run(steps) == Some(s) && Stopping(s)
    ensures Unaided(more) && Run(steps + more) == Some(s') && s'.listener.Done?
  {
    assert steps + [] == steps;
    more, s' := SenderDown(steps, [], s);
    more, s' := ReceiverDown(steps, more, s');
    more, s' := DispatcherDown(steps, more, s');
    more, s' := ListenerReturns(steps, more, s');
  }

  // ---------- a status arrives ----------

  lemma FirstCall(tx: TxID) returns (steps: seq<Step>, s: State)
    ensures Run(steps) == Some(s) && s == INIT.(listener := Running, hub := s.hub, creators := [0])
    ensures s.hub == EMPTY_HUB.(callers := map[0 := Caller(tx, First, 0, true)], subs := map[tx := [0]])
  {
    steps, s := Next([], INIT, Open);
    steps, s := Next(steps, s, Call(0, tx));
    steps, s := Next(steps, s, Register(0));
    assert s.hub.subs[tx] == [0];
  }

  /** A caller has subscribed and its request has gone upstream. */
  lemma Requested(tx: TxID) returns (steps: seq<Step>, s: State)
    ensures Run(steps) == Some(s)
    ensures s == INIT.(listener := Running, hub := s.hub, creators := [0], handed := [0], sent := [0])
    ensures s.hub == EMPTY_HUB.(callers := map[0 := Caller(tx, Subscribed, 0, true)], subs := map[tx := [0]])
  {
    steps, s := FirstCall(tx);
    steps, s := Next(steps, s, ContextOpen(0));
    steps, s := Next(steps, s, Push(0));
    steps, s := Next(steps, s, SendOk);
  }

  /** The committer reports a status for its transaction. */
  lemma Reported(tx: TxID, status: int) returns (steps: seq<Step>, s: State)
    ensures Run(steps) == Some(s)
    ensures s.dispatcher == DispatcherHolds(Response([], [StatusEvent(tx, status)]))
    ensures s.hub == EMPTY_HUB.(callers := map[0 := Caller(tx, Subscribed, 0, true)], subs := map[tx := [0]])
  {
    steps, s := Requested(tx);
    steps, s := Next(steps, s, Recv(Response([], [StatusEvent(tx, status)])));
    steps, s := Next(steps, s, Hand);
  }

  lemma OneNotification(tx: TxID, status: int)
    ensures Parse(Response([], [StatusEvent(tx, status)])) == map[tx := status]
    ensures IsOrder([tx], {tx})
    ensures Notifications(map[tx := [0]], map[tx := status], [tx]) == [Notification(0, status)]
  {
    var resp := Response([], [StatusEvent(tx, status)]);
    assert resp.events[0] == StatusEvent(tx, status);
    assert [tx][..0] == [];
    assert Notifications(map[tx := [0]], map[tx := status], [tx]) == [] + Fanout([0], status);
  }

  /** The dispatcher collects it. */
  lemma Collected(tx: TxID, status: int) returns (steps: seq<Step>, s: State)
    ensures Run(steps) == Some(s) && s.dispatcher.Delivering?
    ensures s.hub.callers == map[0 := Caller(tx, Subscribed, 0, true)]
    ensures s.hub.pending == [Notification(0, status)] && s.hub.buf == map[]
  {
    OneNotification(tx, status);
    steps, s := Reported(tx, status);
    steps, s := Next(steps, s, Collect([tx]));
  }

  /** The way of a status, from the subscription to the waiting caller, can be gone. */
  lemma StatusArrives(tx: TxID, status: int) returns (steps: seq<Step>, s: State)
    ensures Run(steps) == Some(s) && At(s, 0, Received(status)) && s.hub.callers[0].tx == tx
    ensures s.dispatcher.DispatcherIdle?
  {
    steps, s := Collected(tx, status);
    steps, s := Next(steps, s, Deliver);
    steps, s := Next(steps, s, Rest);
    steps, s := Next(steps, s, Wake(0));
  }

  // ---------- a call can always return ----------

  /** `Subscribe` has started, and has not returned yet. */
  predicate InSubscribe(phase: Phase)
  {
    phase.Checked? || phase.First? || phase.Pushing? || phase.RollingBack?
  }

  lemma CanWithdraw(steps: seq<Step>, more: seq<Step>, s: State, c: Chan) returns (more': seq<Step>, s': State)
    requires Run(steps + more) == Some(s) && (forall step :: step in more ==> ByCaller(step, c))
    requires At(s, c, First) || At(s, c, Pushing) || At(s, c, RollingBack)
    ensures Run(steps + more') == Some(s') && (forall step :: step in more' ==> ByCaller(step, c))
    ensures At(s', c, Withdrawn)
  {
    more', s' := more, s;
    if !At(s, c, RollingBack) {
      s' := More(steps, more, s, ContextDone(c));
      more' := more + [ContextDone(c)];
    }
    var rolling := s';
    s' := More(steps, more', rolling, Rollback(c));
    more' := more' + [Rollback(c)];
  }

  /** From every reachable state a call of `Subscribe` can return by steps of its own, with its
      channel or with the error of its context: no other goroutine can keep it waiting. */
  lemma SubscribeCanReturn(steps: seq<Step>, s: State, c: Chan) returns (more: seq<Step>, s': State)
    requires Run(steps) == Some(s) && c in s.hub.callers && InSubscribe(s.hub.callers[c].phase)
    ensures Run(steps + more) == Some(s') && (forall step :: step in more ==> ByCaller(step, c))
    ensures At(s', c, Subscribed) || At(s', c, Withdrawn)
  {
    more, s' := [], s;
    assert steps + [] == steps;
    if At(s, c, Checked) {
      s' := More(steps, [], s, Register(c));
      more := [] + [Register(c)];
    }
    if !At(s', c, Subscribed) {
      more, s' := CanWithdraw(steps, more, s', c);
    }
  }

  /** When the stream cannot be opened, later calls are rejected. */
  lemma NeverOpened(tx: TxID) returns (steps: seq<Step>, s: State)
    ensures Run(steps) == Some(s) && s.listener.OpenFailed? && At(s, 0, Rejected)
  {
    steps, s := Next([], INIT, OpenFails);
    steps, s := Next(steps, s, Call(0, tx));
  }
}
