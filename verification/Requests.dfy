/** The upstream requests behind the subscriber table. */
module Requests {
  import opened Wrappers
  import opened Subscribers
  import opened Hub
  import opened Multiplexer

  // ---------- bookkeeping ----------

  /** The caller created the entry it registered in. */
  predicate IsCreator(s: State, c: Chan)
  {
    c in s.hub.callers && s.hub.callers[c].first
  }

  predicate HandedOver(s: State, c: Chan)
  {
    IsCreator(s, c) && (s.hub.callers[c].phase.Subscribed? || s.hub.callers[c].phase.Received?)
  }

  /** The request the sender has taken but not sent. */
  function InHand(sender: Sender): seq<Chan>
  {
    if sender.SenderHolds? then [sender.c] else []
  }

  /** A caller that creates an entry goes through the first phases, and only then. */
  predicate PhaseOk(k: Caller)
  {
    && (k.phase.First? || k.phase.Pushing? || k.phase.RollingBack? || k.phase.Withdrawn? ==> k.first)
    && (k.phase.Checked? || k.phase.Rejected? ==> !k.first)
  }

  ghost predicate CallersOk(s: State)
  {
    forall c :: c in s.hub.callers ==> PhaseOk(s.hub.callers[c])
  }

  ghost predicate RequestsOk(s: State)
  {
    && CallersOk(s)
    && NoRepeats(s.creators) && (forall c :: c in s.creators <==> IsCreator(s, c))
    && NoRepeats(s.handed) && (forall c :: c in s.handed <==> HandedOver(s, c))
    && s.sent + InHand(s.sender) <= s.handed
    && (!s.sender.SenderExited? ==> s.sent + InHand(s.sender) == s.handed)
  }

  lemma RegisterKept(s: State, c: Chan)
    requires RequestsOk(s) && Enabled(s, Register(c))
    ensures RequestsOk(Apply(s, Register(c)))
  {
    var s' := Apply(s, Register(c));
    assert c !in s.creators;
    forall d
      ensures d in s'.creators <==> IsCreator(s', d)
      ensures HandedOver(s', d) <==> HandedOver(s, d)
    {
    }
  }

  lemma PushKept(s: State, c: Chan)
    requires RequestsOk(s) && Enabled(s, Push(c))
    ensures RequestsOk(Apply(s, Push(c)))
  {
    var s' := Apply(s, Push(c));
    assert c !in s.handed;
    forall d
      ensures d in s'.handed <==> HandedOver(s', d)
      ensures IsCreator(s', d) <==> IsCreator(s, d)
    {
    }
  }

  lemma OwnStanding(s: State, step: Step)
    requires CallersOk(s) && Enabled(s, step) && OfCaller(step) && !step.Register? && !step.Push?
    requires step.Wake? ==> s.hub.callers[step.c].phase.Subscribed?
    ensures IsCreator(Apply(s, step), step.c) <==> IsCreator(s, step.c)
    ensures HandedOver(Apply(s, step), step.c) <==> HandedOver(s, step.c)
  {
  }

  /** Steps other than registering and pushing change nobody's standing. */
  lemma StandingKept(s: State, step: Step, c: Chan)
    requires CallersOk(s) && Enabled(s, step) && !step.Register? && !step.Push?
    requires step.Wake? ==> s.hub.callers[step.c].phase.Subscribed?
    ensures IsCreator(Apply(s, step), c) <==> IsCreator(s, c)
    ensures HandedOver(Apply(s, step), c) <==> HandedOver(s, c)
  {
    if ByCaller(step, c) {
      OwnStanding(s, step);
    } else {
      OthersStay(s, step, c);
    }
  }

  lemma SenderKept(s: State, step: Step)
    requires RequestsOk(s) && Enabled(s, step) && !step.Register? && !step.Push?
    ensures var s' := Apply(s, step);
            && s'.creators == s.creators && s'.handed == s.handed
            && s'.sent + InHand(s'.sender) <= s'.handed
            && (!s'.sender.SenderExited? ==> s'.sent + InHand(s'.sender) == s'.handed)
  {
    if step.SendFails? {
      assert s.sent <= s.sent + InHand(s.sender);
    }
  }

  lemma OwnPhase(s: State, step: Step)
    requires CallersOk(s) && Enabled(s, step) && OfCaller(step)
    ensures step.c in Apply(s, step).hub.callers && PhaseOk(Apply(s, step).hub.callers[step.c])
  {
  }

  lemma CallersKept(s: State, step: Step)
    requires CallersOk(s) && Enabled(s, step)
    ensures CallersOk(Apply(s, step))
  {
    forall c | c in Apply(s, step).hub.callers
      ensures PhaseOk(Apply(s, step).hub.callers[c])
    {
      if ByCaller(step, c) {
        OwnPhase(s, step);
      } else {
        OthersStay(s, step, c);
      }
    }
  }

  lemma OtherKept(s: State, step: Step)
    requires RequestsOk(s) && Enabled(s, step) && !step.Register? && !step.Push?
    requires step.Wake? ==> s.hub.callers[step.c].phase.Subscribed?
    ensures RequestsOk(Apply(s, step))
  {
    CallersKept(s, step);
    SenderKept(s, step);
    forall d
      ensures IsCreator(Apply(s, step), d) <==> IsCreator(s, d)
      ensures HandedOver(Apply(s, step), d) <==> HandedOver(s, d)
    {
      StandingKept(s, step, d);
    }
  }

  lemma {:induction false} RunRequests(steps: seq<Step>, s: State)
    requires Run(steps) == Some(s)
    ensures RequestsOk(s)
  {
    if steps != [] {
      var before := RunLast(steps, s);
      var step := steps[|steps| - 1];
      RunRequests(steps[..|steps| - 1], before);
      match step
      case Register(c) => RegisterKept(before, c);
      case Push(c) => PushKept(before, c);
      case Wake(c) =>
        RunSafe(steps[..|steps| - 1], before);
        WakeOnce(before, c);
        OtherKept(before, step);
      case _ => OtherKept(before, step);
    }
  }

  // ---------- conservation ----------

  /** The calls in `log` that are about `tx`. */
  function About(s: State, log: seq<Chan>, tx: TxID): seq<Chan>
  {
    if log == [] then []
    else
      var rest := About(s, log[1..], tx);
      if log[0] in s.hub.callers && s.hub.callers[log[0]].tx == tx then [log[0]] + rest else rest
  }

  lemma {:induction false} AboutMembers(s: State, log: seq<Chan>, tx: TxID)
    ensures forall c :: c in About(s, log, tx) <==> c in log && c in s.hub.callers && s.hub.callers[c].tx == tx
    ensures NoRepeats(log) ==> NoRepeats(About(s, log, tx))
  {
    if log != [] {
      AboutMembers(s, log[1..], tx);
      assert log == [log[0]] + log[1..];
    }
  }

  lemma {:induction false} Pigeonhole(a: seq<Chan>, b: seq<Chan>)
    requires NoRepeats(a) && forall c :: c in a ==> c in b
    ensures |a| <= |b|
  {
    if a != [] {
      assert a[0] in b;
      var i :| 0 <= i < |b| && b[i] == a[0];
      var b' := b[..i] + b[i + 1..];
      forall c | c in a[1..]
        ensures c in b'
      {
        assert c in b;
        var j :| 0 <= j < |b| && b[j] == c;
        assert c == if j < i then b'[j] else b'[j - 1];
      }
      Pigeonhole(a[1..], b');
    }
  }

  /** In every run, each time an entry is created there is exactly one call that created
      it, and per transaction the requests that went upstream are at most as many as the
      entries created for it. */
  lemma RequestsConserved(steps: seq<Step>, s: State, tx: TxID)
    requires Run(steps) == Some(s)
    ensures NoRepeats(s.creators) && NoRepeats(s.sent) && forall c :: c in s.sent ==> c in s.creators
    ensures |About(s, s.sent, tx)| <= |About(s, s.creators, tx)|
  {
    RunRequests(steps, s);
    assert s.sent <= s.handed by {
      assert s.sent <= s.sent + InHand(s.sender);
    }
    forall c | c in s.sent
      ensures c in s.creators
    {
      assert c in s.handed;
    }
    AboutMembers(s, s.sent, tx);
    AboutMembers(s, s.creators, tx);
    Pigeonhole(About(s, s.sent, tx), About(s, s.creators, tx));
  }

  // ---------- which entries have a request behind them ----------

  /** Some member of the entry is pushing its request, or had it taken by the sender. A
      member registered in the entry's current lifetime, since entries go as a whole. */
  predicate Backed(s: State, tx: TxID)
  {
    exists c :: c in List(s.hub.subs, tx) && (At(s, c, First) || At(s, c, Pushing) || c in s.handed)
  }

  /** Only the head of a list can have created the entry. */
  ghost predicate HeadsOk(s: State)
  {
    forall tx, i :: tx in s.hub.subs && 1 <= i < |s.hub.subs[tx]| ==> !IsCreator(s, s.hub.subs[tx][i])
  }

  lemma RegisterHeads(s: State, c: Chan)
    requires Inv(s.hub) && HeadsOk(s) && Enabled(s, Register(c))
    ensures HeadsOk(Apply(s, Register(c)))
  {
    var s' := Apply(s, Register(c));
    forall tx, i | tx in s'.hub.subs && 1 <= i < |s'.hub.subs[tx]|
      ensures !IsCreator(s', s'.hub.subs[tx][i])
    {
      if tx in s.hub.subs && i < |s.hub.subs[tx]| {
        assert s.hub.subs[tx][i] in s.hub.subs[tx];
      }
    }
  }

  lemma WithoutTail(list: seq<Chan>, c: Chan)
    requires NoRepeats(list) && list != []
    ensures forall j :: 1 <= j < |Without(list, c)| ==> Without(list, c)[j] in list[1..]
  {
    WithoutShape(list, c);
    if c in list {
      var i :| 0 <= i < |list| && list[i] == c && Without(list, c) == list[..i] + list[i + 1..];
      forall j | 1 <= j < |Without(list, c)|
        ensures Without(list, c)[j] in list[1..]
      {
        assert Without(list, c)[j] == if j < i then list[1..][j - 1] else list[1..][j];
      }
    }
  }

  lemma RollbackHeads(s: State, c: Chan)
    requires Inv(s.hub) && HeadsOk(s) && Enabled(s, Rollback(c))
    ensures HeadsOk(Apply(s, Rollback(c)))
  {
    var s' := Apply(s, Rollback(c));
    var tx := s.hub.callers[c].tx;
    forall t, j | t in s'.hub.subs && 1 <= j < |s'.hub.subs[t]|
      ensures !IsCreator(s', s'.hub.subs[t][j])
    {
      if t == tx && s'.hub.subs[t] == Without(s.hub.subs[t], c) {
        WithoutTail(s.hub.subs[t], c);
      } else {
        assert s'.hub.subs[t] == s.hub.subs[t];
      }
    }
  }

  /** A member of a list that stays keeps its part in creating it. */
  lemma MemberStays(s: State, step: Step, tx: TxID, i: nat)
    requires Inv(s.hub) && Enabled(s, step) && !step.Register?
    requires tx in s.hub.subs && i < |s.hub.subs[tx]|
    ensures IsCreator(Apply(s, step), s.hub.subs[tx][i]) <==> IsCreator(s, s.hub.subs[tx][i])
  {
    var c := s.hub.subs[tx][i];
    assert c in s.hub.subs[tx];
    if !ByCaller(step, c) {
      OthersStay(s, step, c);
    }
  }

  lemma OtherHeads(s: State, step: Step)
    requires Inv(s.hub) && HeadsOk(s) && Enabled(s, step) && !step.Register? && !step.Rollback?
    ensures HeadsOk(Apply(s, step))
  {
    var s' := Apply(s, step);
    forall tx, i | tx in s'.hub.subs && 1 <= i < |s'.hub.subs[tx]|
      ensures !IsCreator(s', s'.hub.subs[tx][i])
    {
      ListsStay(s, step, tx);
      MemberStays(s, step, tx, i);
    }
  }

  lemma {:induction false} RunHeads(steps: seq<Step>, s: State)
    requires Run(steps) == Some(s)
    ensures HeadsOk(s)
  {
    if steps != [] {
      var before := RunLast(steps, s);
      var step := steps[|steps| - 1];
      RunHeads(steps[..|steps| - 1], before);
      RunSafe(steps[..|steps| - 1], before);
      match step
      case Register(c) => RegisterHeads(before, c);
      case Rollback(c) => RollbackHeads(before, c);
      case _ => OtherHeads(before, step);
    }
  }

  /** In every reachable state an entry is backed exactly when its first member is the call
      that created it and that call is not about to roll back. */
  lemma BackedIff(steps: seq<Step>, s: State, tx: TxID)
    requires Run(steps) == Some(s) && tx in s.hub.subs
    ensures s.hub.subs[tx] != []
    ensures Backed(s, tx) <==> IsCreator(s, s.hub.subs[tx][0]) && !At(s, s.hub.subs[tx][0], RollingBack)
  {
    RunSafe(steps, s);
    RunRequests(steps, s);
    RunHeads(steps, s);
    var list := s.hub.subs[tx];
    var head := list[0];
    assert head in list;
    if c :| c in list && (At(s, c, First) || At(s, c, Pushing) || c in s.handed) {
      var i :| 0 <= i < |list| && list[i] == c;
      assert IsCreator(s, c);
      assert i == 0;
    }
    if IsCreator(s, head) && !At(s, head, RollingBack) {
      assert Enrolled(s.hub.callers[head].phase);
      assert At(s, head, First) || At(s, head, Pushing) || HandedOver(s, head);
    }
  }

  /** Nobody who waits for `tx` has been cancelled, and an entry for it still has its creator
      in front. */
  ghost predicate Undisturbed(s: State, tx: TxID)
  {
    && (forall c :: c in s.hub.callers && s.hub.callers[c].tx == tx ==> !s.hub.callers[c].phase.RollingBack?)
    && (tx in s.hub.subs && s.hub.subs[tx] != [] ==> IsCreator(s, s.hub.subs[tx][0]))
  }

  /** The step cancels, or rolls back, a caller that waits for `tx`. */
  predicate Disturbs(s: State, step: Step, tx: TxID)
  {
    (step.ContextDone? || step.Rollback?) && step.c in s.hub.callers && s.hub.callers[step.c].tx == tx
  }

  lemma RegisterUndisturbed(s: State, c: Chan, tx: TxID)
    requires Inv(s.hub) && Undisturbed(s, tx) && Enabled(s, Register(c))
    ensures Undisturbed(Apply(s, Register(c)), tx)
  {
    if tx in s.hub.subs {
      assert s.hub.subs[tx] != [] && s.hub.subs[tx][0] in s.hub.subs[tx];
    }
  }

  /** Rolling back a caller of another transaction leaves the list alone. */
  lemma ListStays(s: State, step: Step, tx: TxID)
    requires Enabled(s, step) && !step.Register? && !Disturbs(s, step, tx) && tx in Apply(s, step).hub.subs
    ensures tx in s.hub.subs && Apply(s, step).hub.subs[tx] == s.hub.subs[tx]
  {
    if !step.Rollback? {
      ListsStay(s, step, tx);
    }
  }

  lemma CallersUndisturbed(s: State, step: Step, tx: TxID)
    requires Undisturbed(s, tx) && Enabled(s, step) && !step.Register? && !Disturbs(s, step, tx)
    ensures forall c :: c in Apply(s, step).hub.callers && Apply(s, step).hub.callers[c].tx == tx ==>
              !Apply(s, step).hub.callers[c].phase.RollingBack?
  {
    forall c | c in Apply(s, step).hub.callers && Apply(s, step).hub.callers[c].tx == tx
      ensures !Apply(s, step).hub.callers[c].phase.RollingBack?
    {
      if !ByCaller(step, c) {
        OthersStay(s, step, c);
      }
    }
  }

  lemma OtherUndisturbed(s: State, step: Step, tx: TxID)
    requires Inv(s.hub) && Undisturbed(s, tx) && Enabled(s, step) && !step.Register? && !Disturbs(s, step, tx)
    ensures Undisturbed(Apply(s, step), tx)
  {
    CallersUndisturbed(s, step, tx);
    if tx in Apply(s, step).hub.subs && Apply(s, step).hub.subs[tx] != [] {
      ListStays(s, step, tx);
      MemberStays(s, step, tx, 0);
    }
  }

  /** Which transaction a caller waits for never changes. */
  lemma TxStays(s: State, step: Step, c: Chan)
    requires Enabled(s, step) && c in s.hub.callers
    ensures c in Apply(s, step).hub.callers && Apply(s, step).hub.callers[c].tx == s.hub.callers[c].tx
  {
    if !ByCaller(step, c) {
      OthersStay(s, step, c);
    }
  }

  /** No caller that waits for `tx` is cancelled in the run that led to `s`. */
  ghost predicate NoneCancelled(steps: seq<Step>, s: State, tx: TxID)
  {
    forall c :: ContextDone(c) in steps && c in s.hub.callers ==> s.hub.callers[c].tx != tx
  }

  lemma {:induction false} RunUndisturbed(steps: seq<Step>, s: State, tx: TxID)
    requires Run(steps) == Some(s) && NoneCancelled(steps, s, tx)
    ensures Undisturbed(s, tx)
  {
    if steps != [] {
      var before := RunLast(steps, s);
      var front, step := steps[..|steps| - 1], steps[|steps| - 1];
      assert step in steps;
      forall c | ContextDone(c) in front && c in before.hub.callers
        ensures before.hub.callers[c].tx != tx
      {
        assert ContextDone(c) in steps;
        TxStays(before, step, c);
      }
      RunUndisturbed(front, before, tx);
      RunSafe(front, before);
      if step.Register? {
        RegisterUndisturbed(before, step.c, tx);
      } else {
        if step.ContextDone? {
          TxStays(before, step, step.c);
        }
        OtherUndisturbed(before, step, tx);
      }
    }
  }

  /** In a run in which no first subscriber for the transaction is cancelled, its entry is
      backed, whatever happens to other transactions. */
  lemma AlwaysBacked(steps: seq<Step>, s: State, tx: TxID)
    requires Run(steps) == Some(s) && NoneCancelled(steps, s, tx)
    requires tx in s.hub.subs
    ensures Backed(s, tx)
  {
    RunUndisturbed(steps, s, tx);
    BackedIff(steps, s, tx);
    assert s.hub.subs[tx][0] in s.hub.subs[tx];
    RunSafe(steps, s);
  }

  lemma TwoJoined(tx: TxID) returns (steps: seq<Step>, s: State)
    ensures Run(steps) == Some(s)
    ensures tx in s.hub.subs && s.hub.subs[tx] == [0, 1] && s.handed == []
    ensures At(s, 0, RollingBack) && At(s, 1, Subscribed) && s.hub.callers[0].tx == tx
  {
    steps, s := [], INIT;
    steps, s := Next(steps, s, Call(0, tx));
    steps, s := Next(steps, s, Register(0));
    assert s.hub.subs[tx] == [0];
    steps, s := Next(steps, s, Call(1, tx));
    steps, s := Next(steps, s, Register(1));
    assert s.hub.subs[tx] == [0, 1] && At(s, 0, First);
    steps, s := Next(steps, s, ContextDone(0));
  }

  lemma HeadLeaves(h: HubState, tx: TxID)
    requires tx in h.subs && h.subs[tx] == [0, 1]
    requires 0 in h.callers && h.callers[0].tx == tx
    ensures tx in Leave(h, 0).subs && Leave(h, 0).subs[tx] == [1]
  {
    assert Without([0, 1], 0) == [1];
  }

  /** Without that hypothesis the claim is false: the first subscriber registers, a second
      one joins without a request of its own, and the first is cancelled and rolls back. */
  lemma OrphanedEntry(tx: TxID) returns (steps: seq<Step>, s: State)
    ensures Run(steps) == Some(s)
    ensures tx in s.hub.subs && !Backed(s, tx)
  {
    steps, s := TwoJoined(tx);
    HeadLeaves(s.hub, tx);
    steps, s := Next(steps, s, Rollback(0));
    assert List(s.hub.subs, tx) == [1] && At(s, 1, Subscribed);
  }

  // ---------- after the listener has exited ----------

  /** The listener's goroutines have been joined, or the stream never opened. */
  predicate Exited(s: State)
  {
    s.listener.Joined? || s.listener.ErrStored? || s.listener.Done? || s.listener.OpenFailed?
  }

  lemma ExitedStep(s: State, step: Step)
    requires ThreadsOk(s) && Enabled(s, step) && Exited(s)
    ensures Exited(Apply(s, step))
    ensures Apply(s, step).handed == s.handed && Apply(s, step).delivered == s.delivered
    ensures Apply(s, step).sent == s.sent && Apply(s, step).responses == s.responses
  {
  }

  lemma {:induction false} ExitedRun(steps: seq<Step>, more: seq<Step>, s: State, s': State)
    requires Run(steps) == Some(s) && Exited(s) && Run(steps + more) == Some(s')
    ensures Exited(s') && s'.handed == s.handed && s'.delivered == s.delivered
    ensures s'.sent == s.sent && s'.responses == s.responses
    decreases |more|
  {
    if more == [] {
      assert steps + more == steps;
    } else {
      var before := RunLastMore(steps, more, s');
      ExitedRun(steps, more[..|more| - 1], s, before);
      RunSafe(steps + more[..|more| - 1], before);
      ExitedStep(before, more[|more| - 1]);
    }
  }

  /** Once the listener's goroutines have exited, no channel ever receives another value and
      no call that created its entry returns success unless it already had. */
  lemma NothingAfterExit(steps: seq<Step>, more: seq<Step>, s: State, s': State, c: Chan)
    requires Run(steps) == Some(s) && Exited(s) && Run(steps + more) == Some(s')
    ensures s'.delivered == s.delivered && s'.sent == s.sent
    ensures HandedOver(s', c) <==> HandedOver(s, c)
  {
    ExitedRun(steps, more, s, s');
    RunRequests(steps, s);
    RunRequests(steps + more, s');
    assert HandedOver(s', c) <==> c in s'.handed;
    assert HandedOver(s, c) <==> c in s.handed;
  }

  // ---------- the map after shutdown ----------

  /** `listen` has returned, through its early return or at its end. */
  predicate Returned(s: State)
  {
    s.listener.Done? || s.listener.OpenFailed?
  }

  /** Nobody is registered, nobody can pass the error check any more, and nobody who passed
      it has yet to register. */
  ghost predicate Sealed(s: State)
  {
    s.hub.subs == map[] && s.streamErr && forall c :: c in s.hub.callers ==> !s.hub.callers[c].phase.Checked?
  }

  lemma SealedCallers(s: State, step: Step, c: Chan)
    requires Enabled(s, step) && Sealed(s) && c in Apply(s, step).hub.callers
    ensures !Apply(s, step).hub.callers[c].phase.Checked?
  {
    if !ByCaller(step, c) {
      OthersStay(s, step, c);
    }
  }

  lemma SealedTable(s: State, step: Step)
    requires ThreadsOk(s) && Enabled(s, step) && Sealed(s) && Returned(s)
    ensures Apply(s, step).hub.subs == map[] && Apply(s, step).streamErr && Returned(Apply(s, step))
  {
    if Internal(step) {
      HubStays(s, step);
    }
  }

  lemma {:induction false} SealedRun(steps: seq<Step>, more: seq<Step>, s: State, s': State)
    requires Run(steps) == Some(s) && Returned(s) && Sealed(s) && Run(steps + more) == Some(s')
    ensures Returned(s') && Sealed(s')
    decreases |more|
  {
    if more == [] {
      assert steps + more == steps;
    } else {
      var before := RunLastMore(steps, more, s');
      var step := more[|more| - 1];
      SealedRun(steps, more[..|more| - 1], s, before);
      RunSafe(steps + more[..|more| - 1], before);
      SealedTable(before, step);
      forall c | c in s'.hub.callers
        ensures !s'.hub.callers[c].phase.Checked?
      {
        SealedCallers(before, step, c);
      }
    }
  }

  lemma {:induction false} FreshChan(used: set<Chan>) returns (c: Chan)
    ensures forall u :: u in used ==> u < c
    decreases used
  {
    c := 0;
    if used != {} {
      var u :| u in used;
      var d := FreshChan(used - {u});
      c := if d <= u then u + 1 else d;
      forall v | v in used
        ensures v < c
      {
        assert v == u || v in used - {u};
      }
    }
  }

  /** From a state that is not sealed, a registration is at most two steps away. */
  lemma Unsealed(steps: seq<Step>, s: State, tx: TxID) returns (more: seq<Step>, s': State)
    requires Run(steps) == Some(s) && !Sealed(s)
    ensures Run(steps + more) == Some(s') && s'.hub.subs != map[]
  {
    more, s' := [], s;
    assert steps + [] == steps;
    if s.hub.subs == map[] {
      var c: Chan;
      if !s.streamErr {
        c := FreshChan(s.hub.callers.Keys);
        s' := More(steps, more, s', Call(c, tx));
        more := more + [Call(c, tx)];
      } else {
        c :| c in s.hub.callers && s.hub.callers[c].phase.Checked?;
      }
      var key := s'.hub.callers[c].tx;
      s' := More(steps, more, s', Register(c));
      more := more + [Register(c)];
      assert key in s'.hub.subs;
    }
  }

  /** After `listen` has returned, the map stays empty in every continuation exactly when it
      is empty now, an error has been stored, and no call stands between the error check and
      its registration. */
  lemma StaysEmptyIff(steps: seq<Step>, s: State)
    requires Run(steps) == Some(s) && Returned(s)
    ensures (forall more, s' :: Run(steps + more) == Some(s') ==> s'.hub.subs == map[]) <==> Sealed(s)
  {
    if Sealed(s) {
      forall more, s' | Run(steps + more) == Some(s')
        ensures s'.hub.subs == map[]
      {
        SealedRun(steps, more, s, s');
      }
    } else {
      var more, s' := Unsealed(steps, s, "");
    }
  }

  ghost predicate ErrOk(s: State)
  {
    && (s.listener.Opening? || s.listener.Running? || s.listener.Joined? ==> !s.streamErr)
    && (s.listener.OpenFailed? ==> s.streamErr)
    && (s.listener.ErrStored? || s.listener.Done? ==> (s.streamErr <==> s.groupErr == Some(Failed)))
  }

  lemma ErrKept(s: State, step: Step)
    requires ThreadsOk(s) && ErrOk(s) && Enabled(s, step)
    ensures ErrOk(Apply(s, step))
  {
  }

  /** An error is stored exactly when the stream did not open, or when the listener ended
      with an error other than the cancellation by `Close`. After a clean close none is, so
      later calls of `Subscribe` pass the check. */
  lemma {:induction false} ErrStoredIff(steps: seq<Step>, s: State)
    requires Run(steps) == Some(s)
    ensures Returned(s) ==> (s.streamErr <==> s.listener.OpenFailed? || s.groupErr == Some(Failed))
    ensures ErrOk(s)
  {
    if steps != [] {
      var before := RunLast(steps, s);
      ErrStoredIff(steps[..|steps| - 1], before);
      RunSafe(steps[..|steps| - 1], before);
      ErrKept(before, steps[|steps| - 1]);
    }
  }

  /** A call has passed the error check, and then the stream failed. */
  lemma StreamFailed(tx: TxID) returns (steps: seq<Step>, s: State)
    ensures Run(steps) == Some(s)
    ensures s.listener.Running? && s.groupErr == Some(Failed) && !s.streamErr
    ensures s.sender.SenderIdle? && s.receiver.ReceiverExited? && s.dispatcher.DispatcherIdle?
    ensures At(s, 0, Checked) && s.hub.callers[0].tx == tx
  {
    steps, s := [], INIT;
    steps, s := Next(steps, s, Open);
    steps, s := Next(steps, s, Call(0, tx));
    steps, s := Next(steps, s, RecvFails);
  }

  lemma AllExited(tx: TxID) returns (steps: seq<Step>, s: State)
    ensures Run(steps) == Some(s)
    ensures s.listener.Running? && s.groupErr == Some(Failed) && !s.streamErr
    ensures s.sender.SenderExited? && s.receiver.ReceiverExited? && s.dispatcher.DispatcherExited?
    ensures At(s, 0, Checked) && s.hub.callers[0].tx == tx
  {
    steps, s := StreamFailed(tx);
    steps, s := Next(steps, s, SenderStops);
    steps, s := Next(steps, s, DispatcherStops);
  }

  /** One way to a map that is not empty after shutdown: the stream fails, but a call passed
      the error check before that and registers after the map was cleared. */
  lemma LateRegistration(tx: TxID) returns (steps: seq<Step>, s: State)
    ensures Run(steps) == Some(s) && s.listener.Done? && s.streamErr && tx in s.hub.subs
  {
    steps, s := AllExited(tx);
    steps, s := Next(steps, s, Multiplexer.Join);
    steps, s := Next(steps, s, StoreErr);
    steps, s := Next(steps, s, Clear);
    steps, s := Next(steps, s, Register(0));
    assert tx in s.hub.subs;
  }

  /** `Close` was called, and the receiver has seen its stream cancelled. */
  lemma Closing() returns (steps: seq<Step>, s: State)
    ensures Run(steps) == Some(s)
    ensures s.listener.Running? && s.hub == EMPTY_HUB && s.closed && s.groupErr == None && !s.streamErr
    ensures s.sender.SenderIdle? && s.receiver.ReceiverExited? && s.dispatcher.DispatcherIdle?
  {
    steps, s := [], INIT;
    steps, s := Next(steps, s, Open);
    steps, s := Next(steps, s, Close);
    steps, s := Next(steps, s, RecvCanceled);
  }

  lemma CleanlyClosed() returns (steps: seq<Step>, s: State)
    ensures Run(steps) == Some(s)
    ensures s.listener.Running? && s.hub == EMPTY_HUB && s.groupErr == Some(Canceled) && !s.streamErr
    ensures s.sender.SenderExited? && s.receiver.ReceiverExited? && s.dispatcher.DispatcherExited?
  {
    steps, s := Closing();
    steps, s := Next(steps, s, SenderStops);
    steps, s := Next(steps, s, DispatcherStops);
  }

  /** The other way: after a clean close no error is stored, so a call that only starts after
      the map was cleared registers like any other. */
  lemma RegistrationAfterClose(tx: TxID) returns (steps: seq<Step>, s: State)
    ensures Run(steps) == Some(s) && s.listener.Done? && !s.streamErr && tx in s.hub.subs
  {
    steps, s := CleanlyClosed();
    steps, s := Next(steps, s, Multiplexer.Join);
    steps, s := Next(steps, s, StoreErr);
    steps, s := Next(steps, s, Clear);
    steps, s := Next(steps, s, Call(0, tx));
    steps, s := Next(steps, s, Register(0));
    assert tx in s.hub.subs;
  }
}
