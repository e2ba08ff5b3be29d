/** End-to-end finality: what a command that waited and exited without error has seen. */
module Finality {
  import opened Wrappers
  import opened Subscribers
  import opened Hub
  import opened Multiplexer
  import opened Goroutines
  import Transactions
  import App

  lemma {:induction false} FirstMentionAt(log: seq<map<TxID, int>>, from: nat, tx: TxID) returns (i: nat)
    requires FirstMention(log, from, tx).Some?
    ensures from <= i < |log| && tx in log[i] && log[i][tx] == FirstMention(log, from, tx).value
    ensures forall j :: from <= j < i ==> tx !in log[j]
    decreases |log| - from
  {
    i := from;
    if tx !in log[from] {
      i := FirstMentionAt(log, from + 1, tx);
    }
  }

  /** Response `i` is the first one dispatched after the caller registered that mentions its
      transaction, and this status is the last the response reports for it. */
  ghost predicate SettledBy(s: State, c: Chan, status: int, i: nat)
    requires c in s.hub.callers
  {
    var k := s.hub.callers[c];
    && k.since <= i < |s.responses|
    && LastSays(s.responses[i].events, k.tx, status)
    && forall j :: k.since <= j < i ==> k.tx !in Mentioned(s.responses[j])
  }

  /** Receiving any status but "unspecified" means that it was the last status event for the
      transaction in the first response about it since the caller registered: neither a
      timeout, nor an older response, nor another transaction can have produced it. */
  lemma ReceivedMeansReported(steps: seq<Step>, s: State, c: Chan, status: int) returns (i: nat)
    requires Run(steps) == Some(s) && At(s, c, Received(status))
    requires status != STATUS_UNSPECIFIED
    ensures SettledBy(s, c, status, i)
  {
    RunSafe(steps, s);
    assert CallerOk(s.hub, c);
    var k := s.hub.callers[c];
    i := FirstMentionAt(s.hub.log, k.since, k.tx);
    assert s.hub.log[i] == Parse(s.responses[i]);
    LastEventIff(s.responses[i].events, k.tx);
    forall j | k.since <= j < i
      ensures k.tx !in Mentioned(s.responses[j])
    {
      assert s.hub.log[j] == Parse(s.responses[j]);
    }
  }

  /** The notification calls in a command's trace are what the notification client did. */
  ghost predicate Recorded(run: App.Trace, s: State)
  {
    && (forall txID, c :: App.Called(App.NotificationClient, App.Subscribe(txID, Some(c))) in run ==>
          c in s.hub.callers && s.hub.callers[c].tx == txID)
    && (forall c, status :: App.Called(App.NotificationClient, App.WaitForEvent(c, Some(status))) in run ==>
          At(s, c, Received(status)))
  }

  /** A command whose run awaited the committed status has seen a response that was
      dispatched after its own registration and reports COMMITTED last for its transaction. */
  lemma AwaitedIsFinal(steps: seq<Step>, s: State, run: App.Trace, txID: TxID, tx: Transactions.TxValue, committed: int)
      returns (c: Chan, i: nat)
    requires Run(steps) == Some(s) && Recorded(run, s)
    requires App.Awaited(run, txID, tx, committed) && committed != STATUS_UNSPECIFIED
    ensures c in s.hub.callers && s.hub.callers[c].tx == txID && SettledBy(s, c, committed, i)
    ensures App.Called(App.NotificationClient, App.Subscribe(txID, Some(c))) in run
  {
    var a: nat, b: nat, d: nat, c': nat :| App.AwaitedAt(run, txID, tx, committed, a, b, d, c');
    c := c';
    assert run[a] in run && run[d] in run;
    i := ReceivedMeansReported(steps, s, c, committed);
  }

  /** Call `c` subscribed for the transaction, and response `i` of the stream, dispatched
      after that, settled it. */
  ghost predicate SettledFor(steps: seq<Step>, s: State, txID: TxID, status: int, c: Chan, i: nat)
  {
    && c in s.hub.callers && s.hub.callers[c].tx == txID && SettledBy(s, c, status, i)
    && i < |FromStream(steps)| && FromStream(steps)[i] == s.responses[i]
  }

  /** Whatever run of the notification client this trace records, the call that the command
      made subscribed for the transaction, and a response dispatched after its registration
      settled it with this status. */
  ghost predicate Settled(run: App.Trace, txID: TxID, status: int)
  {
    forall steps, s :: Run(steps) == Some(s) && Recorded(run, s) ==>
      exists c, i :: SettledFor(steps, s, txID, status, c, i)
  }

  lemma AwaitedIsSettled(run: App.Trace, txID: TxID, tx: Transactions.TxValue, committed: int)
    requires App.Awaited(run, txID, tx, committed) && committed != STATUS_UNSPECIFIED
    ensures Settled(run, txID, committed)
  {
    forall steps, s | Run(steps) == Some(s) && Recorded(run, s)
      ensures exists c, i :: SettledFor(steps, s, txID, committed, c, i)
    {
      var c, i := AwaitedIsFinal(steps, s, run, txID, tx, committed);
      var _ := ResponsesPassOn(steps, s);
      assert SettledFor(steps, s, txID, committed, c, i);
    }
  }

  /** `tx submit --wait`: no error means that the transaction was committed. */
  method TxSubmitIsFinal(app: App.AdminApp, txID: TxID, tx: Transactions.TxValue) returns (exitOk: bool)
    requires app.committed != STATUS_UNSPECIFIED
    modifies app`trace
    ensures old(app.trace) <= app.trace
    ensures exitOk ==> Settled(app.trace[|old(app.trace)|..], txID, app.committed)
  {
    exitOk := app.TxSubmitCommand(true, txID, tx);
    if exitOk {
      AwaitedIsSettled(app.trace[|old(app.trace)|..], txID, tx, app.committed);
    }
  }

  /** `namespace create` and `namespace update` with endorsing and waiting: the same. */
  method NamespaceIsFinal(app: App.AdminApp, input: App.DeployInput, freshTxID: TxID) returns (exitOk: bool)
    requires app.committed != STATUS_UNSPECIFIED && input.endorse && input.wait
    modifies app`trace
    ensures old(app.trace) <= app.trace
    ensures exitOk ==> Settled(app.trace[|old(app.trace)|..], freshTxID, app.committed)
  {
    exitOk := app.NamespaceCommand(input, freshTxID);
    if exitOk {
      ghost var run := app.trace[|old(app.trace)|..];
      ghost var tx :| App.Awaited(run, freshTxID, tx, app.committed);
      AwaitedIsSettled(run, freshTxID, tx, app.committed);
    }
  }
}
