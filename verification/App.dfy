/** `fxconfig` commands that create, endorse, submit and await a namespace transaction. The
    outcome of every external call is arbitrary; what happened is kept as a trace. */
module App {
  import opened Wrappers
  import opened Transactions
  import opened Endorse
  import NamespaceTx

  datatype Client = QueryClient | OrdererClient | NotificationClient

  /** A call on a client, with its outcome. Channels are named by their identity. */
  datatype ClientCall =
    | GetConfigVersion(version: Option<nat>)
    | Subscribe(txID: string, channel: Option<nat>)
    | Broadcast(txID: string, tx: TxValue, accepted: bool)
    | WaitForEvent(subscription: nat, status: Option<int>)

  datatype Effect =
    | Opened(client: Client)
    | Called(client: Client, call: ClientCall)
    | Closed(client: Client)
    | PolicyLoaded(policy: seq<bv8>)
    | Endorsed(txID: string, unsigned: TxValue, signed: TxValue)
    | Failed(what: Trouble)

  /** What can go wrong outside a client call. */
  datatype Trouble = NoClient(k: Client) | NoSigner | InvalidInput | BadPolicy | CannotEndorse

  type Trace = seq<Effect>

  const UNKNOWN_STATUS: int := 0

  datatype DeployInput = DeployInput(nsID: string, version: int, endorse: bool, submit: bool, wait: bool)

  datatype DeployOutput = DeployOutput(txID: string, tx: TxValue)

  // ---------- reading a trace ----------

  predicate On(e: Effect, k: Client)
  {
    (e.Opened? || e.Called? || e.Closed?) && e.client == k
  }

  predicate AsksVersion(e: Effect)
  {
    e.Called? && e.call.GetConfigVersion?
  }

  /** What happened on one client. */
  function Of(trace: Trace, k: Client): Trace
  {
    if trace == [] then []
    else
      var rest := Of(trace[..|trace| - 1], k);
      var e := trace[|trace| - 1];
      if On(e, k) then rest + [e] else rest
  }

  /** The effect reports a failure of something external. */
  predicate IsFailure(e: Effect)
  {
    match e
    case Failed(_) => true
    case Called(_, GetConfigVersion(version)) => version.None?
    case Called(_, Subscribe(_, channel)) => channel.None?
    case Called(_, Broadcast(_, _, accepted)) => !accepted
    case Called(_, WaitForEvent(_, status)) => status.None?
    case _ => false
  }

  predicate AllWell(run: Trace)
  {
    forall e :: e in run ==> !IsFailure(e)
  }

  lemma {:induction false} OfConcat(a: Trace, b: Trace, k: Client)
    ensures Of(a + b, k) == Of(a, k) + Of(b, k)
  {
    if b == [] {
      assert a + b == a;
    } else {
      assert (a + b)[..|a + b| - 1] == a + b[..|b| - 1];
      OfConcat(a, b[..|b| - 1], k);
    }
  }

  /** The client was never obtained, or obtained once, used, and then closed once. */
  predicate ProperLife(s: Trace, k: Client)
  {
    s == [] ||
    (|s| >= 2 && s[0] == Opened(k) && s[|s| - 1] == Closed(k) &&
     forall i :: 0 < i < |s| - 1 ==> s[i].Called? && s[i].client == k)
  }

  predicate Tidy(trace: Trace)
  {
    forall k: Client :: ProperLife(Of(trace, k), k)
  }

  predicate IsBroadcast(e: Effect)
  {
    e.Called? && e.call.Broadcast?
  }

  predicate BroadcastAtMostOnce(trace: Trace)
  {
    forall i, j :: 0 <= i < |trace| && 0 <= j < |trace| && IsBroadcast(trace[i]) && IsBroadcast(trace[j]) ==> i == j
  }

  predicate NoBroadcast(trace: Trace)
  {
    forall e :: e in trace ==> !IsBroadcast(e)
  }

  predicate Accepted(trace: Trace, txID: string, tx: TxValue)
  {
    Called(OrdererClient, Broadcast(txID, tx, true)) in trace
  }

  /** Each broadcast is of this transaction, on the orderer client. */
  predicate BroadcastsOnly(trace: Trace, txID: string, tx: TxValue)
  {
    forall e :: e in trace && IsBroadcast(e) ==>
      e.client == OrdererClient && e.call.txID == txID && e.call.tx == tx
  }

  predicate HasSubscribed(e: Effect, txID: string)
  {
    e.Called? && e.call.Subscribe? && e.call.txID == txID && e.call.channel.Some?
  }

  /** Before each broadcast a subscription for its transaction had succeeded. */
  predicate SubscribedFirst(trace: Trace)
  {
    forall i :: 0 <= i < |trace| && IsBroadcast(trace[i]) ==>
      exists j :: 0 <= j < i && HasSubscribed(trace[j], trace[i].call.txID)
  }

  predicate AwaitedAt(trace: Trace, txID: string, tx: TxValue, status: int, i: nat, j: nat, k: nat, c: nat)
  {
    && i < j < k < |trace|
    && trace[i] == Called(NotificationClient, Subscribe(txID, Some(c)))
    && trace[j] == Called(OrdererClient, Broadcast(txID, tx, true))
    && trace[k] == Called(NotificationClient, WaitForEvent(c, Some(status)))
  }

  /** The run subscribed for the transaction, had the broadcast of it accepted, and then
      received this status on the subscription. */
  ghost predicate Awaited(trace: Trace, txID: string, tx: TxValue, status: int)
  {
    exists i: nat, j: nat, k: nat, c: nat :: AwaitedAt(trace, txID, tx, status, i, j, k, c)
  }

  predicate GotStatus(e: Effect)
  {
    e.Called? && e.call.WaitForEvent? && e.call.status.Some?
  }

  /** The only status any wait of this run received. */
  predicate OnlyStatus(trace: Trace, status: int)
  {
    forall e :: e in trace && GotStatus(e) ==> e.call.status == Some(status)
  }

  lemma AwaitedStatus(trace: Trace, txID: string, tx: TxValue, status: int, only: int)
    requires Awaited(trace, txID, tx, status) && OnlyStatus(trace, only)
    ensures status == only
  {
    var i: nat, j: nat, k: nat, c: nat :| AwaitedAt(trace, txID, tx, status, i, j, k, c);
    assert trace[k] in trace && GotStatus(trace[k]);
  }

  // ---------- submitting ----------

  /** What a submission does, whatever its outcome. */
  predicate SubmitOk(run: Trace, txID: string, tx: TxValue)
  {
    && Tidy(run)
    && Of(run, QueryClient) == []
    && BroadcastAtMostOnce(run)
    && BroadcastsOnly(run, txID, tx)
    && forall e :: e in run ==> !e.Endorsed? && !AsksVersion(e)
  }

  lemma OfSnoc(trace: Trace, e: Effect, k: Client)
    ensures Of(trace + [e], k) == Of(trace, k) + if On(e, k) then [e] else []
  {
    assert (trace + [e])[..|trace|] == trace;
  }

  lemma SubmitRun(txID: string, tx: TxValue, ok: bool)
    ensures var run := [Opened(OrdererClient), Called(OrdererClient, Broadcast(txID, tx, ok)), Closed(OrdererClient)];
            SubmitOk(run, txID, tx) && (ok <==> AllWell(run))
  {
    var a, b, c := Opened(OrdererClient), Called(OrdererClient, Broadcast(txID, tx, ok)), Closed(OrdererClient);
    assert b in [a, b, c];
    assert [a, b, c] == [] + [a] + [b] + [c];
    forall k: Client
      ensures Of([a, b, c], k) == if k == OrdererClient then [a, b, c] else []
    {
      OfSnoc([], a, k);
      OfSnoc([] + [a], b, k);
      OfSnoc([] + [a] + [b], c, k);
    }
  }

  lemma UnnotifiedOf(k: Client)
    ensures Of([Opened(OrdererClient), Failed(NoClient(NotificationClient)), Closed(OrdererClient)], k)
         == if k == OrdererClient then [Opened(OrdererClient), Closed(OrdererClient)] else []
  {
    var a, b, c := Opened(OrdererClient), Failed(NoClient(NotificationClient)), Closed(OrdererClient);
    OfSnoc([], a, k);
    OfSnoc([] + [a], b, k);
    OfSnoc([] + [a] + [b], c, k);
    assert [a, b, c] == [] + [a] + [b] + [c];
  }

  lemma UnnotifiedRun(txID: string, tx: TxValue)
    ensures var run := [Opened(OrdererClient), Failed(NoClient(NotificationClient)), Closed(OrdererClient)];
            SubmitOk(run, txID, tx) && !AllWell(run)
  {
    var run := [Opened(OrdererClient), Failed(NoClient(NotificationClient)), Closed(OrdererClient)];
    assert run[1] in run;
    forall k: Client
      ensures ProperLife(Of(run, k), k) && (k == QueryClient ==> Of(run, k) == [])
    {
      UnnotifiedOf(k);
    }
  }

  lemma FailedRun(what: Trouble, txID: string, tx: TxValue)
    ensures SubmitOk([Failed(what)], txID, tx) && IsFailure(Failed(what))
    ensures forall k: Client :: Of([Failed(what)], k) == []
  {
    forall k: Client
      ensures Of([Failed(what)], k) == []
    {
      OfSnoc([], Failed(what), k);
      assert [Failed(what)] == [] + [Failed(what)];
    }
  }

  /** The calls of a waiting submission between opening and closing both clients. */
  function Bracketed(use: Trace): Trace
  {
    [Opened(OrdererClient), Opened(NotificationClient)] + use + [Closed(NotificationClient), Closed(OrdererClient)]
  }

  lemma BracketedWell(use: Trace, ok: bool)
    requires ok <==> AllWell(use)
    ensures ok <==> AllWell(Bracketed(use))
  {
    forall e
      ensures e in Bracketed(use) && IsFailure(e) <==> e in use && IsFailure(e)
    {
    }
  }

  predicate IsSubscribe(e: Effect, txID: string)
  {
    e.Called? && e.client == NotificationClient && e.call.Subscribe? && e.call.txID == txID
  }

  predicate IsBroadcastOf(e: Effect, txID: string, tx: TxValue)
  {
    e.Called? && e.client == OrdererClient && e.call.Broadcast? && e.call.txID == txID && e.call.tx == tx
  }

  /** Subscribe, then broadcast, then wait: as far as the run got. */
  predicate InOrder(use: Trace, txID: string, tx: TxValue)
  {
    && |use| <= 3
    && (|use| >= 1 ==> IsSubscribe(use[0], txID))
    && (|use| >= 2 ==> use[0].call.channel.Some? && IsBroadcastOf(use[1], txID, tx))
    && (|use| >= 3 ==> use[2].Called? && use[2].client == NotificationClient && use[2].call.WaitForEvent?)
  }

  /** All three succeeded, and the status came on the subscription. */
  predicate Finished(use: Trace, txID: string, tx: TxValue, status: int)
  {
    && InOrder(use, txID, tx)
    && |use| == 3
    && use[1].call.accepted
    && use[2].call == WaitForEvent(use[0].call.channel.value, Some(status))
  }

  lemma BracketedAwaits(use: Trace, txID: string, tx: TxValue, status: int)
    requires Finished(use, txID, tx, status)
    ensures Awaited(Bracketed(use), txID, tx, status) && OnlyStatus(Bracketed(use), status)
  {
    var run := Bracketed(use);
    assert run[2] == use[0] && run[3] == use[1] && run[4] == use[2];
    assert AwaitedAt(run, txID, tx, status, 2, 3, 4, use[0].call.channel.value);
  }

  lemma {:induction false} OfCalls(use: Trace, k: Client)
    requires forall e :: e in use ==> e.Called?
    ensures forall e :: e in Of(use, k) ==> e.Called? && e.client == k
  {
    if use != [] {
      assert use == use[..|use| - 1] + [use[|use| - 1]];
      OfCalls(use[..|use| - 1], k);
    }
  }

  lemma OfPair(a: Effect, b: Effect, k: Client)
    ensures Of([a, b], k) == (if On(a, k) then [a] else []) + (if On(b, k) then [b] else [])
  {
    assert [a, b] == [] + [a] + [b];
    OfSnoc([] + [a], b, k);
    OfSnoc([], a, k);
  }

  lemma OfBetween(a: Effect, b: Effect, use: Trace, c: Effect, d: Effect, k: Client)
    ensures Of([a, b] + use + [c, d], k) == Of([a, b], k) + Of(use, k) + Of([c, d], k)
  {
    OfConcat([a, b] + use, [c, d], k);
    OfConcat([a, b], use, k);
  }

  lemma BracketedOf(use: Trace, k: Client)
    ensures Of(Bracketed(use), k) == if k == QueryClient then Of(use, k) else [Opened(k)] + Of(use, k) + [Closed(k)]
  {
    OfBetween(Opened(OrdererClient), Opened(NotificationClient), use,
              Closed(NotificationClient), Closed(OrdererClient), k);
    OfPair(Opened(OrdererClient), Opened(NotificationClient), k);
    OfPair(Closed(NotificationClient), Closed(OrdererClient), k);
    assert [] + Of(use, k) + [] == Of(use, k);
  }

  lemma {:induction false} NoQueries(use: Trace, txID: string, tx: TxValue)
    requires InOrder(use, txID, tx)
    ensures Of(use, QueryClient) == []
  {
    if use != [] {
      NoQueries(use[..|use| - 1], txID, tx);
    }
  }

  lemma BracketedTidy(use: Trace, txID: string, tx: TxValue)
    requires InOrder(use, txID, tx)
    ensures Tidy(Bracketed(use)) && Of(Bracketed(use), QueryClient) == []
  {
    NoQueries(use, txID, tx);
    forall k: Client
      ensures ProperLife(Of(Bracketed(use), k), k)
    {
      BracketedOf(use, k);
      OfCalls(use, k);
    }
    BracketedOf(use, QueryClient);
  }

  lemma BracketedRun(use: Trace, txID: string, tx: TxValue)
    requires InOrder(use, txID, tx)
    ensures SubmitOk(Bracketed(use), txID, tx) && SubscribedFirst(Bracketed(use))
  {
    var run := Bracketed(use);
    assert forall i :: 0 <= i < |use| ==> run[i + 2] == use[i];
    BracketedTidy(use, txID, tx);
    forall i | 0 <= i < |run| && IsBroadcast(run[i])
      ensures i == 3
    {
    }
    if |use| >= 2 {
      assert run[2] == use[0] && run[3] == use[1];
    }
  }

  // ---------- deploying ----------

  /** Nothing but the query client's life. */
  predicate QueryOnly(run: Trace)
  {
    && ProperLife(Of(run, QueryClient), QueryClient)
    && Of(run, OrdererClient) == [] && Of(run, NotificationClient) == []
    && (forall e :: e in run ==> !e.Endorsed? && !IsBroadcast(e) && !GotStatus(e))
  }

  lemma FailedQuery(what: Trouble)
    ensures QueryOnly([Failed(what)]) && IsFailure(Failed(what))
  {
    FailedRun(what, "", TxValue([], []));
  }

  lemma QueryRun(version: Option<nat>)
    ensures var run := [Opened(QueryClient), Called(QueryClient, GetConfigVersion(version)), Closed(QueryClient)];
            QueryOnly(run) && (version.Some? <==> AllWell(run))
  {
    var a, b, c := Opened(QueryClient), Called(QueryClient, GetConfigVersion(version)), Closed(QueryClient);
    assert b in [a, b, c];
    assert [a, b, c] == [] + [a] + [b] + [c];
    forall k: Client
      ensures Of([a, b, c], k) == if k == QueryClient then [a, b, c] else []
    {
      OfSnoc([], a, k);
      OfSnoc([] + [a], b, k);
      OfSnoc([] + [a] + [b], c, k);
    }
  }

  lemma QueryAfterPolicy(policy: seq<bv8>, run: Trace)
    requires QueryOnly(run)
    ensures QueryOnly([PolicyLoaded(policy)] + run)
    ensures AllWell([PolicyLoaded(policy)] + run) <==> AllWell(run)
  {
    var all := [PolicyLoaded(policy)] + run;
    forall k: Client
      ensures Of(all, k) == Of(run, k)
    {
      OfConcat([PolicyLoaded(policy)], run, k);
      assert [PolicyLoaded(policy)][..0] == [] && Of([PolicyLoaded(policy)], k) == [];
      assert [] + Of(run, k) == Of(run, k);
    }
    forall e
      ensures e in all <==> e == PolicyLoaded(policy) || e in run
    {
    }
  }

  /** The transaction writes this policy for the input's namespace, at the input's version and
      under this config version. */
  predicate Writes(tx: TxValue, input: DeployInput, policy: seq<bv8>, config: nat)
  {
    && tx.endorsements == []
    && |tx.namespaces| == 1
    && tx.namespaces[0].nsID == NamespaceTx.META_NAMESPACE
    && tx.namespaces[0].nsVersion == config
    && |tx.namespaces[0].readWrites| == 1
    && tx.namespaces[0].readWrites[0].key == input.nsID
    && tx.namespaces[0].readWrites[0].value == policy
    && (input.version >= 0 ==> tx.namespaces[0].readWrites[0].version == Some(input.version))
    && (input.version < 0 ==> tx.namespaces[0].readWrites[0].version == None)
  }

  /** The policy is one the run loaded, and the config version the one it was told. */
  ghost predicate CreatedFrom(run: Trace, tx: TxValue, input: DeployInput, policy: seq<bv8>, config: nat)
  {
    && PolicyLoaded(policy) in run
    && Called(QueryClient, GetConfigVersion(Some(config))) in run
    && (forall e :: e in run && AsksVersion(e) ==> e.call.version == Some(config))
    && Writes(tx, input, policy, config)
  }

  ghost predicate Creates(run: Trace, tx: TxValue, input: DeployInput)
  {
    exists policy, config :: CreatedFrom(run, tx, input, policy, config)
  }

  lemma CreatesLater(query: Trace, tail: Trace, tx: TxValue, input: DeployInput)
    requires Creates(query, tx, input) && forall e :: e in tail ==> !AsksVersion(e)
    ensures Creates(query + tail, tx, input)
  {
    var policy, config :| CreatedFrom(query, tx, input, policy, config);
    assert CreatedFrom(query + tail, tx, input, policy, config);
  }

  ghost predicate SignedBySomeone(marshal: Marshal, txID: string, unsigned: TxValue, signed: TxValue)
  {
    exists signer: Signer :: signer.identity.Some? && EndorsedBy(marshal, signer, txID, unsigned, signed)
  }

  /** Before each broadcast, the transaction it carries was created from the input and
      endorsed. */
  ghost predicate EndorsedFirst(marshal: Marshal, run: Trace, input: DeployInput)
  {
    forall i :: 0 <= i < |run| && IsBroadcast(run[i]) ==>
      exists j :: 0 <= j < i && run[j].Endorsed? &&
        run[j].txID == run[i].call.txID && run[j].signed == run[i].call.tx &&
        Creates(run, run[j].unsigned, input) &&
        SignedBySomeone(marshal, run[j].txID, run[j].unsigned, run[j].signed)
  }

  /** The output carries the transaction ID and the transaction created from the input:
      endorsed when that was asked for, as it is otherwise. */
  ghost predicate OutputOk(marshal: Marshal, run: Trace, input: DeployInput, txID: string, out: DeployOutput)
  {
    && out.txID == txID
    && (!input.endorse ==> Creates(run, out.tx, input))
    && (input.endorse ==>
          exists unsigned :: Endorsed(txID, unsigned, out.tx) in run && Creates(run, unsigned, input) &&
            SignedBySomeone(marshal, txID, unsigned, out.tx))
  }

  /** What a deployment promises, for every combination of flags and every outcome of the
      external calls. */
  ghost predicate DeployOk(marshal: Marshal, run: Trace, input: DeployInput, txID: string,
                           out: Option<DeployOutput>, status: int, ok: bool)
  {
    // every client obtained is closed exactly once, after its last use
    && Tidy(run)
    // at most one broadcast, only of the endorsed transaction, only if the flags ask for it
    && BroadcastAtMostOnce(run)
    && EndorsedFirst(marshal, run, input)
    && (!NoBroadcast(run) ==> input.endorse && (input.submit || input.wait))
    // a waiting deployment subscribes before it broadcasts
    && (input.wait ==> SubscribedFirst(run))
    // it succeeds exactly when nothing external failed
    && (ok <==> AllWell(run))
    // no output and no error: exactly the runs in which a broadcast was accepted
    && (ok ==> (out.None? <==> exists tx :: Accepted(run, txID, tx)))
    && (ok ==> (out.None? <==> input.endorse && (input.submit || input.wait)))
    && (!ok ==> out.None? && status == UNKNOWN_STATUS)
    && (out.Some? ==> OutputOk(marshal, run, input, txID, out.value))
    // a status is reported only after waiting for this transaction
    && (ok && input.endorse && input.wait ==> OnlyStatus(run, status) && exists tx :: Awaited(run, txID, tx, status))
    && (ok && !(input.endorse && input.wait) ==> status == UNKNOWN_STATUS)
  }

  lemma NoBroadcastDeploy(marshal: Marshal, run: Trace, input: DeployInput, txID: string,
                          out: Option<DeployOutput>, ok: bool)
    requires Tidy(run) && NoBroadcast(run) && (ok <==> AllWell(run))
    requires ok == out.Some? && (ok ==> !(input.endorse && (input.submit || input.wait)))
    requires ok ==> OutputOk(marshal, run, input, txID, out.value)
    ensures DeployOk(marshal, run, input, txID, out, UNKNOWN_STATUS, ok)
  {
    forall i | 0 <= i < |run|
      ensures !IsBroadcast(run[i])
    {
      assert run[i] in run;
    }
    forall tx
      ensures !Accepted(run, txID, tx)
    {
      assert IsBroadcast(Called(OrdererClient, Broadcast(txID, tx, true)));
    }
  }

  lemma QueryOnlyDeploy(marshal: Marshal, query: Trace, input: DeployInput, txID: string,
                        out: Option<DeployOutput>, ok: bool)
    requires QueryOnly(query) && ok == out.Some? && (ok ==> !input.endorse) && (ok <==> AllWell(query))
    requires ok ==> out.value.txID == txID && Creates(query, out.value.tx, input)
    ensures DeployOk(marshal, query, input, txID, out, UNKNOWN_STATUS, ok)
  {
    forall k: Client
      ensures ProperLife(Of(query, k), k)
    {
      assert k == QueryClient || Of(query, k) == [];
    }
    NoBroadcastDeploy(marshal, query, input, txID, out, ok);
  }

  lemma FailedDeploy(marshal: Marshal, query: Trace, what: Trouble, input: DeployInput, txID: string)
    requires QueryOnly(query)
    ensures DeployOk(marshal, query + [Failed(what)], input, txID, None, UNKNOWN_STATUS, false)
  {
    forall k: Client
      ensures ProperLife(Of(query + [Failed(what)], k), k)
    {
      OfSnoc(query, Failed(what), k);
      assert k == QueryClient || Of(query, k) == [];
    }
    assert Failed(what) in query + [Failed(what)] && IsFailure(Failed(what));
    NoBroadcastDeploy(marshal, query + [Failed(what)], input, txID, None, false);
  }

  lemma TidyTogether(query: Trace, e: Effect, tail: Trace)
    requires QueryOnly(query) && e.Endorsed? && Tidy(tail) && Of(tail, QueryClient) == []
    ensures Tidy(query + [e] + tail)
  {
    forall k: Client
      ensures ProperLife(Of(query + [e] + tail, k), k)
    {
      OfConcat(query + [e], tail, k);
      OfSnoc(query, e, k);
      assert k == QueryClient || Of(query, k) == [];
      assert Of(query + [e] + tail, k) == if k == QueryClient then Of(query, k) else Of(tail, k);
    }
  }

  lemma EndorseOnlyDeploy(marshal: Marshal, query: Trace, e: Effect, input: DeployInput)
    requires QueryOnly(query) && AllWell(query) && e.Endorsed? && input.endorse && !input.submit && !input.wait
    requires Creates(query, e.unsigned, input) && SignedBySomeone(marshal, e.txID, e.unsigned, e.signed)
    ensures DeployOk(marshal, query + [e], input, e.txID, Some(DeployOutput(e.txID, e.signed)), UNKNOWN_STATUS, true)
  {
    assert query + [e] + [] == query + [e];
    TidyTogether(query, e, []);
    CreatesLater(query, [e], e.unsigned, input);
    assert Endorsed(e.txID, e.unsigned, e.signed) in query + [e];
    NoBroadcastDeploy(marshal, query + [e], input, e.txID, Some(DeployOutput(e.txID, e.signed)), true);
  }

  /** The broadcasts of the whole run are those of its last part. */
  lemma BroadcastInTail(query: Trace, e: Effect, tail: Trace, i: nat)
    requires QueryOnly(query) && e.Endorsed? && i < |query + [e] + tail| && IsBroadcast((query + [e] + tail)[i])
    ensures i > |query| && (query + [e] + tail)[i] == tail[i - |query| - 1]
  {
    forall a | 0 <= a < |query|
      ensures !IsBroadcast(query[a])
    {
      assert query[a] in query;
    }
  }

  lemma BroadcastsOnce(query: Trace, e: Effect, tail: Trace)
    requires QueryOnly(query) && e.Endorsed? && BroadcastAtMostOnce(tail)
    ensures BroadcastAtMostOnce(query + [e] + tail)
  {
    var run, n := query + [e] + tail, |query| + 1;
    forall i, j | 0 <= i < |run| && 0 <= j < |run| && IsBroadcast(run[i]) && IsBroadcast(run[j])
      ensures i == j
    {
      BroadcastInTail(query, e, tail, i);
      BroadcastInTail(query, e, tail, j);
      assert i - n == j - n;
    }
  }

  lemma BroadcastsEndorsed(marshal: Marshal, query: Trace, e: Effect, tail: Trace, input: DeployInput)
    requires QueryOnly(query) && e.Endorsed? && BroadcastsOnly(tail, e.txID, e.signed)
    requires Creates(query + [e] + tail, e.unsigned, input)
    requires SignedBySomeone(marshal, e.txID, e.unsigned, e.signed)
    ensures EndorsedFirst(marshal, query + [e] + tail, input)
  {
    var run := query + [e] + tail;
    forall i | 0 <= i < |run| && IsBroadcast(run[i])
      ensures i > |query| && run[|query|] == e && e.txID == run[i].call.txID && e.signed == run[i].call.tx
    {
      BroadcastInTail(query, e, tail, i);
      assert run[i] in tail;
    }
  }

  lemma SubscriptionOf(trace: Trace, i: nat) returns (j: nat)
    requires SubscribedFirst(trace) && i < |trace| && IsBroadcast(trace[i])
    ensures j < i && HasSubscribed(trace[j], trace[i].call.txID)
  {
    j :| 0 <= j < i && HasSubscribed(trace[j], trace[i].call.txID);
  }

  lemma SubscribedLater(query: Trace, e: Effect, tail: Trace)
    requires QueryOnly(query) && e.Endorsed? && SubscribedFirst(tail)
    ensures SubscribedFirst(query + [e] + tail)
  {
    var run, n := query + [e] + tail, |query| + 1;
    forall i | 0 <= i < |run| && IsBroadcast(run[i])
      ensures exists j :: 0 <= j < i && HasSubscribed(run[j], run[i].call.txID)
    {
      BroadcastInTail(query, e, tail, i);
      var j := SubscriptionOf(tail, i - n);
      assert run[n + j] == tail[j];
      assert HasSubscribed(run[n + j], run[i].call.txID);
    }
  }

  lemma AwaitedIsAccepted(run: Trace, txID: string, tx: TxValue, status: int)
    requires Awaited(run, txID, tx, status)
    ensures Accepted(run, txID, tx)
  {
  }

  lemma AwaitedLater(before: Trace, tail: Trace, txID: string, tx: TxValue, status: int)
    requires Awaited(tail, txID, tx, status)
    ensures Awaited(before + tail, txID, tx, status)
  {
    var i: nat, j: nat, k: nat, c: nat :| AwaitedAt(tail, txID, tx, status, i, j, k, c);
    var n, run := |before|, before + tail;
    assert run[n + i] == tail[i] && run[n + j] == tail[j] && run[n + k] == tail[k];
    assert AwaitedAt(run, txID, tx, status, n + i, n + j, n + k, c);
  }

  /** The part of the promises about the order of effects. */
  lemma SubmittedOrder(marshal: Marshal, query: Trace, e: Effect, tail: Trace, input: DeployInput)
    requires QueryOnly(query) && e.Endorsed? && SubmitOk(tail, e.txID, e.signed)
    requires Creates(query, e.unsigned, input) && SignedBySomeone(marshal, e.txID, e.unsigned, e.signed)
    requires input.wait ==> SubscribedFirst(tail)
    ensures var run := query + [e] + tail;
            && Tidy(run) && BroadcastAtMostOnce(run) && EndorsedFirst(marshal, run, input)
            && (input.wait ==> SubscribedFirst(run))
  {
    TidyTogether(query, e, tail);
    BroadcastsOnce(query, e, tail);
    CreatesLater(query, [e], e.unsigned, input);
    CreatesLater(query + [e], tail, e.unsigned, input);
    BroadcastsEndorsed(marshal, query, e, tail, input);
    if input.wait {
      SubscribedLater(query, e, tail);
    }
  }

  lemma AllWellTogether(query: Trace, e: Effect, tail: Trace)
    requires QueryOnly(query) && AllWell(query) && e.Endorsed?
    ensures AllWell(query + [e] + tail) <==> AllWell(tail)
    ensures forall status :: OnlyStatus(tail, status) ==> OnlyStatus(query + [e] + tail, status)
  {
    forall x
      ensures x in query + [e] + tail <==> x in query || x == e || x in tail
    {
    }
  }

  lemma SubmittedDeploy(marshal: Marshal, query: Trace, e: Effect, tail: Trace,
                        input: DeployInput, status: int, ok: bool)
    requires QueryOnly(query) && e.Endorsed? && SubmitOk(tail, e.txID, e.signed)
    requires AllWell(query) && (ok <==> AllWell(tail))
    requires Creates(query, e.unsigned, input) && SignedBySomeone(marshal, e.txID, e.unsigned, e.signed)
    requires input.endorse && (input.submit || input.wait)
    requires input.wait ==> SubscribedFirst(tail)
    requires input.wait && ok ==> Awaited(tail, e.txID, e.signed, status) && OnlyStatus(tail, status)
    requires !input.wait ==> (ok <==> Accepted(tail, e.txID, e.signed))
    requires !ok || !input.wait ==> status == UNKNOWN_STATUS
    ensures DeployOk(marshal, query + [e] + tail, input, e.txID, None, status, ok)
  {
    var run := query + [e] + tail;
    SubmittedOrder(marshal, query, e, tail, input);
    AllWellTogether(query, e, tail);
    if ok {
      if input.wait {
        AwaitedLater(query + [e], tail, e.txID, e.signed, status);
        AwaitedIsAccepted(run, e.txID, e.signed, status);
      }
      assert Accepted(run, e.txID, e.signed);
    }
  }

  // ---------- one command ----------

  /** The application object of one command, with the effects of the command so far. */
  class AdminApp {
    const marshal: Marshal
    /** The status code of a committed transaction. */
    const committed: int
    var trace: Trace

    constructor (marshal: Marshal, committed: int)
      ensures this.marshal == marshal && this.committed == committed && trace == []
    {
      this.marshal := marshal;
      this.committed := committed;
      trace := [];
    }

    /** `provider.Get()` of a client provider. */
    method Open(k: Client) returns (ok: bool)
      modifies this`trace
      ensures trace == old(trace) + [if ok then Opened(k) else Failed(NoClient(k))]
    {
      ok := *;
      trace := trace + [if ok then Opened(k) else Failed(NoClient(k))];
    }

    method Close(k: Client)
      modifies this`trace
      ensures trace == old(trace) + [Closed(k)]
    {
      trace := trace + [Closed(k)];
    }

    method GetVersion() returns (version: Option<nat>)
      modifies this`trace
      ensures trace == old(trace) + [Called(QueryClient, GetConfigVersion(version))]
    {
      version := *;
      trace := trace + [Called(QueryClient, GetConfigVersion(version))];
    }

    method DoSubscribe(txID: string) returns (channel: Option<nat>)
      modifies this`trace
      ensures trace == old(trace) + [Called(NotificationClient, Subscribe(txID, channel))]
    {
      channel := *;
      trace := trace + [Called(NotificationClient, Subscribe(txID, channel))];
    }

    method DoBroadcast(txID: string, tx: TxValue) returns (accepted: bool)
      modifies this`trace
      ensures trace == old(trace) + [Called(OrdererClient, Broadcast(txID, tx, accepted))]
    {
      accepted := *;
      trace := trace + [Called(OrdererClient, Broadcast(txID, tx, accepted))];
    }

    method DoWait(channel: nat) returns (status: Option<int>)
      modifies this`trace
      ensures trace == old(trace) + [Called(NotificationClient, WaitForEvent(channel, status))]
    {
      status := *;
      trace := trace + [Called(NotificationClient, WaitForEvent(channel, status))];
    }

    /** `MspProvider.Get()`. */
    method GetSigner() returns (signer: Option<Signer>)
      modifies this`trace
      ensures signer.Some? ==> trace == old(trace)
      ensures signer.None? ==> trace == old(trace) + [Failed(NoSigner)]
    {
      signer := *;
      if signer.None? {
        trace := trace + [Failed(NoSigner)];
      }
    }

    /** `SubmitTransaction`. */
    method SubmitTransaction(txID: string, tx: TxValue) returns (ok: bool)
      modifies this`trace
      ensures old(trace) <= trace
      ensures SubmitOk(trace[|old(trace)|..], txID, tx)
      ensures ok <==> Accepted(trace[|old(trace)|..], txID, tx)
      ensures ok <==> AllWell(trace[|old(trace)|..])
    {
      var signer := GetSigner();
      if signer.None? {
        FailedRun(NoSigner, txID, tx);
        assert trace[|old(trace)|..] == [Failed(NoSigner)];
        return false;
      }
      var open := Open(OrdererClient);
      if !open {
        FailedRun(NoClient(OrdererClient), txID, tx);
        assert trace[|old(trace)|..] == [Failed(NoClient(OrdererClient))];
        return false;
      }
      ok := DoBroadcast(txID, tx);
      Close(OrdererClient);
      SubmitRun(txID, tx, ok);
      assert trace[|old(trace)|..] == [Opened(OrdererClient), Called(OrdererClient, Broadcast(txID, tx, ok)),
                                       Closed(OrdererClient)];
    }

    /** The calls of a waiting submission while both clients are open. */
    method SubscribeBroadcastWait(txID: string, tx: TxValue) returns (ok: bool, status: int, ghost use: Trace)
      modifies this`trace
      ensures trace == old(trace) + use && InOrder(use, txID, tx)
      ensures ok ==> Finished(use, txID, tx, status)
      ensures ok <==> AllWell(use)
      ensures !ok ==> status == UNKNOWN_STATUS
    {
      status := UNKNOWN_STATUS;
      ok := false;
      var channel := DoSubscribe(txID);
      use := [Called(NotificationClient, Subscribe(txID, channel))];
      assert use[0] in use;
      if channel.None? {
        return;
      }
      var accepted := DoBroadcast(txID, tx);
      use := use + [Called(OrdererClient, Broadcast(txID, tx, accepted))];
      assert use[1] in use;
      if !accepted {
        return;
      }
      var event := DoWait(channel.value);
      use := use + [Called(NotificationClient, WaitForEvent(channel.value, event))];
      assert use[2] in use;
      if event.None? {
        return;
      }
      return true, event.value, use;
    }

    /** `SubmitTransactionWithWait`; the deferred closes run in reverse order. */
    method SubmitTransactionWithWait(txID: string, tx: TxValue) returns (ok: bool, status: int)
      modifies this`trace
      ensures old(trace) <= trace
      ensures SubmitOk(trace[|old(trace)|..], txID, tx) && SubscribedFirst(trace[|old(trace)|..])
      ensures ok ==> Awaited(trace[|old(trace)|..], txID, tx, status) && OnlyStatus(trace[|old(trace)|..], status)
      ensures ok <==> AllWell(trace[|old(trace)|..])
      ensures !ok ==> status == UNKNOWN_STATUS
    {
      status := UNKNOWN_STATUS;
      ok := false;
      ghost var start := trace;
      var signer := GetSigner();
      if signer.None? {
        FailedRun(NoSigner, txID, tx);
        assert trace[|start|..] == [Failed(NoSigner)];
        return;
      }
      var open := Open(OrdererClient);
      if !open {
        FailedRun(NoClient(OrdererClient), txID, tx);
        assert trace[|start|..] == [Failed(NoClient(OrdererClient))];
        return;
      }
      open := Open(NotificationClient);
      if !open {
        Close(OrdererClient);
        UnnotifiedRun(txID, tx);
        assert trace[|start|..] == [Opened(OrdererClient), Failed(NoClient(NotificationClient)), Closed(OrdererClient)];
        return;
      }
      ghost var use;
      ok, status, use := SubscribeBroadcastWait(txID, tx);
      Close(NotificationClient);
      Close(OrdererClient);
      assert trace[|start|..] == Bracketed(use);
      BracketedRun(use, txID, tx);
      BracketedWell(use, ok);
      if ok {
        BracketedAwaits(use, txID, tx, status);
      }
    }

    /** `configVersion`: open the query client, ask, close it. */
    method ConfigVersion() returns (version: Option<nat>)
      modifies this`trace
      ensures old(trace) <= trace
      ensures QueryOnly(trace[|old(trace)|..])
      ensures version.Some? <==> AllWell(trace[|old(trace)|..])
      ensures version.Some? ==> Called(QueryClient, GetConfigVersion(version)) in trace[|old(trace)|..]
      ensures forall e :: e in trace[|old(trace)|..] && AsksVersion(e) ==> e.call.version == version
    {
      ghost var start := trace;
      var open := Open(QueryClient);
      if !open {
        FailedQuery(NoClient(QueryClient));
        assert trace[|start|..] == [Failed(NoClient(QueryClient))];
        return None;
      }
      version := GetVersion();
      Close(QueryClient);
      QueryRun(version);
      assert trace[|start|..] == [Opened(QueryClient), Called(QueryClient, GetConfigVersion(version)),
                                  Closed(QueryClient)];
    }

    /** `createPolicy`, marshalled: it reads files and parses an expression, and may fail. */
    method LoadPolicy() returns (policy: Option<seq<bv8>>)
      modifies this`trace
      ensures trace == old(trace) + [if policy.Some? then PolicyLoaded(policy.value) else Failed(BadPolicy)]
    {
      policy := *;
      trace := trace + [if policy.Some? then PolicyLoaded(policy.value) else Failed(BadPolicy)];
    }

    /** `CreateNamespace`. */
    method CreateNamespace(input: DeployInput, freshTxID: string) returns (out: Option<DeployOutput>)
      modifies this`trace
      ensures old(trace) <= trace
      ensures QueryOnly(trace[|old(trace)|..])
      ensures out.Some? <==> AllWell(trace[|old(trace)|..])
      ensures out.Some? ==> out.value.txID == freshTxID && Creates(trace[|old(trace)|..], out.value.tx, input)
    {
      ghost var start := trace;
      var policy := LoadPolicy();
      if policy.None? {
        FailedQuery(BadPolicy);
        assert trace[|start|..] == [Failed(BadPolicy)];
        return None;
      }
      ghost var before := trace;
      var version := ConfigVersion();
      ghost var asked := trace[|before|..];
      assert trace[|start|..] == [PolicyLoaded(policy.value)] + asked;
      QueryAfterPolicy(policy.value, asked);
      if version.None? {
        return None;
      }
      var tx := NamespaceTx.CreateNamespacesTx(policy.value, input.nsID, input.version, version.value);
      assert CreatedFrom([PolicyLoaded(policy.value)] + asked, tx, input, policy.value, version.value);
      return Some(DeployOutput(freshTxID, tx));
    }

    /** `EndorseTransaction`. */
    method EndorseTransaction(txID: string, tx: TxValue) returns (signed: Option<TxValue>)
      modifies this`trace
      ensures signed.Some? ==> trace == old(trace) + [Endorsed(txID, tx, signed.value)]
      ensures signed.Some? ==> SignedBySomeone(marshal, txID, tx, signed.value)
      ensures signed.None? ==> exists what :: trace == old(trace) + [Failed(what)]
    {
      var signer := GetSigner();
      if signer.None? {
        return None;
      }
      var endorsed := EndorseValue(marshal, signer.value, txID, Some(tx));
      if endorsed.Err? {
        trace := trace + [Failed(CannotEndorse)];
        return None;
      }
      EndorsesIff(marshal, signer.value, txID, Some(tx));
      EndorseMeans(marshal, signer.value, txID, tx, endorsed.value);
      signed := Some(endorsed.value);
      trace := trace + [Endorsed(txID, tx, endorsed.value)];
    }

    /** The last part of `DeployNamespace`. */
    method SubmitDeployed(wait: bool, txID: string, tx: TxValue) returns (ok: bool, status: int)
      modifies this`trace
      ensures old(trace) <= trace
      ensures SubmitOk(trace[|old(trace)|..], txID, tx)
      ensures wait ==> SubscribedFirst(trace[|old(trace)|..])
      ensures wait && ok ==> Awaited(trace[|old(trace)|..], txID, tx, status)
      ensures wait && ok ==> OnlyStatus(trace[|old(trace)|..], status)
      ensures !wait ==> (ok <==> Accepted(trace[|old(trace)|..], txID, tx))
      ensures ok <==> AllWell(trace[|old(trace)|..])
      ensures !ok || !wait ==> status == UNKNOWN_STATUS
    {
      if wait {
        ok, status := SubmitTransactionWithWait(txID, tx);
      } else {
        ok := SubmitTransaction(txID, tx);
        status := UNKNOWN_STATUS;
      }
    }

    /** The part of `DeployNamespace` from the endorsement on. */
    method DeployCreated(input: DeployInput, created: DeployOutput, ghost start: Trace, ghost query: Trace)
        returns (out: Option<DeployOutput>, status: int, ok: bool)
      requires trace == start + query && QueryOnly(query) && AllWell(query)
      requires input.endorse && Creates(query, created.tx, input)
      modifies this`trace
      ensures start <= trace
      ensures DeployOk(marshal, trace[|start|..], input, created.txID, out, status, ok)
    {
      out, status, ok := None, UNKNOWN_STATUS, false;
      var txID, tx := created.txID, created.tx;
      var signed := EndorseTransaction(txID, tx);
      if signed.None? {
        ghost var what :| trace == start + query + [Failed(what)];
        assert trace[|start|..] == query + [Failed(what)];
        FailedDeploy(marshal, query, what, input, txID);
        return;
      }
      ghost var e := Endorsed(txID, tx, signed.value);
      if !input.submit && !input.wait {
        assert trace[|start|..] == query + [e];
        EndorseOnlyDeploy(marshal, query, e, input);
        return Some(DeployOutput(txID, signed.value)), UNKNOWN_STATUS, true;
      }
      ghost var before := trace;
      assert before == start + query + [e];
      ok, status := SubmitDeployed(input.wait, txID, signed.value);
      ghost var tail := trace[|before|..];
      assert trace[|start|..] == query + [e] + tail;
      SubmittedDeploy(marshal, query, e, tail, input, status, ok);
    }

    /** `DeployNamespace`. */
    method DeployNamespace(input: DeployInput, freshTxID: string)
        returns (out: Option<DeployOutput>, status: int, ok: bool)
      modifies this`trace
      ensures old(trace) <= trace
      ensures DeployOk(marshal, trace[|old(trace)|..], input, freshTxID, out, status, ok)
      ensures ok ==> input.version >= -1
    {
      out, status, ok := None, UNKNOWN_STATUS, false;
      ghost var start := trace;
      var valid := *;
      if !valid || !NamespaceTx.ValidVersion(input.version) {
        trace := trace + [Failed(InvalidInput)];
        FailedQuery(InvalidInput);
        assert trace[|start|..] == [Failed(InvalidInput)];
        QueryOnlyDeploy(marshal, [Failed(InvalidInput)], input, freshTxID, None, false);
        return;
      }
      var created := CreateNamespace(input, freshTxID);
      ghost var query := trace[|start|..];
      assert trace == start + query;
      if created.None? || !input.endorse {
        ok := created.Some?;
        out := created;
        QueryOnlyDeploy(marshal, query, input, freshTxID, out, ok);
        return;
      }
      out, status, ok := DeployCreated(input, created.value, start, query);
    }

    /** `tx submit [--wait]` on a decoded file; the result says whether it exits without error. */
    method TxSubmitCommand(wait: bool, txID: string, tx: TxValue) returns (exitOk: bool)
      modifies this`trace
      ensures old(trace) <= trace
      ensures SubmitOk(trace[|old(trace)|..], txID, tx)
      ensures wait ==> (exitOk <==> AllWell(trace[|old(trace)|..]) &&
                                    Awaited(trace[|old(trace)|..], txID, tx, committed))
      ensures !wait ==> (exitOk <==> Accepted(trace[|old(trace)|..], txID, tx))
    {
      var ok, status := SubmitDeployed(wait, txID, tx);
      exitOk := ok && (wait ==> status == committed);
      if ok && wait && Awaited(trace[|old(trace)|..], txID, tx, committed) {
        AwaitedStatus(trace[|old(trace)|..], txID, tx, committed, status);
      }
    }

    /** `namespace create` and `namespace update`. */
    method NamespaceCommand(input: DeployInput, freshTxID: string) returns (exitOk: bool)
      modifies this`trace
      ensures old(trace) <= trace
      ensures exists out, status, ok ::
                DeployOk(marshal, trace[|old(trace)|..], input, freshTxID, out, status, ok) && (exitOk ==> ok)
      ensures exitOk ==> AllWell(trace[|old(trace)|..])
      ensures input.endorse && input.wait ==>
                (exitOk <==> AllWell(trace[|old(trace)|..]) &&
                             exists tx :: Awaited(trace[|old(trace)|..], freshTxID, tx, committed))
      ensures input.endorse && input.submit && !input.wait ==> (exitOk <==> AllWell(trace[|old(trace)|..]))
    {
      var out, status, ok := DeployNamespace(input, freshTxID);
      ghost var run := trace[|old(trace)|..];
      if !ok {
        return false;
      }
      if out.None? {
        exitOk := input.wait ==> status == committed;
        if input.wait {
          forall tx | Awaited(run, freshTxID, tx, committed)
            ensures status == committed
          {
            AwaitedStatus(run, freshTxID, tx, committed, status);
          }
        }
        return;
      }
      // encoding and writing the output may fail
      exitOk := *;
    }
  }
}
