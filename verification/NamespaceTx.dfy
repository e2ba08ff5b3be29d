/** `CreateNamespacesTx`, and the optimistic locking its two version fields give, against
    the committer rule stated in its comment: a write to the meta-namespace commits only if
    it carries the current channel config version and the version of the policy it replaces. */
module NamespaceTx {
  import opened Wrappers
  import opened Transactions

  const META_NAMESPACE: string := "_meta"

  /** Version -1 creates a namespace policy, version v >= 0 replaces the policy of version v. */
  function CreateNamespacesTx(policy: seq<bv8>, nsID: string, nsVersion: int, metaNsVersion: nat): TxValue
  {
    var rw := ReadWrite(nsID, policy, if nsVersion >= 0 then Some(nsVersion) else None);
    TxValue([Namespace(META_NAMESPACE, metaNsVersion, [rw])], [])
  }

  /** `ValidateVersion`. */
  predicate ValidVersion(v: int)
  {
    v >= -1
  }

  /** A prepared namespace transaction, as `CreateNamespacesTx` builds them. */
  predicate IsNamespaceTx(tx: TxValue)
  {
    |tx.namespaces| == 1 && |tx.namespaces[0].readWrites| == 1 && tx.namespaces[0].nsID == META_NAMESPACE
  }

  type Prepared = tx: TxValue | IsNamespaceTx(tx)
    witness CreateNamespacesTx([], "", -1, 0)

  function Key(tx: Prepared): string
  {
    tx.namespaces[0].readWrites[0].key
  }

  function ReadVersion(tx: Prepared): Option<nat>
  {
    tx.namespaces[0].readWrites[0].version
  }

  function ConfigVersion(tx: Prepared): nat
  {
    tx.namespaces[0].nsVersion
  }

  function Policy(tx: Prepared): seq<bv8>
  {
    tx.namespaces[0].readWrites[0].value
  }

  /** The version the policy gets when the transaction commits. */
  function Written(tx: Prepared): nat
  {
    match ReadVersion(tx)
    case None => 0
    case Some(v) => v + 1
  }

  // ---------- the ledger ----------

  /** Transaction `tx`, the `index`-th one prepared, committed. */
  datatype Commit = Commit(index: nat, tx: Prepared)

  /** The config version, the version and the policy of each namespace, every transaction ever
      built, and those that committed, in order. */
  datatype Ledger = Ledger(config: nat, versions: map<string, nat>, policies: map<string, seq<bv8>>,
                           prepared: seq<Prepared>, commits: seq<Commit>)

  const GENESIS := Ledger(0, map[], map[], [], [])

  datatype Step =
    | Prepare(policy: seq<bv8>, nsID: string, version: int)
    | Submit(i: nat)
    | UpdateConfig

  /** The committer rule. */
  predicate Accepts(l: Ledger, tx: Prepared)
  {
    && ConfigVersion(tx) == l.config
    && match ReadVersion(tx)
       case None => Key(tx) !in l.versions
       case Some(v) => Key(tx) in l.versions && l.versions[Key(tx)] == v
  }

  predicate Enabled(l: Ledger, step: Step)
  {
    match step
    case Prepare(_, _, version) => ValidVersion(version)
    case Submit(i) => i < |l.prepared|
    case UpdateConfig => true
  }

  /** A submission that is not accepted aborts and changes nothing. */
  function Apply(l: Ledger, step: Step): Ledger
    requires Enabled(l, step)
  {
    match step
    case Prepare(policy, nsID, version) =>
      l.(prepared := l.prepared + [CreateNamespacesTx(policy, nsID, version, l.config)])
    case Submit(i) =>
      var tx := l.prepared[i];
      if Accepts(l, tx)
      then l.(versions := l.versions[Key(tx) := Written(tx)], policies := l.policies[Key(tx) := Policy(tx)],
              commits := l.commits + [Commit(i, tx)])
      else l
    case UpdateConfig => l.(config := l.config + 1)
  }

  function Run(start: Ledger, steps: seq<Step>): Option<Ledger>
  {
    if steps == [] then Some(start)
    else
      match Run(start, steps[..|steps| - 1])
      case None => None
      case Some(l) => if Enabled(l, steps[|steps| - 1]) then Some(Apply(l, steps[|steps| - 1])) else None
  }

  /** How many committed transactions wrote `key`. */
  function CommitsOf(commits: seq<Commit>, key: string): nat
  {
    if commits == [] then 0
    else CommitsOf(commits[..|commits| - 1], key) + if Key(commits[|commits| - 1].tx) == key then 1 else 0
  }

  // ---------- the invariant ----------

  /** Commits to one namespace write ever higher versions, up to its present one. */
  ghost predicate Ordered(l: Ledger)
  {
    && (forall c :: c in l.commits ==> Key(c.tx) in l.versions && Written(c.tx) <= l.versions[Key(c.tx)])
    && (forall p, q :: 0 <= p < q < |l.commits| && Key(l.commits[p].tx) == Key(l.commits[q].tx) ==>
          Written(l.commits[p].tx) < Written(l.commits[q].tx))
  }

  ghost predicate Counted(l: Ledger)
  {
    forall key :: CommitsOf(l.commits, key) == if key in l.versions then l.versions[key] + 1 else 0
  }

  ghost predicate Dated(l: Ledger)
  {
    forall i :: 0 <= i < |l.prepared| ==> ConfigVersion(l.prepared[i]) <= l.config
  }

  lemma StepOrdered(l: Ledger, step: Step)
    requires Ordered(l) && Enabled(l, step)
    ensures Ordered(Apply(l, step))
  {
    if step.Submit? {
      var tx := l.prepared[step.i];
      assert forall p :: 0 <= p < |l.commits| ==> l.commits[p] in l.commits;
    }
  }

  lemma StepCounted(l: Ledger, step: Step)
    requires Counted(l) && Enabled(l, step)
    ensures Counted(Apply(l, step))
  {
    if step.Submit? && Accepts(l, l.prepared[step.i]) {
      var l' := Apply(l, step);
      assert l'.commits[..|l'.commits| - 1] == l.commits;
    }
  }

  lemma {:induction false} RunSound(steps: seq<Step>, l: Ledger)
    requires Run(GENESIS, steps) == Some(l)
    ensures Ordered(l) && Counted(l) && Dated(l)
  {
    if steps != [] {
      var before := Run(GENESIS, steps[..|steps| - 1]).value;
      RunSound(steps[..|steps| - 1], before);
      StepOrdered(before, steps[|steps| - 1]);
      StepCounted(before, steps[|steps| - 1]);
    }
  }

  // ---------- what the versions guarantee ----------

  /** In every run a namespace exists exactly when a transaction for it committed, and its
      version has gone up by exactly one with each commit after the first. */
  lemma VersionCountsCommits(steps: seq<Step>, l: Ledger, key: string)
    requires Run(GENESIS, steps) == Some(l)
    ensures key in l.versions <==> CommitsOf(l.commits, key) > 0
    ensures key in l.versions ==> CommitsOf(l.commits, key) == l.versions[key] + 1
  {
    RunSound(steps, l);
    assert CommitsOf(l.commits, key) == if key in l.versions then l.versions[key] + 1 else 0;
  }

  /** Of all transactions prepared against one version of one namespace (or against its
      absence), at most one commits, and it commits once. */
  lemma OneCommitPerVersion(steps: seq<Step>, l: Ledger, p: nat, q: nat)
    requires Run(GENESIS, steps) == Some(l)
    requires p < |l.commits| && q < |l.commits|
    requires Key(l.commits[p].tx) == Key(l.commits[q].tx)
    requires ReadVersion(l.commits[p].tx) == ReadVersion(l.commits[q].tx)
    ensures p == q
  {
    RunSound(steps, l);
  }

  /** After the config has moved past `config`, none of the first `known` transactions commits. */
  lemma {:induction false} ConfigMoves(start: Ledger, steps: seq<Step>, l: Ledger, config: nat, known: nat)
    requires Run(start, steps) == Some(l)
    requires config < start.config && known <= |start.prepared|
    requires forall i :: 0 <= i < known ==> ConfigVersion(start.prepared[i]) <= config
    ensures config < l.config && start.prepared <= l.prepared && start.commits <= l.commits
    ensures forall p :: |start.commits| <= p < |l.commits| ==> l.commits[p].index >= known
  {
    if steps != [] {
      var before := Run(start, steps[..|steps| - 1]).value;
      ConfigMoves(start, steps[..|steps| - 1], before, config, known);
      var step := steps[|steps| - 1];
      if step.Submit? && step.i < known {
        assert before.prepared[step.i] == start.prepared[step.i];
      }
    }
  }

  /** Nothing prepared before a channel config update commits after it. */
  lemma ConfigUpdateInvalidates(steps: seq<Step>, l: Ledger, more: seq<Step>, l': Ledger)
    requires Run(GENESIS, steps) == Some(l)
    requires Run(Apply(l, UpdateConfig), more) == Some(l')
    ensures l.commits <= l'.commits
    ensures forall p :: |l.commits| <= p < |l'.commits| ==> l'.commits[p].index >= |l.prepared|
  {
    RunSound(steps, l);
    ConfigMoves(Apply(l, UpdateConfig), more, l', l.config, |l.prepared|);
  }

  /** A transaction prepared now and submitted now commits, and installs its policy, exactly
      when it names the current version of its namespace, or -1 for one that does not exist
      yet; otherwise it changes nothing. */
  lemma FreshTransactionCommits(l: Ledger, policy: seq<bv8>, nsID: string, version: int)
    requires ValidVersion(version)
    ensures var l1 := Apply(l, Prepare(policy, nsID, version));
            var l2 := Apply(l1, Submit(|l.prepared|));
            if version == (if nsID in l.versions then l.versions[nsID] else -1)
            then l2.versions == l.versions[nsID := version + 1] && l2.policies == l.policies[nsID := policy] &&
                 |l2.commits| == |l.commits| + 1
            else l2 == l1
  {
    assert Apply(l, Prepare(policy, nsID, version)).prepared[|l.prepared|]
        == CreateNamespacesTx(policy, nsID, version, l.config);
  }
}
