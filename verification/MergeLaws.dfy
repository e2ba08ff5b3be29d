/** What `Merge` guarantees, stated on `MergeValue`, the meaning its loops are proved against. */
module MergeLaws {
  import opened Wrappers
  import opened Sequences
  import opened Transactions
  import opened StringOrder
  import opened FirstWins
  import opened Merge

  /** At least two organisations, one of which signed without an identity. */
  ghost predicate NilAmong(m: map<string, Endorsement>)
  {
    |m| >= 2 && exists key :: key in m && m[key].identity.None?
  }

  /** Everything a successful merge needs. */
  ghost predicate Mergeable(txs: seq<TxContents>)
  {
    && |txs| >= 2
    && txs[0].Some?
    && (forall i :: 0 <= i < |txs| ==> Acceptable(Namespaces(txs[0]), txs[i]))
    && (forall i :: 0 <= i < |txs| ==> |Endorsements(txs[i])| <= |Namespaces(txs[0])|)
    && (forall k: nat :: k < |Namespaces(txs[0])| ==> !NilAmong(First(Gather(txs, k))))
  }

  lemma ComparesNilIff(s: seq<Endorsement>)
    ensures ComparesNil(Dedup(s)) <==> NilAmong(First(s))
  {
    DedupCorrect(s);
    var d := Dedup(s);
    FirstOfDistinct(d);
    if e :| e in d && e.identity.None? {
      assert First(d)[MspID(e)] == e;
    }
    if key :| key in First(d) && First(d)[key].identity.None? {
      FirstKeys(d, key);
    }
  }

  /** Inputs that pass validation, with a first transaction to clone. */
  predicate Validated(txs: seq<TxContents>)
  {
    |txs| >= 2 && txs[0].Some? && Check(txs, 0).None?
  }

  /** In some namespace that several organisations endorsed, the first endorsement of one of
      them carries no identity. */
  ghost predicate IdentityMissing(txs: seq<TxContents>, n: nat)
  {
    exists k: nat :: k < n && NilAmong(First(Gather(txs, k)))
  }

  lemma NilComparedIff(txs: seq<TxContents>, n: nat)
    ensures NilCompared(txs, n) <==> IdentityMissing(txs, n)
  {
    forall k: nat
      ensures ComparesNil(Dedup(Gather(txs, k))) <==> NilAmong(First(Gather(txs, k)))
    {
      ComparesNilIff(Gather(txs, k));
    }
  }

  /** `Merge` succeeds exactly on mergeable inputs. */
  lemma SuccessIff(txs: seq<TxContents>)
    ensures MergeValue(txs).Ok? <==> Mergeable(txs)
  {
    if |txs| >= 2 {
      CheckIff(txs, 0);
      NilComparedIff(txs, |Namespaces(txs[0])|);
    }
  }

  /** On validated inputs `Merge` fails exactly by one of its two panics: the index runs past
      the namespaces when a transaction has more entries than there are, and otherwise the
      comparator dereferences a missing identity. */
  lemma PanicsIff(txs: seq<TxContents>)
    requires Validated(txs)
    ensures var n := |Namespaces(txs[0])|;
            && (MergeValue(txs) == Err(IndexOutOfRangePanic) <==> Overflows(txs, n))
            && (MergeValue(txs) == Err(NilIdentityPanic) <==> !Overflows(txs, n) && IdentityMissing(txs, n))
            && (MergeValue(txs).Ok? <==> !Overflows(txs, n) && !IdentityMissing(txs, n))
  {
    NilComparedIff(txs, |Namespaces(txs[0])|);
  }

  /** What each failure means: the first check that fails, in the order of the source. */
  lemma FailureMeans(txs: seq<TxContents>, f: Failure)
    requires MergeValue(txs) == Err(f)
    ensures f.TooFewTransactions? <==> |txs| < 2
    ensures f.NamespaceCountMismatch? || f.NamespaceContentMismatch? || f.MissingEndorsement? ==>
              |txs| >= 2 && FirstFailure(txs, f)
    ensures f.CloneFailed? || f.IndexOutOfRangePanic? || f.NilIdentityPanic? ==>
              |txs| >= 2 && forall i :: 0 <= i < |txs| ==> Acceptable(Namespaces(txs[0]), txs[i])
    ensures f.CloneFailed? ==> txs[0].None?
    ensures f.IndexOutOfRangePanic? ==> Validated(txs) && Overflows(txs, |Namespaces(txs[0])|)
    ensures f.NilIdentityPanic? ==> Validated(txs) && IdentityMissing(txs, |Namespaces(txs[0])|)
  {
    if |txs| >= 2 {
      CheckIff(txs, 0);
      CheckFails(txs, 0);
      if Validated(txs) {
        PanicsIff(txs);
      }
    }
  }

  lemma GatherTwo(a: TxContents, b: TxContents, k: nat)
    ensures Gather([a, b], k) == Entry(a, k) + Entry(b, k)
  {
    assert [a, b][..1] == [a] && [a][..0] == [];
    assert Gather([a], k) == [] + Entry(a, k);
  }

  /** Two transactions without namespaces, one of which carries an endorsement entry, pass
      validation and make `Merge` index past the end. */
  lemma EntryWithoutNamespace(e: Endorsement)
    ensures var txs := [Some(TxValue([], [[e]])), Some(TxValue([], []))];
            Validated(txs) && MergeValue(txs) == Err(IndexOutOfRangePanic)
  {
    var txs := [Some(TxValue([], [[e]])), Some(TxValue([], []))];
    CheckIff(txs, 0);
    PanicsIff(txs);
    assert |Endorsements(txs[0])| > 0;
  }

  lemma NilAmongTwo(e: Endorsement, anonymous: Endorsement)
    requires anonymous.identity.None? && MspID(e) != ""
    ensures NilAmong(First([e] + [anonymous]))
  {
    FirstConcat([e], [anonymous]);
    assert First([e]) == map[MspID(e) := e] && First([anonymous]) == map["" := anonymous];
    var m := First([e] + [anonymous]);
    assert m.Keys == {MspID(e), ""};
    assert "" in m && m[""] == anonymous;
  }

  /** Two transactions on one namespace with these endorsements. */
  function Pair(n: Namespace, x: seq<Endorsement>, y: seq<Endorsement>): seq<TxContents>
  {
    [Some(TxValue([n], [x])), Some(TxValue([n], [y]))]
  }

  lemma PairValidated(n: Namespace, x: seq<Endorsement>, y: seq<Endorsement>)
    requires x != [] && y != []
    ensures Validated(Pair(n, x, y)) && !Overflows(Pair(n, x, y), 1)
    ensures Gather(Pair(n, x, y), 0) == x + y
  {
    var txs := Pair(n, x, y);
    assert forall i :: 0 <= i < |txs| ==> Acceptable([n], txs[i]) && |Endorsements(txs[i])| == 1;
    CheckIff(txs, 0);
    GatherTwo(txs[0], txs[1], 0);
  }

  lemma OneNamespaceIff(txs: seq<TxContents>)
    ensures IdentityMissing(txs, 1) <==> NilAmong(First(Gather(txs, 0)))
  {
    if k: nat :| k < 1 && NilAmong(First(Gather(txs, k))) {
      assert k == 0;
    }
  }

  lemma PairMerges(n: Namespace, x: seq<Endorsement>, y: seq<Endorsement>)
    requires x != [] && y != []
    ensures Validated(Pair(n, x, y))
    ensures NilAmong(First(x + y)) ==> MergeValue(Pair(n, x, y)) == Err(NilIdentityPanic)
    ensures !NilAmong(First(x + y)) ==> MergeValue(Pair(n, x, y)).Ok?
  {
    PairValidated(n, x, y);
    OneNamespaceIff(Pair(n, x, y));
    PanicsIff(Pair(n, x, y));
  }

  /** Two transactions that pass validation, where the endorsement of the second has no
      identity for the comparator to look at. */
  lemma EndorsementWithoutIdentity(n: Namespace, e: Endorsement, anonymous: Endorsement)
    requires anonymous.identity.None? && MspID(e) != ""
    ensures Validated(Pair(n, [e], [anonymous])) && MergeValue(Pair(n, [e], [anonymous])) == Err(NilIdentityPanic)
  {
    NilAmongTwo(e, anonymous);
    PairMerges(n, [e], [anonymous]);
  }

  lemma SuccessValue(txs: seq<TxContents>, v: TxValue)
    requires MergeValue(txs) == Ok(v)
    ensures v.namespaces == Namespaces(txs[0]) && |v.endorsements| == |v.namespaces|
    ensures forall k :: 0 <= k < |v.endorsements| ==> v.endorsements[k] == Canon(Gather(txs, k))
  {
  }

  /** Two successful merges agree when they agree on namespaces and first endorsements. */
  lemma SameFirstSameMerge(a: seq<TxContents>, b: seq<TxContents>)
    requires Mergeable(a) && Mergeable(b)
    requires Namespaces(a[0]) == Namespaces(b[0])
    requires forall k: nat :: k < |Namespaces(a[0])| ==> First(Gather(a, k)) == First(Gather(b, k))
    ensures MergeValue(a) == MergeValue(b)
  {
    SuccessIff(a);
    SuccessIff(b);
    var va, vb := MergeValue(a).value, MergeValue(b).value;
    SuccessValue(a, va);
    SuccessValue(b, vb);
    forall k | 0 <= k < |va.endorsements|
      ensures va.endorsements[k] == vb.endorsements[k]
    {
      CanonDetermined(Gather(a, k), Gather(b, k));
    }
    assert va.endorsements == vb.endorsements;
  }

  // ---------- the result is canonical ----------

  /** Endorsement `j` of transaction `i` is the first of its organisation for namespace `k`. */
  ghost predicate IsFirst(txs: seq<TxContents>, k: nat, i: nat, j: nat)
  {
    && i < |txs| && j < |Entry(txs[i], k)|
    && (forall b :: 0 <= b < j ==> MspID(Entry(txs[i], k)[b]) != MspID(Entry(txs[i], k)[j]))
    && (forall a, b :: 0 <= a < i && 0 <= b < |Entry(txs[a], k)| ==>
          MspID(Entry(txs[a], k)[b]) != MspID(Entry(txs[i], k)[j]))
  }

  lemma {:induction false} FirstIndex(s: seq<Endorsement>, key: string) returns (p: nat)
    requires key in First(s)
    ensures p < |s| && s[p] == First(s)[key] && MspID(s[p]) == key
    ensures forall q :: 0 <= q < p ==> MspID(s[q]) != key
  {
    if MspID(s[0]) == key {
      p := 0;
    } else {
      p := FirstIndex(s[1..], key);
      p := p + 1;
    }
  }

  /** Some transaction has an endorsement of namespace `k` by this organisation. */
  ghost predicate SomeNames(txs: seq<TxContents>, k: nat, key: string)
  {
    exists a :: 0 <= a < |txs| && key in First(Entry(txs[a], k))
  }

  lemma SomeNamesLast(txs: seq<TxContents>, k: nat, key: string)
    requires txs != []
    ensures SomeNames(txs, k, key) <==>
              SomeNames(txs[..|txs| - 1], k, key) || key in First(Entry(txs[|txs| - 1], k))
  {
    var front := txs[..|txs| - 1];
    if a :| 0 <= a < |front| && key in First(Entry(front[a], k)) {
      assert txs[a] == front[a];
    }
    if a :| 0 <= a < |txs| && key in First(Entry(txs[a], k)) {
      assert a < |front| ==> front[a] == txs[a];
    }
  }

  lemma {:induction false} GatherFirstKeys(txs: seq<TxContents>, k: nat, key: string)
    ensures key in First(Gather(txs, k)) <==> SomeNames(txs, k, key)
  {
    if txs != [] {
      var front, last := txs[..|txs| - 1], txs[|txs| - 1];
      GatherFirstKeys(front, k, key);
      FirstConcat(Gather(front, k), Entry(last, k));
      SomeNamesLast(txs, k, key);
    }
  }

  lemma {:induction false} Origin(txs: seq<TxContents>, k: nat, key: string) returns (i: nat, j: nat)
    requires key in First(Gather(txs, k))
    ensures IsFirst(txs, k, i, j)
    ensures Entry(txs[i], k)[j] == First(Gather(txs, k))[key] && MspID(Entry(txs[i], k)[j]) == key
  {
    var front, last := txs[..|txs| - 1], txs[|txs| - 1];
    FirstConcat(Gather(front, k), Entry(last, k));
    assert forall a :: 0 <= a < |front| ==> front[a] == txs[a];
    if key in First(Gather(front, k)) {
      i, j := Origin(front, k, key);
    } else {
      i := |front|;
      j := FirstIndex(Entry(last, k), key);
      GatherFirstKeys(front, k, key);
      forall a, b | 0 <= a < i && 0 <= b < |Entry(txs[a], k)|
        ensures MspID(Entry(txs[a], k)[b]) != key
      {
        FirstKeys(Entry(front[a], k), key);
      }
    }
  }

  /** First positions are unique, so the endorsement at one is the one `First` picks. */
  lemma FirstAtPosition(txs: seq<TxContents>, k: nat, i: nat, j: nat)
    requires IsFirst(txs, k, i, j)
    ensures var e := Entry(txs[i], k)[j];
            MspID(e) in First(Gather(txs, k)) && First(Gather(txs, k))[MspID(e)] == e
  {
    var e := Entry(txs[i], k)[j];
    FirstKeys(Entry(txs[i], k), MspID(e));
    GatherFirstKeys(txs, k, MspID(e));
    var i', j' := Origin(txs, k, MspID(e));
    assert i' == i && j' == j;
  }

  /** Per namespace, the merged list is strictly increasing in MSP ID, so it holds each
      organisation once, and no other strictly increasing list has the same first
      endorsements: whichever sort runs, this is the only possible outcome. */
  lemma MergeIsCanonical(txs: seq<TxContents>, v: TxValue, k: nat, other: seq<Endorsement>)
    requires MergeValue(txs) == Ok(v) && k < |v.namespaces|
    ensures k < |v.endorsements| && StrictlyIncreasing(v.endorsements[k])
    ensures |v.endorsements[k]| == |First(Gather(txs, k))|
    ensures StrictlyIncreasing(other) && First(other) == First(Gather(txs, k)) <==> other == v.endorsements[k]
  {
    SuccessValue(txs, v);
    CanonCorrect(Gather(txs, k));
    IncreasingIsDistinct(v.endorsements[k]);
    FirstOfDistinct(v.endorsements[k]);
    if StrictlyIncreasing(other) && First(other) == First(Gather(txs, k)) {
      IncreasingUnique(other, v.endorsements[k]);
    }
  }

  /** The members of a merged list are exactly the endorsements that come first for their
      organisation, over the transactions in order. */
  lemma MergeKeepsFirst(txs: seq<TxContents>, v: TxValue, k: nat, e: Endorsement)
    requires MergeValue(txs) == Ok(v) && k < |v.namespaces|
    ensures k < |v.endorsements|
    ensures e in v.endorsements[k] <==> exists i: nat, j: nat :: IsFirst(txs, k, i, j) && Entry(txs[i], k)[j] == e
  {
    SuccessValue(txs, v);
    var r := v.endorsements[k];
    CanonCorrect(Gather(txs, k));
    IncreasingIsDistinct(r);
    FirstOfDistinct(r);
    if e in r {
      var i, j := Origin(txs, k, MspID(e));
    }
    if i: nat, j: nat :| IsFirst(txs, k, i, j) && Entry(txs[i], k)[j] == e {
      FirstAtPosition(txs, k, i, j);
    }
  }

  lemma HasIff(s: seq<Endorsement>, key: string)
    ensures Has(s, key) <==> key in First(s)
  {
    FirstKeys(s, key);
  }

  /** The organisations of a merged list are those of the inputs together. */
  lemma MergeUnitesOrganisations(txs: seq<TxContents>, v: TxValue, k: nat, key: string)
    requires MergeValue(txs) == Ok(v) && k < |v.namespaces|
    ensures k < |v.endorsements|
    ensures Has(v.endorsements[k], key) <==> exists i :: 0 <= i < |txs| && Has(Entry(txs[i], k), key)
  {
    SuccessValue(txs, v);
    CanonCorrect(Gather(txs, k));
    HasIff(v.endorsements[k], key);
    GatherFirstKeys(txs, k, key);
    forall i | 0 <= i < |txs|
      ensures Has(Entry(txs[i], k), key) <==> key in First(Entry(txs[i], k))
    {
      HasIff(Entry(txs[i], k), key);
    }
  }

  // ---------- nesting ----------

  lemma {:induction false} GatherConcat(a: seq<TxContents>, b: seq<TxContents>, k: nat)
    ensures Gather(a + b, k) == Gather(a, k) + Gather(b, k)
  {
    if b == [] {
      assert a + b == a;
    } else {
      var front, last := b[..|b| - 1], b[|b| - 1];
      assert (a + b)[..|a + b| - 1] == a + front;
      GatherConcat(a, front, k);
      Reassociate(Gather(a, k), Gather(front, k), Entry(last, k));
    }
  }

  lemma CanonEmptyIff(s: seq<Endorsement>)
    ensures Canon(s) == [] <==> s == []
  {
    CanonCorrect(s);
    if s != [] {
      assert MspID(s[0]) in First(s);
    }
  }

  /** Replacing a block by its own merge changes no namespace's first endorsements. */
  lemma NestedFirst(a: seq<TxContents>, block: seq<TxContents>, c: seq<TxContents>, m: TxValue, k: nat)
    requires MergeValue(block) == Ok(m) && k < |m.namespaces|
    ensures First(Gather(a + [Some(m)] + c, k)) == First(Gather(a + block + c, k))
  {
    SuccessValue(block, m);
    var one := [Some(m)];
    assert one[..0] == [] && Gather(one, k) == [] + Entry(Some(m), k) == Canon(Gather(block, k));
    CanonCorrect(Gather(block, k));
    GatherConcat(a + one, c, k);
    GatherConcat(a, one, k);
    GatherConcat(a + block, c, k);
    GatherConcat(a, block, k);
    FirstConcat(Gather(a, k) + Gather(one, k), Gather(c, k));
    FirstConcat(Gather(a, k), Gather(one, k));
    FirstConcat(Gather(a, k) + Gather(block, k), Gather(c, k));
    FirstConcat(Gather(a, k), Gather(block, k));
  }

  /** Every namespace was endorsed by some transaction of the block. */
  ghost predicate Covered(block: seq<TxContents>, n: nat)
  {
    forall k: nat :: k < n ==> Gather(block, k) != []
  }

  lemma BlockMerged(block: seq<TxContents>, m: TxValue)
    requires MergeValue(block) == Ok(m)
    ensures Covered(block, |m.namespaces|) <==> forall k :: 0 <= k < |m.endorsements| ==> m.endorsements[k] != []
  {
    SuccessValue(block, m);
    forall k | 0 <= k < |m.endorsements|
      ensures m.endorsements[k] == [] <==> Gather(block, k) == []
    {
      CanonEmptyIff(Gather(block, k));
    }
  }

  lemma BlockNamespaces(a: seq<TxContents>, block: seq<TxContents>, c: seq<TxContents>, m: TxValue)
    requires Mergeable(a + block + c) && MergeValue(block) == Ok(m)
    ensures m.namespaces == Namespaces((a + block + c)[0])
  {
    assert (a + block + c)[|a|] == block[0];
    assert Acceptable(Namespaces((a + block + c)[0]), (a + block + c)[|a|]);
  }

  lemma NestedRejected(a: seq<TxContents>, block: seq<TxContents>, c: seq<TxContents>, m: TxValue)
    requires MergeValue(block) == Ok(m)
    requires a + c == [] || !Covered(block, |m.namespaces|)
    ensures MergeValue(a + [Some(m)] + c).Err?
  {
    var nested := a + [Some(m)] + c;
    BlockMerged(block, m);
    SuccessIff(nested);
    assert nested[|a|] == Some(m);
    if a + c == [] {
      assert |nested| == 1;
    } else {
      var k :| 0 <= k < |m.endorsements| && m.endorsements[k] == [];
      assert Endorsements(nested[|a|])[k] == [];
    }
  }

  lemma NestedMergeable(a: seq<TxContents>, block: seq<TxContents>, c: seq<TxContents>, m: TxValue)
    requires Mergeable(a + block + c) && MergeValue(block) == Ok(m)
    requires a + c != [] && m.namespaces == Namespaces((a + block + c)[0])
    requires forall k :: 0 <= k < |m.endorsements| ==> m.endorsements[k] != []
    ensures Mergeable(a + [Some(m)] + c)
    ensures Namespaces((a + [Some(m)] + c)[0]) == m.namespaces
  {
    var whole, nested := a + block + c, a + [Some(m)] + c;
    SuccessValue(block, m);
    assert nested[0] == if a == [] then Some(m) else whole[0];
    forall i | 0 <= i < |nested|
      ensures Acceptable(m.namespaces, nested[i]) && |Endorsements(nested[i])| <= |m.namespaces|
    {
      if i < |a| {
        assert nested[i] == whole[i];
      } else if i > |a| {
        assert nested[i] == whole[i - 1 + |block|];
      }
    }
    forall k: nat | k < |m.namespaces|
      ensures !NilAmong(First(Gather(nested, k)))
    {
      NestedFirst(a, block, c, m, k);
    }
  }

  /** Merging a block first and the rest later gives the same result, exactly when there
      is a rest and every namespace was endorsed within the block. Without the second
      condition the intermediate result carries an empty entry, which validation rejects. */
  lemma MergeNests(a: seq<TxContents>, block: seq<TxContents>, c: seq<TxContents>, m: TxValue)
    requires MergeValue(a + block + c).Ok?
    requires MergeValue(block) == Ok(m)
    ensures MergeValue(a + [Some(m)] + c) == MergeValue(a + block + c) <==>
              a + c != [] && Covered(block, |m.namespaces|)
  {
    var whole, nested := a + block + c, a + [Some(m)] + c;
    SuccessIff(whole);
    BlockMerged(block, m);
    BlockNamespaces(a, block, c, m);
    if a + c != [] && Covered(block, |m.namespaces|) {
      NestedMergeable(a, block, c, m);
      forall k: nat | k < |m.namespaces|
        ensures First(Gather(nested, k)) == First(Gather(whole, k))
      {
        NestedFirst(a, block, c, m, k);
      }
      assert Namespaces(nested[0]) == Namespaces(whole[0]);
      SameFirstSameMerge(nested, whole);
    } else {
      NestedRejected(a, block, c, m);
    }
  }

  // ---------- reordering and repetition ----------

  lemma {:induction false} GatherMembers(txs: seq<TxContents>, k: nat, e: Endorsement)
    ensures e in Gather(txs, k) <==> exists i :: 0 <= i < |txs| && e in Entry(txs[i], k)
  {
    if txs != [] {
      var front, last := txs[..|txs| - 1], txs[|txs| - 1];
      GatherMembers(front, k, e);
      assert forall a :: 0 <= a < |front| ==> front[a] == txs[a];
    }
  }

  lemma PermutedMembers(a: seq<TxContents>, b: seq<TxContents>, k: nat)
    requires multiset(a) == multiset(b)
    ensures forall e :: e in Gather(a, k) <==> e in Gather(b, k)
  {
    SameElements(a, b);
    forall e
      ensures e in Gather(a, k) <==> e in Gather(b, k)
    {
      GatherMembers(a, k, e);
      GatherMembers(b, k, e);
      if i :| 0 <= i < |a| && e in Entry(a[i], k) {
        assert a[i] in b;
      }
      if i :| 0 <= i < |b| && e in Entry(b[i], k) {
        assert b[i] in a;
      }
    }
  }

  lemma PermutedKeys(a: seq<TxContents>, b: seq<TxContents>, k: nat)
    requires multiset(a) == multiset(b)
    ensures First(Gather(a, k)).Keys == First(Gather(b, k)).Keys
  {
    PermutedMembers(a, b, k);
    forall key
      ensures key in First(Gather(a, k)) <==> key in First(Gather(b, k))
    {
      FirstKeys(Gather(a, k), key);
      FirstKeys(Gather(b, k), key);
      if key in First(Gather(a, k)) {
        assert First(Gather(a, k))[key] in Gather(b, k);
      }
      if key in First(Gather(b, k)) {
        assert First(Gather(b, k))[key] in Gather(a, k);
      }
    }
  }

  /** The MSP IDs of a list, in order. */
  function MspIDs(s: seq<Endorsement>): (r: seq<string>)
    ensures |r| == |s| && forall i :: 0 <= i < |s| ==> r[i] == MspID(s[i])
  {
    if s == [] then [] else [MspID(s[0])] + MspIDs(s[1..])
  }

  lemma FirstEmptyIff(s: seq<Endorsement>)
    ensures First(s).Keys == {} <==> s == []
  {
    if s != [] {
      assert MspID(s[0]) in First(s).Keys;
    }
  }

  /** Strictly increasing lists over the same organisations name them in the same order. */
  lemma {:induction false} IncreasingKeysUnique(a: seq<Endorsement>, b: seq<Endorsement>)
    requires StrictlyIncreasing(a) && StrictlyIncreasing(b)
    requires First(a).Keys == First(b).Keys
    ensures MspIDs(a) == MspIDs(b)
  {
    if a != [] && b != [] {
      assert MspID(a[0]) in First(b) && MspID(b[0]) in First(a);
      FirstKeys(b, MspID(a[0]));
      FirstKeys(a, MspID(b[0]));
      HeadIsLeast(a, First(a)[MspID(b[0])]);
      HeadIsLeast(b, First(b)[MspID(a[0])]);
      PrecedesTotal(MspID(a[0]), MspID(b[0]));
      IncreasingIsDistinct(a);
      IncreasingIsDistinct(b);
      TailFirst(a);
      TailFirst(b);
      IncreasingKeysUnique(a[1..], b[1..]);
    } else {
      FirstEmptyIff(a);
      FirstEmptyIff(b);
    }
  }

  lemma PermutedAcceptable(a: seq<TxContents>, b: seq<TxContents>, i: nat)
    requires multiset(a) == multiset(b) && Mergeable(a) && i < |b|
    ensures Namespaces(b[0]) == Namespaces(a[0]) && Acceptable(Namespaces(a[0]), b[i])
    ensures |Endorsements(b[i])| <= |Namespaces(a[0])|
  {
    SameElements(a, b);
    assert b[0] in a && b[i] in a;
  }

  /** Inputs that merge still merge in another order exactly when a nil transaction does not
      come first and no identity that the comparator meets is missing: another order may put
      an endorsement without identity before the one that hid it. */
  lemma ReorderMergesIff(a: seq<TxContents>, b: seq<TxContents>)
    requires multiset(a) == multiset(b) && MergeValue(a).Ok?
    ensures b != []
    ensures MergeValue(b).Ok? <==> b[0].Some? && !IdentityMissing(b, |Namespaces(b[0])|)
  {
    SuccessIff(a);
    SuccessIff(b);
    SameElements(a, b);
    forall i: nat | i < |b|
      ensures Namespaces(b[0]) == Namespaces(a[0]) && Acceptable(Namespaces(a[0]), b[i])
      ensures |Endorsements(b[i])| <= |Namespaces(a[0])|
    {
      PermutedAcceptable(a, b, i);
    }
  }

  lemma HiddenAnonymous(blank: Endorsement, other: Endorsement, anonymous: Endorsement)
    requires blank.identity.Some? && MspID(blank) == ""
    requires other.identity.Some? && MspID(other) != ""
    requires anonymous.identity.None?
    ensures !NilAmong(First([blank, other] + [anonymous])) && NilAmong(First([anonymous] + [blank, other]))
  {
    FirstConcat([blank, other], [anonymous]);
    FirstConcat([anonymous], [blank, other]);
    assert [blank, other][1..] == [other] && [other][1..] == [];
    assert First([anonymous]) == map["" := anonymous];
    assert First([blank, other]) == map["" := blank, MspID(other) := other];
    var m := First([anonymous] + [blank, other]);
    assert m.Keys == {"", MspID(other)} && m[""] == anonymous;
  }

  /** Two transactions that merge in one order and panic in the other: an endorsement by the
      organisation with the empty name hides one without identity only when it comes first. */
  lemma ReorderPanics(n: Namespace, blank: Endorsement, other: Endorsement, anonymous: Endorsement)
    requires blank.identity.Some? && MspID(blank) == ""
    requires other.identity.Some? && MspID(other) != ""
    requires anonymous.identity.None?
    ensures MergeValue(Pair(n, [blank, other], [anonymous])).Ok?
    ensures MergeValue(Pair(n, [anonymous], [blank, other])) == Err(NilIdentityPanic)
  {
    HiddenAnonymous(blank, other, anonymous);
    PairMerges(n, [blank, other], [anonymous]);
    PairMerges(n, [anonymous], [blank, other]);
  }

  /** Reordering the transactions never changes which organisations a namespace ends up
      with, nor their order, for any two merges that succeed. */
  lemma ReorderKeepsOrganisations(a: seq<TxContents>, b: seq<TxContents>, va: TxValue, vb: TxValue)
    requires multiset(a) == multiset(b)
    requires MergeValue(a) == Ok(va) && MergeValue(b) == Ok(vb)
    ensures va.namespaces == vb.namespaces && |va.endorsements| == |vb.endorsements|
    ensures forall k :: 0 <= k < |va.endorsements| ==> MspIDs(va.endorsements[k]) == MspIDs(vb.endorsements[k])
  {
    SuccessIff(a);
    SuccessIff(b);
    SameElements(a, b);
    assert b[0] in a;
    assert va.namespaces == vb.namespaces;
    forall k | 0 <= k < |va.endorsements|
      ensures MspIDs(va.endorsements[k]) == MspIDs(vb.endorsements[k])
    {
      PermutedKeys(a, b, k);
      CanonCorrect(Gather(a, k));
      CanonCorrect(Gather(b, k));
      IncreasingKeysUnique(va.endorsements[k], vb.endorsements[k]);
    }
  }

  /** Any two endorsements of the same namespace by the same organisation are equal. */
  ghost predicate Consistent(txs: seq<TxContents>)
  {
    forall k: nat, d, e :: d in Gather(txs, k) && e in Gather(txs, k) && MspID(d) == MspID(e) ==> d == e
  }

  lemma PermutedFirst(a: seq<TxContents>, b: seq<TxContents>, k: nat)
    requires multiset(a) == multiset(b) && Consistent(a)
    ensures First(Gather(a, k)) == First(Gather(b, k))
  {
    PermutedKeys(a, b, k);
    PermutedMembers(a, b, k);
    forall key | key in First(Gather(a, k))
      ensures First(Gather(a, k))[key] == First(Gather(b, k))[key]
    {
      FirstKeys(Gather(a, k), key);
      FirstKeys(Gather(b, k), key);
    }
  }

  /** When endorsements are consistent, the order of the transactions does not matter at
      all, except that a nil transaction must not come first. */
  lemma MergePermutes(a: seq<TxContents>, b: seq<TxContents>)
    requires multiset(a) == multiset(b) && Consistent(a)
    requires MergeValue(a).Ok?
    ensures MergeValue(b) == if b[0].Some? then MergeValue(a) else Err(CloneFailed)
  {
    SuccessIff(a);
    SameElements(a, b);
    assert b[0] in a;
    forall i | 0 <= i < |b|
      ensures Acceptable(Namespaces(b[0]), b[i]) && |Endorsements(b[i])| <= |Namespaces(b[0])|
    {
      assert b[i] in a;
    }
    if b[0].Some? {
      forall k: nat
        ensures First(Gather(a, k)) == First(Gather(b, k))
      {
        PermutedFirst(a, b, k);
      }
      SameFirstSameMerge(a, b);
    } else {
      CheckIff(b, 0);
    }
  }

  lemma TwiceFirst(txs: seq<TxContents>, k: nat)
    ensures First(Gather(txs + txs, k)) == First(Gather(txs, k))
  {
    GatherConcat(txs, txs, k);
    FirstConcat(Gather(txs, k), Gather(txs, k));
  }

  lemma TwiceMergeable(txs: seq<TxContents>)
    requires Mergeable(txs)
    ensures Mergeable(txs + txs)
  {
    var twice := txs + txs;
    forall i | 0 <= i < |twice|
      ensures Acceptable(Namespaces(txs[0]), twice[i]) && |Endorsements(twice[i])| <= |Namespaces(txs[0])|
    {
      assert twice[i] == txs[if i < |txs| then i else i - |txs|];
    }
    forall k: nat
      ensures First(Gather(twice, k)) == First(Gather(txs, k))
    {
      TwiceFirst(txs, k);
    }
  }

  /** Merging the same transactions twice over adds nothing, consistent or not. */
  lemma MergeTwiceOver(txs: seq<TxContents>)
    requires MergeValue(txs).Ok?
    ensures MergeValue(txs + txs) == MergeValue(txs)
  {
    SuccessIff(txs);
    TwiceMergeable(txs);
    forall k: nat | k < |Namespaces(txs[0])|
      ensures First(Gather(txs + txs, k)) == First(Gather(txs, k))
    {
      TwiceFirst(txs, k);
    }
    SameFirstSameMerge(txs + txs, txs);
  }

  /** Merging a merge result with itself gives it back, exactly when every namespace of it
      has an endorsement. */
  lemma MergeIdempotent(txs: seq<TxContents>, m: TxValue)
    requires MergeValue(txs) == Ok(m)
    ensures MergeValue([Some(m), Some(m)]) == Ok(m) <==> Covered(txs, |m.namespaces|)
  {
    assert [] + txs + txs == txs + txs && [] + [Some(m)] + txs == [Some(m)] + txs;
    assert [Some(m)] + txs + [] == [Some(m)] + txs;
    assert [Some(m)] + [Some(m)] + [] == [Some(m), Some(m)];
    MergeTwiceOver(txs);
    MergeNests([], txs, txs, m);
    if Covered(txs, |m.namespaces|) {
      MergeNests([Some(m)], txs, [], m);
    } else {
      NestedRejected([Some(m)], txs, [], m);
    }
  }

  lemma {:induction false} NothingGathered(txs: seq<TxContents>, k: nat)
    requires forall i :: 0 <= i < |txs| ==> Entry(txs[i], k) == []
    ensures Gather(txs, k) == []
  {
    if txs != [] {
      NothingGathered(txs[..|txs| - 1], k);
    }
  }

  lemma NobodyEndorsed(txs: seq<TxContents>, n: Namespace)
    requires |txs| >= 2 && forall i :: 0 <= i < |txs| ==> txs[i] == Some(TxValue([n], []))
    ensures MergeValue(txs) == Ok(TxValue([n], [[]]))
  {
    forall k: nat
      ensures Gather(txs, k) == []
    {
      NothingGathered(txs, k);
    }
    SuccessIff(txs);
    var v := MergeValue(txs).value;
    SuccessValue(txs, v);
    CanonEmptyIff(Gather(txs, 0));
    assert v.endorsements == [[]];
  }

  /** A namespace nobody endorsed: two such transactions merge, but the result carries an
      empty entry, so it merges neither with itself nor with a third one, although the three
      transactions merge at once. */
  lemma StagedMergeFails(n: Namespace)
    ensures var t := Some(TxValue([n], []));
            var m := Some(TxValue([n], [[]]));
            && MergeValue([t, t]) == Ok(m.value)
            && MergeValue([m, m]).Err?
            && MergeValue([t, t, t]).Ok?
            && MergeValue([m, t]).Err?
  {
    var t, m := Some(TxValue([n], [])), Some(TxValue([n], [[]]));
    NobodyEndorsed([t, t], n);
    NobodyEndorsed([t, t, t], n);
    SuccessIff([m, m]);
    SuccessIff([m, t]);
    assert !Acceptable([n], m) by {
      assert Endorsements(m)[0] == [];
    }
    assert [m, m][0] == m && [m, t][0] == m;
  }
}
