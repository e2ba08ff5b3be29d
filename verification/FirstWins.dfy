/** Deduplication by MSP ID (the first endorsement of an organisation wins) and
    sorting by MSP ID, as `mergeEndorsements` and `sortEndorsementsByMspID` do it. */
module FirstWins {
  import opened Sequences
  import opened Transactions
  import opened StringOrder

  /** The first endorsement of each MSP ID in a list: the independent meaning
      against which deduplication and sorting are judged. */
  function First(s: seq<Endorsement>): map<string, Endorsement>
  {
    if s == [] then map[] else First(s[1..])[MspID(s[0]) := s[0]]
  }

  lemma {:induction false} FirstConcat(a: seq<Endorsement>, b: seq<Endorsement>)
    ensures First(a + b) == First(b) + First(a)
  {
    if a == [] {
      assert a + b == b;
    } else {
      assert (a + b)[1..] == a[1..] + b;
      FirstConcat(a[1..], b);
    }
  }

  lemma {:induction false} FirstKeys(s: seq<Endorsement>, key: string)
    ensures key in First(s) <==> exists i :: 0 <= i < |s| && MspID(s[i]) == key
    ensures key in First(s) ==> First(s)[key] in s && MspID(First(s)[key]) == key
  {
    if s != [] {
      FirstKeys(s[1..], key);
      if key in First(s[1..]) {
        var i :| 0 <= i < |s[1..]| && MspID(s[1..][i]) == key;
        assert s[i + 1] == s[1..][i];
      }
      assert forall i :: 1 <= i < |s| ==> s[i] == s[1..][i - 1];
    }
  }

  predicate Has(s: seq<Endorsement>, key: string)
  {
    exists i :: 0 <= i < |s| && MspID(s[i]) == key
  }

  /** The inner loop of `mergeEndorsements`: keep an endorsement iff its MSP ID is new. */
  function Dedup(s: seq<Endorsement>): seq<Endorsement>
  {
    if s == [] then []
    else
      var kept := Dedup(s[..|s| - 1]);
      if Has(kept, MspID(s[|s| - 1])) then kept else kept + [s[|s| - 1]]
  }

  ghost predicate DistinctKeys(s: seq<Endorsement>)
  {
    forall i, j :: 0 <= i < j < |s| ==> MspID(s[i]) != MspID(s[j])
  }

  lemma DedupStep(s: seq<Endorsement>, e: Endorsement)
    ensures Dedup(s + [e]) == if Has(Dedup(s), MspID(e)) then Dedup(s) else Dedup(s) + [e]
  {
    assert (s + [e])[..|s|] == s;
  }

  /** One more endorsement only adds to the first ones when its MSP ID is new. */
  lemma KeepOne(kept: seq<Endorsement>, e: Endorsement)
    ensures Has(kept, MspID(e)) ==> First([e]) + First(kept) == First(kept)
    ensures First(kept + [e]) == First([e]) + First(kept)
    ensures First([e]).Keys == {MspID(e)}
  {
    FirstKeys(kept, MspID(e));
    FirstConcat(kept, [e]);
    assert First([e]) == map[MspID(e) := e];
  }

  /** Deduplication keeps exactly the first endorsement of every MSP ID. */
  lemma {:induction false} DedupCorrect(s: seq<Endorsement>)
    ensures DistinctKeys(Dedup(s))
    ensures First(Dedup(s)) == First(s)
  {
    if s != [] {
      var front, last := s[..|s| - 1], s[|s| - 1];
      assert s == front + [last];
      DedupCorrect(front);
      DedupStep(front, last);
      FirstConcat(front, [last]);
      KeepOne(Dedup(front), last);
    }
  }

  /** In a list with distinct MSP IDs, `First` is just membership. */
  lemma {:induction false} FirstOfDistinct(s: seq<Endorsement>)
    requires DistinctKeys(s)
    ensures forall e :: e in s <==> MspID(e) in First(s) && First(s)[MspID(e)] == e
    ensures |First(s)| == |s|
  {
    if s != [] {
      FirstOfDistinct(s[1..]);
      FirstKeys(s[1..], MspID(s[0]));
      assert s == [s[0]] + s[1..];
      assert First(s).Keys == First(s[1..]).Keys + {MspID(s[0])};
      forall e
        ensures e in s <==> MspID(e) in First(s) && First(s)[MspID(e)] == e
      {
        assert e in s <==> e == s[0] || e in s[1..];
      }
    }
  }

  /** What the comparator of `sort.Slice` asks for: no inversions. Nothing is said
      about the order of equal keys, because the sort is not stable. */
  predicate SortedByMsp(s: seq<Endorsement>)
  {
    forall i, j :: 0 <= i < j < |s| ==> AtMost(MspID(s[i]), MspID(s[j]))
  }

  /** `out` is a possible outcome of sorting `s`. */
  predicate IsSorting(s: seq<Endorsement>, out: seq<Endorsement>)
  {
    multiset(out) == multiset(s) && SortedByMsp(out)
  }

  ghost predicate StrictlyIncreasing(s: seq<Endorsement>)
  {
    forall i, j :: 0 <= i < j < |s| ==> Precedes(MspID(s[i]), MspID(s[j]))
  }

  lemma OccursOnce(s: seq<Endorsement>, a: nat)
    requires DistinctKeys(s) && a < |s|
    ensures multiset(s)[s[a]] == 1
  {
    assert s == s[..a] + [s[a]] + s[a + 1..];
    assert s[a] !in s[..a] && s[a] !in s[a + 1..];
    assert s[a] !in multiset(s[..a]) && s[a] !in multiset(s[a + 1..]);
  }

  lemma OccursTwice(s: seq<Endorsement>, i: nat, j: nat)
    requires i < j < |s| && s[i] == s[j]
    ensures multiset(s)[s[i]] >= 2
  {
    assert s == s[..j] + [s[j]] + s[j + 1..];
    assert s[..j][i] == s[i];
    assert s[i] in multiset(s[..j]);
  }

  lemma DistinctPermutes(s: seq<Endorsement>, out: seq<Endorsement>)
    requires DistinctKeys(s) && multiset(out) == multiset(s)
    ensures DistinctKeys(out)
  {
    forall i, j | 0 <= i < j < |out|
      ensures MspID(out[i]) != MspID(out[j])
    {
      SameElements(s, out);
      if MspID(out[i]) == MspID(out[j]) {
        assert out[i] in s && out[j] in s;
        var a :| 0 <= a < |s| && s[a] == out[i];
        var b :| 0 <= b < |s| && s[b] == out[j];
        assert a == b;
        OccursOnce(s, a);
        OccursTwice(out, i, j);
      }
    }
  }

  lemma SameMembersSameFirst(s: seq<Endorsement>, t: seq<Endorsement>)
    requires DistinctKeys(s) && DistinctKeys(t)
    requires forall e :: e in s <==> e in t
    ensures First(s) == First(t)
  {
    FirstOfDistinct(s);
    FirstOfDistinct(t);
    forall key
      ensures key in First(s) <==> key in First(t)
      ensures key in First(s) ==> First(s)[key] == First(t)[key]
    {
      FirstKeys(s, key);
      FirstKeys(t, key);
    }
  }

  /** Sorting a list with distinct keys leaves the set of first endorsements alone
      and makes the keys strictly increasing. */
  lemma SortingDistinct(s: seq<Endorsement>, out: seq<Endorsement>)
    requires DistinctKeys(s) && IsSorting(s, out)
    ensures StrictlyIncreasing(out) && First(out) == First(s)
  {
    DistinctPermutes(s, out);
    forall i, j | 0 <= i < j < |out|
      ensures Precedes(MspID(out[i]), MspID(out[j]))
    {
      PrecedesTotal(MspID(out[i]), MspID(out[j]));
    }
    SameElements(s, out);
    SameMembersSameFirst(s, out);
  }

  lemma IncreasingIsDistinct(s: seq<Endorsement>)
    requires StrictlyIncreasing(s)
    ensures DistinctKeys(s)
  {
    forall i, j | 0 <= i < j < |s|
      ensures MspID(s[i]) != MspID(s[j])
    {
      PrecedesIrreflexive(MspID(s[i]));
    }
  }

  lemma HeadIsLeast(s: seq<Endorsement>, e: Endorsement)
    requires StrictlyIncreasing(s) && e in s
    ensures AtMost(MspID(s[0]), MspID(e))
  {
    var i :| 0 <= i < |s| && s[i] == e;
    if i == 0 {
      PrecedesIrreflexive(MspID(e));
    } else {
      PrecedesAsymmetric(MspID(s[0]), MspID(e));
    }
  }

  lemma TailFirst(s: seq<Endorsement>)
    requires DistinctKeys(s) && s != []
    ensures First(s[1..]) == First(s) - {MspID(s[0])}
  {
    FirstKeys(s[1..], MspID(s[0]));
    assert forall i :: 1 <= i < |s| ==> s[i] == s[1..][i - 1];
  }

  /** A strictly increasing list is determined by its first endorsements. */
  lemma {:induction false} IncreasingUnique(a: seq<Endorsement>, b: seq<Endorsement>)
    requires StrictlyIncreasing(a) && StrictlyIncreasing(b)
    requires First(a) == First(b)
    ensures a == b
  {
    IncreasingIsDistinct(a);
    IncreasingIsDistinct(b);
    FirstOfDistinct(a);
    FirstOfDistinct(b);
    if a != [] {
      assert a[0] in b && b[0] in a;
      HeadIsLeast(a, b[0]);
      HeadIsLeast(b, a[0]);
      PrecedesTotal(MspID(a[0]), MspID(b[0]));
      assert a[0] == b[0];
      TailFirst(a);
      TailFirst(b);
      IncreasingUnique(a[1..], b[1..]);
      assert a == [a[0]] + a[1..] && b == [b[0]] + b[1..];
    }
  }

  /** One way to sort: insert the elements one by one. */
  function Insert(s: seq<Endorsement>, e: Endorsement): (r: seq<Endorsement>)
    ensures multiset(r) == multiset(s) + multiset{e}
  {
    if s == [] || Below(MspID(e), MspID(s[0])) then [e] + s
    else
      assert s == [s[0]] + s[1..];
      [s[0]] + Insert(s[1..], e)
  }

  function Sort(s: seq<Endorsement>): (r: seq<Endorsement>)
    ensures multiset(r) == multiset(s)
  {
    if s == [] then []
    else
      assert s == [s[0]] + s[1..];
      Insert(Sort(s[1..]), s[0])
  }

  lemma ConsSorted(e: Endorsement, s: seq<Endorsement>)
    requires SortedByMsp(s)
    requires forall x :: x in s ==> AtMost(MspID(e), MspID(x))
    ensures SortedByMsp([e] + s)
  {
    var r := [e] + s;
    forall i, j | 0 <= i < j < |r|
      ensures AtMost(MspID(r[i]), MspID(r[j]))
    {
      assert r[j] == s[j - 1];
      assert i > 0 ==> r[i] == s[i - 1];
    }
  }

  lemma SortedHeadIsLeast(s: seq<Endorsement>, x: Endorsement)
    requires SortedByMsp(s) && x in s
    ensures AtMost(MspID(s[0]), MspID(x))
  {
    PrecedesIrreflexive(MspID(x));
  }

  lemma {:induction false} InsertSorted(s: seq<Endorsement>, e: Endorsement)
    requires SortedByMsp(s)
    ensures SortedByMsp(Insert(s, e))
  {
    if s == [] {
      return;
    }
    BelowIff(MspID(e), MspID(s[0]));
    if Below(MspID(e), MspID(s[0])) {
      forall x | x in s
        ensures AtMost(MspID(e), MspID(x))
      {
        SortedHeadIsLeast(s, x);
        if Precedes(MspID(x), MspID(e)) {
          PrecedesTransitive(MspID(x), MspID(e), MspID(s[0]));
        }
      }
      ConsSorted(e, s);
    } else {
      InsertSorted(s[1..], e);
      forall x | x in Insert(s[1..], e)
        ensures AtMost(MspID(s[0]), MspID(x))
      {
        assert x in multiset(Insert(s[1..], e));
        if x != e {
          assert x in s[1..];
          SortedHeadIsLeast(s, x);
        }
      }
      ConsSorted(s[0], Insert(s[1..], e));
    }
  }

  lemma {:induction false} SortIsSorting(s: seq<Endorsement>)
    ensures IsSorting(s, Sort(s))
  {
    if s != [] {
      SortIsSorting(s[1..]);
      InsertSorted(Sort(s[1..]), s[0]);
    }
  }

  /** The merged endorsements of one namespace. */
  function Canon(s: seq<Endorsement>): seq<Endorsement>
  {
    Sort(Dedup(s))
  }

  lemma CanonCorrect(s: seq<Endorsement>)
    ensures StrictlyIncreasing(Canon(s)) && First(Canon(s)) == First(s)
  {
    DedupCorrect(s);
    SortIsSorting(Dedup(s));
    SortingDistinct(Dedup(s), Sort(Dedup(s)));
  }

  /** The result depends on the input only through its first endorsements. */
  lemma CanonDetermined(s: seq<Endorsement>, t: seq<Endorsement>)
    ensures Canon(s) == Canon(t) <==> First(s) == First(t)
  {
    CanonCorrect(s);
    CanonCorrect(t);
    if First(s) == First(t) {
      IncreasingUnique(Canon(s), Canon(t));
    }
  }

  /** Whatever sorting routine runs after deduplication, stable or not, the outcome is the same. */
  lemma AnySortingIsCanon(s: seq<Endorsement>, out: seq<Endorsement>)
    requires IsSorting(Dedup(s), out)
    ensures out == Canon(s)
  {
    DedupCorrect(s);
    SortingDistinct(Dedup(s), out);
    CanonCorrect(s);
    IncreasingUnique(out, Canon(s));
  }
}
