/** The bytewise string order used by `strings.Compare` and `slices.Sort`,
    and the fact that sorting a multiset of strings has one possible outcome. */
module StringOrder {
  import opened Sequences

  /** `a` comes before `b` at position `k`: they agree up to there, and then `a` ends or has
      the smaller character. */
  predicate PrecedesAt(a: string, b: string, k: nat)
  {
    k <= |a| && k < |b| && a[..k] == b[..k] && (k == |a| || a[k] < b[k])
  }

  /** `a` comes strictly before `b`. */
  predicate Precedes(a: string, b: string)
  {
    exists k: nat :: k <= |a| && PrecedesAt(a, b, k)
  }

  predicate AtMost(a: string, b: string)
  {
    !Precedes(b, a)
  }

  // ---------- the comparison ----------

  /** `strings.Compare(a, b) < 0`, character by character. */
  predicate Below(a: string, b: string)
  {
    b != [] && (a == [] || a[0] < b[0] || (a[0] == b[0] && Below(a[1..], b[1..])))
  }

  lemma {:induction false} BelowIrreflexive(a: string)
    ensures !Below(a, a)
  {
    if a != [] {
      BelowIrreflexive(a[1..]);
    }
  }

  lemma {:induction false} BelowTransitive(a: string, b: string, c: string)
    requires Below(a, b) && Below(b, c)
    ensures Below(a, c)
  {
    if a != [] && a[0] == b[0] && b[0] == c[0] {
      BelowTransitive(a[1..], b[1..], c[1..]);
    }
  }

  lemma {:induction false} BelowTotal(a: string, b: string)
    ensures Below(a, b) || a == b || Below(b, a)
  {
    if a != [] && b != [] && a[0] == b[0] {
      BelowTotal(a[1..], b[1..]);
      assert a == [a[0]] + a[1..] && b == [b[0]] + b[1..];
    }
  }

  lemma {:induction false} BelowAt(a: string, b: string) returns (k: nat)
    requires Below(a, b)
    ensures PrecedesAt(a, b, k)
  {
    k := 0;
    if a != [] && a[0] == b[0] {
      k := BelowAt(a[1..], b[1..]);
      assert a[..k + 1] == [a[0]] + a[1..][..k] && b[..k + 1] == [b[0]] + b[1..][..k];
      k := k + 1;
    }
  }

  lemma {:induction false} AtBelow(a: string, b: string, k: nat)
    requires PrecedesAt(a, b, k)
    ensures Below(a, b)
  {
    if k > 0 {
      assert a[..k][0] == b[..k][0];
      assert a[1..][..k - 1] == a[..k][1..] && b[1..][..k - 1] == b[..k][1..];
      AtBelow(a[1..], b[1..], k - 1);
    }
  }

  /** The comparison decides the order. */
  lemma BelowIff(a: string, b: string)
    ensures Below(a, b) <==> Precedes(a, b)
  {
    if Below(a, b) {
      var k := BelowAt(a, b);
    }
    if k: nat :| PrecedesAt(a, b, k) {
      AtBelow(a, b, k);
    }
  }

  /** Strings that differ first in one character are ordered as those characters are. */
  lemma FirstDifference(p: string, c: char, s: string, d: char, t: string)
    requires c != d
    ensures Below(p + [c] + s, p + [d] + t) <==> c < d
  {
    var a, b := p + [c] + s, p + [d] + t;
    assert a[..|p|] == p == b[..|p|] && a[|p|] == c && b[|p|] == d;
    if c < d {
      AtBelow(a, b, |p|);
    } else {
      AtBelow(b, a, |p|);
      if Below(a, b) {
        BelowTransitive(a, b, a);
        BelowIrreflexive(a);
      }
    }
  }

  /** A string comes before its proper extensions, and only before those among its extensions. */
  lemma ProperPrefix(p: string, s: string)
    ensures Below(p, p + s) <==> s != []
    ensures !Below(p + s, p)
  {
    if s == [] {
      assert p + s == p;
      BelowIrreflexive(p);
    } else {
      AtBelow(p, p + s, |p|);
      if Below(p + s, p) {
        BelowTransitive(p, p + s, p);
        BelowIrreflexive(p);
      }
    }
  }

  // ---------- the order is total ----------

  lemma PrecedesIrreflexive(a: string)
    ensures !Precedes(a, a)
  {
    BelowIff(a, a);
    BelowIrreflexive(a);
  }

  lemma PrecedesTransitive(a: string, b: string, c: string)
    requires Precedes(a, b) && Precedes(b, c)
    ensures Precedes(a, c)
  {
    BelowIff(a, b);
    BelowIff(b, c);
    BelowIff(a, c);
    BelowTransitive(a, b, c);
  }

  lemma PrecedesTotal(a: string, b: string)
    ensures Precedes(a, b) || a == b || Precedes(b, a)
  {
    BelowIff(a, b);
    BelowIff(b, a);
    BelowTotal(a, b);
  }

  lemma PrecedesAsymmetric(a: string, b: string)
    requires Precedes(a, b)
    ensures !Precedes(b, a)
  {
    if Precedes(b, a) {
      PrecedesTransitive(a, b, a);
      PrecedesIrreflexive(a);
    }
  }

  // ---------- sorted sequences ----------

  /** What `slices.Sort` promises about the order of its result. */
  ghost predicate Sorted(lines: seq<string>)
  {
    forall i, j :: 0 <= i < j < |lines| ==> AtMost(lines[i], lines[j])
  }

  /** The first element of a sorted sequence comes no later than any other. */
  lemma FirstIsLeast(a: seq<string>, x: string)
    requires Sorted(a) && x in a
    ensures AtMost(a[0], x)
  {
    PrecedesIrreflexive(x);
  }

  /** Two sorted sequences with the same elements are the same sequence. */
  lemma {:induction false} SortedUnique(a: seq<string>, b: seq<string>)
    requires Sorted(a) && Sorted(b)
    requires multiset(a) == multiset(b)
    ensures a == b
  {
    assert |multiset(a)| == |a| && |multiset(b)| == |b|;
    if a != [] {
      assert a[0] in multiset(b) && b[0] in multiset(a);
      FirstIsLeast(a, b[0]);
      FirstIsLeast(b, a[0]);
      PrecedesTotal(a[0], b[0]);
      SameTails(a, b);
      SortedUnique(a[1..], b[1..]);
      assert a == [a[0]] + a[1..] && b == [b[0]] + b[1..];
    }
  }
}
