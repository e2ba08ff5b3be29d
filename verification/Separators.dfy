/** Cutting strings at a separator, and joining the pieces. */
module Separators {
  import opened Sequences

  /** What a further character in front does to the pieces. */
  function Grow(sep: char, c: char, pieces: seq<string>): seq<string>
    requires pieces != []
  {
    if c == sep then [""] + pieces else [[c] + pieces[0]] + pieces[1..]
  }

  /** The pieces of a string between separators. */
  function Split(sep: char, s: string): (r: seq<string>)
    ensures r != []
  {
    if s == "" then [""] else Grow(sep, s[0], Split(sep, s[1..]))
  }

  /** The way back. */
  function Joined(sep: char, pieces: seq<string>): string
    requires pieces != []
  {
    if |pieces| == 1 then pieces[0] else pieces[0] + [sep] + Joined(sep, pieces[1..])
  }

  lemma JoinedMore(sep: char, c: char, pieces: seq<string>)
    requires pieces != []
    ensures Joined(sep, [[c] + pieces[0]] + pieces[1..]) == [c] + Joined(sep, pieces)
  {
    var more := [[c] + pieces[0]] + pieces[1..];
    if |pieces| > 1 {
      assert more[1..] == pieces[1..];
      Reassociate([c] + pieces[0], [sep], Joined(sep, pieces[1..]));
      Reassociate([c], pieces[0], [sep] + Joined(sep, pieces[1..]));
      Reassociate(pieces[0], [sep], Joined(sep, pieces[1..]));
    }
  }

  /** Joining the pieces gives the string back. */
  lemma {:induction false} JoinedSplit(sep: char, s: string)
    ensures Joined(sep, Split(sep, s)) == s
  {
    if s != "" {
      JoinedSplit(sep, s[1..]);
      var rest := Split(sep, s[1..]);
      if s[0] == sep {
        assert ([""] + rest)[1..] == rest;
      } else {
        JoinedMore(sep, s[0], rest);
      }
    }
  }

  lemma SplitGrows(sep: char, c: char, s: string)
    ensures Split(sep, [c] + s) == Grow(sep, c, Split(sep, s))
  {
    assert ([c] + s)[1..] == s;
  }

  lemma GrowConcat(sep: char, c: char, a: seq<string>, b: seq<string>)
    requires a != []
    ensures Grow(sep, c, a + b) == Grow(sep, c, a) + b
  {
    assert (a + b)[1..] == a[1..] + b;
  }

  lemma {:induction false} SplitJoin(sep: char, a: string, b: string)
    ensures Split(sep, a + [sep] + b) == Split(sep, a) + Split(sep, b)
  {
    if a == "" {
      assert a + [sep] + b == [sep] + b;
      SplitGrows(sep, sep, b);
    } else {
      assert a == [a[0]] + a[1..] && a + [sep] + b == [a[0]] + (a[1..] + [sep] + b);
      SplitJoin(sep, a[1..], b);
      SplitGrows(sep, a[0], a[1..]);
      SplitGrows(sep, a[0], a[1..] + [sep] + b);
      GrowConcat(sep, a[0], Split(sep, a[1..]), Split(sep, b));
    }
  }

  /** A string is one piece exactly when it has no separator. */
  lemma {:induction false} SplitSingle(sep: char, s: string)
    ensures |Split(sep, s)| == 1 <==> sep !in s
    ensures sep !in s ==> Split(sep, s) == [s]
  {
    if s != "" {
      SplitSingle(sep, s[1..]);
      assert s == [s[0]] + s[1..];
    }
  }

  /** Splitting gives back pieces that contain no separator. */
  lemma {:induction false} SplitJoined(sep: char, pieces: seq<string>)
    requires pieces != [] && forall p :: p in pieces ==> sep !in p
    ensures Split(sep, Joined(sep, pieces)) == pieces
  {
    SplitSingle(sep, pieces[0]);
    if |pieces| > 1 {
      SplitJoined(sep, pieces[1..]);
      SplitJoin(sep, pieces[0], Joined(sep, pieces[1..]));
      assert pieces == [pieces[0]] + pieces[1..];
    } else {
      assert pieces == [pieces[0]];
    }
  }
}
