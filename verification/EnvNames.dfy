/** Environment variable names: those `fxconfig info --format env` prints for the leaves of
    the configuration, and those the loader reads for its keys. */
module EnvNames {
  import opened Separators
  import opened Sequences
  import opened StringOrder

  /** A configuration as nested YAML maps. */
  datatype Node = Scalar(text: string) | Items(items: seq<string>) | Table(entries: map<string, Node>)

  const PREFIX: string := "FXCONFIG"

  // ---------- characters ----------

  /** `strings.ToUpper`, on ASCII letters. */
  function UpperChar(c: char): char
  {
    if 'a' <= c <= 'z' then (c as int - 32) as char else c
  }

  /** The letters keep their place in the alphabet, and nothing else changes. */
  lemma UpperCharIs(c: char)
    ensures 'a' <= c <= 'z' ==> UpperChar(c) as int - 'A' as int == c as int - 'a' as int
    ensures !('a' <= c <= 'z') ==> UpperChar(c) == c
  {
  }

  /** `strings.ReplaceAll(k, "-", "_")`. */
  function DashChar(c: char): char
  {
    if c == '-' then '_' else c
  }

  /** The replacer given to `SetEnvKeyReplacer`. */
  function ReplacerChar(c: char): char
  {
    if c == '-' || c == '.' then '_' else c
  }

  function FlatChar(c: char): char
  {
    UpperChar(DashChar(c))
  }

  function LoaderChar(c: char): char
  {
    ReplacerChar(UpperChar(c))
  }

  function Each(s: string, f: char -> char): (r: string)
    ensures |r| == |s| && forall i :: 0 <= i < |s| ==> r[i] == f(s[i])
  {
    seq(|s|, i requires 0 <= i < |s| => f(s[i]))
  }

  // ---------- flatten ----------

  /** The variable name of key `k` under `prefix`. */
  function FlatKey(prefix: string, k: string): string
  {
    var key := Each(k, FlatChar);
    if prefix != "" then prefix + "_" + key else key
  }

  /** The variable name of a path of keys under `prefix`. */
  function FlatName(prefix: string, path: seq<string>): string
    decreases path
  {
    if path == [] then prefix else FlatName(FlatKey(prefix, path[0]), path[1..])
  }

  /** `strings.Join`. */
  function JoinItems(items: seq<string>): string
  {
    if items == [] then "" else Joined(',', items)
  }

  /** The path leads to a value that is not a map. */
  predicate IsLeaf(node: Node, path: seq<string>)
  {
    if path == [] then !node.Table?
    else node.Table? && path[0] in node.entries && IsLeaf(node.entries[path[0]], path[1..])
  }

  function LeafText(node: Node, path: seq<string>): string
    requires IsLeaf(node, path)
  {
    if path == [] then (if node.Items? then JoinItems(node.items) else node.text)
    else LeafText(node.entries[path[0]], path[1..])
  }

  /** The line printed for a leaf. */
  function Line(prefix: string, node: Node, path: seq<string>): string
    requires IsLeaf(node, path)
  {
    FlatName(prefix, path) + "=" + LeafText(node, path)
  }

  /** The value at the end of the path. */
  function ValueAt(node: Node, path: seq<string>): Node
    requires IsLeaf(node, path)
  {
    if path == [] then node else ValueAt(node.entries[path[0]], path[1..])
  }

  lemma {:induction false} LeafTextIs(node: Node, path: seq<string>)
    requires IsLeaf(node, path)
    ensures !ValueAt(node, path).Table?
    ensures ValueAt(node, path).Scalar? ==> LeafText(node, path) == ValueAt(node, path).text
    ensures ValueAt(node, path).Items? ==> LeafText(node, path) == JoinItems(ValueAt(node, path).items)
    decreases path
  {
    if path != [] {
      LeafTextIs(node.entries[path[0]], path[1..]);
    }
  }

  /** Reading a printed line: cut at its first `=`, it gives the name and the text; and the
      text of a list, cut at commas, gives the items back. */
  lemma LineReads(prefix: string, node: Node, path: seq<string>)
    requires IsLeaf(node, path) && '=' !in FlatName(prefix, path)
    ensures var cells, value := Split('=', Line(prefix, node, path)), ValueAt(node, path);
            && |cells| > 1 && cells[0] == FlatName(prefix, path)
            && var text := Joined('=', cells[1..]);
               && (value.Scalar? ==> text == value.text)
               && (value.Items? && value.items == [] ==> text == "")
               && (value.Items? && value.items != [] && (forall x :: x in value.items ==> ',' !in x) ==>
                     Split(',', text) == value.items)
  {
    var name, text, value := FlatName(prefix, path), LeafText(node, path), ValueAt(node, path);
    SplitJoin('=', name, text);
    SplitSingle('=', name);
    JoinedSplit('=', text);
    LeafTextIs(node, path);
    assert ([name] + Split('=', text))[1..] == Split('=', text);
    if value.Items? && value.items != [] && forall x :: x in value.items ==> ',' !in x {
      SplitJoined(',', value.items);
    }
  }

  ghost predicate DistinctPaths(paths: seq<seq<string>>)
  {
    forall i, j :: 0 <= i < j < |paths| ==> paths[i] != paths[j]
  }

  /** One line for each of these leaves, in this order. */
  ghost predicate Prints(prefix: string, node: Node, paths: seq<seq<string>>, lines: seq<string>)
  {
    && |lines| == |paths|
    && DistinctPaths(paths)
    && forall i :: 0 <= i < |paths| ==> IsLeaf(node, paths[i]) && lines[i] == Line(prefix, node, paths[i])
  }

  function Prepend(k: string, paths: seq<seq<string>>): (r: seq<seq<string>>)
    ensures |r| == |paths| && forall i :: 0 <= i < |r| ==> r[i] == [k] + paths[i]
  {
    seq(|paths|, i requires 0 <= i < |paths| => [k] + paths[i])
  }

  lemma PrependDistinct(done: set<string>, paths: seq<seq<string>>, k: string, subpaths: seq<seq<string>>)
    requires DistinctPaths(paths) && DistinctPaths(subpaths)
    requires forall p :: p in paths ==> p != [] && p[0] in done
    requires k !in done
    ensures DistinctPaths(paths + Prepend(k, subpaths))
  {
    var more := Prepend(k, subpaths);
    forall i, j | 0 <= i < j < |more|
      ensures more[i] != more[j]
    {
      assert more[i][1..] == subpaths[i] && more[j][1..] == subpaths[j];
    }
    forall i, j | 0 <= i < |paths| && 0 <= j < |more|
      ensures paths[i] != more[j]
    {
      assert paths[i] in paths;
    }
  }

  /** The lines of one entry, on top of those of the entries `done`. */
  lemma PrintsMore(prefix: string, node: Node, done: set<string>, paths: seq<seq<string>>, lines: seq<string>,
                   k: string, subpaths: seq<seq<string>>, sublines: seq<string>)
    requires node.Table? && Prints(prefix, node, paths, lines)
    requires forall p :: p in paths ==> p != [] && p[0] in done
    requires k in node.entries && k !in done
    requires Prints(FlatKey(prefix, k), node.entries[k], subpaths, sublines)
    ensures Prints(prefix, node, paths + Prepend(k, subpaths), lines + sublines)
  {
    var more := Prepend(k, subpaths);
    forall i | 0 <= i < |more|
      ensures IsLeaf(node, more[i]) && sublines[i] == Line(prefix, node, more[i])
    {
      assert more[i][1..] == subpaths[i];
    }
    PrependDistinct(done, paths, k, subpaths);
  }

  /** The leaves below the entries `done` of a map are among `paths`. */
  ghost predicate CoversEntries(node: Node, done: set<string>, paths: seq<seq<string>>)
    requires node.Table?
  {
    && (forall p :: p in paths ==> p != [] && p[0] in done)
    && (forall p :: p != [] && p[0] in done && IsLeaf(node, p) ==> p in paths)
  }

  ghost predicate CoversAll(node: Node, paths: seq<seq<string>>)
  {
    forall p :: IsLeaf(node, p) ==> p in paths
  }

  lemma CoversMore(node: Node, done: set<string>, paths: seq<seq<string>>, k: string, subpaths: seq<seq<string>>)
    requires node.Table? && CoversEntries(node, done, paths)
    requires k in node.entries && CoversAll(node.entries[k], subpaths)
    ensures CoversEntries(node, done + {k}, paths + Prepend(k, subpaths))
  {
    var more := Prepend(k, subpaths);
    forall p | p in paths + more
      ensures p != [] && p[0] in done + {k}
    {
      if p !in paths {
        var i :| 0 <= i < |more| && more[i] == p;
      }
    }
    forall p | p != [] && p[0] in done + {k} && IsLeaf(node, p)
      ensures p in paths + more
    {
      if p[0] == k {
        assert p[1..] in subpaths;
        var i :| 0 <= i < |subpaths| && subpaths[i] == p[1..];
        assert more[i] == [k] + p[1..] == p;
        assert p in more;
      }
    }
  }

  /** One line for every leaf, in some order. */
  ghost predicate Printout(prefix: string, node: Node, lines: seq<string>)
  {
    exists paths :: Prints(prefix, node, paths, lines) && CoversAll(node, paths)
  }

  lemma SingleLine(key: string, v: Node)
    requires !v.Table?
    ensures Printout(key, v, [Line(key, v, [])])
  {
    assert Prints(key, v, [[]], [Line(key, v, [])]) && CoversAll(v, [[]]);
  }

  /** `flatten`. The map is ranged over in any order, at every level. */
  method Flatten(prefix: string, node: Node) returns (lines: seq<string>)
    requires node.Table?
    ensures Printout(prefix, node, lines)
    decreases node, 0
  {
    lines := [];
    ghost var paths: seq<seq<string>> := [];
    var rest := node.entries.Keys;
    ghost var done := {};
    while rest != {}
      invariant done == node.entries.Keys - rest && rest <= node.entries.Keys
      invariant Prints(prefix, node, paths, lines)
      invariant CoversEntries(node, done, paths)
      decreases rest
    {
      var k :| k in rest;
      rest := rest - {k};
      var key := FlatKey(prefix, k);
      var sublines := FlattenEntry(key, node.entries[k]);
      ghost var subpaths :| Prints(key, node.entries[k], subpaths, sublines) && CoversAll(node.entries[k], subpaths);
      PrintsMore(prefix, node, done, paths, lines, k, subpaths, sublines);
      CoversMore(node, done, paths, k, subpaths);
      lines := lines + sublines;
      paths := paths + Prepend(k, subpaths);
      done := done + {k};
    }
    forall p | IsLeaf(node, p)
      ensures p in paths
    {
      assert p != [] && p[0] in done;
    }
  }

  /** The type switch in the loop of `flatten`. */
  method FlattenEntry(key: string, v: Node) returns (lines: seq<string>)
    ensures Printout(key, v, lines)
    decreases v, 1
  {
    match v
    case Table(_) =>
      lines := Flatten(key, v);
    case Items(items) =>
      lines := [key + "=" + JoinItems(items)];
      SingleLine(key, v);
    case Scalar(text) =>
      lines := [key + "=" + text];
      SingleLine(key, v);
  }

  // ---------- the printed environment does not depend on map order ----------

  lemma HeadIsMember(a: seq<seq<string>>)
    ensures a != [] ==> a[0] in a
  {
  }

  lemma PathRemoved(a: seq<seq<string>>, i: nat)
    requires DistinctPaths(a) && i < |a|
    ensures DistinctPaths(Without(a, i))
    ensures forall p :: p in Without(a, i) <==> p in a && p != a[i]
  {
    assert a == a[..i] + [a[i]] + a[i + 1..];
  }

  lemma LineRemoved(prefix: string, node: Node, a: seq<seq<string>>, la: seq<string>, i: nat)
    requires Prints(prefix, node, a, la) && i < |a|
    ensures Prints(prefix, node, Without(a, i), Without(la, i))
    ensures forall p :: p in Without(a, i) <==> p in a && p != a[i]
    ensures multiset(la) == multiset(Without(la, i)) + multiset{Line(prefix, node, a[i])}
  {
    PathRemoved(a, i);
    MultisetWithout(la, i);
  }

  lemma {:induction false} SameLines(prefix: string, node: Node, a: seq<seq<string>>, la: seq<string>,
                                     b: seq<seq<string>>, lb: seq<string>)
    requires Prints(prefix, node, a, la) && Prints(prefix, node, b, lb)
    requires forall p :: p in a <==> p in b
    ensures multiset(la) == multiset(lb)
    decreases |a|
  {
    HeadIsMember(a);
    HeadIsMember(b);
    if a != [] {
      var j :| 0 <= j < |b| && b[j] == a[0];
      LineRemoved(prefix, node, a, la, 0);
      LineRemoved(prefix, node, b, lb, j);
      SameLines(prefix, node, Without(a, 0), Without(la, 0), Without(b, j), Without(lb, j));
    }
  }

  /** Two runs of `info --format env` on one configuration print the same sorted lines,
      whatever order the maps are ranged over. */
  lemma SortedOutputUnique(prefix: string, node: Node, la: seq<string>, lb: seq<string>,
                           sa: seq<string>, sb: seq<string>)
    requires Printout(prefix, node, la) && Printout(prefix, node, lb)
    requires Sorted(sa) && multiset(sa) == multiset(la)
    requires Sorted(sb) && multiset(sb) == multiset(lb)
    ensures sa == sb
  {
    var a :| Prints(prefix, node, a, la) && CoversAll(node, a);
    var b :| Prints(prefix, node, b, lb) && CoversAll(node, b);
    SameLines(prefix, node, a, la, b, lb);
    SortedUnique(sa, sb);
  }

  // ---------- the loader's names ----------

  /** `joinViperKey`. */
  function JoinKey(prefix: string, key: string): string
  {
    if prefix == "" then key else prefix + "." + key
  }

  /** The key the loader builds for a path of tags, from `prefix` on. */
  function ViperKey(prefix: string, path: seq<string>): string
    decreases path
  {
    if path == [] then prefix else ViperKey(JoinKey(prefix, path[0]), path[1..])
  }

  /** The variable the loader reads for a key. */
  function LoaderName(key: string): string
  {
    Each(PREFIX + "_" + key, LoaderChar)
  }

  /** `_` and the converted segment, for each segment. */
  function Tail(path: seq<string>, f: char -> char): string
  {
    if path == [] then "" else "_" + Each(path[0], f) + Tail(path[1..], f)
  }

  lemma {:induction false} FlatNameTail(prefix: string, path: seq<string>)
    requires prefix != ""
    ensures FlatName(prefix, path) == prefix + Tail(path, FlatChar)
    decreases path
  {
    if path == [] {
      assert prefix + Tail(path, FlatChar) == prefix;
    } else {
      FlatNameTail(FlatKey(prefix, path[0]), path[1..]);
      var key := Each(path[0], FlatChar);
      Reassociate(prefix, "_", key);
      Reassociate(prefix, "_" + key, Tail(path[1..], FlatChar));
    }
  }

  /** Without a prefix the name starts with the first segment. */
  lemma UnprefixedName(path: seq<string>)
    requires path != [] && path[0] != ""
    ensures FlatName("", path) == Each(path[0], FlatChar) + Tail(path[1..], FlatChar)
  {
    FlatNameTail(Each(path[0], FlatChar), path[1..]);
  }

  lemma EachConcat(a: string, b: string, f: char -> char)
    ensures Each(a + b, f) == Each(a, f) + Each(b, f)
  {
  }

  /** No segment is empty: the loader skips fields without a tag. */
  predicate Tagged(path: seq<string>)
  {
    forall s :: s in path ==> s != ""
  }

  lemma TaggedParts(path: seq<string>)
    requires path != [] && Tagged(path)
    ensures path[0] != "" && Tagged(path[1..])
  {
    assert path[0] in path;
    assert forall s :: s in path[1..] ==> s in path;
  }

  lemma {:induction false} LoaderNameTail(key: string, path: seq<string>)
    requires key != "" && Tagged(path)
    ensures LoaderName(ViperKey(key, path)) == LoaderName(key) + Tail(path, LoaderChar)
    decreases path
  {
    if path == [] {
      assert LoaderName(key) + Tail(path, LoaderChar) == LoaderName(key);
    } else {
      TaggedParts(path);
      LoaderNameTail(JoinKey(key, path[0]), path[1..]);
      var start := PREFIX + "_" + key;
      assert PREFIX + "_" + (key + "." + path[0]) == start + ("." + path[0]);
      EachConcat(start, "." + path[0], LoaderChar);
      EachConcat(".", path[0], LoaderChar);
      assert Each(".", LoaderChar) == "_";
      Reassociate(LoaderName(key), "_" + Each(path[0], LoaderChar), Tail(path[1..], LoaderChar));
    }
  }

  predicate Dotless(path: seq<string>)
  {
    forall s :: s in path ==> '.' !in s
  }

  lemma SegmentAgrees(s: string)
    ensures Each(s, FlatChar) == Each(s, LoaderChar) <==> '.' !in s
  {
    forall c: char
      ensures FlatChar(c) == LoaderChar(c) <==> c != '.'
    {
    }
    if '.' in s {
      var i :| 0 <= i < |s| && s[i] == '.';
      assert Each(s, FlatChar)[i] != Each(s, LoaderChar)[i];
    }
  }

  lemma {:induction false} TailAgrees(path: seq<string>)
    ensures |Tail(path, FlatChar)| == |Tail(path, LoaderChar)|
    ensures Tail(path, FlatChar) == Tail(path, LoaderChar) <==> Dotless(path)
  {
    if path != [] {
      TailAgrees(path[1..]);
      SegmentAgrees(path[0]);
      var a, b := "_" + Each(path[0], FlatChar), "_" + Each(path[0], LoaderChar);
      var ta, tb := Tail(path[1..], FlatChar), Tail(path[1..], LoaderChar);
      assert |a| == |b| && (a + ta)[..|a|] == a && (b + tb)[..|b|] == b;
      assert (a + ta)[|a|..] == ta && (b + tb)[|b|..] == tb;
      assert a[1..] == Each(path[0], FlatChar) && b[1..] == Each(path[0], LoaderChar);
      assert path == [path[0]] + path[1..];
    }
  }

  lemma LoaderStart(key: string)
    ensures LoaderName(key) == PREFIX + ("_" + Each(key, LoaderChar))
  {
    EachConcat(PREFIX + "_", key, LoaderChar);
    assert Each(PREFIX + "_", LoaderChar) == PREFIX + "_";
    assert PREFIX + "_" + Each(key, LoaderChar) == PREFIX + ("_" + Each(key, LoaderChar));
  }

  lemma LoaderNamePath(path: seq<string>)
    requires path != [] && Tagged(path)
    ensures LoaderName(ViperKey("", path)) == PREFIX + Tail(path, LoaderChar)
  {
    TaggedParts(path);
    LoaderNameTail(path[0], path[1..]);
    LoaderStart(path[0]);
    Reassociate(PREFIX, "_" + Each(path[0], LoaderChar), Tail(path[1..], LoaderChar));
  }

  lemma {:induction false} KeySplitsFrom(prefix: string, path: seq<string>)
    requires prefix != "" && Dotless(path)
    ensures Split('.', ViperKey(prefix, path)) == Split('.', prefix) + path
    decreases path
  {
    if path != [] {
      assert path == [path[0]] + path[1..];
      KeySplitsFrom(JoinKey(prefix, path[0]), path[1..]);
      SplitJoin('.', prefix, path[0]);
      SplitSingle('.', path[0]);
      Reassociate(Split('.', prefix), [path[0]], path[1..]);
    }
  }

  /** The key of a path of tags without dots splits back into the path. */
  lemma KeySplits(path: seq<string>)
    requires path != [] && Tagged(path) && Dotless(path)
    ensures Split('.', ViperKey("", path)) == path
  {
    TaggedParts(path);
    assert path == [path[0]] + path[1..];
    KeySplitsFrom(path[0], path[1..]);
    SplitSingle('.', path[0]);
  }

  /** The name printed for a path and the variable that belongs to its key are equal exactly
      when no segment contains a dot. Whether the loader knows the key is another matter. */
  lemma PrintedNameMatchesKey(path: seq<string>)
    requires path != [] && Tagged(path)
    ensures FlatName(PREFIX, path) == LoaderName(ViperKey("", path)) <==> Dotless(path)
  {
    FlatNameTail(PREFIX, path);
    LoaderNamePath(path);
    TailAgrees(path);
    assert (PREFIX + Tail(path, FlatChar))[|PREFIX|..] == Tail(path, FlatChar);
    assert (PREFIX + Tail(path, LoaderChar))[|PREFIX|..] == Tail(path, LoaderChar);
  }

  /** With a dot the two names differ: only the loader replaces it. */
  lemma DottedNamesDiffer()
    ensures FlatName(PREFIX, ["a.b"]) != LoaderName(ViperKey("", ["a.b"]))
  {
    assert "a.b" in ["a.b"] && "a.b"[1] == '.';
    PrintedNameMatchesKey(["a.b"]);
  }

  // ---------- names decode ----------

  /** The pieces of the converted segments of a path. */
  function Pieces(path: seq<string>, f: char -> char): seq<string>
  {
    if path == [] then [] else Split('_', Each(path[0], f)) + Pieces(path[1..], f)
  }

  lemma {:induction false} SplitTail(start: string, path: seq<string>, f: char -> char)
    ensures Split('_', start + Tail(path, f)) == Split('_', start) + Pieces(path, f)
    decreases path
  {
    if path == [] {
      assert start + "" == start;
    } else {
      var word, rest := Each(path[0], f), Tail(path[1..], f);
      SplitTail(start + "_" + word, path[1..], f);
      SplitJoin('_', start, word);
      Reassociate(start, "_", word);
      Reassociate(start, "_" + word, rest);
      Reassociate(Split('_', start), Split('_', word), Pieces(path[1..], f));
    }
  }

  lemma NameSplits(path: seq<string>, f: char -> char)
    ensures Split('_', PREFIX + Tail(path, f)) == [PREFIX] + Pieces(path, f)
  {
    SplitTail(PREFIX, path, f);
    SplitSingle('_', PREFIX);
  }

  /** Two names are equal exactly when the pieces of the paths are. */
  lemma SameName(p: seq<string>, f: char -> char, q: seq<string>, g: char -> char)
    ensures PREFIX + Tail(p, f) == PREFIX + Tail(q, g) <==> Pieces(p, f) == Pieces(q, g)
  {
    NameSplits(p, f);
    NameSplits(q, g);
    JoinedSplit('_', PREFIX + Tail(p, f));
    JoinedSplit('_', PREFIX + Tail(q, g));
    assert ([PREFIX] + Pieces(p, f))[1..] == Pieces(p, f);
    assert ([PREFIX] + Pieces(q, g))[1..] == Pieces(q, g);
  }

  /** Two paths are printed under one name exactly when their segments, converted and split
      at underscores, give the same pieces. */
  lemma PrintedNamesCollideIff(path: seq<string>, other: seq<string>)
    ensures FlatName(PREFIX, path) == FlatName(PREFIX, other) <==> Pieces(path, FlatChar) == Pieces(other, FlatChar)
  {
    FlatNameTail(PREFIX, path);
    FlatNameTail(PREFIX, other);
    SameName(path, FlatChar, other, FlatChar);
  }

  /** The variable that belongs to a key is the one printed for a path, under the same
      condition on the pieces. */
  lemma KeyMatchesIff(path: seq<string>, key: seq<string>)
    requires key != [] && Tagged(key)
    ensures FlatName(PREFIX, path) == LoaderName(ViperKey("", key)) <==>
              Pieces(path, FlatChar) == Pieces(key, LoaderChar)
  {
    FlatNameTail(PREFIX, path);
    LoaderNamePath(key);
    SameName(path, FlatChar, key, LoaderChar);
  }

  // ---------- names of plain paths ----------

  /** Segments that survive the conversion: no separator in them. */
  predicate Plain(path: seq<string>)
  {
    forall s :: s in path ==> '_' !in s && '-' !in s
  }

  function UpperPath(path: seq<string>): (r: seq<string>)
    ensures |r| == |path|
  {
    if path == [] then [] else [Each(path[0], UpperChar)] + UpperPath(path[1..])
  }

  /** A converted segment stays in one piece exactly when it has no separator. */
  lemma PlainSegment(s: string)
    ensures '_' !in Each(s, FlatChar) <==> '_' !in s && '-' !in s
    ensures '_' !in s && '-' !in s ==> Each(s, FlatChar) == Each(s, UpperChar)
  {
    var word := Each(s, FlatChar);
    forall i | 0 <= i < |s|
      ensures word[i] == '_' <==> s[i] == '_' || s[i] == '-'
      ensures word[i] != '_' ==> word[i] == UpperChar(s[i])
    {
    }
    if c: char :| (c == '_' || c == '-') && c in s {
      var i :| 0 <= i < |s| && s[i] == c;
      assert word[i] == '_';
    }
  }

  lemma {:induction false} PlainPieces(path: seq<string>)
    ensures |Pieces(path, FlatChar)| >= |path|
    ensures |Pieces(path, FlatChar)| == |path| <==> Plain(path)
    ensures Plain(path) ==> Pieces(path, FlatChar) == UpperPath(path)
  {
    if path != [] {
      PlainPieces(path[1..]);
      PlainSegment(path[0]);
      SplitSingle('_', Each(path[0], FlatChar));
      assert path == [path[0]] + path[1..];
    }
  }

  /** A printed name splits back into the prefix and the upper-cased path exactly when no
      segment contains `_` or `-`. */
  lemma DecodesIff(path: seq<string>)
    ensures Split('_', FlatName(PREFIX, path)) == [PREFIX] + UpperPath(path) <==> Plain(path)
  {
    FlatNameTail(PREFIX, path);
    NameSplits(path, FlatChar);
    PlainPieces(path);
  }

  /** So among such paths the name determines the upper-cased path. */
  lemma NamesDecode(path: seq<string>, other: seq<string>)
    requires Plain(path) && Plain(other)
    ensures FlatName(PREFIX, path) == FlatName(PREFIX, other) <==> UpperPath(path) == UpperPath(other)
  {
    PrintedNamesCollideIff(path, other);
    PlainPieces(path);
    PlainPieces(other);
  }

  /** But a path without separators may share its name with one that has them. */
  lemma UnderscoreCollides()
    ensures FlatName(PREFIX, ["a", "b"]) == FlatName(PREFIX, ["a_b"])
    ensures UpperPath(["a", "b"]) != UpperPath(["a_b"])
  {
    FlatNameTail(PREFIX, ["a", "b"]);
    FlatNameTail(PREFIX, ["a_b"]);
    assert ["a", "b"][1..] == ["b"] && ["b"][1..] == [] && ["a_b"][1..] == [];
    assert Tail(["b"], FlatChar) == "_B";
    assert Tail(["a", "b"], FlatChar) == "_A_B" == Tail(["a_b"], FlatChar);
  }

  lemma {:induction false} DotlessPieces(path: seq<string>)
    requires Dotless(path)
    ensures Pieces(path, LoaderChar) == Pieces(path, FlatChar)
  {
    if path != [] {
      SegmentAgrees(path[0]);
      assert path == [path[0]] + path[1..];
      DotlessPieces(path[1..]);
    }
  }
}
