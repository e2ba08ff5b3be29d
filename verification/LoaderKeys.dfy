/** The keys the configuration loader registers for the fields of a struct. */
module LoaderKeys {
  import opened EnvNames

  /** A field type: one that `registerSingleFlag` knows, a nested struct, or neither. */
  datatype Kind = Flag | Struct(fields: seq<Field>) | Other

  datatype Field = Field(exported: bool, tag: string, kind: Kind, pointer: bool)

  const SQUASH: string := ",squash"

  predicate Skipped(f: Field)
  {
    !f.exported || f.tag == "" || f.tag == "-"
  }

  /** The paths of tags to the fields that are not structs. With `all`, every one of them:
      the leaves that are printed. Otherwise those that get a default: structs behind a
      pointer contribute none then, nor do fields of other kinds. Squashed structs
      contribute theirs either way. */
  function PathsTo(fields: seq<Field>, all: bool): set<seq<string>>
  {
    if fields == [] then {} else PathsTo(fields[..|fields| - 1], all) + PathsOf(fields[|fields| - 1], all)
  }

  function PathsOf(f: Field, all: bool): set<seq<string>>
  {
    if Skipped(f) then {}
    else if f.tag == SQUASH then (if f.kind.Struct? then PathsTo(f.kind.fields, all) else {})
    else
      match f.kind
      case Struct(fields) => if f.pointer && !all then {} else set p | p in PathsTo(fields, all) :: [f.tag] + p
      case Flag => {[f.tag]}
      case Other => if all then {[f.tag]} else {}
  }

  /** The paths that `registerStructKeys` registers. */
  function Paths(fields: seq<Field>): set<seq<string>>
  {
    PathsTo(fields, false)
  }

  /** The paths of the settings that `info` may print. */
  function Leaves(fields: seq<Field>): set<seq<string>>
  {
    PathsTo(fields, true)
  }

  /** The keys of these paths below `prefix`. */
  function KeysOf(prefix: string, paths: set<seq<string>>): set<string>
  {
    set p | p in paths :: ViperKey(prefix, p)
  }

  lemma KeysUnder(prefix: string, tag: string, paths: set<seq<string>>)
    ensures KeysOf(prefix, set p | p in paths :: [tag] + p) == KeysOf(JoinKey(prefix, tag), paths)
  {
    var under := set p | p in paths :: [tag] + p;
    forall p
      ensures ([tag] + p)[1..] == p && ViperKey(prefix, [tag] + p) == ViperKey(JoinKey(prefix, tag), p)
    {
      assert ([tag] + p)[1..] == p;
    }
    forall key
      ensures key in KeysOf(prefix, under) <==> key in KeysOf(JoinKey(prefix, tag), paths)
    {
      if key in KeysOf(JoinKey(prefix, tag), paths) {
        var p :| p in paths && ViperKey(JoinKey(prefix, tag), p) == key;
        assert [tag] + p in under;
      }
    }
  }

  /** The loader's settings, as far as their keys. */
  class Viper {
    var keys: set<string>

    constructor ()
      ensures keys == {}
    {
      keys := {};
    }

    method SetDefault(key: string)
      modifies this
      ensures keys == old(keys) + {key}
    {
      keys := keys + {key};
    }

    /** `registerStructKeys`. */
    method RegisterStructKeys(prefix: string, fields: seq<Field>)
      modifies this
      ensures keys == old(keys) + KeysOf(prefix, Paths(fields))
      decreases fields
    {
      for i := 0 to |fields|
        invariant keys == old(keys) + KeysOf(prefix, Paths(fields[..i]))
      {
        var field := fields[i];
        assert fields[..i + 1][..i] == fields[..i];
        ghost var before := keys;
        RegisterField(prefix, field);
        assert KeysOf(prefix, Paths(fields[..i]) + PathsOf(field, false))
            == KeysOf(prefix, Paths(fields[..i])) + KeysOf(prefix, PathsOf(field, false));
      }
      assert fields[..|fields|] == fields;
    }

    /** The body of the loop of `registerStructKeys`. */
    method RegisterField(prefix: string, field: Field)
      modifies this
      ensures keys == old(keys) + KeysOf(prefix, PathsOf(field, false))
      decreases field
    {
      if Skipped(field) {
        return;
      }
      if field.tag == SQUASH {
        if field.kind.Struct? {
          RegisterStructKeys(prefix, field.kind.fields);
        }
        return;
      }
      var key := JoinKey(prefix, field.tag);
      if field.kind.Struct? {
        if !field.pointer {
          RegisterStructKeys(key, field.kind.fields);
          KeysUnder(prefix, field.tag, Paths(field.kind.fields));
        }
        return;
      }
      if field.kind.Flag? {
        SetDefault(key);
        assert ViperKey(prefix, [field.tag]) == key;
        assert KeysOf(prefix, {[field.tag]}) == {key};
      }
    }
  }

  lemma {:induction false} PathsTagged(fields: seq<Field>, all: bool, p: seq<string>)
    requires p in PathsTo(fields, all)
    ensures p != [] && Tagged(p)
    decreases fields
  {
    var last := fields[|fields| - 1];
    if p in PathsTo(fields[..|fields| - 1], all) {
      PathsTagged(fields[..|fields| - 1], all, p);
    } else if last.tag == SQUASH {
      PathsTagged(last.kind.fields, all, p);
    } else if last.kind.Struct? {
      var q :| q in PathsTo(last.kind.fields, all) && p == [last.tag] + q;
      PathsTagged(last.kind.fields, all, q);
    }
  }

  /** Every key the loader registers belongs to a path of tags, and the variable it reads for
      a path without dots is named like the one `info` prints for that path. */
  lemma RegisteredNamesArePrinted(fields: seq<Field>, key: string) returns (p: seq<string>)
    requires key in KeysOf("", Paths(fields))
    ensures p in Paths(fields) && key == ViperKey("", p)
    ensures LoaderName(key) == FlatName(PREFIX, p) <==> Dotless(p)
  {
    p :| p in Paths(fields) && ViperKey("", p) == key;
    PathsTagged(fields, false, p);
    PrintedNameMatchesKey(p);
  }

  // ---------- routes to a setting ----------

  /** The fields chosen one after another, by index, lead to one that is not a struct. */
  predicate Leads(fields: seq<Field>, route: seq<nat>)
    decreases route
  {
    && route != [] && route[0] < |fields|
    && var f := fields[route[0]];
       && f.exported && f.tag != "" && f.tag != "-"
       && if f.kind.Struct? then Leads(f.kind.fields, route[1..]) else f.tag != ",squash" && |route| == 1
  }

  /** The tags on the route. */
  function Tags(fields: seq<Field>, route: seq<nat>): seq<string>
    requires Leads(fields, route)
    decreases route
  {
    var f := fields[route[0]];
    if f.kind.Struct? then (if f.tag == ",squash" then [] else [f.tag]) + Tags(f.kind.fields, route[1..]) else [f.tag]
  }

  /** No struct on the route is behind a pointer, unless it is squashed, and the loader knows
      the kind of the field at its end. */
  predicate Direct(fields: seq<Field>, route: seq<nat>)
    requires Leads(fields, route)
    decreases route
  {
    var f := fields[route[0]];
    if f.kind.Struct? then (f.tag == ",squash" || !f.pointer) && Direct(f.kind.fields, route[1..]) else f.kind.Flag?
  }

  /** This route leads to the path. */
  predicate Reaches(fields: seq<Field>, route: seq<nat>, p: seq<string>)
  {
    Leads(fields, route) && Tags(fields, route) == p
  }

  lemma FrontRoute(fields: seq<Field>, route: seq<nat>)
    requires fields != [] && Leads(fields[..|fields| - 1], route)
    ensures Leads(fields, route) && Tags(fields, route) == Tags(fields[..|fields| - 1], route)
    ensures Direct(fields, route) == Direct(fields[..|fields| - 1], route)
  {
  }

  /** The route through field `i` that goes on as `rest` below it. */
  lemma RouteThrough(fields: seq<Field>, i: nat, rest: seq<nat>)
    requires i < |fields| && !Skipped(fields[i]) && fields[i].kind.Struct? && Leads(fields[i].kind.fields, rest)
    ensures Leads(fields, [i] + rest)
    ensures Tags(fields, [i] + rest)
         == (if fields[i].tag == SQUASH then [] else [fields[i].tag]) + Tags(fields[i].kind.fields, rest)
    ensures Direct(fields, [i] + rest) <==>
              (fields[i].tag == SQUASH || !fields[i].pointer) && Direct(fields[i].kind.fields, rest)
  {
    assert ([i] + rest)[1..] == rest;
  }

  lemma {:induction false} PathHasRoute(fields: seq<Field>, all: bool, p: seq<string>) returns (route: seq<nat>)
    requires p in PathsTo(fields, all)
    ensures Reaches(fields, route, p) && (all || Direct(fields, route))
    decreases fields
  {
    var n := |fields| - 1;
    var last := fields[n];
    if p in PathsTo(fields[..n], all) {
      route := PathHasRoute(fields[..n], all, p);
      FrontRoute(fields, route);
    } else if last.kind.Struct? {
      var q :| q in PathsTo(last.kind.fields, all) && p == (if last.tag == SQUASH then [] else [last.tag]) + q;
      var rest := PathHasRoute(last.kind.fields, all, q);
      RouteThrough(fields, n, rest);
      route := [n] + rest;
    } else {
      route := [n];
    }
  }

  lemma {:induction false} FieldPaths(fields: seq<Field>, all: bool, i: nat)
    requires i < |fields|
    ensures PathsOf(fields[i], all) <= PathsTo(fields, all)
    decreases |fields|
  {
    if i < |fields| - 1 {
      FieldPaths(fields[..|fields| - 1], all, i);
    }
  }

  lemma {:induction false} RouteHasPath(fields: seq<Field>, all: bool, route: seq<nat>)
    requires Leads(fields, route) && (all || Direct(fields, route))
    ensures Tags(fields, route) in PathsTo(fields, all)
    decreases route
  {
    var f := fields[route[0]];
    FieldPaths(fields, all, route[0]);
    if f.kind.Struct? {
      RouteHasPath(f.kind.fields, all, route[1..]);
      if f.tag == SQUASH {
        assert [] + Tags(f.kind.fields, route[1..]) == Tags(f.kind.fields, route[1..]);
      }
    }
  }

  /** A setting is registered exactly when some route to it is direct. */
  lemma RegisteredIff(fields: seq<Field>, p: seq<string>)
    ensures p in Leaves(fields) <==> exists route :: Reaches(fields, route, p)
    ensures p in Paths(fields) <==> exists route :: Reaches(fields, route, p) && Direct(fields, route)
  {
    if p in Leaves(fields) {
      var route := PathHasRoute(fields, true, p);
    }
    if p in Paths(fields) {
      var route := PathHasRoute(fields, false, p);
    }
    if route :| Reaches(fields, route, p) {
      RouteHasPath(fields, true, route);
    }
    if route :| Reaches(fields, route, p) && Direct(fields, route) {
      RouteHasPath(fields, false, route);
    }
  }

  // ---------- which printed variables are read ----------

  /** The loader reads this variable when it knows the keys of these paths. */
  ghost predicate IsRead(known: set<seq<string>>, name: string)
  {
    exists key :: key in KeysOf("", known) && LoaderName(key) == name
  }

  /** The variable printed for a path is read exactly when the loader knows a key with the
      same pieces. */
  lemma PrintedIsReadIff(known: set<seq<string>>, p: seq<string>)
    requires forall q :: q in known ==> q != [] && Tagged(q)
    ensures IsRead(known, FlatName(PREFIX, p)) <==>
              exists q :: q in known && Pieces(q, LoaderChar) == Pieces(p, FlatChar)
  {
    forall q | q in known
      ensures FlatName(PREFIX, p) == LoaderName(ViperKey("", q)) <==> Pieces(p, FlatChar) == Pieces(q, LoaderChar)
      ensures ViperKey("", q) in KeysOf("", known)
    {
      KeyMatchesIff(p, q);
    }
  }

  /** No setting has a separator in its path. */
  ghost predicate Clean(fields: seq<Field>)
  {
    forall p :: p in Leaves(fields) ==> Plain(p) && Dotless(p)
  }

  lemma RegisteredIsLeaf(fields: seq<Field>, p: seq<string>)
    requires p in Paths(fields)
    ensures p in Leaves(fields)
  {
    var route := PathHasRoute(fields, false, p);
    RouteHasPath(fields, true, route);
  }

  /** The loader has registered a setting that is the same up to case. */
  ghost predicate RegisteredAs(fields: seq<Field>, p: seq<string>)
  {
    exists q, route :: Reaches(fields, route, q) && Direct(fields, route) && UpperPath(q) == UpperPath(p)
  }

  lemma RegisteredAsIff(fields: seq<Field>, p: seq<string>)
    ensures RegisteredAs(fields, p) <==> exists q :: q in Paths(fields) && UpperPath(q) == UpperPath(p)
  {
    if q :| q in Paths(fields) && UpperPath(q) == UpperPath(p) {
      var route := PathHasRoute(fields, false, q);
    }
    if q, route :| Reaches(fields, route, q) && Direct(fields, route) && UpperPath(q) == UpperPath(p) {
      RouteHasPath(fields, false, route);
    }
  }

  /** The variable printed for a setting is read, when the loader has registered the fields
      and read config files with settings at `files`, exactly when a direct route leads to
      the setting, up to case, or a file has a key of the same name. */
  lemma LeafIsReadIff(fields: seq<Field>, files: set<seq<string>>, p: seq<string>)
    requires Clean(fields) && p in Leaves(fields)
    requires forall q :: q in files ==> q != [] && Tagged(q)
    ensures IsRead(Paths(fields) + files, FlatName(PREFIX, p)) <==>
              RegisteredAs(fields, p) || exists q :: q in files && Pieces(q, LoaderChar) == Pieces(p, FlatChar)
  {
    var known := Paths(fields) + files;
    forall q | q in Paths(fields)
      ensures q != [] && Tagged(q)
      ensures Pieces(q, LoaderChar) == Pieces(p, FlatChar) <==> UpperPath(q) == UpperPath(p)
    {
      PathsTagged(fields, false, q);
      RegisteredIsLeaf(fields, q);
      DotlessPieces(q);
      PlainPieces(q);
      PlainPieces(p);
    }
    PrintedIsReadIff(known, p);
    RegisteredAsIff(fields, p);
  }

  // ---------- the configuration ----------

  function Setting(tag: string): Field
  {
    Field(true, tag, Flag, false)
  }

  function Section(tag: string, fields: seq<Field>): Field
  {
    Field(true, tag, Struct(fields), false)
  }

  const TLS: seq<Field> :=
    [Field(true, "enabled", Flag, true), Setting("clientKey"), Setting("clientCert"), Setting("rootCerts"),
     Setting("serverNameOverride")]

  const ENDPOINT: seq<Field> :=
    [Setting("address"), Setting("connectionTimeout"), Field(true, "tls", Struct(TLS), true)]

  const LOGGING: seq<Field> := [Setting("level"), Setting("format")]

  const MSP: seq<Field> := [Setting("localMspID"), Setting("configPath")]

  const ORDERER: seq<Field> := [Section(SQUASH, ENDPOINT), Setting("channel")]

  const QUERIES: seq<Field> := [Section(SQUASH, ENDPOINT)]

  const NOTIFICATIONS: seq<Field> := [Section(SQUASH, ENDPOINT), Setting("waitingTimeout")]

  /** The `Config` struct. */
  const CONFIG: seq<Field> :=
    [Section("logging", LOGGING), Section("msp", MSP), Section("tls", TLS), Section("orderer", ORDERER),
     Section("queries", QUERIES), Section("notifications", NOTIFICATIONS)]

  predicate Letter(c: char)
  {
    'a' <= c <= 'z' || 'A' <= c <= 'Z'
  }

  predicate Word(s: string)
  {
    forall i :: 0 <= i < |s| ==> Letter(s[i])
  }

  predicate Words(p: seq<string>)
  {
    forall s :: s in p ==> Word(s)
  }

  lemma WordsAreClean(p: seq<string>)
    requires Words(p)
    ensures Plain(p) && Dotless(p)
  {
    forall s | s in p
      ensures '_' !in s && '-' !in s && '.' !in s
    {
      assert Word(s);
    }
  }

  lemma TlsWords()
    ensures Word("enabled") && Word("clientKey") && Word("clientCert") && Word("rootCerts")
    ensures Word("serverNameOverride")
  {
  }

  lemma SettingWords()
    ensures Word("level") && Word("format") && Word("localMspID") && Word("configPath")
    ensures Word("address") && Word("connectionTimeout") && Word("channel") && Word("waitingTimeout")
  {
  }

  lemma SectionWords()
    ensures Word("logging") && Word("msp") && Word("tls")
    ensures Word("orderer") && Word("queries") && Word("notifications")
  {
  }

  /** Settings only, with words as tags. */
  predicate Settings(fields: seq<Field>)
  {
    forall f :: f in fields ==> f.kind.Flag? && f.tag != SQUASH && Word(f.tag)
  }

  lemma SettingRoutes(fields: seq<Field>, route: seq<nat>)
    requires Settings(fields) && Leads(fields, route)
    ensures Direct(fields, route) && |Tags(fields, route)| == 1 && Words(Tags(fields, route))
  {
    assert fields[route[0]] in fields;
  }

  /** The route leads to a setting at this depth, which is registered, or to one below it,
      which is not. */
  predicate AtDepth(fields: seq<Field>, route: seq<nat>, depth: nat)
    requires Leads(fields, route)
  {
    && Words(Tags(fields, route))
    && |Tags(fields, route)| in {depth, depth + 1}
    && (Direct(fields, route) <==> |Tags(fields, route)| == depth)
  }

  lemma EndpointRoutes(route: seq<nat>)
    requires Leads(ENDPOINT, route)
    ensures AtDepth(ENDPOINT, route, 1)
  {
    SettingWords();
    SectionWords();
    if route[0] == 2 {
      TlsWords();
      SettingRoutes(TLS, route[1..]);
    }
  }

  /** A service squashes its endpoint and may have one setting more. */
  lemma ServiceRoutes(fields: seq<Field>, route: seq<nat>)
    requires fields != [] && fields[0] == Section(SQUASH, ENDPOINT) && Settings(fields[1..])
    requires Leads(fields, route)
    ensures AtDepth(fields, route, 1)
  {
    if route[0] == 0 {
      EndpointRoutes(route[1..]);
      assert [] + Tags(ENDPOINT, route[1..]) == Tags(ENDPOINT, route[1..]);
    } else {
      assert fields[route[0]] == fields[1..][route[0] - 1];
    }
  }

  predicate IsService(fields: seq<Field>)
  {
    fields != [] && fields[0] == Section(SQUASH, ENDPOINT) && Settings(fields[1..])
  }

  /** Each section of the configuration has settings only, or is a service. */
  lemma Sections()
    ensures Settings(LOGGING) && Settings(MSP) && Settings(TLS)
    ensures IsService(ORDERER) && IsService(QUERIES) && IsService(NOTIFICATIONS)
  {
    TlsWords();
    SettingWords();
    assert ORDERER[1..] == [Setting("channel")] && QUERIES[1..] == [];
    assert NOTIFICATIONS[1..] == [Setting("waitingTimeout")];
  }

  lemma SectionRoutes(tag: string, fields: seq<Field>, route: seq<nat>)
    requires Word(tag) && tag != SQUASH && (Settings(fields) || IsService(fields))
    requires Leads([Section(tag, fields)], [0] + route)
    ensures Leads(fields, route)
    ensures AtDepth([Section(tag, fields)], [0] + route, 2)
  {
    assert ([0] + route)[1..] == route;
    if Settings(fields) {
      SettingRoutes(fields, route);
    } else {
      ServiceRoutes(fields, route);
    }
  }

  /** Every setting has two or three tags; those with three are below the TLS section of a
      service, and only the others are registered. */
  lemma ConfigRoutes(route: seq<nat>)
    requires Leads(CONFIG, route)
    ensures AtDepth(CONFIG, route, 2)
  {
    Sections();
    SectionWords();
    var section, rest := CONFIG[route[0]], route[1..];
    assert section == Section(section.tag, section.kind.fields);
    assert ([0] + rest)[1..] == rest;
    SectionRoutes(section.tag, section.kind.fields, rest);
  }

  lemma ConfigClean()
    ensures Clean(CONFIG)
  {
    forall q | q in Leaves(CONFIG)
      ensures Plain(q) && Dotless(q)
    {
      var route := PathHasRoute(CONFIG, true, q);
      ConfigRoutes(route);
      WordsAreClean(q);
    }
  }

  /** Of the printed variables of the configuration, the loader reads on its own exactly those
      of settings outside the TLS sections of services; it reads those too once a config file
      has the key. */
  lemma ConfigIsReadIff(files: set<seq<string>>, p: seq<string>)
    requires p in Leaves(CONFIG)
    requires forall q :: q in files ==> q != [] && Tagged(q)
    ensures |p| in {2, 3}
    ensures IsRead(Paths(CONFIG) + files, FlatName(PREFIX, p)) <==>
              |p| == 2 || exists q :: q in files && Pieces(q, LoaderChar) == Pieces(p, FlatChar)
  {
    ConfigClean();
    var route := PathHasRoute(CONFIG, true, p);
    ConfigRoutes(route);
    LeafIsReadIff(CONFIG, files, p);
    if |p| == 3 && RegisteredAs(CONFIG, p) {
      var q, r :| Reaches(CONFIG, r, q) && Direct(CONFIG, r) && UpperPath(q) == UpperPath(p);
      ConfigRoutes(r);
    }
  }

  lemma OrdererTlsEnabled()
    ensures ["orderer", "tls", "enabled"] in Leaves(CONFIG)
  {
    var r0: seq<nat>, r1, r2, r3 := [0], [2] + [0], [0] + ([2] + [0]), [3] + ([0] + ([2] + [0]));
    assert Leads(TLS, r0) && Tags(TLS, r0) == ["enabled"];
    RouteThrough(ENDPOINT, 2, r0);
    assert Tags(ENDPOINT, r1) == ["tls", "enabled"];
    RouteThrough(ORDERER, 0, r1);
    assert Tags(ORDERER, r2) == ["tls", "enabled"];
    RouteThrough(CONFIG, 3, r2);
    assert Tags(CONFIG, r3) == ["orderer"] + ["tls", "enabled"] == ["orderer", "tls", "enabled"];
    RouteHasPath(CONFIG, true, r3);
  }

  lemma FlatOrdererTlsEnabled()
    ensures FlatName(PREFIX, ["orderer", "tls", "enabled"]) == "FXCONFIG_ORDERER_TLS_ENABLED"
  {
    assert ["orderer", "tls", "enabled"][1..] == ["tls", "enabled"] && ["tls", "enabled"][1..] == ["enabled"];
    assert FlatKey(PREFIX, "orderer") == "FXCONFIG_ORDERER";
    assert FlatKey("FXCONFIG_ORDERER", "tls") == "FXCONFIG_ORDERER_TLS";
    assert FlatKey("FXCONFIG_ORDERER_TLS", "enabled") == "FXCONFIG_ORDERER_TLS_ENABLED";
  }

  /** So `FXCONFIG_ORDERER_TLS_ENABLED` is printed, but setting it has no effect unless a config
      file has the key. */
  lemma ServiceTlsIsNotRead()
    ensures var p := ["orderer", "tls", "enabled"];
            && p in Leaves(CONFIG)
            && FlatName(PREFIX, p) == "FXCONFIG_ORDERER_TLS_ENABLED"
            && !IsRead(Paths(CONFIG), FlatName(PREFIX, p))
            && IsRead(Paths(CONFIG) + {p}, FlatName(PREFIX, p))
  {
    var p := ["orderer", "tls", "enabled"];
    OrdererTlsEnabled();
    FlatOrdererTlsEnabled();
    ConfigClean();
    DotlessPieces(p);
    ConfigIsReadIff({}, p);
    ConfigIsReadIff({p}, p);
  }
}
