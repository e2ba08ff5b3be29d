/** Inheritance of TLS settings, on configuration objects with pointers. */
module TlsConfig {
  import opened Wrappers

  /** The value of a TLS section; the enabled flag may be unset. */
  datatype TlsValue = TlsValue(enabled: Option<bool>, key: string, cert: string, roots: seq<string>, serverName: string)

  const EMPTY := TlsValue(None, "", "", [], "")

  /** What a nil section stands for. */
  function OrEmpty(c: Option<TlsValue>): TlsValue
  {
    if c.Some? then c.value else EMPTY
  }

  /** `cmp.Or` on strings. */
  function Or(a: string, b: string): string
  {
    if a != "" then a else b
  }

  /** The child's settings where it has any, the parent's otherwise. */
  function Inherit(child: TlsValue, parent: TlsValue): TlsValue
  {
    TlsValue(if child.enabled.Some? then child.enabled else parent.enabled,
             Or(child.key, parent.key),
             Or(child.cert, parent.cert),
             if child.roots != [] then child.roots else parent.roots,
             Or(child.serverName, parent.serverName))
  }

  /** Setting by setting: what the child has is kept, what it lacks comes from the parent. */
  predicate Overrides(r: TlsValue, child: TlsValue, parent: TlsValue)
  {
    && (child.enabled.Some? ==> r.enabled == child.enabled)
    && (child.enabled.None? ==> r.enabled == parent.enabled)
    && (child.key != "" ==> r.key == child.key)
    && (child.key == "" ==> r.key == parent.key)
    && (child.cert != "" ==> r.cert == child.cert)
    && (child.cert == "" ==> r.cert == parent.cert)
    && (child.roots != [] ==> r.roots == child.roots)
    && (child.roots == [] ==> r.roots == parent.roots)
    && (child.serverName != "" ==> r.serverName == child.serverName)
    && (child.serverName == "" ==> r.serverName == parent.serverName)
  }

  lemma InheritIff(r: TlsValue, child: TlsValue, parent: TlsValue)
    ensures r == Inherit(child, parent) <==> Overrides(r, child, parent)
  {
  }

  /** The flag is explicit: on if it was set to on, off otherwise. All else is as before. */
  predicate Normalizes(after: TlsValue, before: TlsValue)
  {
    && (after.enabled == Some(true) <==> before.enabled == Some(true))
    && (after.enabled == Some(false) <==> before.enabled != Some(true))
    && after.key == before.key && after.cert == before.cert
    && after.roots == before.roots && after.serverName == before.serverName
  }

  /** A `*bool`. */
  class Flag {
    const value: bool

    constructor (value: bool)
      ensures this.value == value
    {
      this.value := value;
    }
  }

  /** The `TLSConfig` struct. */
  class TLSConfig {
    var enabled: Flag?
    var key: string
    var cert: string
    var roots: array?<string>
    var serverName: string

    constructor (enabled: Flag?, key: string, cert: string, roots: array?<string>, serverName: string)
      ensures this.enabled == enabled && this.key == key && this.cert == cert
      ensures this.roots == roots && this.serverName == serverName
    {
      this.enabled, this.key, this.cert, this.roots, this.serverName := enabled, key, cert, roots, serverName;
    }

    ghost function Value(): (v: TlsValue)
      reads this, roots
      ensures v.enabled.Some? <==> enabled != null
      ensures enabled != null ==> v.enabled == Some(enabled.value)
      ensures v.key == key && v.cert == cert && v.serverName == serverName
      ensures roots == null ==> v.roots == []
      ensures roots != null ==> v.roots == roots[..]
    {
      TlsValue(if enabled == null then None else Some(enabled.value), key, cert,
               if roots == null then [] else roots[..], serverName)
    }

    /** `Normalize`: afterwards the enabled flag is explicit. */
    method Normalize()
      modifies this`enabled
      ensures enabled != null && Normalizes(Value(), old(Value()))
      ensures old(enabled) != null ==> enabled == old(enabled)
      ensures roots == old(roots)
    {
      if enabled == null {
        enabled := new Flag(false);
      }
    }
  }

  ghost function ValueOf(c: TLSConfig?): Option<TlsValue>
    reads c, if c == null then null else c.roots
  {
    if c == null then None else Some(c.Value())
  }

  /** `slices.Clone`: a copy that shares nothing, and nil for nil. */
  method Clone(a: array?<string>) returns (copy: array?<string>)
    ensures a == null ==> copy == null
    ensures a != null ==> copy != null && fresh(copy) && copy[..] == a[..]
  {
    if a == null {
      return null;
    }
    copy := new string[a.Length];
    for i := 0 to a.Length
      invariant copy[..i] == a[..i]
    {
      copy[i] := a[i];
    }
  }

  /** `InheritFrom`. With a parent the result is a new section with its own list of root
      certificates; without one it is the receiver itself. */
  method InheritFrom(c: TLSConfig?, parent: TLSConfig?) returns (r: TLSConfig)
    ensures parent != null ==> Overrides(r.Value(), OrEmpty(old(ValueOf(c))), old(parent.Value()))
    ensures parent != null ==> fresh(r) && (r.roots != null ==> fresh(r.roots))
    ensures parent == null && c != null ==> r == c
    ensures parent == null && c == null ==> fresh(r) && r.Value() == EMPTY
  {
    if c == null && parent == null {
      r := new TLSConfig(null, "", "", null, "");
      return;
    }
    if parent == null {
      return c;
    }
    var self := c;
    if self == null {
      self := new TLSConfig(null, "", "", null, "");
    }
    var src := parent.roots;
    if self.roots != null && self.roots.Length > 0 {
      src := self.roots;
    }
    var roots := Clone(src);
    r := new TLSConfig(if self.enabled != null then self.enabled else parent.enabled,
                       Or(self.key, parent.key), Or(self.cert, parent.cert), roots,
                       Or(self.serverName, parent.serverName));
  }

  // ---------- laws ----------

  /** Inheritance is associative, with the empty section as identity on both sides; and a
      flag the child set, `false` included, wins over the parent's. */
  lemma InheritLaws(a: TlsValue, b: TlsValue, c: TlsValue)
    ensures Inherit(Inherit(a, b), c) == Inherit(a, Inherit(b, c))
    ensures Inherit(EMPTY, a) == a && Inherit(a, EMPTY) == a
    ensures a.enabled.Some? ==> Inherit(a, b).enabled == a.enabled
  {
  }

  /** What has inherited from a section inherits nothing new from it. */
  lemma OverridesTwice(again: TlsValue, once: TlsValue, mine: TlsValue, parent: TlsValue)
    requires Overrides(once, mine, parent) && Overrides(again, once, parent)
    ensures again == once
  {
  }

  // ---------- the sections ----------

  /** `section` has its own settings `mine` over the parent's, and an explicit flag. */
  ghost predicate Resolved(section: TLSConfig?, mine: Option<TlsValue>, parent: TlsValue)
    reads section, if section == null then null else section.roots
  {
    && section != null
    && section.enabled != null
    && Overrides(section.Value(), OrEmpty(mine), parent)
  }

  /** Two sections are different objects and share no list of root certificates. */
  predicate Apart(a: TLSConfig?, b: TLSConfig?)
    reads a, b
  {
    a != null && b != null && a != b && (a.roots != null ==> a.roots != b.roots)
  }

  /** The TLS sections of the configuration: the parent and those of the three services. */
  class Config {
    const tls: TLSConfig
    var orderer: TLSConfig?
    var queries: TLSConfig?
    var notifications: TLSConfig?

    constructor (tls: TLSConfig, orderer: TLSConfig?, queries: TLSConfig?, notifications: TLSConfig?)
      ensures this.tls == tls && this.orderer == orderer
      ensures this.queries == queries && this.notifications == notifications
    {
      this.tls, this.orderer, this.queries, this.notifications := tls, orderer, queries, notifications;
    }

    /** No service section is the parent section. */
    predicate Separate()
      reads this
    {
      orderer != tls && queries != tls && notifications != tls
    }

    /** The section and its list of root certificates are new. */
    twostate predicate FreshSection(new section: TLSConfig?)
      reads section
    {
      section != null && fresh(section) && (section.roots != null ==> fresh(section.roots))
    }

    /** One service of `ResolveTLS`. */
    method ResolveService(section: TLSConfig?, ghost mine: Option<TlsValue>, ghost parent: TlsValue)
        returns (r: TLSConfig)
      requires tls.enabled != null && ValueOf(section) == mine && tls.Value() == parent
      ensures fresh(r) && (r.roots != null ==> fresh(r.roots))
      ensures Resolved(r, mine, parent)
    {
      r := InheritFrom(section, tls);
      r.Normalize();
    }

    /** Every service has its own settings over the parent's. */
    ghost predicate AllResolved(vo: Option<TlsValue>, vq: Option<TlsValue>, vn: Option<TlsValue>, parent: TlsValue)
      reads this, orderer, queries, notifications
      reads if orderer == null then null else orderer.roots
      reads if queries == null then null else queries.roots
      reads if notifications == null then null else notifications.roots
    {
      Resolved(orderer, vo, parent) && Resolved(queries, vq, parent) && Resolved(notifications, vn, parent)
    }

    /** No two services share anything but their flags. */
    predicate AllApart()
      reads this, orderer, queries, notifications
    {
      Apart(orderer, queries) && Apart(orderer, notifications) && Apart(queries, notifications)
    }

    /** New sections for the three services, one after another. */
    method NewSections(ghost vo: Option<TlsValue>, ghost vq: Option<TlsValue>, ghost vn: Option<TlsValue>,
                       ghost parent: TlsValue)
        returns (o: TLSConfig, q: TLSConfig, n: TLSConfig)
      requires ValueOf(orderer) == vo && ValueOf(queries) == vq && ValueOf(notifications) == vn
      requires tls.enabled != null && tls.Value() == parent
      ensures Resolved(o, vo, parent) && Resolved(q, vq, parent) && Resolved(n, vn, parent)
      ensures FreshSection(o) && FreshSection(q) && FreshSection(n)
      ensures Apart(o, q) && Apart(o, n) && Apart(q, n)
    {
      o := ResolveService(orderer, vo, parent);
      assert ValueOf(queries) == vq && ValueOf(notifications) == vn && tls.Value() == parent;
      q := ResolveService(queries, vq, parent);
      assert ValueOf(notifications) == vn && tls.Value() == parent;
      n := ResolveService(notifications, vn, parent);
    }

    method ResolveServices(ghost vo: Option<TlsValue>, ghost vq: Option<TlsValue>, ghost vn: Option<TlsValue>,
                           ghost parent: TlsValue)
      requires ValueOf(orderer) == vo && ValueOf(queries) == vq && ValueOf(notifications) == vn
      requires tls.enabled != null && tls.Value() == parent
      modifies this
      ensures AllResolved(vo, vq, vn, parent) && AllApart()
      ensures FreshSection(orderer) && FreshSection(queries) && FreshSection(notifications)
    {
      var o, q, n := NewSections(vo, vq, vn, parent);
      orderer, queries, notifications := o, q, n;
    }

    /** `ResolveTLS`: every section ends up with an explicit flag, each service with its own
        settings over the parent's, and with a list of root certificates of its own. */
    method ResolveTLS()
      requires Separate()
      modifies this, tls`enabled
      ensures tls.enabled != null && Normalizes(tls.Value(), old(tls.Value()))
      ensures AllResolved(old(ValueOf(orderer)), old(ValueOf(queries)), old(ValueOf(notifications)), tls.Value())
      ensures FreshSection(orderer) && FreshSection(queries) && FreshSection(notifications)
      ensures AllApart()
    {
      ghost var vo, vq, vn := ValueOf(orderer), ValueOf(queries), ValueOf(notifications);
      tls.Normalize();
      assert ValueOf(orderer) == vo && ValueOf(queries) == vq && ValueOf(notifications) == vn;
      ResolveServices(vo, vq, vn, tls.Value());
    }

    /** Resolving twice promises what resolving once does: the second time changes no value. */
    method ResolveTwice()
      requires Separate()
      modifies this, tls`enabled
      ensures tls.enabled != null && Normalizes(tls.Value(), old(tls.Value()))
      ensures AllResolved(old(ValueOf(orderer)), old(ValueOf(queries)), old(ValueOf(notifications)), tls.Value())
    {
      ghost var vo, vq, vn := ValueOf(orderer), ValueOf(queries), ValueOf(notifications);
      ResolveTLS();
      ghost var parent, o, q, n := tls.Value(), orderer.Value(), queries.Value(), notifications.Value();
      ResolveTLS();
      assert tls.Value() == parent;
      OverridesTwice(orderer.Value(), o, OrEmpty(vo), parent);
      OverridesTwice(queries.Value(), q, OrEmpty(vq), parent);
      OverridesTwice(notifications.Value(), n, OrEmpty(vn), parent);
    }
  }
}
