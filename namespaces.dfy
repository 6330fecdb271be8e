/** Joining existing namespaces (src/namespaces.rs): every namespace file named in
    the configuration is opened first, then each is joined with `setns`, in order. */
module Namespaces {
  import opened Wrappers
  import opened PathBufs
  import opened Flags
  import opened Host

  /** A namespace entry with a path: the file to open and the type to join it as. */
  datatype Configured = Configured(path: Path, typ: NamespaceType)

  /** The entries with a path, in list order. */
  function ConfiguredOf(ns: seq<Namespace>): seq<Configured>
  {
    if ns == [] then []
    else
      var last := ns[|ns| - 1];
      ConfiguredOf(ns[..|ns| - 1]) + (if last.path.Some? then [Configured(last.path.value, last.typ)] else [])
  }

  /** The `open` of each configured namespace file. */
  function Opens(cfg: seq<Configured>): (r: seq<Effect>)
    ensures |r| == |cfg|
  {
    seq(|cfg|, i requires 0 <= i < |cfg| => OpenNamespace(cfg[i].path))
  }

  /** The `setns` of each configured namespace, with the flag of its type. */
  function Joins(cfg: seq<Configured>): (r: seq<Effect>)
    ensures |r| == |cfg|
  {
    seq(|cfg|, i requires 0 <= i < |cfg| => JoinNamespace(cfg[i].path, GetCloneflag(cfg[i].typ)))
  }

  /** Some configured file is in `paths`. */
  predicate AnyIn(cfg: seq<Configured>, paths: set<Path>)
  {
    exists i :: 0 <= i < |cfg| && cfg[i].path in paths
  }

  /** What `join_namespaces` does. `unopenable` holds the files `open` fails on and
      `unjoinable` those `setns` refuses; either failure aborts. */
  function JoinPlan(ns: seq<Namespace>, unopenable: set<Path>, unjoinable: set<Path>): Result<seq<Effect>>
  {
    var cfg := ConfiguredOf(ns);
    if AnyIn(cfg, unopenable) then Err(NamespaceOpenFailed)
    else if AnyIn(cfg, unjoinable) then Err(NamespaceJoinFailed)
    else Ok(Opens(cfg) + Joins(cfg))
  }

  /** `join_namespaces`: the first loop opens the files of the entries with a path,
      the second joins them. */
  method JoinNamespaces(namespaces: seq<Namespace>, unopenable: set<Path>, unjoinable: set<Path>)
    returns (r: Result<seq<Effect>>)
    ensures r == JoinPlan(namespaces, unopenable, unjoinable)
  {
    var configured: seq<Configured> := [];
    var trace: seq<Effect> := [];
    var i := 0;
    while i < |namespaces|
      invariant 0 <= i <= |namespaces|
      invariant configured == ConfiguredOf(namespaces[..i])
      invariant !AnyIn(configured, unopenable)
      invariant trace == Opens(configured)
    {
      var ns := namespaces[i];
      assert namespaces[..i + 1][..i] == namespaces[..i];
      if ns.path.Some? {
        if ns.path.value in unopenable {
          ConfiguredPrefix(namespaces, i + 1);
          assert ConfiguredOf(namespaces[..i + 1])[|configured|].path in unopenable;
          return Err(NamespaceOpenFailed);
        }
        configured := configured + [Configured(ns.path.value, ns.typ)];
        trace := trace + [OpenNamespace(ns.path.value)];
      }
      i := i + 1;
    }
    assert namespaces[..i] == namespaces;
    var k := 0;
    while k < |configured|
      invariant 0 <= k <= |configured|
      invariant forall j :: 0 <= j < k ==> configured[j].path !in unjoinable
      invariant trace == Opens(configured) + Joins(configured)[..k]
    {
      var c := configured[k];
      if c.path in unjoinable {
        return Err(NamespaceJoinFailed);
      }
      trace := trace + [JoinNamespace(c.path, GetCloneflag(c.typ))];
      k := k + 1;
    }
    assert Joins(configured)[..k] == Joins(configured);
    return Ok(trace);
  }

  /** The entries of a prefix come first among the entries of the whole list. */
  lemma {:induction false} ConfiguredPrefix(ns: seq<Namespace>, k: nat)
    requires k <= |ns|
    ensures ConfiguredOf(ns[..k]) <= ConfiguredOf(ns)
    decreases |ns| - k
  {
    assert ns[..|ns|] == ns;
    if k < |ns| {
      ConfiguredPrefix(ns, k + 1);
      assert ns[..k + 1][..k] == ns[..k];
    }
  }

  /** An entry is opened and joined iff it has a path: every entry with a path is
      configured, and every configured file and type comes from such an entry. */
  lemma {:induction false} ConfiguredMembers(ns: seq<Namespace>)
    ensures forall i :: 0 <= i < |ns| && ns[i].path.Some? ==> Configured(ns[i].path.value, ns[i].typ) in ConfiguredOf(ns)
    ensures forall c :: c in ConfiguredOf(ns) ==> exists i :: 0 <= i < |ns| && ns[i].path == Some(c.path) && ns[i].typ == c.typ
  {
    if ns != [] {
      var init := ns[..|ns| - 1];
      ConfiguredMembers(init);
      forall i | 0 <= i < |ns| && ns[i].path.Some?
        ensures Configured(ns[i].path.value, ns[i].typ) in ConfiguredOf(ns)
      {
        if i < |init| { assert ns[i] == init[i]; }
      }
      forall c | c in ConfiguredOf(ns)
        ensures exists i :: 0 <= i < |ns| && ns[i].path == Some(c.path) && ns[i].typ == c.typ
      {
        if c in ConfiguredOf(init) {
          var i :| 0 <= i < |init| && init[i].path == Some(c.path) && init[i].typ == c.typ;
          assert ns[i] == init[i];
        }
      }
    }
  }

  /** On success every file is opened before the first `setns`, and the joins follow
      the list order of the entries with a path, each with its type's flag. */
  lemma JoinOrder(ns: seq<Namespace>, unopenable: set<Path>, unjoinable: set<Path>)
    requires JoinPlan(ns, unopenable, unjoinable).Ok?
    ensures var trace := JoinPlan(ns, unopenable, unjoinable).value;
            var cfg := ConfiguredOf(ns);
            && |trace| == 2 * |cfg|
            && (forall i, j :: 0 <= i < |trace| && 0 <= j < |trace| && trace[i].OpenNamespace? && trace[j].JoinNamespace? ==> i < j)
            && (forall k :: 0 <= k < |cfg| ==> trace[|cfg| + k] == JoinNamespace(cfg[k].path, GetCloneflag(cfg[k].typ)))
  {
    var cfg := ConfiguredOf(ns);
    var trace := Opens(cfg) + Joins(cfg);
    forall i | 0 <= i < |trace| ensures trace[i].OpenNamespace? <==> i < |cfg|
    {
      if i >= |cfg| { assert trace[i] == Joins(cfg)[i - |cfg|]; }
    }
  }

  /** Each entry with a path has its `setns` on success. */
  lemma JoinedEntry(ns: seq<Namespace>, unopenable: set<Path>, unjoinable: set<Path>, i: nat)
    requires i < |ns| && ns[i].path.Some?
    requires JoinPlan(ns, unopenable, unjoinable).Ok?
    ensures JoinNamespace(ns[i].path.value, GetCloneflag(ns[i].typ)) in JoinPlan(ns, unopenable, unjoinable).value
  {
    ConfiguredMembers(ns);
    var cfg := ConfiguredOf(ns);
    var trace := Opens(cfg) + Joins(cfg);
    var c := Configured(ns[i].path.value, ns[i].typ);
    assert c in cfg;
    var k :| 0 <= k < |cfg| && cfg[k] == c;
    assert trace[|cfg| + k] == Joins(cfg)[k];
  }

  /** Every `setns` joins the file of some entry with a path, with that entry's flag. */
  lemma JoinsFromEntries(ns: seq<Namespace>, unopenable: set<Path>, unjoinable: set<Path>)
    requires JoinPlan(ns, unopenable, unjoinable).Ok?
    ensures forall e :: e in JoinPlan(ns, unopenable, unjoinable).value && e.JoinNamespace? ==>
              exists j :: 0 <= j < |ns| && ns[j].path == Some(e.path) && GetCloneflag(ns[j].typ) == e.flag
  {
    ConfiguredMembers(ns);
    var cfg := ConfiguredOf(ns);
    var trace := Opens(cfg) + Joins(cfg);
    forall e | e in trace && e.JoinNamespace?
      ensures exists j :: 0 <= j < |ns| && ns[j].path == Some(e.path) && GetCloneflag(ns[j].typ) == e.flag
    {
      var m :| 0 <= m < |trace| && trace[m] == e;
      var k := m - |cfg|;
      assert Joins(cfg)[k] == e;
      assert cfg[k] in cfg;
    }
  }

  /** An entry without a path is created (its flag is among the clone flags) and
      never joined; an entry with a path is joined and contributes no clone flag of
      its own. */
  lemma CreateOrJoin(ns: seq<Namespace>, unopenable: set<Path>, unjoinable: set<Path>, i: nat)
    requires i < |ns|
    requires JoinPlan(ns, unopenable, unjoinable).Ok?
    ensures ns[i].path.None? ==> GetCloneflag(ns[i].typ) in CreationFlags(ns)
    ensures ns[i].path.Some? ==> JoinNamespace(ns[i].path.value, GetCloneflag(ns[i].typ)) in JoinPlan(ns, unopenable, unjoinable).value
    ensures forall e :: e in JoinPlan(ns, unopenable, unjoinable).value && e.JoinNamespace? ==>
              exists j :: 0 <= j < |ns| && ns[j].path == Some(e.path) && GetCloneflag(ns[j].typ) == e.flag
  {
    if ns[i].path.Some? {
      JoinedEntry(ns, unopenable, unjoinable, i);
    }
    JoinsFromEntries(ns, unopenable, unjoinable);
  }

  /** Any file that cannot be opened aborts before any `setns`; so does one that
      cannot be joined. */
  lemma JoinAborts(ns: seq<Namespace>, unopenable: set<Path>, unjoinable: set<Path>, i: nat)
    requires i < |ns| && ns[i].path.Some?
    ensures ns[i].path.value in unopenable ==> JoinPlan(ns, unopenable, unjoinable) == Err(NamespaceOpenFailed)
    ensures ns[i].path.value in unjoinable ==> JoinPlan(ns, unopenable, unjoinable).Err?
  {
    ConfiguredMembers(ns);
    var cfg := ConfiguredOf(ns);
    var k :| 0 <= k < |cfg| && cfg[k] == Configured(ns[i].path.value, ns[i].typ);
  }
}
