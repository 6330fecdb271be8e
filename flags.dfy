/** Namespace types and the clone flags that create them (src/flags.rs). */
module Flags {
  import opened Wrappers
  import opened PathBufs

  /** `LinuxNamespaceType` of the runtime spec. */
  datatype NamespaceType = Cgroup | Ipc | Mount | Network | Pid | User | Uts

  /** The `CLONE_NEW*` flags of `clone`, `unshare` and `setns`. */
  datatype CloneFlag = NewCgroup | NewIpc | NewNs | NewNet | NewPid | NewUser | NewUts

  /** One `linux.namespaces` entry: a namespace to create, or (with a path) one to join. */
  datatype Namespace = Namespace(typ: NamespaceType, path: Option<Path>)

  /** `get_cloneflag`. */
  function GetCloneflag(t: NamespaceType): CloneFlag
  {
    match t
    case Cgroup => NewCgroup
    case Ipc => NewIpc
    case Mount => NewNs
    case Network => NewNet
    case Pid => NewPid
    case User => NewUser
    case Uts => NewUts
  }

  /** The inverse of `GetCloneflag`. */
  function NamespaceOf(f: CloneFlag): NamespaceType
  {
    match f
    case NewCgroup => Cgroup
    case NewIpc => Ipc
    case NewNs => Mount
    case NewNet => Network
    case NewPid => Pid
    case NewUser => User
    case NewUts => Uts
  }

  /** Each of the seven namespace types has its own flag, and every flag belongs to one type. */
  lemma CloneflagBijective(t: NamespaceType, f: CloneFlag)
    ensures NamespaceOf(GetCloneflag(t)) == t
    ensures GetCloneflag(NamespaceOf(f)) == f
  {
  }

  /** The flags of the namespaces to create: one per entry without a path. */
  ghost function CreationFlags(ns: seq<Namespace>): set<CloneFlag>
  {
    set i | 0 <= i < |ns| && ns[i].path.None? :: GetCloneflag(ns[i].typ)
  }

  /** `generate_cloneflags`: insert the flag of every entry that has no path. */
  method GenerateCloneflags(ns: seq<Namespace>) returns (result: set<CloneFlag>)
    ensures result == CreationFlags(ns)
  {
    result := {};
    var i := 0;
    while i < |ns|
      invariant 0 <= i <= |ns|
      invariant result == CreationFlags(ns[..i])
    {
      CreationFlagsSnoc(ns[..i], ns[i]);
      assert ns[..i + 1] == ns[..i] + [ns[i]];
      if ns[i].path.None? {
        result := result + {GetCloneflag(ns[i].typ)};
      }
      i := i + 1;
    }
    assert ns[..i] == ns;
  }

  lemma CreationFlagsSnoc(ns: seq<Namespace>, n: Namespace)
    ensures CreationFlags(ns + [n]) == CreationFlags(ns) + (if n.path.None? then {GetCloneflag(n.typ)} else {})
  {
    var l := ns + [n];
    forall f | f in CreationFlags(l)
      ensures f in CreationFlags(ns) + (if n.path.None? then {GetCloneflag(n.typ)} else {})
    {
      var i :| 0 <= i < |l| && l[i].path.None? && GetCloneflag(l[i].typ) == f;
      if i < |ns| { assert l[i] == ns[i]; }
    }
    forall f | f in CreationFlags(ns)
      ensures f in CreationFlags(l)
    {
      var i :| 0 <= i < |ns| && ns[i].path.None? && GetCloneflag(ns[i].typ) == f;
      assert l[i] == ns[i];
    }
    if n.path.None? {
      assert l[|ns|] == n;
    }
  }

  /** A flag is generated iff some entry without a path has the matching type;
      entries with a path never contribute. */
  lemma CreationFlagsMembership(ns: seq<Namespace>, t: NamespaceType)
    ensures (GetCloneflag(t) in CreationFlags(ns)) <==>
            exists i :: 0 <= i < |ns| && ns[i].path.None? && ns[i].typ == t
  {
    if GetCloneflag(t) in CreationFlags(ns) {
      var i :| 0 <= i < |ns| && ns[i].path.None? && GetCloneflag(ns[i].typ) == GetCloneflag(t);
      CloneflagBijective(ns[i].typ, GetCloneflag(t));
      CloneflagBijective(t, GetCloneflag(t));
    }
  }

  /** The flags depend only on which entries occur: not on their order, nor on repetitions. */
  lemma CreationFlagsOrderFree(a: seq<Namespace>, b: seq<Namespace>)
    requires forall n :: n in a <==> n in b
    ensures CreationFlags(a) == CreationFlags(b)
  {
    forall f | f in CreationFlags(a) ensures f in CreationFlags(b)
    {
      var i :| 0 <= i < |a| && a[i].path.None? && GetCloneflag(a[i].typ) == f;
      assert a[i] in b;
      var j :| 0 <= j < |b| && b[j] == a[i];
    }
    forall f | f in CreationFlags(b) ensures f in CreationFlags(a)
    {
      var j :| 0 <= j < |b| && b[j].path.None? && GetCloneflag(b[j].typ) == f;
      assert b[j] in a;
      var i :| 0 <= i < |a| && a[i] == b[j];
    }
  }
}
