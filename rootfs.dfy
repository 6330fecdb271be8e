/** The container root filesystem (src/rootfs.rs): resolving a path inside the rootfs
    the way filepath-securejoin's `SecureJoinVFS` does, the propagation of the rootfs
    mount, the read-only remount of `/`, and `pivot_root`. */
module Rootfs {
  import opened Wrappers
  import opened PathBufs
  import opened Host

  /** An iteration that starts after more than this many symlink expansions aborts. */
  const SymlinkLimit: nat := 255

  /** Where a clean absolute in-container path lies on the host: the rootfs joined
      with the path without its leading `/`, cleaned. */
  function UnderRootfs(rootfs: Path, inner: Path): Path
    requires inner != []
  {
    Clean(Join(rootfs, inner[1..]))
  }

  /** One iteration of the resolver loop of `resolve_in_rootfs`, on the components
      still to walk (`unsafe_path`), those accepted so far (`destination_resolved`) and
      the number `n` of symlinks expanded so far: consume the first component, then
      start over at `/` when it cleans to `/`, accept it when it is not a symlink on
      the host, and otherwise put the link's target in front of the rest. */
  function Step(unsafe: Path, resolved: Path, n: nat, rootfs: Path, fs: Fs): (r: (Path, Path, nat))
    requires unsafe != [] && n <= SymlinkLimit
    ensures (r.2 == n && |r.0| < |unsafe|) || r.2 == n + 1
  {
    var sub, rest := unsafe[0], unsafe[1..];
    var cleanSub := Clean([RootDir] + resolved + [sub]);
    if cleanSub == [RootDir] then (rest, [], n)
    else
      var full := UnderRootfs(rootfs, cleanSub);
      if !Exists(fs, full) || !NodeAt(fs, full).value.Link? then (rest, resolved + [sub], n)
      else
        var link := NodeAt(fs, full).value.target;
        (Join(link, rest), if IsAbsolute(link) then [] else resolved, n + 1)
  }

  /** The resolver loop from one of its states: the result and the final `n`. */
  function ResolveLoop(unsafe: Path, resolved: Path, n: nat, rootfs: Path, fs: Fs): (r: (Result<Path>, nat))
    requires n <= SymlinkLimit + 1
    ensures n <= r.1 <= SymlinkLimit + 1
    ensures r.0.Err? ==> r.0.error == TooManySymlinks && r.1 == SymlinkLimit + 1
    decreases SymlinkLimit + 1 - n, |unsafe|
  {
    if unsafe == [] then (Ok(UnderRootfs(rootfs, Clean([RootDir] + resolved))), n)
    else if n > SymlinkLimit then (Err(TooManySymlinks), n)
    else
      var next := Step(unsafe, resolved, n, rootfs, fs);
      ResolveLoop(next.0, next.1, next.2, rootfs, fs)
  }

  /** One iteration of the loop that meets a component cleaning to `/`. */
  lemma ResolveStepReset(unsafe: Path, resolved: Path, n: nat, rootfs: Path, fs: Fs)
    requires unsafe != [] && n <= SymlinkLimit
    requires Clean([RootDir] + resolved + [unsafe[0]]) == [RootDir]
    ensures ResolveLoop(unsafe, resolved, n, rootfs, fs) == ResolveLoop(unsafe[1..], [], n, rootfs, fs)
  {
  }

  /** One iteration of the loop that accepts a component as it is. */
  lemma ResolveStepPlain(unsafe: Path, resolved: Path, n: nat, rootfs: Path, fs: Fs)
    requires unsafe != [] && n <= SymlinkLimit
    requires Clean([RootDir] + resolved + [unsafe[0]]) != [RootDir]
    requires var full := UnderRootfs(rootfs, Clean([RootDir] + resolved + [unsafe[0]]));
             !Exists(fs, full) || !NodeAt(fs, full).value.Link?
    ensures ResolveLoop(unsafe, resolved, n, rootfs, fs) == ResolveLoop(unsafe[1..], resolved + [unsafe[0]], n, rootfs, fs)
  {
  }

  /** One iteration of the loop that expands a symlink. */
  lemma ResolveStepLink(unsafe: Path, resolved: Path, n: nat, rootfs: Path, fs: Fs, link: Path, next: Path)
    requires unsafe != [] && n <= SymlinkLimit
    requires Clean([RootDir] + resolved + [unsafe[0]]) != [RootDir]
    requires var full := UnderRootfs(rootfs, Clean([RootDir] + resolved + [unsafe[0]]));
             Exists(fs, full) && NodeAt(fs, full).value.Link? && NodeAt(fs, full).value.target == link
    requires next == if IsAbsolute(link) then [] else resolved
    ensures ResolveLoop(unsafe, resolved, n, rootfs, fs) == ResolveLoop(Join(link, unsafe[1..]), next, n + 1, rootfs, fs)
  {
  }

  /** One iteration of the loop of `resolve_in_rootfs`: consume the first component,
      then reset, accept it, or expand the symlink it names. */
  method ResolveIteration(unsafePath: Path, resolved: Path, n: nat, rootfs: Path, fs: Fs)
    returns (unsafePath': Path, resolved': Path, n': nat)
    requires unsafePath != [] && n <= SymlinkLimit
    ensures (unsafePath', resolved', n') == Step(unsafePath, resolved, n, rootfs, fs)
  {
    var sub := unsafePath[0];
    unsafePath' := unsafePath[1..];
    var cleanSub := Clean([RootDir] + resolved + [sub]);
    if cleanSub == [RootDir] {
      return unsafePath', [], n;
    }
    var full := UnderRootfs(rootfs, cleanSub);
    if !Exists(fs, full) {
      return unsafePath', resolved + [sub], n;
    }
    var node := NodeAt(fs, full).value;
    if !node.Link? {
      return unsafePath', resolved + [sub], n;
    }
    n' := n + 1;
    resolved' := resolved;
    if IsAbsolute(node.target) {
      resolved' := [];
    }
    unsafePath' := Join(node.target, unsafePath');
  }

  /** `resolve_in_rootfs(destination_rel, rootfs)`. */
  method ResolveInRootfs(destinationRel: Path, rootfs: Path, fs: Fs) returns (r: Result<Path>)
    ensures r == ResolveLoop(destinationRel, [], 0, rootfs, fs).0
  {
    var unsafePath := destinationRel;
    var resolved: Path := [];
    var n: nat := 0;
    while unsafePath != []
      invariant n <= SymlinkLimit + 1
      invariant ResolveLoop(unsafePath, resolved, n, rootfs, fs) == ResolveLoop(destinationRel, [], 0, rootfs, fs)
      decreases SymlinkLimit + 1 - n, |unsafePath|
    {
      if n > SymlinkLimit {
        return Err(TooManySymlinks);
      }
      unsafePath, resolved, n := ResolveIteration(unsafePath, resolved, n, rootfs, fs);
    }
    return Ok(UnderRootfs(rootfs, Clean([RootDir] + resolved)));
  }

  /** A rootfs in the form `clean` leaves it: no `.`, no removable `..`, not empty. */
  predicate CleanRootfs(rootfs: Path)
  {
    rootfs != [] && CleanAcc(rootfs) == rootfs
  }

  /** Cleaning `/` followed by anything gives `/` and plain names. */
  lemma CleanRooted(p: Path)
    ensures Clean([RootDir] + p) == CleanAcc([RootDir] + p)
    ensures RootedNormal(Clean([RootDir] + p))
  {
    assert ([RootDir] + p)[0] == RootDir;
    CleanAccRooted([RootDir] + p);
  }

  /** The final join puts plain names under the rootfs. */
  lemma UnderRootfsConfined(rootfs: Path, resolved: Path)
    requires CleanRootfs(rootfs)
    ensures StartsWith(UnderRootfs(rootfs, Clean([RootDir] + resolved)), rootfs)
    ensures AllNormal(UnderRootfs(rootfs, Clean([RootDir] + resolved))[|rootfs|..])
  {
    var c := Clean([RootDir] + resolved);
    CleanRooted(resolved);
    var ns := c[1..];
    assert Join(rootfs, ns) == rootfs + ns;
    CleanAccAppendNormals(rootfs, ns);
    assert UnderRootfs(rootfs, c) == rootfs + ns;
    assert (rootfs + ns)[|rootfs|..] == ns;
  }

  /** A successful result that is the rootfs followed by plain names only. */
  predicate Confined(r: Result<Path>, rootfs: Path)
  {
    r.Ok? ==> StartsWith(r.value, rootfs) && AllNormal(r.value[|rootfs|..])
  }

  /** The result of every successful resolution lies under a clean rootfs, whatever
      symlinks (absolute, relative, pointing upwards) the filesystem holds: it is the
      rootfs followed by plain names only. */
  lemma {:induction false} ResolveConfined(unsafe: Path, resolved: Path, n: nat, rootfs: Path, fs: Fs)
    requires n <= SymlinkLimit + 1
    requires CleanRootfs(rootfs)
    ensures Confined(ResolveLoop(unsafe, resolved, n, rootfs, fs).0, rootfs)
    decreases SymlinkLimit + 1 - n, |unsafe|
  {
    if unsafe == [] {
      UnderRootfsConfined(rootfs, resolved);
    } else if n <= SymlinkLimit {
      var next := Step(unsafe, resolved, n, rootfs, fs);
      ResolveConfined(next.0, next.1, next.2, rootfs, fs);
    }
  }

  /** Without symlinks, resolution is purely lexical: the rootfs joined with the clean
      form of `/` followed by the path. */
  lemma {:induction false} ResolveWithoutLinks(unsafe: Path, resolved: Path, n: nat, rootfs: Path, fs: Fs)
    requires n <= SymlinkLimit
    requires forall q :: q in fs ==> !fs[q].Link?
    ensures ResolveLoop(unsafe, resolved, n, rootfs, fs).0 == Ok(UnderRootfs(rootfs, Clean([RootDir] + resolved + unsafe)))
    decreases |unsafe|
  {
    if unsafe == [] {
      assert [RootDir] + resolved + unsafe == [RootDir] + resolved;
    } else {
      var sub, rest := unsafe[0], unsafe[1..];
      assert unsafe == [sub] + rest;
      if Clean([RootDir] + resolved + [sub]) == [RootDir] {
        ResolveStepReset(unsafe, resolved, n, rootfs, fs);
        ResolveWithoutLinks(rest, [], n, rootfs, fs);
        CleanAfterReset(resolved, sub, rest);
      } else {
        ResolveStepPlain(unsafe, resolved, n, rootfs, fs);
        ResolveWithoutLinks(rest, resolved + [sub], n, rootfs, fs);
        assert [RootDir] + (resolved + [sub]) + rest == [RootDir] + resolved + ([sub] + rest);
      }
    }
  }

  lemma CleanAccRoot()
    ensures CleanAcc([RootDir]) == [RootDir]
  {
    assert CleanAcc([RootDir]) == CleanStep(CleanAcc([]), RootDir);
  }

  /** A prefix that cleans to `/` accumulates like `/` alone. */
  lemma ResetAccumulates(resolved: Path, sub: Component)
    requires Clean([RootDir] + resolved + [sub]) == [RootDir]
    ensures CleanAcc([RootDir] + resolved + [sub]) == CleanAcc([RootDir])
  {
    CleanRooted(resolved + [sub]);
    assert [RootDir] + (resolved + [sub]) == [RootDir] + resolved + [sub];
    CleanAccRoot();
  }

  /** When `/`, the accumulated path and a component clean to `/`, what follows them
      cleans as if it followed `/` alone. */
  lemma CleanAfterReset(resolved: Path, sub: Component, rest: Path)
    requires Clean([RootDir] + resolved + [sub]) == [RootDir]
    ensures Clean([RootDir] + [] + rest) == Clean([RootDir] + resolved + ([sub] + rest))
  {
    var prefix := [RootDir] + resolved + [sub];
    var whole := [RootDir] + resolved + ([sub] + rest);
    assert whole == prefix + rest;
    ResetAccumulates(resolved, sub);
    CleanAccCongruent([RootDir], prefix, rest);
    assert CleanAcc([RootDir] + rest) == CleanAcc(whole);
    assert [RootDir] + [] + rest == [RootDir] + rest;
    CleanRooted(rest);
    CleanRooted(resolved + ([sub] + rest));
    assert [RootDir] + (resolved + ([sub] + rest)) == whole;
  }

  /** The leading `/` of the self-referring name resets the resolved part. */
  lemma SelfLinkReset(name: string, rootfs: Path, fs: Fs, n: nat)
    requires n <= SymlinkLimit
    ensures ResolveLoop([RootDir, Normal(name)], [], n, rootfs, fs) == ResolveLoop([Normal(name)], [], n, rootfs, fs)
  {
    var root := [RootDir];
    assert CleanAcc(root) == root by {
      assert CleanAcc(root) == CleanStep(CleanAcc([]), RootDir);
    }
    assert Clean(root + [] + [RootDir]) == root by {
      CleanAccSnoc(root, RootDir);
    }
    assert [RootDir, Normal(name)][1..] == [Normal(name)];
    ResolveStepReset([RootDir, Normal(name)], [], n, rootfs, fs);
  }

  /** The name itself is the link, and it expands to its own absolute name. */
  lemma SelfLinkExpand(name: string, rootfs: Path, fs: Fs, n: nat)
    requires CleanRootfs(rootfs)
    requires rootfs + [Normal(name)] in fs
    requires fs[rootfs + [Normal(name)]] == Link([RootDir, Normal(name)], ToDir)
    requires n <= SymlinkLimit
    ensures ResolveLoop([Normal(name)], [], n, rootfs, fs) == ResolveLoop([RootDir, Normal(name)], [], n + 1, rootfs, fs)
  {
    var a := Normal(name);
    var root := [RootDir];
    var rooted := [RootDir, a];
    assert Clean(root + [] + [a]) == rooted by {
      assert root + [] + [a] == root + [a];
      CleanAccSnoc(root, a);
    }
    var full := UnderRootfs(rootfs, rooted);
    assert full == rootfs + [a] by {
      assert rooted[1..] == [a];
      CleanAccAppendNormals(rootfs, [a]);
    }
    assert Clean(full) == full by {
      CleanAccAppendNormals(rootfs, [a]);
    }
    assert NodeAt(fs, full) == Some(Link(rooted, ToDir));
    assert [a][1..] == [];
    assert Join(rooted, []) == rooted;
    ResolveStepLink([a], [], n, rootfs, fs, rooted, []);
  }

  /** A path whose resolution comes back to where it started, one more link each
      round, runs into the limit. */
  lemma {:induction false} RepeatingAborts(x: Path, rootfs: Path, fs: Fs, n: nat)
    requires x != [] && n <= SymlinkLimit + 1
    requires forall k :: n <= k <= SymlinkLimit ==> ResolveLoop(x, [], k, rootfs, fs) == ResolveLoop(x, [], k + 1, rootfs, fs)
    ensures ResolveLoop(x, [], n, rootfs, fs).0 == Err(TooManySymlinks)
    decreases SymlinkLimit + 1 - n
  {
    if n <= SymlinkLimit {
      RepeatingAborts(x, rootfs, fs, n + 1);
    }
  }

  /** A link pointing at itself by its absolute name, which the host resolves to some
      directory, is expanded again and again until the limit aborts the resolution. */
  lemma SelfLinkAborts(name: string, rootfs: Path, fs: Fs, n: nat)
    requires CleanRootfs(rootfs)
    requires rootfs + [Normal(name)] in fs
    requires fs[rootfs + [Normal(name)]] == Link([RootDir, Normal(name)], ToDir)
    requires n <= SymlinkLimit + 1
    ensures ResolveLoop([RootDir, Normal(name)], [], n, rootfs, fs).0 == Err(TooManySymlinks)
  {
    forall k | n <= k <= SymlinkLimit
      ensures ResolveLoop([RootDir, Normal(name)], [], k, rootfs, fs) == ResolveLoop([RootDir, Normal(name)], [], k + 1, rootfs, fs)
    {
      SelfLinkReset(name, rootfs, fs, k);
      SelfLinkExpand(name, rootfs, fs, k);
    }
    RepeatingAborts([RootDir, Normal(name)], rootfs, fs, n);
  }

  /** `/a/..` cleans to `/`. */
  lemma UpAgainCleans()
    ensures CleanAcc([RootDir, Normal("a"), ParentDir]) == [RootDir]
  {
    CleanAccRoot();
    CleanAccSnoc([RootDir], Normal("a"));
    assert [RootDir] + [Normal("a")] == [RootDir, Normal("a")];
    CleanAccSnoc([RootDir, Normal("a")], ParentDir);
    assert [RootDir, Normal("a")] + [ParentDir] == [RootDir, Normal("a"), ParentDir];
  }

  /** `/` followed by one plain name cleans to itself. */
  lemma RootThenName(x: Component)
    requires x.Normal?
    ensures Clean([RootDir] + [x]) == [RootDir, x]
  {
    CleanAccRoot();
    CleanAccSnoc([RootDir], x);
  }

  /** `/x` under `/a/..` is `/x`. */
  lemma UnderUpAgain(x: Component)
    requires x.Normal?
    ensures UnderRootfs([RootDir, Normal("a"), ParentDir], [RootDir, x]) == [RootDir, x]
  {
    var rootfs := [RootDir, Normal("a"), ParentDir];
    assert [RootDir, x][1..] == [x];
    assert Join(rootfs, [x]) == rootfs + [x];
    UpAgainCleans();
    CleanAccSnoc(rootfs, x);
  }

  /** With a rootfs that is not clean, the result need not start with it: `/x` in
      `/a/..` resolves to `/x`. Callers therefore check `starts_with` themselves. */
  lemma UncleanRootfsNotPrefix()
    ensures var rootfs := [RootDir, Normal("a"), ParentDir];
            var r := ResolveLoop([RootDir, Normal("x")], [], 0, rootfs, map[]).0;
            r == Ok([RootDir, Normal("x")]) && !StartsWith(r.value, rootfs)
  {
    var rootfs := [RootDir, Normal("a"), ParentDir];
    var x := Normal("x");
    CleanAccRoot();
    assert Clean([RootDir] + [] + [RootDir]) == [RootDir] by {
      CleanAccSnoc([RootDir], RootDir);
    }
    assert [RootDir] + [] + [x] == [RootDir] + [x];
    RootThenName(x);
    UnderUpAgain(x);
    ResolveStepReset([RootDir, x], [], 0, rootfs, map[]);
    assert [RootDir, x][1..] == [x];
    ResolveStepPlain([x], [], 0, rootfs, map[]);
    assert [x][1..] == [] && [] + [x] == [x];
    assert ResolveLoop([], [x], 0, rootfs, map[]).0 == Ok([RootDir, x]);
  }

  // ---------------------------------------------------------------------
  // mount_rootfs, set_rootfs_read_only, pivot_root
  // ---------------------------------------------------------------------

  /** The propagation flag for the value of `linux.rootfsPropagation`. */
  function RootfsPropagation(value: Option<string>): (r: Result<MsFlag>)
  {
    match value
    case None => Ok(Slave)
    case Some(v) =>
      if v == "shared" then Ok(Shared)
      else if v == "slave" then Ok(Slave)
      else if v == "private" then Ok(Private)
      else if v == "unbindable" then Ok(Unbindable)
      else Err(UnknownRootfsPropagation(v))
  }

  /** The name under which the runtime spec spells a propagation flag. */
  function PropagationName(f: MsFlag): string
    requires f in {Shared, Slave, Private, Unbindable}
  {
    match f
    case Shared => "shared"
    case Slave => "slave"
    case Private => "private"
    case Unbindable => "unbindable"
  }

  /** Each of the four names selects its own flag, an absent value means slave, and
      every other value aborts. */
  lemma RootfsPropagationNames(f: MsFlag, v: string)
    requires f in {Shared, Slave, Private, Unbindable}
    ensures RootfsPropagation(Some(PropagationName(f))) == Ok(f)
    ensures RootfsPropagation(None) == Ok(Slave)
    ensures RootfsPropagation(Some(v)).Ok? <==> v in {"shared", "slave", "private", "unbindable"}
    ensures RootfsPropagation(Some(v)).Ok? ==> PropagationName(RootfsPropagation(Some(v)).value) == v
  {
  }

  /** The calls of `mount_rootfs`. */
  function RootfsMounts(propagation: Option<string>, rootfsPath: Path): Result<seq<Effect>>
  {
    var p :- RootfsPropagation(propagation);
    Ok([Mount(None, AtPath([RootDir]), None, {Rec, p}, None),
        Mount(Some(rootfsPath), AtPath(rootfsPath), Some("bind"), {Bind, Rec}, None)])
  }

  /** `mount_rootfs`: make `/` recursively shared/slave/private/unbindable, then bind
      the rootfs onto itself. */
  method MountRootfs(propagation: Option<string>, rootfsPath: Path) returns (r: Result<seq<Effect>>)
    ensures r == RootfsMounts(propagation, rootfsPath)
    ensures r.Ok? <==> RootfsPropagation(propagation).Ok?
    ensures r.Err? ==> r.error == RootfsPropagation(propagation).error
    ensures r.Ok? ==> r.value == [
      Mount(None, AtPath([RootDir]), None, {Rec, RootfsPropagation(propagation).value}, None),
      Mount(Some(rootfsPath), AtPath(rootfsPath), Some("bind"), {Bind, Rec}, None)]
  {
    var flags: set<MsFlag> := {};
    flags := flags + {Rec};
    var p := RootfsPropagation(propagation);
    if p.Err? {
      return Err(p.error);
    }
    flags := flags + {p.value};
    assert flags == {Rec, p.value};
    var bindFlags: set<MsFlag> := {};
    bindFlags := bindFlags + {Bind};
    bindFlags := bindFlags + {Rec};
    assert bindFlags == {Bind, Rec};
    r := Ok([Mount(None, AtPath([RootDir]), None, flags, None),
             Mount(Some(rootfsPath), AtPath(rootfsPath), Some("bind"), bindFlags, None)]);
  }

  /** The flags of the read-only remount of `/`. */
  const ReadOnlyFlags: set<MsFlag> := {Bind, Remount, Rdonly}

  /** The calls of `set_rootfs_read_only` when it goes through. */
  function ReadOnlyRemount(firstMountFails: bool, statvfsFlags: set<MsFlag>, statvfsUnknownBits: bool): Result<seq<Effect>>
  {
    var first := Mount(None, AtPath([RootDir]), None, ReadOnlyFlags, None);
    if !firstMountFails then Ok([first])
    else if statvfsUnknownBits then Err(RemountCombineFailed)
    else Ok([first, Mount(None, AtPath([RootDir]), None, ReadOnlyFlags + statvfsFlags, None)])
  }

  /** `set_rootfs_read_only`: remount `/` read-only; only if that fails, retry with the
      flags `statvfs("/")` reports added. `statvfsFlags` are those flags,
      `statvfsUnknownBits` says whether it reported bits that are no `MS_*` flag. */
  method SetRootfsReadOnly(firstMountFails: bool, statvfsFlags: set<MsFlag>, statvfsUnknownBits: bool)
    returns (r: Result<()>, trace: seq<Effect>)
    ensures |trace| >= 1 && trace[0] == Mount(None, AtPath([RootDir]), None, ReadOnlyFlags, None)
    ensures !firstMountFails ==> r.Ok? && |trace| == 1
    ensures firstMountFails && statvfsUnknownBits ==> r == Err(RemountCombineFailed) && |trace| == 1
    ensures firstMountFails && !statvfsUnknownBits ==>
              r.Ok? && trace == [trace[0], Mount(None, AtPath([RootDir]), None, ReadOnlyFlags + statvfsFlags, None)]
    ensures forall i :: 0 <= i < |trace| ==> trace[i].Mount? && Rdonly in trace[i].flags
    ensures r.Ok? <==> ReadOnlyRemount(firstMountFails, statvfsFlags, statvfsUnknownBits).Ok?
    ensures r.Ok? ==> trace == ReadOnlyRemount(firstMountFails, statvfsFlags, statvfsUnknownBits).value
  {
    var flags: set<MsFlag> := {Bind};
    flags := flags + {Remount};
    flags := flags + {Rdonly};
    trace := [Mount(None, AtPath([RootDir]), None, flags, None)];
    if firstMountFails {
      if statvfsUnknownBits {
        return Err(RemountCombineFailed), trace;
      }
      var combined := flags + statvfsFlags;
      trace := trace + [Mount(None, AtPath([RootDir]), None, combined, None)];
    }
    r := Ok(());
  }

  /** `pivot_root(rootfs)`: enter the new root, pivot, make the old root a recursive
      slave and detach it, then go to `/`. */
  function PivotRoot(rootfs: Path): (r: seq<Effect>)
    ensures exists i, j, k :: 0 <= i < j < k < |r| && r[i] == PivotRootHere &&
              r[j] == Mount(None, AtPath([CurDir]), None, {Slave, Rec}, None) &&
              r[k] == UnmountDetach([CurDir])
    ensures r[|r| - 1] == Chdir([RootDir])
  {
    var r := [OpenDirectory([RootDir]), OpenDirectory(rootfs), Fchdir(rootfs), PivotRootHere,
     Fchdir([RootDir]), Mount(None, AtPath([CurDir]), None, {Slave, Rec}, None),
     UnmountDetach([CurDir]), Chdir([RootDir])];
    assert r[3] == PivotRootHere && r[5].Mount? && r[6] == UnmountDetach([CurDir]);
    r
  }
}
