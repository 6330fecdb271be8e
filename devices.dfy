/** Device nodes of the container (src/devices.rs): the default devices merged with
    the configured ones, the nodes created for them, `/dev/net/tun`, the host
    devices bind-mounted for hermit, `/dev/ptmx` and the `/dev` symlinks. */
module Devices {
  import opened Wrappers
  import opened PathBufs
  import opened Host
  import opened Rootfs
  import opened Mounts

  /** `LinuxDeviceType`: character, block, FIFO, unbuffered character, and all. */
  datatype LinuxDeviceType = C | B | P | U | A

  /** One `linux.devices` entry. */
  datatype LinuxDevice = LinuxDevice(path: Path, typ: LinuxDeviceType, major: int, minor: int,
                                     fileMode: Option<nat>, uid: Option<nat>, gid: Option<nat>)

  /** File modes, in octal in the source: 0o666, 0o755 and the first value past the
      permission bits, 0o10000. */
  const Mode0666: int := 438
  const Mode0755: int := 493
  const ModeLimit: int := 4096

  function CharDevice0666(name: string, major: int, minor: int): LinuxDevice
  {
    LinuxDevice(Abs(["dev", name]), C, major, minor, Some(Mode0666), Some(0), Some(0))
  }

  /** The devices every container gets. */
  const DefaultDevices: seq<LinuxDevice> := [
    CharDevice0666("null", 1, 3),
    CharDevice0666("zero", 1, 5),
    CharDevice0666("full", 1, 7),
    CharDevice0666("random", 1, 8),
    CharDevice0666("urandom", 1, 9),
    CharDevice0666("tty", 5, 0)
  ]

  // ---------------------------------------------------------------------
  // Merging the configured devices with the defaults
  // ---------------------------------------------------------------------

  /** Insert `d` in front of the first entry whose path is not smaller. */
  function Insert(d: LinuxDevice, s: seq<LinuxDevice>): (r: seq<LinuxDevice>)
    ensures multiset(r) == multiset(s) + multiset{d}
  {
    if s == [] || !PathLess(s[0].path, d.path) then [d] + s
    else
      assert s == [s[0]] + s[1..];
      [s[0]] + Insert(d, s[1..])
  }

  /** `sort_by_key(path)`: a stable sort by path. */
  function SortByPath(xs: seq<LinuxDevice>): (r: seq<LinuxDevice>)
    ensures multiset(r) == multiset(xs)
  {
    if xs == [] then []
    else
      assert xs == [xs[0]] + xs[1..];
      Insert(xs[0], SortByPath(xs[1..]))
  }

  /** `dedup_by_key(path)`: of consecutive entries with the same path, keep the first. */
  function DedupByPath(s: seq<LinuxDevice>): seq<LinuxDevice>
    decreases |s|
  {
    if |s| <= 1 then s
    else if s[0].path == s[1].path then DedupByPath([s[0]] + s[2..])
    else [s[0]] + DedupByPath(s[1..])
  }

  /** The devices `create_devices` walks through: the defaults alone, or the
      configured devices followed by the defaults, sorted and deduplicated. */
  function MergeDevices(specDevices: Option<seq<LinuxDevice>>): seq<LinuxDevice>
  {
    match specDevices
    case None => DefaultDevices
    case Some(sd) => DedupByPath(SortByPath(sd + DefaultDevices))
  }

  /** The first entry with path `p`. */
  function FirstWith(xs: seq<LinuxDevice>, p: Path): (r: Option<LinuxDevice>)
    ensures r.Some? ==> r.value in xs && r.value.path == p
  {
    if xs == [] then None
    else if xs[0].path == p then Some(xs[0])
    else FirstWith(xs[1..], p)
  }

  predicate Sorted(s: seq<LinuxDevice>)
  {
    forall i, j :: 0 <= i < j < |s| ==> !PathLess(s[j].path, s[i].path)
  }

  predicate StrictlySorted(s: seq<LinuxDevice>)
  {
    forall i, j :: 0 <= i < j < |s| ==> PathLess(s[i].path, s[j].path)
  }

  /** No entry of `s` has a path smaller than `p`. */
  predicate NoneBelow(p: Path, s: seq<LinuxDevice>)
  {
    forall i :: 0 <= i < |s| ==> !PathLess(s[i].path, p)
  }

  /** "Not below" is transitive. */
  lemma NotBelowTransitive(a: Path, b: Path, c: Path)
    requires !PathLess(b, a) && !PathLess(c, b)
    ensures !PathLess(c, a)
  {
    if a != b && c != b {
      PathLessTotal(a, b);
      PathLessTotal(c, b);
      PathLessTransitive(a, b, c);
      PathLessAsymmetric(a, c);
    }
  }

  lemma {:induction false} InsertNoneBelow(p: Path, d: LinuxDevice, s: seq<LinuxDevice>)
    requires NoneBelow(p, s) && !PathLess(d.path, p)
    ensures NoneBelow(p, Insert(d, s))
  {
    var r := Insert(d, s);
    forall i | 0 <= i < |r| ensures !PathLess(r[i].path, p)
    {
      assert r[i] in multiset(r);
      assert r[i] in multiset(s) || r[i] == d;
      if r[i] != d {
        var k :| 0 <= k < |s| && s[k] == r[i];
      }
    }
  }

  lemma {:induction false} InsertSorted(d: LinuxDevice, s: seq<LinuxDevice>)
    requires Sorted(s)
    ensures Sorted(Insert(d, s))
  {
    if s == [] || !PathLess(s[0].path, d.path) {
      var r := [d] + s;
      forall i, j | 0 <= i < j < |r| ensures !PathLess(r[j].path, r[i].path)
      {
        if i == 0 {
          if j > 1 { NotBelowTransitive(d.path, s[0].path, s[j - 1].path); }
        } else {
          assert r[i] == s[i - 1] && r[j] == s[j - 1];
        }
      }
    } else {
      InsertSorted(d, s[1..]);
      var rest := Insert(d, s[1..]);
      assert NoneBelow(s[0].path, s[1..]);
      PathLessAsymmetric(s[0].path, d.path);
      InsertNoneBelow(s[0].path, d, s[1..]);
      var r := [s[0]] + rest;
      forall i, j | 0 <= i < j < |r| ensures !PathLess(r[j].path, r[i].path)
      {
        if i > 0 { assert r[i] == rest[i - 1] && r[j] == rest[j - 1]; }
        else { assert r[j] == rest[j - 1]; }
      }
    }
  }

  lemma {:induction false} SortByPathSorted(xs: seq<LinuxDevice>)
    ensures Sorted(SortByPath(xs))
  {
    if xs != [] {
      SortByPathSorted(xs[1..]);
      InsertSorted(xs[0], SortByPath(xs[1..]));
    }
  }

  /** `Insert` puts the new entry before every entry with the same path. */
  lemma {:induction false} InsertFirstWith(d: LinuxDevice, s: seq<LinuxDevice>, p: Path)
    ensures FirstWith(Insert(d, s), p) == if d.path == p then Some(d) else FirstWith(s, p)
  {
    if s != [] && PathLess(s[0].path, d.path) {
      PathLessIrreflexive(d.path);
      InsertFirstWith(d, s[1..], p);
      var r := Insert(d, s);
      assert r[1..] == Insert(d, s[1..]);
    } else {
      assert ([d] + s)[1..] == s;
    }
  }

  /** The sort is stable: for every path, the first entry with it stays the first. */
  lemma {:induction false} SortByPathStable(xs: seq<LinuxDevice>, p: Path)
    ensures FirstWith(SortByPath(xs), p) == FirstWith(xs, p)
  {
    if xs != [] {
      SortByPathStable(xs[1..], p);
      InsertFirstWith(xs[0], SortByPath(xs[1..]), p);
    }
  }

  lemma {:induction false} DedupSubset(s: seq<LinuxDevice>)
    ensures forall e: LinuxDevice :: e in DedupByPath(s) ==> e in s
    decreases |s|
  {
    if |s| > 1 {
      if s[0].path == s[1].path {
        DedupSubset([s[0]] + s[2..]);
      } else {
        DedupSubset(s[1..]);
      }
    }
  }

  /** Deduplicating a sorted list keeps exactly the first entry of every path,
      and leaves the paths strictly increasing. */
  lemma {:induction false} DedupSorted(s: seq<LinuxDevice>)
    requires Sorted(s)
    ensures StrictlySorted(DedupByPath(s))
    ensures forall e: LinuxDevice :: e in DedupByPath(s) <==> FirstWith(s, e.path) == Some(e)
    decreases |s|, 1
  {
    if |s| == 1 {
      assert s[1..] == [];
    } else if |s| > 1 {
      if s[0].path == s[1].path {
        DedupSortedRepeat(s);
      } else {
        DedupSortedFresh(s);
      }
    }
  }

  /** A repeated head: the second entry is dropped, and it was never the first of its path. */
  lemma {:induction false} DedupSortedRepeat(s: seq<LinuxDevice>)
    requires Sorted(s) && |s| > 1 && s[0].path == s[1].path
    ensures StrictlySorted(DedupByPath(s))
    ensures forall e: LinuxDevice :: e in DedupByPath(s) <==> FirstWith(s, e.path) == Some(e)
    decreases |s|, 0
  {
    var t := [s[0]] + s[2..];
    assert Sorted(t) by {
      forall i, j | 0 <= i < j < |t| ensures !PathLess(t[j].path, t[i].path)
      {
        if i == 0 { assert t[j] == s[j + 1]; }
        else { assert t[i] == s[i + 1] && t[j] == s[j + 1]; }
      }
    }
    DedupSorted(t);
    forall q ensures FirstWith(t, q) == FirstWith(s, q)
    {
      assert t[1..] == s[2..];
      assert s[1..][1..] == s[2..];
    }
  }

  /** In a sorted list whose first two paths differ, the first path is below all others. */
  lemma HeadBelowRest(s: seq<LinuxDevice>)
    requires Sorted(s) && |s| > 1 && s[0].path != s[1].path
    ensures forall k :: 1 <= k < |s| ==> PathLess(s[0].path, s[k].path)
  {
    PathLessTotal(s[0].path, s[1].path);
    forall k | 1 < k < |s| ensures PathLess(s[0].path, s[k].path)
    {
      if s[k].path != s[1].path {
        PathLessTotal(s[k].path, s[1].path);
        PathLessTransitive(s[0].path, s[1].path, s[k].path);
      }
    }
  }

  lemma ConsStrictlySorted(d: LinuxDevice, s: seq<LinuxDevice>)
    requires StrictlySorted(s)
    requires forall x :: x in s ==> PathLess(d.path, x.path)
    ensures StrictlySorted([d] + s)
  {
    var r := [d] + s;
    forall i, j | 0 <= i < j < |r| ensures PathLess(r[i].path, r[j].path)
    {
      assert r[j] == s[j - 1];
      if i > 0 { assert r[i] == s[i - 1]; }
    }
  }

  /** A head of its own: it is kept, and everything after it is larger. */
  lemma {:induction false} DedupSortedFresh(s: seq<LinuxDevice>)
    requires Sorted(s) && |s| > 1 && s[0].path != s[1].path
    ensures StrictlySorted(DedupByPath(s))
    ensures forall e: LinuxDevice :: e in DedupByPath(s) <==> FirstWith(s, e.path) == Some(e)
    decreases |s|, 0
  {
    var rest := s[1..];
    assert Sorted(rest);
    DedupSorted(rest);
    DedupSubset(rest);
    HeadBelowRest(s);
    var dr := DedupByPath(rest);
    assert forall x :: x in dr ==> PathLess(s[0].path, x.path);
    var r := DedupByPath(s);
    assert r == [s[0]] + dr;
    ConsStrictlySorted(s[0], dr);
    forall e: LinuxDevice ensures e in r <==> FirstWith(s, e.path) == Some(e)
    {
      if e.path == s[0].path {
        PathLessIrreflexive(s[0].path);
        assert e !in dr;
      }
    }
  }

  lemma {:induction false} FirstWithAppend(a: seq<LinuxDevice>, b: seq<LinuxDevice>, p: Path)
    ensures FirstWith(a + b, p) == if FirstWith(a, p).Some? then FirstWith(a, p) else FirstWith(b, p)
  {
    if a != [] {
      assert (a + b)[1..] == a[1..] + b;
      FirstWithAppend(a[1..], b, p);
    } else {
      assert a + b == b;
    }
  }

  /** The entry that should survive for path `p`: the first configured one, or else
      the default one. */
  function Winner(sd: seq<LinuxDevice>, p: Path): Option<LinuxDevice>
  {
    if FirstWith(sd, p).Some? then FirstWith(sd, p) else FirstWith(DefaultDevices, p)
  }

  /** The merged list is sorted by path with one entry per path; that entry is the
      configured one when the path is configured, the default one otherwise. */
  lemma MergeDevicesSpec(sd: seq<LinuxDevice>)
    ensures StrictlySorted(MergeDevices(Some(sd)))
    ensures forall e: LinuxDevice :: e in MergeDevices(Some(sd)) <==> Winner(sd, e.path) == Some(e)
  {
    var all := sd + DefaultDevices;
    SortByPathSorted(all);
    DedupSorted(SortByPath(all));
    forall e: LinuxDevice ensures FirstWith(SortByPath(all), e.path) == FirstWith(all, e.path)
    {
      SortByPathStable(all, e.path);
      FirstWithAppend(sd, DefaultDevices, e.path);
    }
    forall e: LinuxDevice ensures FirstWith(all, e.path) == Winner(sd, e.path)
    {
      FirstWithAppend(sd, DefaultDevices, e.path);
    }
  }

  /** Every configured or default path is created: the merged list covers them all. */
  lemma MergeDevicesCovers(sd: seq<LinuxDevice>, d: LinuxDevice)
    requires d in sd + DefaultDevices
    ensures exists e :: e in MergeDevices(Some(sd)) && e.path == d.path
  {
    var all := sd + DefaultDevices;
    var k :| 0 <= k < |all| && all[k] == d;
    FirstWithSome(all, k);
    SortByPathStable(all, d.path);
    SortByPathSorted(all);
    DedupSorted(SortByPath(all));
    var e := FirstWith(all, d.path).value;
    assert e in MergeDevices(Some(sd));
  }

  lemma {:induction false} FirstWithSome(xs: seq<LinuxDevice>, k: nat)
    requires k < |xs|
    ensures FirstWith(xs, xs[k].path).Some?
  {
    if k > 0 && xs[0].path != xs[k].path {
      assert xs[1..][k - 1] == xs[k];
      FirstWithSome(xs[1..], k - 1);
    }
  }

  // ---------------------------------------------------------------------
  // create_devices
  // ---------------------------------------------------------------------

  /** Devices at or below this path are left to `setup_ptmx`. */
  const PtmxPath: Path := Abs(["dev", "ptmx"])

  /** The node kind `mknod` is given for a device type; none for type A. */
  function KindOf(t: LinuxDeviceType): Option<DevKind>
  {
    match t
    case C => Some(CharDevice)
    case B => Some(BlockDevice)
    case P => Some(Fifo)
    case U => Some(CharDevice)
    case A => None
  }

  /** The mode of a device: 0o666 unless given. */
  function ModeOf(d: LinuxDevice): nat
  {
    if d.fileMode.Some? then d.fileMode.value else Mode0666
  }

  /** The checks made before `mknod`, in source order: the type, the mode (only
      permission bits, `Mode::from_bits`), the numbers (`try_into` an unsigned). */
  function NodeChecks(d: LinuxDevice): (r: Result<(DevKind, nat)>)
  {
    match KindOf(d.typ)
    case None => Err(DeviceTypeAllUnsupported)
    case Some(kind) =>
      if ModeOf(d) >= ModeLimit then Err(InvalidFileMode)
      else if d.major < 0 || d.minor < 0 then Err(InvalidDeviceNumber)
      else Ok((kind, ModeOf(d)))
  }

  /** A device passes the checks iff it is not of type A, its mode holds only
      permission bits, and its numbers are not negative; the first failing check names
      the error. */
  lemma NodeChecksIff(d: LinuxDevice)
    ensures NodeChecks(d).Ok? <==> d.typ != A && ModeOf(d) < ModeLimit && d.major >= 0 && d.minor >= 0
    ensures d.typ == A ==> NodeChecks(d) == Err(DeviceTypeAllUnsupported)
    ensures d.typ != A && ModeOf(d) >= ModeLimit ==> NodeChecks(d) == Err(InvalidFileMode)
    ensures NodeChecks(d).Ok? ==> NodeChecks(d).value.1 == ModeOf(d)
                                  && (d.typ == B <==> NodeChecks(d).value.0 == BlockDevice)
                                  && (d.typ == P <==> NodeChecks(d).value.0 == Fifo)
  {
  }

  /** `mknod` and `chown` at the resolved `dest` once its parent exists: `mknod`
      fails when something is already there. */
  function MakeNode(d: LinuxDevice, dest: Path, fs: Fs): Result<(seq<Effect>, Fs)>
  {
    var checked :- NodeChecks(d);
    if NodeAt(fs, dest).Some? then Err(MknodFailed)
    else Ok(([Mknod(dest, checked.0, checked.1, d.major, d.minor), Chown(dest, d.uid, d.gid)],
             fs[Clean(dest) := Device(checked.0, d.major, d.minor)]))
  }

  /** One iteration of the loop of `create_devices`: the calls made and the
      filesystem afterwards. */
  function DevicePlan(d: LinuxDevice, rootfs: Path, fs: Fs): Result<(seq<Effect>, Fs)>
  {
    if StartsWith(d.path, PtmxPath) then Ok(([], fs))
    else DeviceAt(d, ResolveLoop(d.path, [], 0, rootfs, fs).0, rootfs, fs)
  }

  /** The rest of the iteration once the path is resolved: the rootfs check, the
      parent directories, then the node. */
  function DeviceAt(d: LinuxDevice, resolved: Result<Path>, rootfs: Path, fs: Fs): Result<(seq<Effect>, Fs)>
  {
    var dest :- resolved;
    if !StartsWith(dest, rootfs) then Err(DeviceOutsideRootfs)
    else match Parent(dest)
      case None => Err(NoParentDir)
      case Some(parent) =>
        var made :- MakeNode(d, dest, MkdirAll(fs, parent));
        Ok(([CreateDirAll(parent)] + made.0, made.1))
  }

  /** The devices one after another. */
  function CreateFold(devs: seq<LinuxDevice>, rootfs: Path, fs: Fs): Result<(seq<Effect>, Fs)>
  {
    if devs == [] then Ok(([], fs))
    else
      var prev :- CreateFold(devs[..|devs| - 1], rootfs, fs);
      var out :- DevicePlan(devs[|devs| - 1], rootfs, prev.1);
      Ok((prev.0 + out.0, out.1))
  }

  /** The body of the loop of `create_devices`. */
  method CreateDevice(d: LinuxDevice, rootfs: Path, fs: Fs) returns (r: Result<(seq<Effect>, Fs)>)
    ensures r == DevicePlan(d, rootfs, fs)
  {
    if StartsWith(d.path, PtmxPath) {
      return Ok(([], fs));
    }
    var dest :- ResolveInRootfs(d.path, rootfs, fs);
    if !StartsWith(dest, rootfs) {
      return Err(DeviceOutsideRootfs);
    }
    var parent := Parent(dest);
    if parent.None? {
      return Err(NoParentDir);
    }
    var fs1 := MkdirAll(fs, parent.value);
    var kind := KindOf(d.typ);
    if kind.None? {
      return Err(DeviceTypeAllUnsupported);
    }
    var mode := if d.fileMode.Some? then d.fileMode.value else Mode0666;
    if mode >= ModeLimit {
      return Err(InvalidFileMode);
    }
    if d.major < 0 || d.minor < 0 {
      return Err(InvalidDeviceNumber);
    }
    if NodeAt(fs1, dest).Some? {
      return Err(MknodFailed);
    }
    var made := [Mknod(dest, kind.value, mode, d.major, d.minor), Chown(dest, d.uid, d.gid)];
    var fs2 := fs1[Clean(dest) := Device(kind.value, d.major, d.minor)];
    assert MakeNode(d, dest, fs1) == Ok((made, fs2));
    return Ok(([CreateDirAll(parent.value)] + made, fs2));
  }

  /** `create_devices`: the merged list, device by device. */
  method CreateDevices(specDevices: Option<seq<LinuxDevice>>, rootfs: Path, fs: Fs)
    returns (r: Result<(seq<Effect>, Fs)>)
    ensures r == CreateFold(MergeDevices(specDevices), rootfs, fs)
  {
    var all := DefaultDevices;
    if specDevices.Some? {
      all := DedupByPath(SortByPath(specDevices.value + DefaultDevices));
    }
    r := CreateEach(all, rootfs, fs);
  }

  /** The loop of `create_devices` over the merged list. */
  method CreateEach(all: seq<LinuxDevice>, rootfs: Path, fs: Fs) returns (r: Result<(seq<Effect>, Fs)>)
    ensures r == CreateFold(all, rootfs, fs)
  {
    r := Ok(([], fs));
    var i := 0;
    while i < |all| && r.Ok?
      invariant 0 <= i <= |all|
      invariant r == CreateFold(all[..i], rootfs, fs)
    {
      var trace, fs' := r.value.0, r.value.1;
      CreateFoldStep(all, i, rootfs, fs, trace, fs');
      var out := CreateDevice(all[i], rootfs, fs');
      if out.Err? {
        r := Err(out.error);
      } else {
        r := Ok((trace + out.value.0, out.value.1));
      }
      i := i + 1;
    }
    CreateAbortSticks(all, i, rootfs, fs);
    assert all[..|all|] == all;
  }

  lemma CreateFoldStep(devs: seq<LinuxDevice>, i: nat, rootfs: Path, fs: Fs, trace: seq<Effect>, fs': Fs)
    requires i < |devs| && CreateFold(devs[..i], rootfs, fs) == Ok((trace, fs'))
    ensures var out := DevicePlan(devs[i], rootfs, fs');
            CreateFold(devs[..i + 1], rootfs, fs) == if out.Err? then Err(out.error) else Ok((trace + out.value.0, out.value.1))
  {
    assert devs[..i + 1][..i] == devs[..i];
  }

  /** Once a device aborts, the devices after it change nothing. */
  lemma {:induction false} CreateAbortSticks(devs: seq<LinuxDevice>, k: nat, rootfs: Path, fs: Fs)
    requires k <= |devs|
    ensures CreateFold(devs[..k], rootfs, fs).Err? ==> CreateFold(devs, rootfs, fs) == CreateFold(devs[..k], rootfs, fs)
    decreases |devs| - k
  {
    assert devs[..|devs|] == devs;
    if k < |devs| && CreateFold(devs[..k], rootfs, fs).Err? {
      var longer := devs[..k + 1];
      assert longer[..|longer| - 1] == devs[..k];
      CreateAbortSticks(devs, k + 1, rootfs, fs);
    }
  }

  // ---------------------------------------------------------------------
  // What create_devices promises
  // ---------------------------------------------------------------------

  /** Nothing that was in `fs` is changed or removed in `fs'`. */
  predicate Extends(fs: Fs, fs': Fs)
  {
    forall q :: q in fs ==> q in fs' && fs'[q] == fs[q]
  }

  /** What is new in `fs'` is a directory or a device node. */
  predicate OnlyDirsAndDevices(fs: Fs, fs': Fs)
  {
    forall q :: q in fs' && q !in fs ==> fs'[q] == Dir || fs'[q].Device?
  }

  /** One device that is not skipped: its parent directories, then `mknod` with its
      kind, mode and numbers, then `chown`, all at its resolved path inside the rootfs,
      where there was nothing before. */
  lemma DeviceAtCreates(d: LinuxDevice, dest: Path, rootfs: Path, fs: Fs)
    requires DeviceAt(d, Ok(dest), rootfs, fs).Ok?
    ensures var out := DeviceAt(d, Ok(dest), rootfs, fs).value;
            && StartsWith(dest, rootfs) && Parent(dest).Some?
            && NodeChecks(d).Ok? && NodeAt(MkdirAll(fs, Parent(dest).value), dest).None?
            && out.0 == [CreateDirAll(Parent(dest).value),
                         Mknod(dest, KindOf(d.typ).value, ModeOf(d), d.major, d.minor),
                         Chown(dest, d.uid, d.gid)]
            && NodeAt(out.1, dest) == Some(Device(KindOf(d.typ).value, d.major, d.minor))
            && Extends(fs, out.1) && OnlyDirsAndDevices(fs, out.1)
  {
    var parent := Parent(dest).value;
    MkdirAllEffect(fs, parent);
    var fs1 := MkdirAll(fs, parent);
    assert MakeNode(d, dest, fs1).Ok?;
    assert Clean(dest) !in fs1;
  }

  /** A device that fails the checks aborts with the first failed check, once its
      destination is resolved inside the rootfs. */
  lemma DeviceAtAborts(d: LinuxDevice, dest: Path, rootfs: Path, fs: Fs)
    requires NodeChecks(d).Err? && StartsWith(dest, rootfs) && Parent(dest).Some?
    ensures DeviceAt(d, Ok(dest), rootfs, fs) == Err(NodeChecks(d).error)
  {
  }

  /** The node spec of a `mknod` call: kind, mode, major, minor. */
  datatype NodeSpec = NodeSpec(kind: DevKind, mode: nat, major: int, minor: int)

  /** The `mknod` calls of a trace, in order. */
  function Made(trace: seq<Effect>): seq<NodeSpec>
  {
    if trace == [] then []
    else
      var e := trace[|trace| - 1];
      Made(trace[..|trace| - 1]) + (if e.Mknod? && e.mode >= 0 then [NodeSpec(e.kind, e.mode, e.major, e.minor)] else [])
  }

  lemma {:induction false} MadeAppend(a: seq<Effect>, b: seq<Effect>)
    ensures Made(a + b) == Made(a) + Made(b)
    decreases |b|
  {
    if b == [] {
      assert a + b == a;
    } else {
      var init := b[..|b| - 1];
      assert (a + b)[..|a + b| - 1] == a + init;
      MadeAppend(a, init);
    }
  }

  /** The node specs the devices ask for: one per device not skipped as `/dev/ptmx`. */
  function Expected(devs: seq<LinuxDevice>): seq<NodeSpec>
    requires forall i :: 0 <= i < |devs| && !StartsWith(devs[i].path, PtmxPath) ==> KindOf(devs[i].typ).Some?
  {
    if devs == [] then []
    else
      var d := devs[|devs| - 1];
      Expected(devs[..|devs| - 1])
      + (if StartsWith(d.path, PtmxPath) then [] else [NodeSpec(KindOf(d.typ).value, ModeOf(d), d.major, d.minor)])
  }

  /** The calls for one device hold one `mknod`. */
  lemma MadeOfDevice(parent: Path, dest: Path, kind: DevKind, mode: nat, major: int, minor: int,
                     uid: Option<nat>, gid: Option<nat>)
    ensures Made([CreateDirAll(parent), Mknod(dest, kind, mode, major, minor), Chown(dest, uid, gid)])
            == [NodeSpec(kind, mode, major, minor)]
  {
    var e := Mknod(dest, kind, mode, major, minor);
    var a := [CreateDirAll(parent)];
    var b := a + [e];
    var c := b + [Chown(dest, uid, gid)];
    assert Made(a) == [] by { assert a[..0] == []; }
    assert Made(b) == [NodeSpec(kind, mode, major, minor)] by { assert b[..1] == a; }
    assert Made(c) == Made(b) by { assert c[..2] == b; }
    assert c == [CreateDirAll(parent), e, Chown(dest, uid, gid)];
  }

  /** `Expected` of a list with one more device. */
  lemma ExpectedSnoc(init: seq<LinuxDevice>, d: LinuxDevice)
    requires forall i :: 0 <= i < |init| && !StartsWith(init[i].path, PtmxPath) ==> KindOf(init[i].typ).Some?
    requires !StartsWith(d.path, PtmxPath) ==> KindOf(d.typ).Some?
    ensures forall i :: 0 <= i < |init + [d]| && !StartsWith((init + [d])[i].path, PtmxPath) ==> KindOf((init + [d])[i].typ).Some?
    ensures Expected(init + [d]) == Expected(init)
              + (if StartsWith(d.path, PtmxPath) then [] else [NodeSpec(KindOf(d.typ).value, ModeOf(d), d.major, d.minor)])
  {
    var l := init + [d];
    forall i | 0 <= i < |l| && !StartsWith(l[i].path, PtmxPath) ensures KindOf(l[i].typ).Some?
    {
      if i < |init| { assert l[i] == init[i]; }
    }
    assert l[..|l| - 1] == init;
  }

  /** `create_devices` makes, in list order, exactly one node per device that is not
      skipped, with that device's kind, mode and numbers; the filesystem keeps all it
      had and gains only directories and device nodes. */
  lemma {:induction false} CreateFoldMakes(devs: seq<LinuxDevice>, rootfs: Path, fs: Fs)
    requires CreateFold(devs, rootfs, fs).Ok?
    ensures forall i :: 0 <= i < |devs| && !StartsWith(devs[i].path, PtmxPath) ==> KindOf(devs[i].typ).Some?
    ensures Made(CreateFold(devs, rootfs, fs).value.0) == Expected(devs)
    ensures Extends(fs, CreateFold(devs, rootfs, fs).value.1)
    ensures OnlyDirsAndDevices(fs, CreateFold(devs, rootfs, fs).value.1)
  {
    if devs != [] {
      var init, d := devs[..|devs| - 1], devs[|devs| - 1];
      assert devs == init + [d];
      CreateFoldMakes(init, rootfs, fs);
      var prev := CreateFold(init, rootfs, fs).value;
      var out := DevicePlan(d, rootfs, prev.1).value;
      MadeAppend(prev.0, out.0);
      if StartsWith(d.path, PtmxPath) {
        assert out.0 == [];
      } else {
        var dest := ResolveLoop(d.path, [], 0, rootfs, prev.1).0.value;
        DeviceAtCreates(d, dest, rootfs, prev.1);
        MadeOfDevice(Parent(dest).value, dest, KindOf(d.typ).value, ModeOf(d), d.major, d.minor, d.uid, d.gid);
      }
      ExpectedSnoc(init, d);
    }
  }

  /** No default device lies at or below `/dev/ptmx`, and all are character devices. */
  lemma DefaultsNotPtmx()
    ensures forall i :: 0 <= i < |DefaultDevices| ==> !StartsWith(DefaultDevices[i].path, PtmxPath) && DefaultDevices[i].typ == C
  {
    var ds := DefaultDevices;
    forall i | 0 <= i < 6 ensures !StartsWith(ds[i].path, PtmxPath)
    {
      assert ds[i].path[2] != PtmxPath[2];
    }
  }

  /** Character devices none of which is skipped ask for one node each, in order. */
  lemma {:induction false} ExpectedCharDevices(devs: seq<LinuxDevice>)
    requires forall i :: 0 <= i < |devs| ==> !StartsWith(devs[i].path, PtmxPath) && devs[i].typ == C
    ensures |Expected(devs)| == |devs|
    ensures forall i :: 0 <= i < |devs| ==> Expected(devs)[i] == NodeSpec(CharDevice, ModeOf(devs[i]), devs[i].major, devs[i].minor)
  {
    if devs != [] {
      var init := devs[..|devs| - 1];
      forall i | 0 <= i < |init| ensures init[i] == devs[i] { }
      ExpectedCharDevices(init);
    }
  }

  lemma DefaultsExpected()
    ensures forall i :: 0 <= i < |DefaultDevices| ==> !StartsWith(DefaultDevices[i].path, PtmxPath) && DefaultDevices[i].typ == C
    ensures Expected(DefaultDevices) ==
            [NodeSpec(CharDevice, Mode0666, 1, 3), NodeSpec(CharDevice, Mode0666, 1, 5),
             NodeSpec(CharDevice, Mode0666, 1, 7), NodeSpec(CharDevice, Mode0666, 1, 8),
             NodeSpec(CharDevice, Mode0666, 1, 9), NodeSpec(CharDevice, Mode0666, 5, 0)]
  {
    DefaultsNotPtmx();
    ExpectedCharDevices(DefaultDevices);
  }

  /** With no configured devices, exactly the six default character devices are made,
      with mode 0666: null 1/3, zero 1/5, full 1/7, random 1/8, urandom 1/9, tty 5/0. */
  lemma DefaultDevicesMade(rootfs: Path, fs: Fs)
    requires CreateFold(MergeDevices(None), rootfs, fs).Ok?
    ensures Made(CreateFold(MergeDevices(None), rootfs, fs).value.0) ==
            [NodeSpec(CharDevice, Mode0666, 1, 3), NodeSpec(CharDevice, Mode0666, 1, 5),
             NodeSpec(CharDevice, Mode0666, 1, 7), NodeSpec(CharDevice, Mode0666, 1, 8),
             NodeSpec(CharDevice, Mode0666, 1, 9), NodeSpec(CharDevice, Mode0666, 5, 0)]
  {
    CreateFoldMakes(DefaultDevices, rootfs, fs);
    DefaultsExpected();
  }

  /** A run that went through: the devices before the last went through, and the
      last one was created on top of them. */
  lemma CreateFoldLast(devs: seq<LinuxDevice>, rootfs: Path, fs: Fs)
    requires devs != [] && CreateFold(devs, rootfs, fs).Ok?
    ensures var n := |devs| - 1;
            var prev := CreateFold(devs[..n], rootfs, fs);
            && prev.Ok?
            && DevicePlan(devs[n], rootfs, prev.value.1).Ok?
            && CreateFold(devs, rootfs, fs).value
               == (prev.value.0 + DevicePlan(devs[n], rootfs, prev.value.1).value.0,
                   DevicePlan(devs[n], rootfs, prev.value.1).value.1)
  {
  }

  /** One device keeps what was there and leaves its node with its numbers. */
  lemma DevicePlanNodes(d: LinuxDevice, rootfs: Path, fs: Fs)
    requires DevicePlan(d, rootfs, fs).Ok?
    ensures var out := DevicePlan(d, rootfs, fs).value;
            && Extends(fs, out.1)
            && forall e :: e in out.0 && e.Mknod? ==> NodeAt(out.1, e.path) == Some(Device(e.kind, e.major, e.minor))
  {
    if !StartsWith(d.path, PtmxPath) {
      DeviceAtCreates(d, ResolveLoop(d.path, [], 0, rootfs, fs).0.value, rootfs, fs);
    }
  }

  /** Every node `create_devices` makes is still there at the end with its numbers:
      later devices never replace an earlier one. */
  lemma {:induction false} CreatedNodesStay(devs: seq<LinuxDevice>, rootfs: Path, fs: Fs)
    requires CreateFold(devs, rootfs, fs).Ok?
    ensures var out := CreateFold(devs, rootfs, fs).value;
            forall e :: e in out.0 && e.Mknod? ==> NodeAt(out.1, e.path) == Some(Device(e.kind, e.major, e.minor))
  {
    if devs != [] {
      var n := |devs| - 1;
      CreateFoldLast(devs, rootfs, fs);
      CreatedNodesStay(devs[..n], rootfs, fs);
      var prev := CreateFold(devs[..n], rootfs, fs).value;
      var step := DevicePlan(devs[n], rootfs, prev.1).value;
      DevicePlanNodes(devs[n], rootfs, prev.1);
      forall e | e in prev.0 + step.0 && e.Mknod?
        ensures NodeAt(step.1, e.path) == Some(Device(e.kind, e.major, e.minor))
      {
        if e in prev.0 {
          assert Clean(e.path) in prev.1;
        }
      }
    }
  }

  /** So `verify_device` accepts every node `create_devices` makes. */
  lemma CreatedNodesVerify(devs: seq<LinuxDevice>, rootfs: Path, fs: Fs)
    requires CreateFold(devs, rootfs, fs).Ok?
    ensures var out := CreateFold(devs, rootfs, fs).value;
            forall e :: e in out.0 && e.Mknod? ==>
              NodeAt(out.1, e.path) == Some(Device(e.kind, e.major, e.minor))
              && VerifyDevice(out.1, e.path, e.major, e.minor) == Ok(())
  {
    CreatedNodesStay(devs, rootfs, fs);
  }

  /** Every call of `create_devices` stays inside the rootfs, or creates the
      directories on the way to it. */
  lemma {:induction false} CreateFoldInside(devs: seq<LinuxDevice>, rootfs: Path, fs: Fs)
    requires CreateFold(devs, rootfs, fs).Ok?
    ensures forall e :: e in CreateFold(devs, rootfs, fs).value.0 ==>
              if e.CreateDirAll? then StartsWith(e.path, rootfs) || StartsWith(rootfs, e.path)
              else (e.Mknod? || e.Chown?) && StartsWith(e.path, rootfs)
  {
    if devs != [] {
      var init, d := devs[..|devs| - 1], devs[|devs| - 1];
      CreateFoldInside(init, rootfs, fs);
      var prev := CreateFold(init, rootfs, fs).value;
      if !StartsWith(d.path, PtmxPath) {
        var dest := ResolveLoop(d.path, [], 0, rootfs, prev.1).0.value;
        DeviceAtCreates(d, dest, rootfs, prev.1);
        ParentOnTheWay(dest, rootfs, Parent(dest).value);
      }
    }
  }

  // ---------------------------------------------------------------------
  // verify_device, create_tun, mount_device, mount_hermit_devices
  // ---------------------------------------------------------------------

  /** `verify_device`: `stat` the node and compare its numbers with the expected ones. */
  function VerifyDevice(fs: Fs, p: Path, major: int, minor: int): (r: Result<()>)
    ensures r.Ok? <==> Exists(fs, p) && Rdev(fs, p) == (major, minor)
    ensures r.Err? && Exists(fs, p) ==> r.error == DeviceIdMismatch
  {
    if !Exists(fs, p) then Err(DeviceStatFailed)
    else if Rdev(fs, p) != (major, minor) then Err(DeviceIdMismatch)
    else Ok(())
  }

  /** The container path of the TUN device. */
  const TunPath: Path := Abs(["dev", "net", "tun"])

  /** Create the parent directories only when the parent does not exist. */
  function EnsureParent(parent: Path, fs: Fs): (seq<Effect>, Fs)
  {
    if Exists(fs, parent) then ([], fs) else ([CreateDirAll(parent)], MkdirAll(fs, parent))
  }

  /** `create_tun`: verify an existing `/dev/net/tun`, or make it as character device
      10/200 with mode 0755 owned by `uid`/`gid`. */
  function TunPlan(rootfs: Path, uid: nat, gid: nat, fs: Fs): Result<(seq<Effect>, Fs)>
  {
    TunAt(ResolveLoop(TunPath, [], 0, rootfs, fs).0, rootfs, uid, gid, fs)
  }

  /** `create_tun` once the path is resolved. */
  function TunAt(resolved: Result<Path>, rootfs: Path, uid: nat, gid: nat, fs: Fs): Result<(seq<Effect>, Fs)>
  {
    var dest :- resolved;
    if !StartsWith(dest, rootfs) then Err(DeviceOutsideRootfs)
    else match Parent(dest)
      case None => Err(NoParentDir)
      case Some(parent) =>
        var made := EnsureParent(parent, fs);
        if Exists(made.1, dest) then
          var verified := VerifyDevice(made.1, dest, 10, 200);
          if verified.Err? then Err(verified.error) else Ok(made)
        else if NodeAt(made.1, dest).Some? then Err(MknodFailed)
        else Ok((made.0 + [Mknod(dest, CharDevice, Mode0755, 10, 200), Chown(dest, Some(uid), Some(gid))],
                 made.1[Clean(dest) := Device(CharDevice, 10, 200)]))
  }

  method CreateTun(rootfs: Path, uid: nat, gid: nat, fs: Fs) returns (r: Result<(seq<Effect>, Fs)>)
    ensures r == TunPlan(rootfs, uid, gid, fs)
  {
    var dest :- ResolveInRootfs(TunPath, rootfs, fs);
    if !StartsWith(dest, rootfs) {
      return Err(DeviceOutsideRootfs);
    }
    var parent := Parent(dest);
    if parent.None? {
      return Err(NoParentDir);
    }
    var trace: seq<Effect> := [];
    var fs1 := fs;
    if !Exists(fs, parent.value) {
      trace, fs1 := [CreateDirAll(parent.value)], MkdirAll(fs, parent.value);
    }
    if Exists(fs1, dest) {
      var verified := VerifyDevice(fs1, dest, 10, 200);
      if verified.Err? {
        return Err(verified.error);
      }
      return Ok((trace, fs1));
    }
    if NodeAt(fs1, dest).Some? {
      return Err(MknodFailed);
    }
    trace := trace + [Mknod(dest, CharDevice, Mode0755, 10, 200), Chown(dest, Some(uid), Some(gid))];
    return Ok((trace, fs1[Clean(dest) := Device(CharDevice, 10, 200)]));
  }

  /** After `create_tun`, the TUN device is at its place inside the rootfs with
      numbers 10/200; it was made (with mode 0755, owned by `uid`/`gid`) iff nothing
      was there. */
  lemma TunReady(dest: Path, rootfs: Path, uid: nat, gid: nat, fs: Fs)
    requires TunAt(Ok(dest), rootfs, uid, gid, fs).Ok?
    ensures var out := TunAt(Ok(dest), rootfs, uid, gid, fs).value;
            && StartsWith(dest, rootfs)
            && Exists(out.1, dest) && Rdev(out.1, dest) == (10, 200)
            && ((exists e :: e in out.0 && e.Mknod?) <==> !Exists(EnsureParent(Parent(dest).value, fs).1, dest))
            && (!Exists(EnsureParent(Parent(dest).value, fs).1, dest) ==>
                  out.0[|out.0| - 2..] == [Mknod(dest, CharDevice, Mode0755, 10, 200), Chown(dest, Some(uid), Some(gid))])
  {
    var made := EnsureParent(Parent(dest).value, fs);
    assert forall e :: e in made.0 ==> !e.Mknod?;
    if !Exists(made.1, dest) {
      var out := TunAt(Ok(dest), rootfs, uid, gid, fs).value;
      assert out.0[|out.0| - 2] == Mknod(dest, CharDevice, Mode0755, 10, 200);
    }
  }

  /** The host devices bind-mounted into the rootfs for hermit. */
  const KvmPath: Path := Abs(["dev", "kvm"])
  const VhostNetPath: Path := Abs(["dev", "vhost-net"])

  /** The options of a device bind mount: `MS_BIND` only. */
  const BindOnly: MountOptions := MountOptions({Bind}, {}, None)

  /** `mount_device`: verify an existing node at the destination, or create an empty
      file there and bind-mount the host's device onto it. */
  function MountDevicePlan(rootfs: Path, destRel: Path, major: int, minor: int, fs: Fs, tampered: set<Path>)
    : Result<(seq<Effect>, Fs)>
  {
    MountDeviceAt(ResolveLoop(destRel, [], 0, rootfs, fs).0, destRel, major, minor, fs, tampered)
  }

  /** `mount_device` once the path is resolved. */
  function MountDeviceAt(resolved: Result<Path>, destRel: Path, major: int, minor: int, fs: Fs, tampered: set<Path>)
    : Result<(seq<Effect>, Fs)>
  {
    var dest :- resolved;
    match Parent(dest)
    case None => Err(NoParentDir)
    case Some(parent) =>
      var made := EnsureParent(parent, fs);
      if Exists(made.1, dest) then
        var verified := VerifyDevice(made.1, dest, major, minor);
        if verified.Err? then Err(verified.error) else Ok(made)
      else
        var fs2 := made.1[Clean(dest) := File];
        var calls :- Mounted("bind", destRel, destRel, dest, BindOnly, fs2, tampered);
        Ok((made.0 + [CreateFile(dest)] + calls, fs2))
  }

  method MountDevice(rootfs: Path, destRel: Path, major: int, minor: int, fs: Fs, tampered: set<Path>)
    returns (r: Result<(seq<Effect>, Fs)>)
    ensures r == MountDevicePlan(rootfs, destRel, major, minor, fs, tampered)
  {
    var dest :- ResolveInRootfs(destRel, rootfs, fs);
    var parent := Parent(dest);
    if parent.None? {
      return Err(NoParentDir);
    }
    var trace: seq<Effect> := [];
    var fs1 := fs;
    if !Exists(fs, parent.value) {
      trace, fs1 := [CreateDirAll(parent.value)], MkdirAll(fs, parent.value);
    }
    if Exists(fs1, dest) {
      var verified := VerifyDevice(fs1, dest, major, minor);
      if verified.Err? {
        return Err(verified.error);
      }
      return Ok((trace, fs1));
    }
    var fs2 := fs1[Clean(dest) := File];
    trace := trace + [CreateFile(dest)];
    var calls :- MountWithFlags("bind", destRel, destRel, dest, BindOnly, fs2, tampered);
    return Ok((trace + calls, fs2));
  }

  /** `mount_device` either finds the right device already in place and mounts
      nothing, or bind-mounts the host path onto the same path inside the rootfs,
      with `MS_BIND` alone. */
  lemma MountDeviceAtSpec(dest: Path, destRel: Path, major: int, minor: int, fs: Fs, tampered: set<Path>)
    requires MountDeviceAt(Ok(dest), destRel, major, minor, fs, tampered).Ok?
    ensures var out := MountDeviceAt(Ok(dest), destRel, major, minor, fs, tampered).value;
            && (forall e :: e in out.0 && e.Mount? ==>
                  e == Mount(Some(destRel), ThroughProcFd(dest), Some("bind"), {Bind}, None))
            && ((forall e :: e in out.0 ==> !e.Mount?) ==> Rdev(out.1, dest) == (major, minor))
  {
    var made := EnsureParent(Parent(dest).value, fs);
    assert forall e :: e in made.0 ==> !e.Mount?;
    var out := MountDeviceAt(Ok(dest), destRel, major, minor, fs, tampered).value;
    if Exists(made.1, dest) {
      assert out == made;
    } else {
      var fs2 := made.1[Clean(dest) := File];
      BindOnlyCall(destRel, dest, fs2, tampered);
      var calls := Mounted("bind", destRel, destRel, dest, BindOnly, fs2, tampered).value;
      assert out.0 == made.0 + [CreateFile(dest)] + calls;
      assert out.0[|out.0| - 1] == calls[0];
    }
  }

  /** The mount call of a device: a bind mount of the host path, through the
      descriptor of the destination, with `MS_BIND` alone. */
  lemma BindOnlyCall(destRel: Path, dest: Path, fs: Fs, tampered: set<Path>)
    requires Mounted("bind", destRel, destRel, dest, BindOnly, fs, tampered).Ok?
    ensures Mounted("bind", destRel, destRel, dest, BindOnly, fs, tampered).value
            == [Mount(Some(destRel), ThroughProcFd(dest), Some("bind"), {Bind}, None)]
  {
    assert {Bind} - {Rdonly} == {Bind};
  }

  /** `mount_device` makes no symlink check of its own, yet in a clean rootfs its
      destination still lies inside the rootfs, and every mount it makes is the bind
      mount of the host path. */
  lemma MountDeviceSpec(rootfs: Path, destRel: Path, major: int, minor: int, fs: Fs, tampered: set<Path>)
    requires MountDevicePlan(rootfs, destRel, major, minor, fs, tampered).Ok?
    ensures ResolveLoop(destRel, [], 0, rootfs, fs).0.Ok?
    ensures var dest := ResolveLoop(destRel, [], 0, rootfs, fs).0.value;
            && (CleanRootfs(rootfs) ==> StartsWith(dest, rootfs))
            && forall e :: e in MountDevicePlan(rootfs, destRel, major, minor, fs, tampered).value.0 && e.Mount? ==>
                 e == Mount(Some(destRel), ThroughProcFd(dest), Some("bind"), {Bind}, None)
  {
    var dest := ResolveLoop(destRel, [], 0, rootfs, fs).0.value;
    if CleanRootfs(rootfs) {
      ResolveConfined(destRel, [], 0, rootfs, fs);
    }
    MountDeviceAtSpec(dest, destRel, major, minor, fs, tampered);
  }

  /** `mount_hermit_devices`: `/dev/kvm` (10/232), then `/dev/vhost-net` (10/238),
      each only when the host has it. */
  function HermitDevicesPlan(rootfs: Path, fs: Fs, tampered: set<Path>): Result<(seq<Effect>, Fs)>
  {
    var kvm :- if Exists(fs, KvmPath) then MountDevicePlan(rootfs, KvmPath, 10, 232, fs, tampered) else Ok(([], fs));
    var vhost :- if Exists(kvm.1, VhostNetPath) then MountDevicePlan(rootfs, VhostNetPath, 10, 238, kvm.1, tampered)
                 else Ok(([], kvm.1));
    Ok((kvm.0 + vhost.0, vhost.1))
  }

  method MountHermitDevices(rootfs: Path, fs: Fs, tampered: set<Path>) returns (r: Result<(seq<Effect>, Fs)>)
    ensures r == HermitDevicesPlan(rootfs, fs, tampered)
  {
    var trace: seq<Effect> := [];
    var fs1 := fs;
    if Exists(fs, KvmPath) {
      var kvm :- MountDevice(rootfs, KvmPath, 10, 232, fs, tampered);
      trace, fs1 := kvm.0, kvm.1;
    }
    if Exists(fs1, VhostNetPath) {
      var vhost :- MountDevice(rootfs, VhostNetPath, 10, 238, fs1, tampered);
      return Ok((trace + vhost.0, vhost.1));
    }
    return Ok((trace + [], fs1));
  }

  /** Only the two hermit devices are ever bind-mounted, each from the host path of
      the same name; a host without them gets no call at all. */
  lemma HermitDevicesMounts(rootfs: Path, fs: Fs, tampered: set<Path>)
    requires HermitDevicesPlan(rootfs, fs, tampered).Ok?
    ensures forall e :: e in HermitDevicesPlan(rootfs, fs, tampered).value.0 && e.Mount? ==>
              (e.source == Some(KvmPath) || e.source == Some(VhostNetPath)) && e.flags == {Bind}
    ensures !Exists(fs, KvmPath) && !Exists(fs, VhostNetPath) ==> HermitDevicesPlan(rootfs, fs, tampered) == Ok(([], fs))
  {
    if Exists(fs, KvmPath) {
      MountDeviceSpec(rootfs, KvmPath, 10, 232, fs, tampered);
    }
    var kvm := if Exists(fs, KvmPath) then MountDevicePlan(rootfs, KvmPath, 10, 232, fs, tampered).value else ([], fs);
    if Exists(kvm.1, VhostNetPath) {
      MountDeviceSpec(rootfs, VhostNetPath, 10, 238, kvm.1, tampered);
    } else {
      assert kvm.0 + [] == kvm.0;
    }
  }

  // ---------------------------------------------------------------------
  // setup_ptmx, setup_dev_symlinks
  // ---------------------------------------------------------------------

  /** The target of the `dev/ptmx` link, relative to the link's directory. */
  const PtsPtmx: Path := Rel(["pts", "ptmx"])

  /** Something below `p` is in the filesystem: `rmdir` of `p` fails. */
  predicate HasChildren(fs: Fs, p: Path)
  {
    exists q :: q in fs && Clean(p) < q
  }

  /** What a new link to `target` leads to (`target` as a host path). */
  function LinkFollow(fs: Fs, target: Path): Follow
  {
    if IsDir(fs, target) then ToDir else if Exists(fs, target) then ToOther else Dangling
  }

  /** `symlinkat(points_to, link)`: fails when anything, even a dangling link, is at
      `link`; `resolvedTarget` is the host path the link leads to. */
  function Symlink(pointsTo: Path, link: Path, resolvedTarget: Path, fs: Fs): Result<(seq<Effect>, Fs)>
  {
    if NodeAt(fs, link).Some? then Err(SymlinkFailed)
    else Ok(([MakeSymlink(pointsTo, link)], fs[Clean(link) := Link(pointsTo, LinkFollow(fs, resolvedTarget))]))
  }

  /** Removing the node at `p`: `rmdir` fails on anything but an empty directory,
      `unlink` removes anything else. */
  function RemoveDirAt(p: Path, fs: Fs): Result<(seq<Effect>, Fs)>
  {
    if NodeAt(fs, p) != Some(Dir) || HasChildren(fs, p) then Err(PtmxRemoveFailed)
    else Ok(([RemoveDir(p)], fs - {Clean(p)}))
  }

  function RemoveFileAt(p: Path, fs: Fs): (seq<Effect>, Fs)
  {
    ([RemoveFile(p)], fs - {Clean(p)})
  }

  /** `setup_ptmx` as written: what is at `dev/ptmx` is examined with `is_dir` and
      `exists`, which follow a symlink there, but removed with `remove_dir` and
      `remove_file`, which do not. A link to a directory makes `remove_dir` fail,
      and a dangling link is left in place, so `symlinkat` fails on it. */
  function SetupPtmxAsWritten(rootfs: Path, fs: Fs): Result<(seq<Effect>, Fs)>
  {
    var p := Join(rootfs, Rel(["dev", "ptmx"]));
    var removed :- if IsDir(fs, p) then RemoveDirAt(p, fs)
                   else if Exists(fs, p) then Ok(RemoveFileAt(p, fs))
                   else Ok(([], fs));
    var linked :- Symlink(PtsPtmx, p, Join(rootfs, Rel(["dev", "pts", "ptmx"])), removed.1);
    Ok((removed.0 + linked.0, linked.1))
  }

  /** `setup_ptmx` as intended: whatever is at `dev/ptmx` itself (`symlink_metadata`)
      is removed, then `dev/ptmx` becomes a link to `pts/ptmx`. */
  function SetupPtmxPlan(rootfs: Path, fs: Fs): Result<(seq<Effect>, Fs)>
  {
    var p := Join(rootfs, Rel(["dev", "ptmx"]));
    var removed :- match NodeAt(fs, p)
                   case None => Ok(([], fs))
                   case Some(Dir) => RemoveDirAt(p, fs)
                   case Some(_) => Ok(RemoveFileAt(p, fs));
    var linked :- Symlink(PtsPtmx, p, Join(rootfs, Rel(["dev", "pts", "ptmx"])), removed.1);
    Ok((removed.0 + linked.0, linked.1))
  }

  method SetupPtmx(rootfs: Path, fs: Fs) returns (r: Result<(seq<Effect>, Fs)>)
    ensures r == SetupPtmxPlan(rootfs, fs)
  {
    var ptmxPath := Join(rootfs, Rel(["dev", "ptmx"]));
    var trace: seq<Effect> := [];
    var fs1 := fs;
    var node := NodeAt(fs, ptmxPath);
    if node == Some(Dir) {
      if HasChildren(fs, ptmxPath) {
        return Err(PtmxRemoveFailed);
      }
      trace, fs1 := [RemoveDir(ptmxPath)], fs - {Clean(ptmxPath)};
    } else if node.Some? {
      trace, fs1 := [RemoveFile(ptmxPath)], fs - {Clean(ptmxPath)};
    }
    // Nothing is left at the path: the link can be made.
    var linked := Symlink(PtsPtmx, ptmxPath, Join(rootfs, Rel(["dev", "pts", "ptmx"])), fs1);
    assert linked.Ok?;
    return Ok((trace + linked.value.0, linked.value.1));
  }

  /** After `setup_ptmx`, `dev/ptmx` is a link to `pts/ptmx` and nothing else has
      changed; it fails only on a directory with something in it. */
  lemma SetupPtmxLinks(rootfs: Path, fs: Fs)
    ensures var p := Join(rootfs, Rel(["dev", "ptmx"]));
            SetupPtmxPlan(rootfs, fs).Ok? <==> !(NodeAt(fs, p) == Some(Dir) && HasChildren(fs, p))
    ensures var p := Join(rootfs, Rel(["dev", "ptmx"]));
            SetupPtmxPlan(rootfs, fs).Ok? ==>
              var out := SetupPtmxPlan(rootfs, fs).value;
              && NodeAt(out.1, p).Some? && NodeAt(out.1, p).value.Link? && NodeAt(out.1, p).value.target == PtsPtmx
              && out.0[|out.0| - 1] == MakeSymlink(PtsPtmx, p)
              && forall q :: q != Clean(p) ==> (q in out.1 <==> q in fs) && (q in fs ==> out.1[q] == fs[q])
  {
  }

  /** Where the code as written succeeds, it does what the corrected one does. */
  lemma SetupPtmxAgrees(rootfs: Path, fs: Fs)
    requires SetupPtmxAsWritten(rootfs, fs).Ok?
    ensures SetupPtmxAsWritten(rootfs, fs) == SetupPtmxPlan(rootfs, fs)
  {
    var p := Join(rootfs, Rel(["dev", "ptmx"]));
    if NodeAt(fs, p).Some? && NodeAt(fs, p).value.Link? {
      assert !IsDir(fs, p) && Exists(fs, p);
    }
  }

  /** A dangling `dev/ptmx` link, such as the `pts/ptmx` link of an earlier run on a
      rootfs without devpts mounted: the code as written aborts, the corrected code
      replaces the link. */
  lemma DanglingPtmxAborts()
    ensures var rootfs := Abs(["rootfs"]);
            var fs := map[Abs(["rootfs", "dev", "ptmx"]) := Link(PtsPtmx, Dangling)];
            && SetupPtmxAsWritten(rootfs, fs) == Err(SymlinkFailed)
            && SetupPtmxPlan(rootfs, fs).Ok?
  {
    var rootfs := Abs(["rootfs"]);
    var rel := Rel(["dev", "ptmx"]);
    assert rel[0] == Normal("dev") && rel[1] == Normal("ptmx");
    assert rootfs[0] == RootDir && rootfs[1] == Normal("rootfs");
    var p := Join(rootfs, rel);
    assert p == rootfs + rel;
    var q := Abs(["rootfs", "dev", "ptmx"]);
    assert q[0] == RootDir && q[1] == Normal("rootfs") && q[2] == Normal("dev") && q[3] == Normal("ptmx");
    assert p == q;
    CleanAccFixesShape(p);
  }

  /** The links `setup_dev_symlinks` makes, as (target, link below the rootfs). */
  const DevSymlinks: seq<(Path, Path)> := [
    (Abs(["proc", "self", "fd"]), Rel(["dev", "fd"])),
    (Abs(["proc", "self", "fd", "0"]), Rel(["dev", "stdin"])),
    (Abs(["proc", "self", "fd", "1"]), Rel(["dev", "stdout"])),
    (Abs(["proc", "self", "fd", "2"]), Rel(["dev", "stderr"]))
  ]

  /** Where a path of the container lies on the host, without resolving links. */
  function InRootfs(rootfs: Path, p: Path): Path
  {
    if p != [] && p[0] == RootDir then Join(rootfs, p[1..]) else Join(rootfs, p)
  }

  /** The links one after another. */
  function SymlinksFold(links: seq<(Path, Path)>, rootfs: Path, fs: Fs): Result<(seq<Effect>, Fs)>
  {
    if links == [] then Ok(([], fs))
    else
      var prev :- SymlinksFold(links[..|links| - 1], rootfs, fs);
      var l := links[|links| - 1];
      var made :- Symlink(l.0, Join(rootfs, l.1), InRootfs(rootfs, l.0), prev.1);
      Ok((prev.0 + made.0, made.1))
  }

  /** `setup_dev_symlinks`. */
  method SetupDevSymlinks(rootfs: Path, fs: Fs) returns (r: Result<(seq<Effect>, Fs)>)
    ensures r == SymlinksFold(DevSymlinks, rootfs, fs)
  {
    r := SymlinkAll(DevSymlinks, rootfs, fs);
  }

  /** The loop of `setup_dev_symlinks` over its list of links. */
  method SymlinkAll(links: seq<(Path, Path)>, rootfs: Path, fs: Fs) returns (r: Result<(seq<Effect>, Fs)>)
    ensures r == SymlinksFold(links, rootfs, fs)
  {
    r := Ok(([], fs));
    var i := 0;
    while i < |links| && r.Ok?
      invariant 0 <= i <= |links|
      invariant r == SymlinksFold(links[..i], rootfs, fs)
    {
      var l := links[i];
      var trace, fs' := r.value.0, r.value.1;
      SymlinksFoldStep(links, i, rootfs, fs, trace, fs');
      var made := Symlink(l.0, Join(rootfs, l.1), InRootfs(rootfs, l.0), fs');
      if made.Err? {
        r := Err(made.error);
      } else {
        r := Ok((trace + made.value.0, made.value.1));
      }
      i := i + 1;
    }
    SymlinksAbortSticks(links, i, rootfs, fs);
    assert links[..|links|] == links;
  }

  lemma SymlinksFoldStep(links: seq<(Path, Path)>, i: nat, rootfs: Path, fs: Fs, trace: seq<Effect>, fs': Fs)
    requires i < |links| && SymlinksFold(links[..i], rootfs, fs) == Ok((trace, fs'))
    ensures var made := Symlink(links[i].0, Join(rootfs, links[i].1), InRootfs(rootfs, links[i].0), fs');
            SymlinksFold(links[..i + 1], rootfs, fs) ==
              if made.Err? then Err(made.error) else Ok((trace + made.value.0, made.value.1))
  {
    assert links[..i + 1][..i] == links[..i];
  }

  lemma {:induction false} SymlinksAbortSticks(links: seq<(Path, Path)>, k: nat, rootfs: Path, fs: Fs)
    requires k <= |links|
    ensures SymlinksFold(links[..k], rootfs, fs).Err? ==> SymlinksFold(links, rootfs, fs) == SymlinksFold(links[..k], rootfs, fs)
    decreases |links| - k
  {
    assert links[..|links|] == links;
    if k < |links| && SymlinksFold(links[..k], rootfs, fs).Err? {
      var longer := links[..k + 1];
      assert longer[..|longer| - 1] == links[..k];
      SymlinksAbortSticks(links, k + 1, rootfs, fs);
    }
  }

  /** The calls are one link per entry, in order. */
  lemma {:induction false} SymlinksFoldTrace(links: seq<(Path, Path)>, rootfs: Path, fs: Fs)
    requires SymlinksFold(links, rootfs, fs).Ok?
    ensures SymlinksFold(links, rootfs, fs).value.0 ==
            seq(|links|, i requires 0 <= i < |links| => MakeSymlink(links[i].0, Join(rootfs, links[i].1)))
  {
    if links != [] {
      var n := |links| - 1;
      var prev := SymlinksFold(links[..n], rootfs, fs);
      assert prev.Ok?;
      SymlinksFoldTrace(links[..n], rootfs, fs);
      var made := Symlink(links[n].0, Join(rootfs, links[n].1), InRootfs(rootfs, links[n].0), prev.value.1);
      assert made.Ok?;
      var r := SymlinksFold(links, rootfs, fs).value.0;
      assert r == prev.value.0 + [MakeSymlink(links[n].0, Join(rootfs, links[n].1))];
      forall i | 0 <= i < |links|
        ensures r[i] == MakeSymlink(links[i].0, Join(rootfs, links[i].1))
      {
        if i < n {
          assert links[..n][i] == links[i];
        }
      }
    }
  }

  /** A link is only made where nothing was, so what was there stays. */
  lemma {:induction false} SymlinksFoldExtends(links: seq<(Path, Path)>, rootfs: Path, fs: Fs)
    requires SymlinksFold(links, rootfs, fs).Ok?
    ensures Extends(fs, SymlinksFold(links, rootfs, fs).value.1)
  {
    if links != [] {
      var n := |links| - 1;
      var prev := SymlinksFold(links[..n], rootfs, fs);
      assert prev.Ok?;
      SymlinksFoldExtends(links[..n], rootfs, fs);
      var link := Join(rootfs, links[n].1);
      assert NodeAt(prev.value.1, link).None?;
      assert SymlinksFold(links, rootfs, fs).value.1
             == prev.value.1[Clean(link) := Link(links[n].0, LinkFollow(prev.value.1, InRootfs(rootfs, links[n].0)))];
    }
  }

  /** Every link of the list, in order, and each where nothing was before. */
  lemma SymlinksFoldMakes(links: seq<(Path, Path)>, rootfs: Path, fs: Fs)
    requires SymlinksFold(links, rootfs, fs).Ok?
    ensures SymlinksFold(links, rootfs, fs).value.0 ==
            seq(|links|, i requires 0 <= i < |links| => MakeSymlink(links[i].0, Join(rootfs, links[i].1)))
    ensures Extends(fs, SymlinksFold(links, rootfs, fs).value.1)
  {
    SymlinksFoldTrace(links, rootfs, fs);
    SymlinksFoldExtends(links, rootfs, fs);
  }

  /** `setup_dev_symlinks` links `dev/fd`, `dev/stdin`, `dev/stdout` and `dev/stderr`
      of the rootfs to `/proc/self/fd`, `/proc/self/fd/0`, `/1` and `/2`, in that
      order. */
  lemma DevSymlinksMade(rootfs: Path, fs: Fs)
    requires SymlinksFold(DevSymlinks, rootfs, fs).Ok?
    ensures SymlinksFold(DevSymlinks, rootfs, fs).value.0 == [
              MakeSymlink(Abs(["proc", "self", "fd"]), Join(rootfs, Rel(["dev", "fd"]))),
              MakeSymlink(Abs(["proc", "self", "fd", "0"]), Join(rootfs, Rel(["dev", "stdin"]))),
              MakeSymlink(Abs(["proc", "self", "fd", "1"]), Join(rootfs, Rel(["dev", "stdout"]))),
              MakeSymlink(Abs(["proc", "self", "fd", "2"]), Join(rootfs, Rel(["dev", "stderr"])))]
  {
    SymlinksFoldMakes(DevSymlinks, rootfs, fs);
  }
}
