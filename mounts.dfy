/** Mount options and the per-mount plan of the container's `mounts` (src/mounts.rs):
    which directories and files are created, which `mount` calls are made with which
    flags and data, and when the plan aborts. */
module Mounts {
  import opened Wrappers
  import Text
  import opened PathBufs
  import opened Host
  import opened Rootfs

  /** `MountOptions`: the flags of the main mount call, the flags of the separate
      propagation call, and the data string. */
  datatype MountOptions = MountOptions(mountFlags: set<MsFlag>, propagationFlags: set<MsFlag>, data: Option<string>)

  /** `MountOptions::default()`, used when a mount has no options at all. */
  const DefaultMountOptions := MountOptions({}, {}, None)

  /** What one mount option does to the options being built. */
  datatype OptionAction =
    | Insert(mount: set<MsFlag>, propagation: set<MsFlag>)
    | Remove(flag: MsFlag)
    | Ignore
    | Unsupported
    | ToData

  /** The option table of `parse_mount_options`. */
  function ActionOf(option: string): OptionAction
  {
    match option
    case "acl" => Insert({Posixacl}, {})
    case "async" => Remove(Synchronous)
    case "atime" => Remove(Noatime)
    case "bind" => Insert({Bind}, {})
    case "defaults" => Ignore
    case "dev" => Remove(Nodev)
    case "diratime" => Remove(Nodiratime)
    case "dirsync" => Insert({Dirsync}, {})
    case "exec" => Remove(Noexec)
    case "iversion" => Insert({IVersion}, {})
    case "lazytime" => Unsupported
    case "loud" => Remove(Silent)
    case "mand" => Insert({Mandlock}, {})
    case "noacl" => Remove(Posixacl)
    case "noatime" => Insert({Noatime}, {})
    case "nodev" => Insert({Nodev}, {})
    case "nodiratime" => Insert({Nodiratime}, {})
    case "noexec" => Insert({Noexec}, {})
    case "noiversion" => Remove(IVersion)
    case "nolazytime" => Unsupported
    case "nomand" => Remove(Mandlock)
    case "norelatime" => Remove(Relatime)
    case "nostrictatime" => Remove(Strictatime)
    case "nosuid" => Insert({Nosuid}, {})
    case "rbind" => Insert({Bind, Rec}, {})
    case "relatime" => Insert({Relatime}, {})
    case "remount" => Insert({Remount}, {})
    case "ro" => Insert({Rdonly}, {})
    case "rw" => Remove(Rdonly)
    case "silent" => Insert({Silent}, {})
    case "strictatime" => Insert({Strictatime}, {})
    case "suid" => Remove(Nosuid)
    case "sync" => Insert({Synchronous}, {})
    case "private" => Insert({}, {Private})
    case "shared" => Insert({}, {Shared})
    case "slave" => Insert({}, {Slave})
    case "unbindable" => Insert({}, {Unbindable})
    case "rprivate" => Insert({}, {Private, Rec})
    case "rshared" => Insert({}, {Shared, Rec})
    case "rslave" => Insert({}, {Slave, Rec})
    case "runbindable" => Insert({}, {Unbindable, Rec})
    case "tmpcopyup" => Unsupported
    case _ => ToData
  }

  /** The state of the option loop: both flag sets and the unrecognised options so far. */
  datatype Parsed = Parsed(mountFlags: set<MsFlag>, propagationFlags: set<MsFlag>, data: seq<string>)

  /** One option applied to the loop state. */
  function Apply(p: Parsed, option: string): Result<Parsed>
  {
    match ActionOf(option)
    case Insert(m, q) => Ok(Parsed(p.mountFlags + m, p.propagationFlags + q, p.data))
    case Remove(f) => Ok(p.(mountFlags := p.mountFlags - {f}))
    case Ignore => Ok(p)
    case Unsupported => Err(UnsupportedMountOption(option))
    case ToData => Ok(p.(data := p.data + [option]))
  }

  /** The options applied left to right, from empty sets; the first unsupported one aborts. */
  function ParseFold(options: seq<string>): Result<Parsed>
  {
    if options == [] then Ok(Parsed({}, {}, []))
    else
      var p :- ParseFold(options[..|options| - 1]);
      Apply(p, options[|options| - 1])
  }

  /** The options the loop produces: the data string is always there, possibly empty. */
  function Parse(options: seq<string>): Result<MountOptions>
  {
    var p :- ParseFold(options);
    Ok(MountOptions(p.mountFlags, p.propagationFlags, Some(Text.Join(p.data, ","))))
  }

  /** `parse_mount_options`. */
  method ParseMountOptions(options: seq<string>) returns (r: Result<MountOptions>)
    ensures r == Parse(options)
  {
    var mountFlags: set<MsFlag> := {};
    var propagationFlags: set<MsFlag> := {};
    var data: seq<string> := [];
    var i := 0;
    while i < |options|
      invariant 0 <= i <= |options|
      invariant ParseFold(options[..i]) == Ok(Parsed(mountFlags, propagationFlags, data))
    {
      var option := options[i];
      assert options[..i + 1][..i] == options[..i];
      match ActionOf(option) {
        case Insert(m, q) =>
          mountFlags := mountFlags + m;
          propagationFlags := propagationFlags + q;
        case Remove(f) =>
          mountFlags := mountFlags - {f};
        case Ignore =>
        case Unsupported =>
          ParseAbortSticks(options, i + 1);
          return Err(UnsupportedMountOption(option));
        case ToData =>
          data := data + [option];
      }
      i := i + 1;
    }
    assert options[..i] == options;
    return Ok(MountOptions(mountFlags, propagationFlags, Some(Text.Join(data, ","))));
  }

  /** Once an option aborts, the options after it change nothing. */
  lemma {:induction false} ParseAbortSticks(options: seq<string>, k: nat)
    requires k <= |options|
    ensures ParseFold(options[..k]).Err? ==> ParseFold(options) == ParseFold(options[..k])
    decreases |options| - k
  {
    if k < |options| && ParseFold(options[..k]).Err? {
      var longer := options[..k + 1];
      assert longer[..|longer| - 1] == options[..k];
      ParseAbortSticks(options, k + 1);
    } else if k == |options| {
      assert options[..k] == options;
    }
  }

  /** The options aborts iff one of them is unsupported, and then it names the first. */
  lemma {:induction false} ParseAbortsIff(options: seq<string>)
    ensures ParseFold(options).Err? <==> exists i :: 0 <= i < |options| && ActionOf(options[i]).Unsupported?
    ensures ParseFold(options).Err? ==>
              exists i :: 0 <= i < |options| && ActionOf(options[i]).Unsupported? &&
                          ParseFold(options).error == UnsupportedMountOption(options[i]) &&
                          forall j :: 0 <= j < i ==> !ActionOf(options[j]).Unsupported?
  {
    if options != [] {
      var init, last := options[..|options| - 1], options[|options| - 1];
      ParseAbortsIff(init);
      if ParseFold(init).Err? {
        var i :| 0 <= i < |init| && ActionOf(init[i]).Unsupported? &&
                 ParseFold(init).error == UnsupportedMountOption(init[i]) &&
                 forall j :: 0 <= j < i ==> !ActionOf(init[j]).Unsupported?;
        assert options[i] == init[i];
        assert forall j :: 0 <= j < i ==> options[j] == init[j];
      } else if ActionOf(last).Unsupported? {
        assert forall j :: 0 <= j < |init| ==> options[j] == init[j];
      } else {
        forall i | 0 <= i < |options|
          ensures !ActionOf(options[i]).Unsupported?
        {
          if i < |init| { assert options[i] == init[i]; }
        }
      }
    }
  }

  /** The action of each option, in order. */
  function Actions(options: seq<string>): (r: seq<OptionAction>)
    ensures |r| == |options|
  {
    seq(|options|, i requires 0 <= i < |options| => ActionOf(options[i]))
  }

  /** Action `a` sets flag `f` of the main mount call. */
  predicate Sets(a: OptionAction, f: MsFlag) { a.Insert? && f in a.mount }

  /** Action `a` clears flag `f` of the main mount call. */
  predicate Clears(a: OptionAction, f: MsFlag) { a.Remove? && a.flag == f }

  /** Some action sets `f` and no later action clears it. */
  predicate SetLast(actions: seq<OptionAction>, f: MsFlag)
  {
    exists i :: 0 <= i < |actions| && Sets(actions[i], f) &&
                forall j :: i < j < |actions| ==> !Clears(actions[j], f)
  }

  /** One option decides a flag of the main call when it sets or clears it, and
      otherwise leaves it as it was. */
  lemma ApplyMountFlag(p: Parsed, o: string, f: MsFlag)
    requires Apply(p, o).Ok?
    ensures f in Apply(p, o).value.mountFlags <==> Sets(ActionOf(o), f) || (f in p.mountFlags && !Clears(ActionOf(o), f))
  {
  }

  lemma SetLastSnoc(actions: seq<OptionAction>, a: OptionAction, f: MsFlag)
    ensures SetLast(actions + [a], f) <==> Sets(a, f) || (SetLast(actions, f) && !Clears(a, f))
  {
    if SetLast(actions + [a], f) && !Sets(a, f) {
      SetLastSnocOnly(actions, a, f);
    }
    if Sets(a, f) || (SetLast(actions, f) && !Clears(a, f)) {
      SetLastSnocIf(actions, a, f);
    }
  }

  lemma SetLastSnocOnly(actions: seq<OptionAction>, a: OptionAction, f: MsFlag)
    requires SetLast(actions + [a], f) && !Sets(a, f)
    ensures SetLast(actions, f) && !Clears(a, f)
  {
    var l := actions + [a];
    var i :| 0 <= i < |l| && Sets(l[i], f) && forall j :: i < j < |l| ==> !Clears(l[j], f);
    assert i < |actions| && l[i] == actions[i];
    assert forall j :: i < j < |actions| ==> l[j] == actions[j];
    assert !Clears(l[|actions|], f);
  }

  lemma SetLastSnocIf(actions: seq<OptionAction>, a: OptionAction, f: MsFlag)
    requires Sets(a, f) || (SetLast(actions, f) && !Clears(a, f))
    ensures SetLast(actions + [a], f)
  {
    var l := actions + [a];
    assert l[|actions|] == a;
    if !Sets(a, f) {
      var i :| 0 <= i < |actions| && Sets(actions[i], f) && forall j :: i < j < |actions| ==> !Clears(actions[j], f);
      assert Sets(l[i], f);
      assert forall j :: i < j < |actions| ==> l[j] == actions[j];
    }
  }

  /** Options apply in order, so of two opposite options the later one wins
      (`ro` then `rw` leaves the mount writable, `rw` then `ro` read-only). */
  lemma {:induction false} LaterOptionWins(options: seq<string>, f: MsFlag)
    requires ParseFold(options).Ok?
    ensures f in ParseFold(options).value.mountFlags <==> SetLast(Actions(options), f)
  {
    if options != [] {
      var init, last := options[..|options| - 1], options[|options| - 1];
      LaterOptionWins(init, f);
      ApplyMountFlag(ParseFold(init).value, last, f);
      SetLastSnoc(Actions(init), ActionOf(last), f);
      assert Actions(init) + [ActionOf(last)] == Actions(options);
    }
  }

  /** The propagation types of `mount(2)`. */
  const PropagationTypes: set<MsFlag> := {Private, Shared, Slave, Unbindable}

  /** Propagation options reach only the propagation call, never the main one;
      the propagation call carries nothing but a propagation type and `MS_REC`. */
  lemma {:induction false} PropagationKeptApart(options: seq<string>)
    requires ParseFold(options).Ok?
    ensures ParseFold(options).value.mountFlags * PropagationTypes == {}
    ensures ParseFold(options).value.propagationFlags <= PropagationTypes + {Rec}
  {
    if options != [] {
      PropagationKeptApart(options[..|options| - 1]);
    }
  }

  /** The options the table does not know, in their order. */
  function Unrecognised(options: seq<string>): seq<string>
  {
    if options == [] then []
    else (if ActionOf(options[0]).ToData? then [options[0]] else []) + Unrecognised(options[1..])
  }

  lemma {:induction false} UnrecognisedSnoc(options: seq<string>, o: string)
    ensures Unrecognised(options + [o]) == Unrecognised(options) + (if ActionOf(o).ToData? then [o] else [])
  {
    if options != [] {
      assert (options + [o])[1..] == options[1..] + [o];
      UnrecognisedSnoc(options[1..], o);
    } else {
      assert [o][1..] == [];
    }
  }

  lemma ParseFoldLast(options: seq<string>)
    requires options != [] && ParseFold(options).Ok?
    ensures ParseFold(options[..|options| - 1]).Ok?
    ensures ParseFold(options) == Apply(ParseFold(options[..|options| - 1]).value, options[|options| - 1])
  {
  }

  /** One option adds itself to the data iff the table does not know it. */
  lemma ApplyData(p: Parsed, option: string)
    requires Apply(p, option).Ok?
    ensures Apply(p, option).value.data == p.data + (if ActionOf(option).ToData? then [option] else [])
  {
  }

  lemma {:induction false} DataFoldIsUnrecognised(options: seq<string>)
    requires ParseFold(options).Ok?
    ensures ParseFold(options).value.data == Unrecognised(options)
  {
    if options != [] {
      var init, last := options[..|options| - 1], options[|options| - 1];
      ParseFoldLast(options);
      DataFoldIsUnrecognised(init);
      ApplyData(ParseFold(init).value, last);
      UnrecognisedSnoc(init, last);
      assert init + [last] == options;
    }
  }

  /** The data string is the unrecognised options joined by commas. */
  lemma DataIsUnrecognised(options: seq<string>)
    requires ParseFold(options).Ok?
    ensures ParseFold(options).value.data == Unrecognised(options)
    ensures Parse(options).value.data == Some(Text.Join(Unrecognised(options), ","))
  {
    DataFoldIsUnrecognised(options);
  }

  // ---------------------------------------------------------------------
  // open_trough_procfd, mount_with_flags, remount
  // ---------------------------------------------------------------------

  /** The container path `/dev`. */
  const DevPath: Path := [RootDir, Normal("dev")]

  /** The main-call flags after `open_trough_procfd`: `MS_RDONLY` is dropped for the
      container's `/dev` and for every tmpfs. */
  function ProcFdFlags(device: string, mountDest: Path, flags: set<MsFlag>): set<MsFlag>
  {
    if mountDest == DevPath || device == "tmpfs" then flags - {Rdonly} else flags
  }

  /** Opening the destination with `O_PATH` succeeds, and `/proc/self/fd/<fd>` reads
      back as the destination. `tampered` holds the clean host paths whose
      descriptor link names something else (a component swapped for a symlink). */
  predicate ProcFdOpens(fs: Fs, fullDest: Path, tampered: set<Path>)
  {
    Exists(fs, fullDest) && Clean(fullDest) !in tampered
  }

  function ProcFdError(fs: Fs, fullDest: Path): Abort
  {
    if Exists(fs, fullDest) then ProcFdMismatch else MountDestinationUnopenable
  }

  /** The calls of `mount_with_flags` once the destination is open: the mount itself,
      then a propagation-only mount when there are propagation flags. */
  function MountCalls(device: string, source: Path, mountDest: Path, fullDest: Path, o: MountOptions): seq<Effect>
  {
    [Mount(Some(source), ThroughProcFd(fullDest), Some(device), ProcFdFlags(device, mountDest, o.mountFlags), o.data)]
    + (if o.propagationFlags != {} then [Mount(None, ThroughProcFd(fullDest), None, o.propagationFlags, None)] else [])
  }

  /** The flags a remount keeps: only the container's `/dev` loses `MS_RDONLY`. */
  function RemountFlags(mountDest: Path, flags: set<MsFlag>): set<MsFlag>
  {
    if mountDest == DevPath then flags - {Rdonly} else flags
  }

  /** The call of `remount`: the entry's flags plus `MS_REMOUNT`, and no data. A
      tmpfs remounted for `ro` keeps `MS_RDONLY`, which is what the remount is for
      (see `RemountCallAsWritten`). */
  function RemountCall(device: string, source: Path, mountDest: Path, fullDest: Path, o: MountOptions): Effect
  {
    Mount(Some(source), ThroughProcFd(fullDest), Some(device), RemountFlags(mountDest, o.mountFlags) + {Remount}, None)
  }

  /** The call of `remount` as written: `open_trough_procfd` drops `MS_RDONLY` again
      for every tmpfs, so the remount meant to make a tmpfs read-only does not. */
  function RemountCallAsWritten(device: string, source: Path, mountDest: Path, fullDest: Path, o: MountOptions): Effect
  {
    Mount(Some(source), ThroughProcFd(fullDest), Some(device), ProcFdFlags(device, mountDest, o.mountFlags) + {Remount}, None)
  }

  /** The two remounts differ only for a tmpfs asked to be `ro` outside `/dev`. */
  lemma RemountAgrees(device: string, source: Path, mountDest: Path, fullDest: Path, o: MountOptions)
    ensures RemountCall(device, source, mountDest, fullDest, o) == RemountCallAsWritten(device, source, mountDest, fullDest, o)
            <==> device != "tmpfs" || Rdonly !in o.mountFlags || mountDest == DevPath
  {
    var fixed := RemountCall(device, source, mountDest, fullDest, o);
    if device == "tmpfs" && Rdonly in o.mountFlags && mountDest != DevPath {
      assert Rdonly in fixed.flags;
    }
  }

  function Mounted(device: string, source: Path, mountDest: Path, fullDest: Path, o: MountOptions,
                   fs: Fs, tampered: set<Path>): Result<seq<Effect>>
  {
    if ProcFdOpens(fs, fullDest, tampered) then Ok(MountCalls(device, source, mountDest, fullDest, o))
    else Err(ProcFdError(fs, fullDest))
  }

  function Remounted(device: string, source: Path, mountDest: Path, fullDest: Path, o: MountOptions,
                     fs: Fs, tampered: set<Path>): Result<seq<Effect>>
  {
    if ProcFdOpens(fs, fullDest, tampered) then Ok([RemountCall(device, source, mountDest, fullDest, o)])
    else Err(ProcFdError(fs, fullDest))
  }

  /** `open_trough_procfd`: the options with `MS_RDONLY` dropped where it must be,
      once the destination is open and verified. */
  method OpenThroughProcfd(device: string, mountDest: Path, fullDest: Path, options: MountOptions,
                           fs: Fs, tampered: set<Path>) returns (r: Result<MountOptions>)
    ensures r.Ok? <==> ProcFdOpens(fs, fullDest, tampered)
    ensures r.Ok? ==> r.value == options.(mountFlags := ProcFdFlags(device, mountDest, options.mountFlags))
    ensures r.Err? ==> r.error == ProcFdError(fs, fullDest)
  {
    var o := options;
    if mountDest == DevPath || device == "tmpfs" {
      o := o.(mountFlags := o.mountFlags - {Rdonly});
    }
    if !Exists(fs, fullDest) {
      return Err(MountDestinationUnopenable);
    }
    if Clean(fullDest) in tampered {
      return Err(ProcFdMismatch);
    }
    return Ok(o);
  }

  /** `mount_with_flags`. */
  method MountWithFlags(device: string, source: Path, mountDest: Path, fullDest: Path, options: MountOptions,
                        fs: Fs, tampered: set<Path>) returns (r: Result<seq<Effect>>)
    ensures r == Mounted(device, source, mountDest, fullDest, options, fs, tampered)
  {
    var prepared :- OpenThroughProcfd(device, mountDest, fullDest, options, fs, tampered);
    var trace := [Mount(Some(source), ThroughProcFd(fullDest), Some(device), prepared.mountFlags, prepared.data)];
    if prepared.propagationFlags != {} {
      // The destination opened a moment ago opens again.
      var again := OpenThroughProcfd(device, mountDest, fullDest, prepared, fs, tampered);
      assert again.Ok?;
      trace := trace + [Mount(None, ThroughProcFd(fullDest), None, again.value.propagationFlags, None)];
    } else {
      assert trace == trace + [];
    }
    return Ok(trace);
  }

  /** `remount`. */
  method RemountDestination(device: string, source: Path, mountDest: Path, fullDest: Path, options: MountOptions,
                 fs: Fs, tampered: set<Path>) returns (r: Result<seq<Effect>>)
    ensures r == Remounted(device, source, mountDest, fullDest, options, fs, tampered)
  {
    var prepared :- OpenThroughProcfd(device, mountDest, fullDest, options, fs, tampered);
    var flags := prepared.mountFlags + {Remount};
    if device == "tmpfs" && Rdonly in options.mountFlags && mountDest != DevPath {
      // Opening through the proc fd dropped `MS_RDONLY` for the tmpfs; making it
      // read-only is the point of this remount, so the flag goes back in.
      flags := flags + {Rdonly};
    }
    assert flags == RemountFlags(mountDest, options.mountFlags) + {Remount};
    return Ok([Mount(Some(source), ThroughProcFd(fullDest), Some(device), flags, None)]);
  }

  /** As written, a tmpfs never receives `MS_RDONLY`, neither in its mount nor in
      its remount, whatever its options say. */
  lemma TmpfsNeverReadOnly(source: Path, mountDest: Path, fullDest: Path, o: MountOptions)
    requires o.propagationFlags <= PropagationTypes + {Rec}
    ensures forall e :: e in MountCalls("tmpfs", source, mountDest, fullDest, o) + [RemountCallAsWritten("tmpfs", source, mountDest, fullDest, o)]
                        ==> Rdonly !in e.flags
  {
  }

  /** The propagation call is made iff there are propagation flags, and it carries
      exactly them; every call goes through the descriptor of the destination. */
  lemma MountCallsShape(device: string, source: Path, mountDest: Path, fullDest: Path, o: MountOptions)
    ensures var calls := MountCalls(device, source, mountDest, fullDest, o);
            && (|calls| == 2 <==> o.propagationFlags != {})
            && (|calls| == 2 ==> calls[1].source.None? && calls[1].flags == o.propagationFlags)
            && calls[0].data == o.data
            && forall e :: e in calls ==> e.Mount? && e.target == ThroughProcFd(fullDest)
  {
  }

  // ---------------------------------------------------------------------
  // configure_mounts
  // ---------------------------------------------------------------------

  /** One entry of the container's `mounts`. */
  datatype MountEntry = MountEntry(destination: Path, typ: Option<string>, source: Option<Path>, options: Option<seq<string>>)

  /** What one entry does: the calls it makes, the filesystem afterwards, and whether
      it bind-mounts over the rootfs's `dev`. */
  datatype MountOutcome = MountOutcome(trace: seq<Effect>, fs: Fs, bindsDev: bool)

  /** The options of an entry: the defaults without any, the parsed ones otherwise. */
  function OptionsOf(options: Option<seq<string>>): Result<MountOptions>
  {
    match options
    case None => Ok(DefaultMountOptions)
    case Some(o) => Parse(o)
  }

  /** The entry's options name `bind` or `rbind`. */
  predicate IsBindMount(m: MountEntry)
  {
    m.options.Some? && ("bind" in m.options.value || "rbind" in m.options.value)
  }

  /** A relative source is taken relative to the bundle's rootfs. */
  function SourcePath(source: Path, bundleRootfs: Path): Path
  {
    if IsAbsolute(source) then source else Join(bundleRootfs, source)
  }

  // ---------------------------------------------------------------------
  // The view after a mount
  // ---------------------------------------------------------------------

  /** The view with everything strictly below `d` taken away. */
  function Hidden(fs: Fs, d: Path): Fs
  {
    map p | p in fs && !(Clean(d) < p) :: fs[p]
  }

  /** The view once a filesystem is mounted at `d`: what was below `d` is hidden,
      and `d` is the root directory of the mounted filesystem. A fresh tmpfs or
      mqueue is empty; what a `sysfs`, `proc` or other mounted filesystem holds is
      not modelled, and it is shown empty too. */
  function MountedOver(fs: Fs, d: Path): (r: Fs)
    ensures Clean(d) in r && r[Clean(d)] == Dir
    ensures forall p :: p in r ==> !(Clean(d) < p)
    ensures forall p :: p in fs && !(Clean(d) <= p) ==> p in r && r[p] == fs[p]
    ensures forall p :: p in r ==> p == Clean(d) || p in fs
  {
    Hidden(fs, d)[Clean(d) := Dir]
  }

  /** What a bind mount shows at its destination: the node the source names, with a
      link there followed (the source exists whenever it is bound). */
  function BoundNode(fs: Fs, source: Path): Node
  {
    match NodeAt(fs, source)
    case Some(Link(_, follows)) => if follows == ToDir then Dir else File
    case Some(n) => n
    case None => File
  }

  /** The path `p` below `s`, moved to below `d`. */
  function Graft(s: Path, d: Path, p: Path): Path
    requires s <= p
  {
    d + p[|s|..]
  }

  lemma GraftInjective(s: Path, d: Path)
    ensures forall p1, p2 :: s <= p1 && s <= p2 && Graft(s, d, p1) == Graft(s, d, p2) ==> p1 == p2
  {
    forall p1, p2 | s <= p1 && s <= p2 && Graft(s, d, p1) == Graft(s, d, p2)
      ensures p1 == p2
    {
      assert p1[|s|..] == Graft(s, d, p1)[|d|..] == Graft(s, d, p2)[|d|..] == p2[|s|..];
      assert p1 == s + p1[|s|..];
      assert p2 == s + p2[|s|..];
    }
  }

  /** The paths strictly below `s`, moved to below `d`. */
  function Grafted(fs: Fs, s: Path, d: Path): (r: Fs)
    ensures forall p :: p in fs && s < p ==> Graft(s, d, p) in r && r[Graft(s, d, p)] == fs[p]
    ensures forall q :: q in r ==> exists p :: p in fs && s < p && q == Graft(s, d, p)
  {
    GraftInjective(s, d);
    map p | p in fs && s < p :: Graft(s, d, p) := fs[p]
  }

  /** Every path the graft makes lies strictly below `d`. */
  lemma GraftedBelow(fs: Fs, s: Path, d: Path)
    ensures forall q :: q in Grafted(fs, s, d) ==> d < q
  {
    forall q | q in Grafted(fs, s, d)
      ensures d < q
    {
      var p :| p in fs && s < p && q == Graft(s, d, p);
      assert q[..|d|] == d;
    }
  }

  /** The view once `source` is bind-mounted at `d`: what was below `d` is hidden,
      `d` shows the node the source names, and the tree below the source appears
      below `d`. */
  function BoundOver(fs: Fs, source: Path, d: Path): (r: Fs)
    ensures Clean(d) in r && r[Clean(d)] == BoundNode(fs, source)
    ensures forall p :: p in fs && Clean(source) < p ==>
              Graft(Clean(source), Clean(d), p) in r && r[Graft(Clean(source), Clean(d), p)] == fs[p]
    ensures forall p :: p in fs && !(Clean(d) <= p) ==> p in r && r[p] == fs[p]
    ensures forall q :: q in r && Clean(d) < q ==> exists p :: p in fs && Clean(source) < p && q == Graft(Clean(source), Clean(d), p)
  {
    var s, c := Clean(source), Clean(d);
    GraftedBelow(fs, s, c);
    Hidden(fs, d)[c := BoundNode(fs, source)] + Grafted(fs, s, c)
  }

  /** Where a bind mount lands: a directory for a directory source, otherwise the
      parent directories and an empty file. */
  function BindTarget(source: Path, dest: Path, fs: Fs): Result<(seq<Effect>, Fs)>
  {
    if IsDir(fs, source) then Ok(([CreateDirAll(dest)], MkdirAll(fs, dest)))
    else match Parent(dest)
      case None => Err(NoParentDir)
      case Some(parent) =>
        var fs1 := MkdirAll(fs, parent);
        if Exists(fs1, dest) then Ok(([CreateDirAll(parent)], fs1))
        else Ok(([CreateDirAll(parent), CreateFile(dest)], fs1[Clean(dest) := File]))
  }

  /** A bind mount of `source` at the resolved `dest`, then its remount when flags
      other than `MS_REC`, `MS_REMOUNT` and `MS_BIND` are asked for. */
  function BindPlan(source: Path, mountDest: Path, dest: Path, o: MountOptions, rootfs: Path,
                    fs: Fs, tampered: set<Path>): Result<MountOutcome>
  {
    if !Exists(fs, source) then Err(BindSourceMissing)
    else if StartsWith(dest, Join(rootfs, [Normal("proc")])) then Err(MountInProc)
    else
      var target :- BindTarget(source, dest, fs);
      var calls :- Mounted("bind", source, mountDest, dest, o, target.1, tampered);
      var remount :- if o.mountFlags - {Rec, Remount, Bind} != {}
                     then Remounted("bind", source, mountDest, dest, o, target.1, tampered)
                     else Ok([]);
      Ok(MountOutcome(target.0 + calls + remount, BoundOver(target.1, source, dest), dest == Join(rootfs, [Normal("dev")])))
  }

  /** A mount of a filesystem type at the resolved `dest`. */
  function TypedPlan(device: string, source: Path, mountDest: Path, dest: Path, o: MountOptions, rootfs: Path,
                     fs: Fs, tampered: set<Path>): Result<MountOutcome>
  {
    if device == "sysfs" || device == "proc" then
      if !Exists(fs, dest) || IsDir(fs, dest) then
        var fs1 := MkdirAll(fs, dest);
        var calls :- Mounted(device, source, mountDest, dest, o, fs1, tampered);
        Ok(MountOutcome([CreateDirAll(dest)] + calls, MountedOver(fs1, dest), false))
      else Err(NotADirectory)
    else if device == "mqueue" then
      var made := if Exists(fs, dest) then [] else [CreateDirAll(dest)];
      var fs1 := if Exists(fs, dest) then fs else MkdirAll(fs, dest);
      var calls :- Mounted(device, source, mountDest, dest, o, fs1, tampered);
      Ok(MountOutcome(made + calls, MountedOver(fs1, dest), false))
    else if device == "tmpfs" then TmpfsPlan(source, mountDest, dest, o, fs, tampered, RemountCall(device, source, mountDest, dest, o))
    else if device == "cgroup" then Ok(MountOutcome([], fs, false))
    else if StartsWith(dest, Join(rootfs, [Normal("proc")])) then Err(MountInProc)
    else
      var fs1 := MkdirAll(fs, dest);
      var calls :- Mounted(device, source, mountDest, dest, o, fs1, tampered);
      Ok(MountOutcome([CreateDirAll(dest)] + calls, MountedOver(fs1, dest), false))
  }

  /** The tmpfs branch: the directory when it is missing, the mount, the old
      permissions restored over a directory that was there, and `remount` for `ro`.
      The remount goes through the destination the mount opened a moment ago. */
  function TmpfsPlan(source: Path, mountDest: Path, dest: Path, o: MountOptions, fs: Fs, tampered: set<Path>,
                     remount: Effect): Result<MountOutcome>
  {
    var existed := Exists(fs, dest);
    var fs1 := if existed then fs else MkdirAll(fs, dest);
    if !ProcFdOpens(fs1, dest, tampered) then Err(ProcFdError(fs1, dest))
    else Ok(MountOutcome(TmpfsCalls(source, mountDest, dest, o, existed, remount), MountedOver(fs1, dest), false))
  }

  /** The calls of the tmpfs branch once the destination opens: the directory when it
      was missing, the mount, the old permissions restored over a directory that was
      there, and the remount for `ro`. */
  function TmpfsCalls(source: Path, mountDest: Path, dest: Path, o: MountOptions, existed: bool, remount: Effect): seq<Effect>
  {
    (if existed then [] else [CreateDirAll(dest)]) + MountCalls("tmpfs", source, mountDest, dest, o) +
    (if existed then [RestorePermissions(dest)] else []) + (if Rdonly in o.mountFlags then [remount] else [])
  }

  /** The tmpfs branch as written, whose remount drops `MS_RDONLY`. */
  function TmpfsAsWritten(source: Path, mountDest: Path, dest: Path, o: MountOptions, fs: Fs, tampered: set<Path>)
    : Result<MountOutcome>
  {
    TmpfsPlan(source, mountDest, dest, o, fs, tampered, RemountCallAsWritten("tmpfs", source, mountDest, dest, o))
  }

  /** One iteration of `configure_mounts`. */
  function MountPlan(m: MountEntry, rootfs: Path, bundleRootfs: Path, fs: Fs, tampered: set<Path>): Result<MountOutcome>
  {
    if m.source.None? then Err(MissingMountSource)
    else if m.typ.None? then Err(MissingMountType)
    else
      var source := SourcePath(m.source.value, bundleRootfs);
      var o :- OptionsOf(m.options);
      var dest :- ResolveLoop(m.destination, [], 0, rootfs, fs).0;
      if !StartsWith(dest, rootfs) then Err(MountOutsideRootfs)
      else if IsBindMount(m) then BindPlan(source, m.destination, dest, o, rootfs, fs, tampered)
      else TypedPlan(m.typ.value, source, m.destination, dest, o, rootfs, fs, tampered)
  }

  /** The entries one after another: all calls, the final filesystem, and the
      returned `setup_dev`. */
  function ConfigureFold(ms: seq<MountEntry>, rootfs: Path, bundleRootfs: Path, fs: Fs, tampered: set<Path>)
    : Result<(seq<Effect>, Fs, bool)>
  {
    if ms == [] then Ok(([], fs, true))
    else
      var prev :- ConfigureFold(ms[..|ms| - 1], rootfs, bundleRootfs, fs, tampered);
      var out :- MountPlan(ms[|ms| - 1], rootfs, bundleRootfs, prev.1, tampered);
      Ok((prev.0 + out.trace, out.fs, prev.2 && !out.bindsDev))
  }

  /** The bind-mount branch of `configure_mounts`. */
  method BindMount(source: Path, mountDest: Path, dest: Path, o: MountOptions, rootfs: Path,
                   fs: Fs, tampered: set<Path>) returns (r: Result<MountOutcome>)
    ensures r == BindPlan(source, mountDest, dest, o, rootfs, fs, tampered)
  {
    var bindsDev := dest == Join(rootfs, [Normal("dev")]);
    if !Exists(fs, source) {
      return Err(BindSourceMissing);
    }
    if StartsWith(dest, Join(rootfs, [Normal("proc")])) {
      return Err(MountInProc);
    }
    var trace: seq<Effect>;
    var fs1: Fs;
    if IsDir(fs, source) {
      trace, fs1 := [CreateDirAll(dest)], MkdirAll(fs, dest);
    } else {
      var parent := Parent(dest);
      if parent.None? {
        return Err(NoParentDir);
      }
      trace, fs1 := [CreateDirAll(parent.value)], MkdirAll(fs, parent.value);
      if !Exists(fs1, dest) {
        trace, fs1 := [CreateDirAll(parent.value), CreateFile(dest)], fs1[Clean(dest) := File];
      }
    }
    assert BindTarget(source, dest, fs) == Ok((trace, fs1));
    var made := trace;
    var calls :- MountWithFlags("bind", source, mountDest, dest, o, fs1, tampered);
    trace := trace + calls;
    if o.mountFlags - {Rec, Remount, Bind} != {} {
      var remount :- RemountDestination("bind", source, mountDest, dest, o, fs1, tampered);
      trace := trace + remount;
      assert trace == made + calls + remount;
    } else {
      assert trace == made + calls + [];
    }
    return Ok(MountOutcome(trace, BoundOver(fs1, source, dest), bindsDev));
  }

  /** The branch of `configure_mounts` for mounts that are not bind mounts. */
  method TypedMount(device: string, source: Path, mountDest: Path, dest: Path, o: MountOptions, rootfs: Path,
                    fs: Fs, tampered: set<Path>) returns (r: Result<MountOutcome>)
    ensures r == TypedPlan(device, source, mountDest, dest, o, rootfs, fs, tampered)
  {
    if device == "sysfs" || device == "proc" {
      if !Exists(fs, dest) || IsDir(fs, dest) {
        var fs1 := MkdirAll(fs, dest);
        var calls :- MountWithFlags(device, source, mountDest, dest, o, fs1, tampered);
        return Ok(MountOutcome([CreateDirAll(dest)] + calls, MountedOver(fs1, dest), false));
      } else {
        return Err(NotADirectory);
      }
    } else if device == "mqueue" {
      var made: seq<Effect> := [];
      var fs1 := fs;
      if !Exists(fs, dest) {
        made, fs1 := [CreateDirAll(dest)], MkdirAll(fs, dest);
      }
      var calls :- MountWithFlags(device, source, mountDest, dest, o, fs1, tampered);
      return Ok(MountOutcome(made + calls, MountedOver(fs1, dest), false));
    } else if device == "tmpfs" {
      var existed := Exists(fs, dest);
      var trace: seq<Effect> := [];
      var fs1 := fs;
      if !existed {
        trace, fs1 := [CreateDirAll(dest)], MkdirAll(fs, dest);
      }
      var isReadOnly := Rdonly in o.mountFlags;
      var calls :- MountWithFlags(device, source, mountDest, dest, o, fs1, tampered);
      trace := trace + calls;
      if existed {
        trace := trace + [RestorePermissions(dest)];
      } else {
        assert trace == trace + [];
      }
      if isReadOnly {
        // The destination the mount went through opens again.
        var remount := RemountDestination(device, source, mountDest, dest, o, fs1, tampered);
        assert remount.Ok?;
        trace := trace + remount.value;
      } else {
        assert trace == trace + [];
      }
      return Ok(MountOutcome(trace, MountedOver(fs1, dest), false));
    } else if device == "cgroup" {
      // cgroup mounts are not implemented; only a warning is logged.
      return Ok(MountOutcome([], fs, false));
    } else if StartsWith(dest, Join(rootfs, [Normal("proc")])) {
      return Err(MountInProc);
    } else {
      var fs1 := MkdirAll(fs, dest);
      var calls :- MountWithFlags(device, source, mountDest, dest, o, fs1, tampered);
      return Ok(MountOutcome([CreateDirAll(dest)] + calls, MountedOver(fs1, dest), false));
    }
  }

  /** The body of the loop of `configure_mounts`, for one entry. */
  method ConfigureMount(m: MountEntry, rootfs: Path, bundleRootfs: Path, fs: Fs, tampered: set<Path>)
    returns (r: Result<MountOutcome>)
    ensures r == MountPlan(m, rootfs, bundleRootfs, fs, tampered)
  {
    if m.source.None? {
      return Err(MissingMountSource);
    }
    var source := m.source.value;
    if !IsAbsolute(source) {
      source := Join(bundleRootfs, source);
    }
    if m.typ.None? {
      return Err(MissingMountType);
    }
    var device := m.typ.value;
    var o := DefaultMountOptions;
    if m.options.Some? {
      o :- ParseMountOptions(m.options.value);
    }
    var dest :- ResolveInRootfs(m.destination, rootfs, fs);
    if !StartsWith(dest, rootfs) {
      return Err(MountOutsideRootfs);
    }
    if IsBindMount(m) {
      r := BindMount(source, m.destination, dest, o, rootfs, fs, tampered);
    } else {
      r := TypedMount(device, source, m.destination, dest, o, rootfs, fs, tampered);
    }
  }

  /** `configure_mounts`: every entry in order; the result is `setup_dev`, false once
      an entry bind-mounts over the rootfs's `dev`. Also gives the calls made and the
      filesystem afterwards. */
  method ConfigureMounts(mounts: seq<MountEntry>, rootfs: Path, bundleRootfs: Path, fs: Fs, tampered: set<Path>)
    returns (r: Result<bool>, trace: seq<Effect>, fs': Fs)
    ensures ConfigureFold(mounts, rootfs, bundleRootfs, fs, tampered).Err? ==>
              r == Err(ConfigureFold(mounts, rootfs, bundleRootfs, fs, tampered).error)
    ensures ConfigureFold(mounts, rootfs, bundleRootfs, fs, tampered).Ok? ==>
              var v := ConfigureFold(mounts, rootfs, bundleRootfs, fs, tampered).value;
              r == Ok(v.2) && trace == v.0 && fs' == v.1
  {
    var acc: Result<(seq<Effect>, Fs, bool)> := Ok(([], fs, true));
    var i := 0;
    while i < |mounts| && acc.Ok?
      invariant 0 <= i <= |mounts|
      invariant acc == ConfigureFold(mounts[..i], rootfs, bundleRootfs, fs, tampered)
    {
      var calls, current, setupDev := acc.value.0, acc.value.1, acc.value.2;
      ConfigureFoldStep(mounts, i, rootfs, bundleRootfs, fs, tampered, calls, current, setupDev);
      var out := ConfigureMount(mounts[i], rootfs, bundleRootfs, current, tampered);
      if out.Err? {
        acc := Err(out.error);
      } else {
        if out.value.bindsDev {
          setupDev := false;
        }
        acc := Ok((calls + out.value.trace, out.value.fs, setupDev));
      }
      i := i + 1;
    }
    ConfigureAbortSticks(mounts, i, rootfs, bundleRootfs, fs, tampered);
    assert mounts[..|mounts|] == mounts;
    if acc.Err? {
      return Err(acc.error), [], fs;
    }
    return Ok(acc.value.2), acc.value.0, acc.value.1;
  }

  lemma ConfigureFoldStep(ms: seq<MountEntry>, i: nat, rootfs: Path, bundleRootfs: Path, fs: Fs, tampered: set<Path>,
                          calls: seq<Effect>, current: Fs, setupDev: bool)
    requires i < |ms| && ConfigureFold(ms[..i], rootfs, bundleRootfs, fs, tampered) == Ok((calls, current, setupDev))
    ensures var out := MountPlan(ms[i], rootfs, bundleRootfs, current, tampered);
            ConfigureFold(ms[..i + 1], rootfs, bundleRootfs, fs, tampered)
            == if out.Err? then Err(out.error)
               else Ok((calls + out.value.trace, out.value.fs, setupDev && !out.value.bindsDev))
  {
    assert ms[..i + 1][..i] == ms[..i];
  }

  /** Once an entry aborts, the entries after it change nothing. */
  lemma {:induction false} ConfigureAbortSticks(ms: seq<MountEntry>, k: nat, rootfs: Path, bundleRootfs: Path,
                                                fs: Fs, tampered: set<Path>)
    requires k <= |ms|
    ensures ConfigureFold(ms[..k], rootfs, bundleRootfs, fs, tampered).Err? ==>
              ConfigureFold(ms, rootfs, bundleRootfs, fs, tampered) == ConfigureFold(ms[..k], rootfs, bundleRootfs, fs, tampered)
    decreases |ms| - k
  {
    if k < |ms| && ConfigureFold(ms[..k], rootfs, bundleRootfs, fs, tampered).Err? {
      var longer := ms[..k + 1];
      assert longer[..|longer| - 1] == ms[..k];
      ConfigureAbortSticks(ms, k + 1, rootfs, bundleRootfs, fs, tampered);
    } else if k == |ms| {
      assert ms[..k] == ms;
    }
  }

  // ---------------------------------------------------------------------
  // Properties of the plan
  // ---------------------------------------------------------------------

  /** The plan of an entry that got past the checks common to all entries. */
  lemma MountPlanBranches(m: MountEntry, rootfs: Path, bundleRootfs: Path, fs: Fs, tampered: set<Path>)
    requires MountPlan(m, rootfs, bundleRootfs, fs, tampered).Ok?
    ensures m.source.Some? && m.typ.Some? && OptionsOf(m.options).Ok?
    ensures ResolveLoop(m.destination, [], 0, rootfs, fs).0.Ok?
    ensures var dest := ResolveLoop(m.destination, [], 0, rootfs, fs).0.value;
            var source := SourcePath(m.source.value, bundleRootfs);
            var o := OptionsOf(m.options).value;
            && StartsWith(dest, rootfs)
            && MountPlan(m, rootfs, bundleRootfs, fs, tampered) ==
                 if IsBindMount(m) then BindPlan(source, m.destination, dest, o, rootfs, fs, tampered)
                 else TypedPlan(m.typ.value, source, m.destination, dest, o, rootfs, fs, tampered)
  {
  }

  lemma TypedPlanKeepsDev(device: string, source: Path, mountDest: Path, dest: Path, o: MountOptions, rootfs: Path,
                          fs: Fs, tampered: set<Path>)
    requires TypedPlan(device, source, mountDest, dest, o, rootfs, fs, tampered).Ok?
    ensures !TypedPlan(device, source, mountDest, dest, o, rootfs, fs, tampered).value.bindsDev
  {
  }

  lemma BindPlanDev(source: Path, mountDest: Path, dest: Path, o: MountOptions, rootfs: Path,
                    fs: Fs, tampered: set<Path>)
    requires BindPlan(source, mountDest, dest, o, rootfs, fs, tampered).Ok?
    ensures BindPlan(source, mountDest, dest, o, rootfs, fs, tampered).value.bindsDev <==> dest == Join(rootfs, [Normal("dev")])
  {
  }

  /** An entry bind-mounts over `dev` exactly when it is a bind mount whose
      destination resolves to the rootfs's `dev`. */
  lemma MountPlanBindsDev(m: MountEntry, rootfs: Path, bundleRootfs: Path, fs: Fs, tampered: set<Path>)
    requires MountPlan(m, rootfs, bundleRootfs, fs, tampered).Ok?
    ensures MountPlan(m, rootfs, bundleRootfs, fs, tampered).value.bindsDev <==>
              IsBindMount(m) && ResolveLoop(m.destination, [], 0, rootfs, fs).0 == Ok(Join(rootfs, [Normal("dev")]))
  {
    MountPlanBranches(m, rootfs, bundleRootfs, fs, tampered);
    var dest := ResolveLoop(m.destination, [], 0, rootfs, fs).0.value;
    var source := SourcePath(m.source.value, bundleRootfs);
    var o := OptionsOf(m.options).value;
    if IsBindMount(m) {
      BindPlanDev(source, m.destination, dest, o, rootfs, fs, tampered);
    } else {
      TypedPlanKeepsDev(m.typ.value, source, m.destination, dest, o, rootfs, fs, tampered);
    }
  }

  /** Entry `i` is a bind mount that resolves, on the filesystem the entries before
      it leave, to the rootfs's `dev`. */
  ghost predicate BindsDevAt(ms: seq<MountEntry>, i: nat, rootfs: Path, bundleRootfs: Path, fs: Fs, tampered: set<Path>)
    requires i < |ms|
  {
    var before := ConfigureFold(ms[..i], rootfs, bundleRootfs, fs, tampered);
    && before.Ok?
    && IsBindMount(ms[i])
    && ResolveLoop(ms[i].destination, [], 0, rootfs, before.value.1).0 == Ok(Join(rootfs, [Normal("dev")]))
  }

  /** Whether an entry binds over `dev` depends only on the entries before it. */
  lemma BindsDevAtPrefix(ms: seq<MountEntry>, n: nat, i: nat, rootfs: Path, bundleRootfs: Path, fs: Fs, tampered: set<Path>)
    requires i < n <= |ms|
    ensures BindsDevAt(ms[..n], i, rootfs, bundleRootfs, fs, tampered) == BindsDevAt(ms, i, rootfs, bundleRootfs, fs, tampered)
  {
    assert ms[..n][..i] == ms[..i];
    assert ms[..n][i] == ms[i];
  }

  /** The last entry binds over `dev` iff its own outcome says so. */
  lemma BindsDevAtLast(ms: seq<MountEntry>, rootfs: Path, bundleRootfs: Path, fs: Fs, tampered: set<Path>)
    requires ms != [] && ConfigureFold(ms[..|ms| - 1], rootfs, bundleRootfs, fs, tampered).Ok?
    requires MountPlan(ms[|ms| - 1], rootfs, bundleRootfs,
                       ConfigureFold(ms[..|ms| - 1], rootfs, bundleRootfs, fs, tampered).value.1, tampered).Ok?
    ensures BindsDevAt(ms, |ms| - 1, rootfs, bundleRootfs, fs, tampered)
            == MountPlan(ms[|ms| - 1], rootfs, bundleRootfs,
                         ConfigureFold(ms[..|ms| - 1], rootfs, bundleRootfs, fs, tampered).value.1, tampered).value.bindsDev
  {
    var prev := ConfigureFold(ms[..|ms| - 1], rootfs, bundleRootfs, fs, tampered).value;
    MountPlanBindsDev(ms[|ms| - 1], rootfs, bundleRootfs, prev.1, tampered);
  }

  /** The last entry of a run that went through: what it leaves `setup_dev` at. */
  lemma ConfigureFoldLast(ms: seq<MountEntry>, rootfs: Path, bundleRootfs: Path, fs: Fs, tampered: set<Path>)
    requires ms != [] && ConfigureFold(ms, rootfs, bundleRootfs, fs, tampered).Ok?
    ensures var prev := ConfigureFold(ms[..|ms| - 1], rootfs, bundleRootfs, fs, tampered);
            && prev.Ok?
            && MountPlan(ms[|ms| - 1], rootfs, bundleRootfs, prev.value.1, tampered).Ok?
            && ConfigureFold(ms, rootfs, bundleRootfs, fs, tampered).value.2
               == (prev.value.2 && !MountPlan(ms[|ms| - 1], rootfs, bundleRootfs, prev.value.1, tampered).value.bindsDev)
  {
  }

  /** When `setup_dev` comes back false, some entry bound over `dev`. */
  lemma {:induction false} DevBinderFound(ms: seq<MountEntry>, rootfs: Path, bundleRootfs: Path, fs: Fs, tampered: set<Path>)
    returns (i: nat)
    requires ConfigureFold(ms, rootfs, bundleRootfs, fs, tampered).Ok?
    requires !ConfigureFold(ms, rootfs, bundleRootfs, fs, tampered).value.2
    ensures i < |ms| && BindsDevAt(ms, i, rootfs, bundleRootfs, fs, tampered)
  {
    assert ms != [];
    var n := |ms| - 1;
    ConfigureFoldLast(ms, rootfs, bundleRootfs, fs, tampered);
    if !ConfigureFold(ms[..n], rootfs, bundleRootfs, fs, tampered).value.2 {
      i := DevBinderFound(ms[..n], rootfs, bundleRootfs, fs, tampered);
      BindsDevAtPrefix(ms, n, i, rootfs, bundleRootfs, fs, tampered);
    } else {
      BindsDevAtLast(ms, rootfs, bundleRootfs, fs, tampered);
      i := n;
    }
  }

  /** An entry that binds over `dev` leaves `setup_dev` false for good. */
  lemma {:induction false} DevBinderClears(ms: seq<MountEntry>, i: nat, rootfs: Path, bundleRootfs: Path, fs: Fs,
                                           tampered: set<Path>)
    requires ConfigureFold(ms, rootfs, bundleRootfs, fs, tampered).Ok?
    requires i < |ms| && BindsDevAt(ms, i, rootfs, bundleRootfs, fs, tampered)
    ensures !ConfigureFold(ms, rootfs, bundleRootfs, fs, tampered).value.2
  {
    var n := |ms| - 1;
    ConfigureFoldLast(ms, rootfs, bundleRootfs, fs, tampered);
    var before := ConfigureFold(ms[..n], rootfs, bundleRootfs, fs, tampered).value;
    var last := MountPlan(ms[n], rootfs, bundleRootfs, before.1, tampered).value;
    if i < n {
      BindsDevAtPrefix(ms, n, i, rootfs, bundleRootfs, fs, tampered);
      DevBinderClears(ms[..n], i, rootfs, bundleRootfs, fs, tampered);
      assert !before.2;
    } else {
      assert i == n;
      BindsDevAtLast(ms, rootfs, bundleRootfs, fs, tampered);
      assert last.bindsDev;
    }
  }

  /** `configure_mounts` returns false iff some entry bind-mounts over the rootfs's `dev`. */
  lemma SetupDevIff(ms: seq<MountEntry>, rootfs: Path, bundleRootfs: Path, fs: Fs, tampered: set<Path>)
    requires ConfigureFold(ms, rootfs, bundleRootfs, fs, tampered).Ok?
    ensures !ConfigureFold(ms, rootfs, bundleRootfs, fs, tampered).value.2 <==>
              exists i :: 0 <= i < |ms| && BindsDevAt(ms, i, rootfs, bundleRootfs, fs, tampered)
  {
    if !ConfigureFold(ms, rootfs, bundleRootfs, fs, tampered).value.2 {
      var i := DevBinderFound(ms, rootfs, bundleRootfs, fs, tampered);
    }
    forall i | 0 <= i < |ms| && BindsDevAt(ms, i, rootfs, bundleRootfs, fs, tampered)
      ensures !ConfigureFold(ms, rootfs, bundleRootfs, fs, tampered).value.2
    {
      DevBinderClears(ms, i, rootfs, bundleRootfs, fs, tampered);
    }
  }

  /** A call that stays inside the rootfs: mounts and created files below it, and
      directories created below it or on the way to it. */
  predicate InsideRootfs(e: Effect, rootfs: Path)
  {
    match e
    case Mount(_, target, _, _, _) => target.ThroughProcFd? && StartsWith(target.dest, rootfs)
    case CreateDirAll(p) => StartsWith(p, rootfs) || StartsWith(rootfs, p)
    case CreateFile(p) => StartsWith(p, rootfs)
    case RestorePermissions(p) => StartsWith(p, rootfs)
    case _ => false
  }

  lemma ParentOnTheWay(dest: Path, rootfs: Path, parent: Path)
    requires StartsWith(dest, rootfs) && Parent(dest) == Some(parent)
    ensures StartsWith(parent, rootfs) || StartsWith(rootfs, parent)
  {
    if |dest| == |rootfs| {
      assert dest == rootfs;
    }
  }

  lemma MountedInside(device: string, source: Path, mountDest: Path, dest: Path, o: MountOptions, rootfs: Path,
                      fs: Fs, tampered: set<Path>)
    requires StartsWith(dest, rootfs)
    requires Mounted(device, source, mountDest, dest, o, fs, tampered).Ok?
    ensures forall e :: e in Mounted(device, source, mountDest, dest, o, fs, tampered).value ==> InsideRootfs(e, rootfs)
    ensures forall e :: e in [RemountCall(device, source, mountDest, dest, o)] ==> InsideRootfs(e, rootfs)
  {
  }

  /** The calls of a bind mount that goes through: making the target, the mount
      calls, then the remount when one is asked for. */
  lemma BindPlanParts(source: Path, mountDest: Path, dest: Path, o: MountOptions, rootfs: Path,
                      fs: Fs, tampered: set<Path>)
    requires BindPlan(source, mountDest, dest, o, rootfs, fs, tampered).Ok?
    ensures BindTarget(source, dest, fs).Ok?
    ensures BindPlan(source, mountDest, dest, o, rootfs, fs, tampered).value.trace ==
              BindTarget(source, dest, fs).value.0 + MountCalls("bind", source, mountDest, dest, o) +
              (if o.mountFlags - {Rec, Remount, Bind} != {} then [RemountCall("bind", source, mountDest, dest, o)] else [])
  {
  }

  /** Making the target of a bind mount creates directories and files only. */
  lemma BindTargetMakes(source: Path, dest: Path, fs: Fs)
    requires BindTarget(source, dest, fs).Ok?
    ensures forall e :: e in BindTarget(source, dest, fs).value.0 ==>
              e == CreateDirAll(dest) || e == CreateFile(dest) || (Parent(dest).Some? && e == CreateDirAll(Parent(dest).value))
  {
  }

  lemma BindPlanInside(source: Path, mountDest: Path, dest: Path, o: MountOptions, rootfs: Path,
                       fs: Fs, tampered: set<Path>)
    requires StartsWith(dest, rootfs)
    requires BindPlan(source, mountDest, dest, o, rootfs, fs, tampered).Ok?
    ensures forall e :: e in BindPlan(source, mountDest, dest, o, rootfs, fs, tampered).value.trace ==> InsideRootfs(e, rootfs)
  {
    BindPlanParts(source, mountDest, dest, o, rootfs, fs, tampered);
    BindTargetMakes(source, dest, fs);
    if Parent(dest).Some? {
      ParentOnTheWay(dest, rootfs, Parent(dest).value);
    }
    var made := BindTarget(source, dest, fs).value.0;
    var calls := MountCalls("bind", source, mountDest, dest, o);
    var remount := if o.mountFlags - {Rec, Remount, Bind} != {} then [RemountCall("bind", source, mountDest, dest, o)] else [];
    assert forall e :: e in made ==> InsideRootfs(e, rootfs);
    assert forall e :: e in calls ==> InsideRootfs(e, rootfs);
    assert forall e :: e in remount ==> InsideRootfs(e, rootfs);
    AllInside(made, calls, remount, rootfs);
  }

  lemma AllInside(a: seq<Effect>, b: seq<Effect>, c: seq<Effect>, rootfs: Path)
    requires forall e :: e in a ==> InsideRootfs(e, rootfs)
    requires forall e :: e in b ==> InsideRootfs(e, rootfs)
    requires forall e :: e in c ==> InsideRootfs(e, rootfs)
    ensures forall e :: e in a + b + c ==> InsideRootfs(e, rootfs)
  {
  }

  lemma TypedPlanInside(device: string, source: Path, mountDest: Path, dest: Path, o: MountOptions, rootfs: Path,
                        fs: Fs, tampered: set<Path>)
    requires StartsWith(dest, rootfs)
    requires TypedPlan(device, source, mountDest, dest, o, rootfs, fs, tampered).Ok?
    ensures forall e :: e in TypedPlan(device, source, mountDest, dest, o, rootfs, fs, tampered).value.trace ==> InsideRootfs(e, rootfs)
  {
    if device != "cgroup" {
      var fs1 := if device in {"mqueue", "tmpfs"} && Exists(fs, dest) then fs else MkdirAll(fs, dest);
      MountedInside(device, source, mountDest, dest, o, rootfs, fs1, tampered);
    }
  }

  /** Every call an entry makes stays inside the rootfs. */
  lemma MountPlanInside(m: MountEntry, rootfs: Path, bundleRootfs: Path, fs: Fs, tampered: set<Path>)
    requires MountPlan(m, rootfs, bundleRootfs, fs, tampered).Ok?
    ensures forall e :: e in MountPlan(m, rootfs, bundleRootfs, fs, tampered).value.trace ==> InsideRootfs(e, rootfs)
  {
    MountPlanBranches(m, rootfs, bundleRootfs, fs, tampered);
    var dest := ResolveLoop(m.destination, [], 0, rootfs, fs).0.value;
    var source := SourcePath(m.source.value, bundleRootfs);
    var o := OptionsOf(m.options).value;
    if IsBindMount(m) {
      BindPlanInside(source, m.destination, dest, o, rootfs, fs, tampered);
    } else {
      TypedPlanInside(m.typ.value, source, m.destination, dest, o, rootfs, fs, tampered);
    }
  }

  /** Every call of `configure_mounts` stays inside the rootfs. */
  lemma {:induction false} ConfigureInside(ms: seq<MountEntry>, rootfs: Path, bundleRootfs: Path, fs: Fs, tampered: set<Path>)
    requires ConfigureFold(ms, rootfs, bundleRootfs, fs, tampered).Ok?
    ensures forall e :: e in ConfigureFold(ms, rootfs, bundleRootfs, fs, tampered).value.0 ==> InsideRootfs(e, rootfs)
  {
    if ms != [] {
      var init := ms[..|ms| - 1];
      ConfigureInside(init, rootfs, bundleRootfs, fs, tampered);
      MountPlanInside(ms[|ms| - 1], rootfs, bundleRootfs, ConfigureFold(init, rootfs, bundleRootfs, fs, tampered).value.1, tampered);
    }
  }

  /** The aborts of one entry, in the order the checks are made: a missing source or
      type, then a destination that resolves outside the rootfs, a bind source that
      does not exist, a bind destination under `proc`, and a `sysfs` or `proc`
      destination that is there and is not a directory. */
  lemma EntryAborts(m: MountEntry, rootfs: Path, bundleRootfs: Path, fs: Fs, tampered: set<Path>)
    ensures m.source.None? ==> MountPlan(m, rootfs, bundleRootfs, fs, tampered) == Err(MissingMountSource)
    ensures m.source.Some? && m.typ.None? ==> MountPlan(m, rootfs, bundleRootfs, fs, tampered) == Err(MissingMountType)
    ensures m.source.Some? && m.typ.Some? && OptionsOf(m.options).Ok? && ResolveLoop(m.destination, [], 0, rootfs, fs).0.Ok? ==>
              var dest := ResolveLoop(m.destination, [], 0, rootfs, fs).0.value;
              var source := SourcePath(m.source.value, bundleRootfs);
              var r := MountPlan(m, rootfs, bundleRootfs, fs, tampered);
              && (!StartsWith(dest, rootfs) ==> r == Err(MountOutsideRootfs))
              && (StartsWith(dest, rootfs) && IsBindMount(m) && !Exists(fs, source) ==> r == Err(BindSourceMissing))
              && (var inProc := StartsWith(dest, Join(rootfs, [Normal("proc")]));
                  StartsWith(dest, rootfs) && IsBindMount(m) && Exists(fs, source) && inProc ==> r == Err(MountInProc))
              && (var notDir := Exists(fs, dest) && !IsDir(fs, dest);
                  StartsWith(dest, rootfs) && !IsBindMount(m) && m.typ.value in {"sysfs", "proc"} && notDir ==> r == Err(NotADirectory))
  {
  }

  /** Bind mounts and mounts of types without a branch of their own never land under
      the rootfs's `proc`. */
  lemma ProcGuarded(m: MountEntry, rootfs: Path, bundleRootfs: Path, fs: Fs, tampered: set<Path>)
    requires MountPlan(m, rootfs, bundleRootfs, fs, tampered).Ok?
    requires IsBindMount(m) || m.typ.value !in {"sysfs", "proc", "mqueue", "tmpfs", "cgroup"}
    ensures !StartsWith(ResolveLoop(m.destination, [], 0, rootfs, fs).0.value, Join(rootfs, [Normal("proc")]))
  {
    MountPlanBranches(m, rootfs, bundleRootfs, fs, tampered);
  }

  /** The call of `remount`: a mount with a source, `MS_REMOUNT` and no data. */
  predicate IsRemountCall(e: Effect)
  {
    e.Mount? && e.source.Some? && e.data.None? && Remount in e.flags
  }

  lemma MountCallsNoRemount(device: string, source: Path, mountDest: Path, dest: Path, o: MountOptions)
    requires o.data.Some? || Remount !in o.mountFlags
    ensures forall e :: e in MountCalls(device, source, mountDest, dest, o) ==> !IsRemountCall(e)
  {
  }

  /** The options of an entry never put a propagation type into the main call, and
      the main call has data whenever the entry has options. */
  lemma OptionsOfShape(options: Option<seq<string>>)
    requires OptionsOf(options).Ok?
    ensures OptionsOf(options).value.propagationFlags <= PropagationTypes + {Rec}
    ensures options.Some? ==> OptionsOf(options).value.data.Some?
    ensures options.None? ==> OptionsOf(options).value == DefaultMountOptions
  {
    if options.Some? {
      PropagationKeptApart(options.value);
    }
  }

  /** A remount call is in the trace iff it is in the last part, when the parts
      before it hold none. */
  lemma RemountOnlyLast(made: seq<Effect>, calls: seq<Effect>, remount: seq<Effect>)
    requires forall e :: e in made ==> !IsRemountCall(e)
    requires forall e :: e in calls ==> !IsRemountCall(e)
    ensures (exists e :: e in made + calls + remount && IsRemountCall(e)) <==> (exists e :: e in remount && IsRemountCall(e))
  {
  }

  /** A bind mount is remounted iff flags other than `MS_REC`, `MS_REMOUNT` and
      `MS_BIND` were asked for. */
  lemma BindRemountIff(m: MountEntry, rootfs: Path, bundleRootfs: Path, fs: Fs, tampered: set<Path>)
    requires MountPlan(m, rootfs, bundleRootfs, fs, tampered).Ok? && IsBindMount(m)
    ensures (exists e :: e in MountPlan(m, rootfs, bundleRootfs, fs, tampered).value.trace && IsRemountCall(e)) <==>
              OptionsOf(m.options).value.mountFlags - {Rec, Remount, Bind} != {}
  {
    MountPlanBranches(m, rootfs, bundleRootfs, fs, tampered);
    OptionsOfShape(m.options);
    var dest := ResolveLoop(m.destination, [], 0, rootfs, fs).0.value;
    var source := SourcePath(m.source.value, bundleRootfs);
    var o := OptionsOf(m.options).value;
    BindPlanParts(source, m.destination, dest, o, rootfs, fs, tampered);
    BindTargetMakes(source, dest, fs);
    MountCallsNoRemount("bind", source, m.destination, dest, o);
    var call := RemountCall("bind", source, m.destination, dest, o);
    var remount := if o.mountFlags - {Rec, Remount, Bind} != {} then [call] else [];
    RemountOnlyLast(BindTarget(source, dest, fs).value.0, MountCalls("bind", source, m.destination, dest, o), remount);
    if remount != [] {
      assert call in remount && IsRemountCall(call);
    }
  }

  /** The calls of a tmpfs branch that goes through, piece by piece. */
  lemma TmpfsPlanParts(source: Path, mountDest: Path, dest: Path, o: MountOptions, fs: Fs, tampered: set<Path>,
                       remount: Effect)
    requires TmpfsPlan(source, mountDest, dest, o, fs, tampered, remount).Ok?
    ensures var existed := Exists(fs, dest);
            TmpfsPlan(source, mountDest, dest, o, fs, tampered, remount).value.trace ==
              (if existed then [] else [CreateDirAll(dest)]) + MountCalls("tmpfs", source, mountDest, dest, o) +
              (if existed then [RestorePermissions(dest)] else []) + (if Rdonly in o.mountFlags then [remount] else [])
  {
  }

  /** Mount calls without `MS_RDONLY` and without a remount, calls that are not
      mounts, then at most one remount: the remount is there iff it was asked for,
      and it is last. */
  lemma RemountLastPiece(made: seq<Effect>, calls: seq<Effect>, restore: seq<Effect>, ro: bool, remount: Effect)
    requires forall e :: e in made + restore ==> !e.Mount?
    requires forall e :: e in calls ==> e.Mount? && !IsRemountCall(e) && Rdonly !in e.flags
    requires IsRemountCall(remount)
    ensures var t := made + calls + restore + (if ro then [remount] else []);
            && (forall e :: e in t && e.Mount? && !IsRemountCall(e) ==> Rdonly !in e.flags)
            && ((exists e :: e in t && IsRemountCall(e)) <==> ro)
            && (ro ==> t[|t| - 1] == remount)
  {
    var t := made + calls + restore + (if ro then [remount] else []);
    if ro {
      assert remount in t;
    } else {
      assert t == made + calls + restore;
    }
  }

  /** The calls of the tmpfs branch: the mount calls carry no `MS_RDONLY`, and the
      given remount is made, last, iff `ro` was asked for. */
  lemma TmpfsPlanCalls(source: Path, mountDest: Path, dest: Path, o: MountOptions, fs: Fs, tampered: set<Path>,
                       remount: Effect)
    requires TmpfsPlan(source, mountDest, dest, o, fs, tampered, remount).Ok?
    requires o.propagationFlags <= PropagationTypes + {Rec}
    requires o.data.Some? || Remount !in o.mountFlags
    requires IsRemountCall(remount)
    ensures var t := TmpfsPlan(source, mountDest, dest, o, fs, tampered, remount).value.trace;
            && (forall e :: e in t && e.Mount? && !IsRemountCall(e) ==> Rdonly !in e.flags)
            && ((exists e :: e in t && IsRemountCall(e)) <==> Rdonly in o.mountFlags)
            && (Rdonly in o.mountFlags ==> t[|t| - 1] == remount)
  {
    var existed := Exists(fs, dest);
    var made: seq<Effect> := if existed then [] else [CreateDirAll(dest)];
    var calls := MountCalls("tmpfs", source, mountDest, dest, o);
    var restore: seq<Effect> := if existed then [RestorePermissions(dest)] else [];
    TmpfsPlanParts(source, mountDest, dest, o, fs, tampered, remount);
    TmpfsNeverReadOnly(source, mountDest, dest, o);
    MountCallsNoRemount("tmpfs", source, mountDest, dest, o);
    RemountLastPiece(made, calls, restore, Rdonly in o.mountFlags, remount);
  }

  /** As written, a tmpfs never ends up read-only: `ro` adds a remount, and it too
      has `MS_RDONLY` dropped. */
  lemma TmpfsAsWrittenNeverReadOnly(source: Path, mountDest: Path, dest: Path, o: MountOptions, fs: Fs, tampered: set<Path>)
    requires TmpfsAsWritten(source, mountDest, dest, o, fs, tampered).Ok?
    requires o.propagationFlags <= PropagationTypes + {Rec}
    ensures forall e :: e in TmpfsAsWritten(source, mountDest, dest, o, fs, tampered).value.trace && e.Mount? ==> Rdonly !in e.flags
    ensures Rdonly in o.mountFlags && mountDest != DevPath ==>
              TmpfsAsWritten(source, mountDest, dest, o, fs, tampered) != TypedPlan("tmpfs", source, mountDest, dest, o, [], fs, tampered)
  {
    var asWritten := RemountCallAsWritten("tmpfs", source, mountDest, dest, o);
    var existed := Exists(fs, dest);
    var made: seq<Effect> := if existed then [] else [CreateDirAll(dest)];
    var calls := MountCalls("tmpfs", source, mountDest, dest, o);
    var restore: seq<Effect> := if existed then [RestorePermissions(dest)] else [];
    TmpfsNeverReadOnly(source, mountDest, dest, o);
    TmpfsPlanParts(source, mountDest, dest, o, fs, tampered, asWritten);
    NoReadOnlyPieces(made, calls, restore, if Rdonly in o.mountFlags then [asWritten] else []);
    if Rdonly in o.mountFlags && mountDest != DevPath {
      TmpfsRemountsDiffer(source, mountDest, dest, o, fs, tampered);
    }
  }

  /** With `ro` outside `/dev`, the last call as written and the last call corrected
      differ in `MS_RDONLY`. */
  lemma TmpfsRemountsDiffer(source: Path, mountDest: Path, dest: Path, o: MountOptions, fs: Fs, tampered: set<Path>)
    requires TmpfsAsWritten(source, mountDest, dest, o, fs, tampered).Ok?
    requires Rdonly in o.mountFlags && mountDest != DevPath
    ensures TmpfsAsWritten(source, mountDest, dest, o, fs, tampered) != TypedPlan("tmpfs", source, mountDest, dest, o, [], fs, tampered)
  {
    var asWritten := RemountCallAsWritten("tmpfs", source, mountDest, dest, o);
    var fixed := RemountCall("tmpfs", source, mountDest, dest, o);
    TmpfsPlanParts(source, mountDest, dest, o, fs, tampered, asWritten);
    TmpfsPlanParts(source, mountDest, dest, o, fs, tampered, fixed);
    var existed := Exists(fs, dest);
    var made: seq<Effect> := if existed then [] else [CreateDirAll(dest)];
    var calls := MountCalls("tmpfs", source, mountDest, dest, o);
    var restore: seq<Effect> := if existed then [RestorePermissions(dest)] else [];
    var t, u := made + calls + restore + [asWritten], made + calls + restore + [fixed];
    assert t[|t| - 1] == asWritten && u[|u| - 1] == fixed;
    assert Rdonly in fixed.flags && Rdonly !in asWritten.flags;
  }

  lemma NoReadOnlyPieces(made: seq<Effect>, calls: seq<Effect>, restore: seq<Effect>, again: seq<Effect>)
    requires forall e :: e in made + restore ==> !e.Mount?
    requires forall e :: e in calls + again ==> e.Mount? && Rdonly !in e.flags
    ensures forall e :: e in made + calls + restore + again && e.Mount? ==> Rdonly !in e.flags
  {
  }

  /** Without `ro`, or at `/dev`, the branch as written and the corrected one agree. */
  lemma TmpfsAgrees(source: Path, mountDest: Path, dest: Path, o: MountOptions, rootfs: Path, fs: Fs, tampered: set<Path>)
    requires Rdonly !in o.mountFlags || mountDest == DevPath
    ensures TmpfsAsWritten(source, mountDest, dest, o, fs, tampered) == TypedPlan("tmpfs", source, mountDest, dest, o, rootfs, fs, tampered)
  {
    RemountAgrees("tmpfs", source, mountDest, dest, o);
  }

  /** A tmpfs entry is mounted without `MS_RDONLY`, so that its permissions can be
      set; `ro` then adds one remount, the last call, and outside `/dev` that remount
      makes the tmpfs read-only. */
  lemma TmpfsPlanReadOnly(m: MountEntry, rootfs: Path, bundleRootfs: Path, fs: Fs, tampered: set<Path>)
    requires MountPlan(m, rootfs, bundleRootfs, fs, tampered).Ok?
    requires !IsBindMount(m) && m.typ == Some("tmpfs")
    ensures var t := MountPlan(m, rootfs, bundleRootfs, fs, tampered).value.trace;
            && (forall e :: e in t && e.Mount? && !IsRemountCall(e) ==> Rdonly !in e.flags)
            && ((exists e :: e in t && IsRemountCall(e)) <==> Rdonly in OptionsOf(m.options).value.mountFlags)
            && (Rdonly in OptionsOf(m.options).value.mountFlags && m.destination != DevPath ==>
                  IsRemountCall(t[|t| - 1]) && Rdonly in t[|t| - 1].flags)
  {
    MountPlanBranches(m, rootfs, bundleRootfs, fs, tampered);
    OptionsOfShape(m.options);
    var dest := ResolveLoop(m.destination, [], 0, rootfs, fs).0.value;
    var source := SourcePath(m.source.value, bundleRootfs);
    var o := OptionsOf(m.options).value;
    var call := RemountCall("tmpfs", source, m.destination, dest, o);
    TmpfsPlanCalls(source, m.destination, dest, o, fs, tampered, call);
  }
  // ---------------------------------------------------------------------
  // What later entries see
  // ---------------------------------------------------------------------

  /** Making the target of a bind mount changes nothing that was there, except a
      dangling link at the destination, which becomes the file mounted over. */
  lemma BindTargetKeeps(source: Path, dest: Path, fs: Fs)
    requires BindTarget(source, dest, fs).Ok?
    ensures forall p :: p in fs && p != Clean(dest) ==>
              p in BindTarget(source, dest, fs).value.1 && BindTarget(source, dest, fs).value.1[p] == fs[p]
  {
    if IsDir(fs, source) {
      MkdirAllEffect(fs, dest);
    } else {
      MkdirAllEffect(fs, Parent(dest).value);
    }
  }

  /** A filesystem-type entry: at and below its destination there is only the
      mounted filesystem's empty root; everything else is as before. */
  lemma TypedPlanView(device: string, source: Path, mountDest: Path, dest: Path, o: MountOptions, rootfs: Path,
                      fs: Fs, tampered: set<Path>)
    requires TypedPlan(device, source, mountDest, dest, o, rootfs, fs, tampered).Ok? && device != "cgroup"
    ensures var view := TypedPlan(device, source, mountDest, dest, o, rootfs, fs, tampered).value.fs;
            && Clean(dest) in view && view[Clean(dest)] == Dir
            && (forall p :: p in view ==> !(Clean(dest) < p))
            && (forall p :: p in fs && !(Clean(dest) <= p) ==> p in view && view[p] == fs[p])
  {
    MkdirAllEffect(fs, dest);
  }

  /** A bind entry: the destination shows the source, the source's tree appears
      below it, and everything outside it is as before. */
  lemma BindPlanView(source: Path, mountDest: Path, dest: Path, o: MountOptions, rootfs: Path,
                     fs: Fs, tampered: set<Path>)
    requires BindPlan(source, mountDest, dest, o, rootfs, fs, tampered).Ok?
    ensures var view := BindPlan(source, mountDest, dest, o, rootfs, fs, tampered).value.fs;
            var s, c := Clean(source), Clean(dest);
            && c in view
            && (forall p :: p in fs && s < p && p != c ==> Graft(s, c, p) in view && view[Graft(s, c, p)] == fs[p])
            && (forall p :: p in fs && !(c <= p) ==> p in view && view[p] == fs[p])
  {
    BindTargetKeeps(source, dest, fs);
  }

  /** After an entry that went through, what is at and below its resolved
      destination is what the mount put there, and the rest of the view is as it
      was: later entries, and the program search after them, see the mounts made. */
  lemma MountPlanView(m: MountEntry, rootfs: Path, bundleRootfs: Path, fs: Fs, tampered: set<Path>)
    requires MountPlan(m, rootfs, bundleRootfs, fs, tampered).Ok?
    requires IsBindMount(m) || m.typ.value != "cgroup"
    ensures var dest := Clean(ResolveLoop(m.destination, [], 0, rootfs, fs).0.value);
            var view := MountPlan(m, rootfs, bundleRootfs, fs, tampered).value.fs;
            var s := Clean(SourcePath(m.source.value, bundleRootfs));
            && dest in view
            && (forall p :: p in fs && !(dest <= p) ==> p in view && view[p] == fs[p])
            && (!IsBindMount(m) ==> view[dest] == Dir && forall p :: p in view ==> !(dest < p))
            && (IsBindMount(m) ==> forall p :: p in fs && s < p && p != dest ==> Graft(s, dest, p) in view && view[Graft(s, dest, p)] == fs[p])
  {
    MountPlanBranches(m, rootfs, bundleRootfs, fs, tampered);
    var dest := ResolveLoop(m.destination, [], 0, rootfs, fs).0.value;
    var source := SourcePath(m.source.value, bundleRootfs);
    var o := OptionsOf(m.options).value;
    if IsBindMount(m) {
      BindPlanView(source, m.destination, dest, o, rootfs, fs, tampered);
    } else {
      TypedPlanView(m.typ.value, source, m.destination, dest, o, rootfs, fs, tampered);
    }
  }

  /** A tmpfs over a destination that is not there creates its directory and has no
      permissions to restore. */
  lemma TmpfsOnMissing(source: Path, mountDest: Path, dest: Path, o: MountOptions, remount: Effect)
    requires remount.Mount?
    ensures var t := TmpfsCalls(source, mountDest, dest, o, false, remount);
            t[0] == CreateDirAll(dest) && RestorePermissions(dest) !in t
  {
    var calls := MountCalls("tmpfs", source, mountDest, dest, o);
    var again: seq<Effect> := if Rdonly in o.mountFlags then [remount] else [];
    MadeThenMounts(dest, calls, again);
  }

  lemma MadeThenMounts(dest: Path, calls: seq<Effect>, again: seq<Effect>)
    requires forall e :: e in calls + again ==> e.Mount?
    ensures var t := [CreateDirAll(dest)] + calls + [] + again;
            t[0] == CreateDirAll(dest) && RestorePermissions(dest) !in t
  {
    var t := [CreateDirAll(dest)] + calls + [] + again;
    assert t == [CreateDirAll(dest)] + (calls + again);
  }

  /** A tmpfs below the destination of an earlier filesystem-type entry finds nothing
      there, whatever the view held before: it creates its directory and has no
      permissions to restore. */
  lemma TmpfsBelowMount(m: MountEntry, rootfs: Path, bundleRootfs: Path, fs: Fs, tampered: set<Path>,
                        source: Path, mountDest: Path, dest: Path, o: MountOptions)
    requires MountPlan(m, rootfs, bundleRootfs, fs, tampered).Ok? && !IsBindMount(m) && m.typ.value != "cgroup"
    requires Clean(ResolveLoop(m.destination, [], 0, rootfs, fs).0.value) < Clean(dest)
    requires TypedPlan("tmpfs", source, mountDest, dest, o, rootfs, MountPlan(m, rootfs, bundleRootfs, fs, tampered).value.fs,
                       tampered).Ok?
    ensures var t := TypedPlan("tmpfs", source, mountDest, dest, o, rootfs, MountPlan(m, rootfs, bundleRootfs, fs, tampered).value.fs,
                               tampered).value.trace;
            t[0] == CreateDirAll(dest) && RestorePermissions(dest) !in t
  {
    var view := MountPlan(m, rootfs, bundleRootfs, fs, tampered).value.fs;
    MountPlanView(m, rootfs, bundleRootfs, fs, tampered);
    assert Clean(dest) !in view;
    var call := RemountCall("tmpfs", source, mountDest, dest, o);
    TmpfsPlanParts(source, mountDest, dest, o, view, tampered, call);
    TmpfsOnMissing(source, mountDest, dest, o, call);
  }
}
