/** The container's init process (src/init.rs): the handshake with `runh create`,
    then three stages. PARENT clones CHILD; CHILD joins and creates namespaces and
    clones GRANDCHILD; GRANDCHILD sets up the root filesystem and executes the
    container's program. Each process's calls form its own trace; the stages are
    modelled one after another, each seeing the configuration unchanged. */
module Init {
  import opened Wrappers
  import Text
  import opened PathBufs
  import opened Bytes
  import opened Flags
  import opened Host
  import opened Rootfs
  import Mounts
  import Namespaces
  import Paths

  // ---------------------------------------------------------------------
  // The configuration
  // ---------------------------------------------------------------------

  datatype Root = Root(readonly: Option<bool>)

  datatype Process = Process(args: Option<seq<string>>, env: Option<seq<string>>, cwd: string,
                             noNewPrivileges: Option<bool>)

  datatype Linux = Linux(namespaces: Option<seq<Namespace>>, rootfsPropagation: Option<string>)

  /** The parts of the runtime spec that init reads. */
  datatype Spec = Spec(linux: Option<Linux>, process: Option<Process>, mounts: Option<seq<Mounts.MountEntry>>,
                       root: Option<Root>, hostname: Option<string>)

  /** What every stage is handed. */
  datatype InitConfig = InitConfig(spec: Spec, cloneflags: set<CloneFlag>, rootfs: string)

  /** The variables `RUNH_INITPIPE`, `RUNH_SPEC_FILE` and `RUNH_FIFOFD`. */
  datatype RunhVars = RunhVars(initPipe: Option<string>, specFile: Option<string>, fifoFd: Option<string>)

  /** What the host answers: which namespace files cannot be opened or joined, the
      pids `clone` returns, the filesystem with the proc-fd links that do not point
      back, and how the read-only remount of `/` goes. */
  datatype InitHost = InitHost(
    unopenable: set<Path>, unjoinable: set<Path>,
    childPid: int, grandchildPid: int,
    fs: Fs, tampered: set<Path>,
    firstRemountFails: bool, statvfsFlags: set<MsFlag>, statvfsUnknownBits: bool)

  /** How each process ends: `None` for CHILD and GRANDCHILD when they are never
      started, and for PARENT when it waits forever for a pid that never comes. */
  datatype InitOutcome = InitOutcome(parent: Option<Result<seq<Effect>>>,
                                     child: Option<Result<seq<Effect>>>,
                                     grandchild: Option<Result<seq<Effect>>>)

  /** `umask(0o022)`. */
  const Umask022: int := 18

  // ---------------------------------------------------------------------
  // init_container: the handshake
  // ---------------------------------------------------------------------

  /** A descriptor number passed in an environment variable. */
  function EnvFd(name: string, value: Option<string>): Result<int>
  {
    if value.None? then Err(EnvVarInvalid(name))
    else match Text.ParseI32(value.value)
      case None => Err(EnvVarInvalid(name))
      case Some(fd) => Ok(fd)
  }

  /** The rootfs path as `runh create` sends it: its length as 8 little-endian bytes,
      then that many bytes of UTF-8. */
  function Handshake(pipeIn: seq<byte>): Result<string>
  {
    if |pipeIn| < 8 then Err(HandshakeTruncated)
    else
      var size := LeValue(pipeIn[..8]);
      if |pipeIn| - 8 < size then Err(HandshakeTruncated)
      else match Utf8Decode(pipeIn[8..8 + size])
        case None => Err(RootfsNotUtf8)
        case Some(s) => Ok(s)
  }

  /** What `runh create` writes is read back as the same path, whatever follows it. */
  lemma HandshakeRoundTrip(rootfs: string, rest: seq<byte>)
    requires |Utf8Encode(rootfs)| < Pow256(8)
    ensures Handshake(LeBytes(|Utf8Encode(rootfs)|, 8) + Utf8Encode(rootfs) + rest) == Ok(rootfs)
  {
    var body := Utf8Encode(rootfs);
    var header := LeBytes(|body|, 8);
    var msg := header + body + rest;
    assert msg[..8] == header;
    LeRoundTrip(|body|, 8);
    assert msg[8..8 + |body|] == body;
    Utf8RoundTrip(rootfs);
  }

  /** The handshake fails for lack of bytes exactly when fewer than the length field
      and the length it announces arrive. */
  lemma HandshakeTruncation(pipeIn: seq<byte>)
    ensures Handshake(pipeIn) == Err(HandshakeTruncated) <==>
            |pipeIn| < 8 || |pipeIn| < 8 + LeValue(pipeIn[..8])
  {
  }

  /** `init_container` up to the first stage: the configuration, or why it aborts. */
  ghost function Preamble(vars: RunhVars, pipeIn: seq<byte>, spec: Option<Spec>): Result<InitConfig>
  {
    var _ :- EnvFd("RUNH_INITPIPE", vars.initPipe);
    var rootfs :- Handshake(pipeIn);
    var _ :- EnvFd("RUNH_SPEC_FILE", vars.specFile);
    if spec.None? then Err(SpecUnreadable)
    else if spec.value.linux.None? then Err(MissingLinuxSection)
    else
      var ns := spec.value.linux.value.namespaces;
      Ok(InitConfig(spec.value, if ns.Some? then CreationFlags(ns.value) else {}, rootfs))
  }

  /** PARENT's calls up to the clone of CHILD. */
  function ParentStart(childPid: int): seq<Effect>
  {
    [WriteInitPipe([0]), SetDumpable(false), CreateSocketPair, CreateSocketPair,
     SetName("runh:PARENT"), CloneStage(ChildStage, childPid)]
  }

  // ---------------------------------------------------------------------
  // CHILD
  // ---------------------------------------------------------------------

  /** CHILD: join the namespaces that have a path, become root, create the other
      namespaces except the cgroup one, clone GRANDCHILD and send its pid. */
  function ChildPlan(c: InitConfig, h: InitHost): Result<seq<Effect>>
    requires Text.InI32(h.grandchildPid)
  {
    if c.spec.linux.None? then Err(MissingLinuxSection)
    else
      var ns := c.spec.linux.value.namespaces;
      var joins :- if ns.Some? then Namespaces.JoinPlan(ns.value, h.unopenable, h.unjoinable) else Ok([]);
      Ok([SetName("runh:CHILD")] + joins
         + [SetResUid(0), Unshare(c.cloneflags - {NewCgroup}), CloneStage(GrandchildStage, h.grandchildPid),
            WriteSync(I32ToLe(h.grandchildPid))])
  }

  /** The CHILD stage of `init_stage`. */
  method RunChild(c: InitConfig, h: InitHost) returns (r: Result<seq<Effect>>)
    requires Text.InI32(h.grandchildPid)
    ensures r == ChildPlan(c, h)
  {
    if c.spec.linux.None? {
      return Err(MissingLinuxSection);
    }
    var joins: seq<Effect> := [];
    if c.spec.linux.value.namespaces.Some? {
      joins :- Namespaces.JoinNamespaces(c.spec.linux.value.namespaces.value, h.unopenable, h.unjoinable);
    }
    var flags := c.cloneflags;
    flags := flags - {NewCgroup};
    var pidBuffer := I32ToLe(h.grandchildPid);
    var trace := [SetName("runh:CHILD")] + joins
                 + [SetResUid(0), Unshare(flags), CloneStage(GrandchildStage, h.grandchildPid), WriteSync(pidBuffer)];
    return Ok(trace);
  }

  // ---------------------------------------------------------------------
  // GRANDCHILD: environment
  // ---------------------------------------------------------------------

  /** One environment entry of the spec, split at its first `=`; `set_var` refuses an
      empty name and a NUL character. */
  function EnvEntry(entry: string): Result<(string, string)>
  {
    match Text.SplitOnce(entry, '=')
    case None => Err(BadEnvironmentEntry(entry))
    case Some(kv) =>
      if kv.0 == "" || '\0' in kv.0 || '\0' in kv.1 then Err(SetEnvFailed(kv.0)) else Ok(kv)
  }

  /** The entries set one after another: the calls and the environment afterwards. */
  function EnvFold(entries: seq<string>): Result<(seq<Effect>, map<string, string>)>
  {
    if entries == [] then Ok(([], map[]))
    else
      var prev :- EnvFold(entries[..|entries| - 1]);
      var kv :- EnvEntry(entries[|entries| - 1]);
      Ok((prev.0 + [SetEnv(kv.0, kv.1)], prev.1[kv.0 := kv.1]))
  }

  /** The environment of the process, set after `clearenv`. */
  function EnvPlan(process: Option<Process>): Result<(seq<Effect>, map<string, string>)>
  {
    if process.Some? && process.value.env.Some? then EnvFold(process.value.env.value) else Ok(([], map[]))
  }

  /** The loop over the environment entries. */
  method SetEnvironment(process: Option<Process>) returns (r: Result<(seq<Effect>, map<string, string>)>)
    ensures r == EnvPlan(process)
  {
    if process.None? || process.value.env.None? {
      return Ok(([], map[]));
    }
    var entries := process.value.env.value;
    r := Ok(([], map[]));
    var i := 0;
    while i < |entries| && r.Ok?
      invariant 0 <= i <= |entries|
      invariant r == EnvFold(entries[..i])
    {
      var trace, env := r.value.0, r.value.1;
      EnvFoldStep(entries, i);
      var kv := EnvEntry(entries[i]);
      if kv.Err? {
        r := Err(kv.error);
      } else {
        var name, value := kv.value.0, kv.value.1;
        r := Ok((trace + [SetEnv(name, value)], env[name := value]));
      }
      i := i + 1;
    }
    EnvAbortSticks(entries, i);
    assert entries[..|entries|] == entries;
  }

  lemma EnvFoldStep(entries: seq<string>, i: nat)
    requires i < |entries|
    ensures EnvFold(entries[..i + 1]) ==
              if EnvFold(entries[..i]).Err? then EnvFold(entries[..i])
              else if EnvEntry(entries[i]).Err? then Err(EnvEntry(entries[i]).error)
              else Ok((EnvFold(entries[..i]).value.0 + [SetEnv(EnvEntry(entries[i]).value.0, EnvEntry(entries[i]).value.1)],
                       EnvFold(entries[..i]).value.1[EnvEntry(entries[i]).value.0 := EnvEntry(entries[i]).value.1]))
  {
    assert entries[..i + 1][..i] == entries[..i];
  }

  /** Once an entry is refused, the entries after it change nothing. */
  lemma {:induction false} EnvAbortSticks(entries: seq<string>, k: nat)
    requires k <= |entries|
    ensures EnvFold(entries[..k]).Err? ==> EnvFold(entries) == EnvFold(entries[..k])
    decreases |entries| - k
  {
    assert entries[..|entries|] == entries;
    if k < |entries| && EnvFold(entries[..k]).Err? {
      assert entries[..k + 1][..k] == entries[..k];
      EnvAbortSticks(entries, k + 1);
    }
  }

  /** A run that went through: the entries before the last went through, and the
      last one was set on top of them. */
  lemma EnvFoldLast(entries: seq<string>)
    requires entries != [] && EnvFold(entries).Ok?
    ensures var n := |entries| - 1;
            var prev := EnvFold(entries[..n]);
            var kv := EnvEntry(entries[n]);
            && prev.Ok? && kv.Ok?
            && EnvFold(entries).value.0 == prev.value.0 + [SetEnv(kv.value.0, kv.value.1)]
            && EnvFold(entries).value.1 == prev.value.1[kv.value.0 := kv.value.1]
  {
  }

  /** A run that went through accepted every entry. */
  lemma {:induction false} EnvFoldAccepted(entries: seq<string>, i: nat)
    requires EnvFold(entries).Ok? && i < |entries|
    ensures EnvEntry(entries[i]).Ok?
  {
    var n := |entries| - 1;
    EnvFoldLast(entries);
    if i < n {
      var init := entries[..n];
      assert init[i] == entries[i];
      EnvFoldAccepted(init, i);
    } else {
      assert i == n;
    }
  }

  /** When every entry is accepted, the run goes through. */
  lemma {:induction false} EnvFoldAllAccepted(entries: seq<string>)
    requires forall i :: 0 <= i < |entries| ==> EnvEntry(entries[i]).Ok?
    ensures EnvFold(entries).Ok?
  {
    if entries != [] {
      var n := |entries| - 1;
      var init := entries[..n];
      forall i | 0 <= i < n ensures EnvEntry(init[i]).Ok?
      {
        assert init[i] == entries[i];
      }
      EnvFoldAllAccepted(init);
      EnvFoldStep(entries, n);
      assert entries[..n + 1] == entries;
      assert EnvEntry(entries[n]).Ok?;
    }
  }

  /** The environment goes through iff every entry has an `=` after a non-empty name
      and no NUL. */
  lemma EnvFoldOk(entries: seq<string>)
    ensures EnvFold(entries).Ok? <==> forall i :: 0 <= i < |entries| ==> EnvEntry(entries[i]).Ok?
  {
    if EnvFold(entries).Ok? {
      forall i | 0 <= i < |entries| ensures EnvEntry(entries[i]).Ok?
      {
        EnvFoldAccepted(entries, i);
      }
    }
    if forall i :: 0 <= i < |entries| ==> EnvEntry(entries[i]).Ok? {
      EnvFoldAllAccepted(entries);
    }
  }

  /** Then there is one `SetEnv` per entry, in order. */
  lemma {:induction false} EnvFoldCalls(entries: seq<string>)
    requires EnvFold(entries).Ok?
    ensures |EnvFold(entries).value.0| == |entries|
    ensures forall i :: 0 <= i < |entries| ==>
              EnvEntry(entries[i]).Ok? &&
              EnvFold(entries).value.0[i] == SetEnv(EnvEntry(entries[i]).value.0, EnvEntry(entries[i]).value.1)
  {
    if entries != [] {
      var n := |entries| - 1;
      var init := entries[..n];
      EnvFoldLast(entries);
      EnvFoldCalls(init);
      var calls := EnvFold(entries).value.0;
      var before := EnvFold(init).value.0;
      var kv := EnvEntry(entries[n]).value;
      assert calls == before + [SetEnv(kv.0, kv.1)];
      assert |before| == n;
      forall i | 0 <= i < |entries|
        ensures EnvEntry(entries[i]).Ok? && calls[i] == SetEnv(EnvEntry(entries[i]).value.0, EnvEntry(entries[i]).value.1)
      {
        if i < n {
          assert init[i] == entries[i];
          assert calls[i] == before[i];
        } else {
          assert calls[i] == SetEnv(kv.0, kv.1);
        }
      }
    }
  }

  /** The last entry of a name before the final entry stays the last of it without
      that entry, and the final entry sets another name. */
  lemma LastOfNameInit(entries: seq<string>, i: int)
    requires 0 <= i < |entries| - 1 && LastOfName(entries, i)
    ensures var init := entries[..|entries| - 1];
            && init[i] == entries[i]
            && LastOfName(init, i)
            && EnvEntry(entries[|entries| - 1]).Ok?
            && EnvEntry(entries[|entries| - 1]).value.0 != EnvEntry(entries[i]).value.0
  {
    var init := entries[..|entries| - 1];
    forall j | i < j < |init| ensures EnvEntry(init[j]).Ok? && EnvEntry(init[j]).value.0 != EnvEntry(init[i]).value.0
    {
      assert init[j] == entries[j];
    }
  }

  /** After the environment is set, a name has the value of the last entry that
      sets it. */
  lemma {:induction false} EnvLastWins(entries: seq<string>, i: int)
    requires EnvFold(entries).Ok? && 0 <= i < |entries| && LastOfName(entries, i)
    ensures EnvEntry(entries[i]).value.0 in EnvFold(entries).value.1
    ensures EnvFold(entries).value.1[EnvEntry(entries[i]).value.0] == EnvEntry(entries[i]).value.1
  {
    var n := |entries| - 1;
    var init := entries[..n];
    EnvFoldLast(entries);
    var kv := EnvEntry(entries[n]).value;
    var mine := EnvEntry(entries[i]).value;
    var env := EnvFold(entries).value.1;
    assert env == EnvFold(init).value.1[kv.0 := kv.1];
    if i < n {
      LastOfNameInit(entries, i);
      EnvLastWins(init, i);
      assert mine.0 != kv.0;
      assert env[mine.0] == EnvFold(init).value.1[mine.0];
    } else {
      assert mine == kv;
    }
  }

  /** Every name in the environment comes from an entry that sets it to its value. */
  lemma {:induction false} EnvFromEntries(entries: seq<string>, name: string)
    requires EnvFold(entries).Ok? && name in EnvFold(entries).value.1
    ensures exists i :: 0 <= i < |entries| && EnvEntry(entries[i]) == Ok((name, EnvFold(entries).value.1[name]))
  {
    assert entries != [];
    var n := |entries| - 1;
    var init := entries[..n];
    EnvFoldLast(entries);
    var kv := EnvEntry(entries[n]).value;
    if name == kv.0 {
      assert EnvEntry(entries[n]) == Ok((name, EnvFold(entries).value.1[name]));
    } else {
      EnvFromEntries(init, name);
      var i :| 0 <= i < |init| && EnvEntry(init[i]) == Ok((name, EnvFold(init).value.1[name]));
      assert init[i] == entries[i];
    }
  }

  /** Entry `i` is the last one that sets its name. */
  predicate LastOfName(entries: seq<string>, i: int)
    requires 0 <= i < |entries|
  {
    EnvEntry(entries[i]).Ok? &&
    forall j :: i < j < |entries| ==> EnvEntry(entries[j]).Ok? && EnvEntry(entries[j]).value.0 != EnvEntry(entries[i]).value.0
  }

  // ---------------------------------------------------------------------
  // GRANDCHILD: the root filesystem
  // ---------------------------------------------------------------------

  /** The filesystem as seen from inside the rootfs once it is the root. */
  function ContainerView(fs: Fs, rootfs: Path): (view: Fs)
    ensures forall p :: p in fs && Clean(rootfs) <= p ==> Reroot(Clean(rootfs), p) in view && view[Reroot(Clean(rootfs), p)] == fs[p]
    ensures forall q :: q in view ==> exists p :: p in fs && Clean(rootfs) <= p && q == Reroot(Clean(rootfs), p)
  {
    var r := Clean(rootfs);
    RerootInjective(r);
    map p | p in fs && r <= p :: Reroot(r, p) := fs[p]
  }

  /** The path `p` under `r` as seen once `r` is the root. */
  function Reroot(r: Path, p: Path): Path
    requires r <= p
  {
    [RootDir] + p[|r|..]
  }

  lemma RerootInjective(r: Path)
    ensures forall p1, p2 :: r <= p1 && r <= p2 && Reroot(r, p1) == Reroot(r, p2) ==> p1 == p2
  {
    forall p1, p2 | r <= p1 && r <= p2 && Reroot(r, p1) == Reroot(r, p2)
      ensures p1 == p2
    {
      assert p1[|r|..] == Reroot(r, p1)[1..] == Reroot(r, p2)[1..] == p2[|r|..];
      assert p1 == r + p1[|r|..];
      assert p2 == r + p2[|r|..];
    }
  }

  /** Change into the rootfs, then make it the root: `pivot_root` with a new mount
      namespace, `chroot(".")` and `chdir("/")` without. */
  function EnterRoot(flags: set<CloneFlag>, rootfs: Path): seq<Effect>
  {
    [Chdir(rootfs)] + (if NewNs in flags then PivotRoot(rootfs) else [Chroot([CurDir]), Chdir([RootDir])])
  }

  /** Finalising the rootfs under a new mount namespace: the read-only remount when
      the spec asks for it, then `umask(0o022)`. */
  function Finalize(c: InitConfig, h: InitHost): Result<seq<Effect>>
  {
    if NewNs !in c.cloneflags then Ok([])
    else
      var readonly := c.spec.root.Some? && c.spec.root.value.readonly == Some(true);
      var ro :- if readonly then ReadOnlyRemount(h.firstRemountFails, h.statvfsFlags, h.statvfsUnknownBits)
                else Ok([]);
      Ok(ro + [SetUmask(Umask022)])
  }

  /** Mounting the rootfs and the spec's mounts, then entering the root: the calls
      and the host's filesystem afterwards. */
  function MountPlan(c: InitConfig, h: InitHost): Result<(seq<Effect>, Fs)>
  {
    if c.spec.linux.None? then Err(MissingLinuxSection)
    else
      var rootfs := Parse(c.rootfs);
      var mounted :- RootfsMounts(c.spec.linux.value.rootfsPropagation, rootfs);
      var configured :- SpecMounts(c, h);
      Ok((mounted + configured.0 + EnterRoot(c.cloneflags, rootfs), configured.1))
  }

  /** The spec's mounts, if it has any, below the rootfs. */
  function SpecMounts(c: InitConfig, h: InitHost): Result<(seq<Effect>, Fs, bool)>
  {
    if c.spec.mounts.Some?
    then Mounts.ConfigureFold(c.spec.mounts.value, Parse(c.rootfs), Parse(c.rootfs), h.fs, h.tampered)
    else Ok(([], h.fs, true))
  }

  /** The working directory, created inside the new root unless it is empty: the
      calls and the filesystem the process sees. */
  function WorkdirPlan(c: InitConfig, fs: Fs): Result<(seq<Effect>, Fs)>
  {
    if c.spec.process.None? then Err(MissingProcess)
    else
      var cwd := c.spec.process.value.cwd;
      var view := ContainerView(fs, Parse(c.rootfs));
      if cwd == "" then Ok(([], view))
      else Ok(([CreateDirAll(Parse(cwd))], MkdirAll(view, Parse(cwd))))
  }

  /** Mounts, root, working directory and finalising. */
  function FilesystemPlan(c: InitConfig, h: InitHost): Result<(seq<Effect>, Fs)>
  {
    var mounted :- MountPlan(c, h);
    var workdir :- WorkdirPlan(c, mounted.1);
    var finalized :- Finalize(c, h);
    Ok((mounted.0 + workdir.0 + finalized, workdir.1))
  }

  /** Mounting and entering the root. */
  method SetupMounts(c: InitConfig, h: InitHost) returns (r: Result<(seq<Effect>, Fs)>)
    ensures r == MountPlan(c, h)
  {
    if c.spec.linux.None? {
      return Err(MissingLinuxSection);
    }
    var rootfsPath := Parse(c.rootfs);
    var mounted :- MountRootfs(c.spec.linux.value.rootfsPropagation, rootfsPath);
    var calls: seq<Effect>, fs := [], h.fs;
    if c.spec.mounts.Some? {
      var configured, trace, fs' := Mounts.ConfigureMounts(c.spec.mounts.value, rootfsPath, rootfsPath, h.fs, h.tampered);
      if configured.Err? {
        return Err(configured.error);
      }
      calls, fs := trace, fs';
    }
    var enter := [Chdir(rootfsPath)];
    if NewNs in c.cloneflags {
      enter := enter + PivotRoot(rootfsPath);
    } else {
      enter := enter + [Chroot([CurDir]), Chdir([RootDir])];
    }
    return Ok((mounted + calls + enter, fs));
  }

  /** Finalising under a new mount namespace. */
  method FinalizeRootfs(c: InitConfig, h: InitHost) returns (r: Result<seq<Effect>>)
    ensures r == Finalize(c, h)
  {
    if NewNs !in c.cloneflags {
      return Ok([]);
    }
    var trace: seq<Effect> := [];
    if c.spec.root.Some? && c.spec.root.value.readonly == Some(true) {
      var ro, calls := SetRootfsReadOnly(h.firstRemountFails, h.statvfsFlags, h.statvfsUnknownBits);
      if ro.Err? {
        return Err(ro.error);
      }
      trace := calls;
    }
    return Ok(trace + [SetUmask(Umask022)]);
  }

  /** That part of the GRANDCHILD stage. */
  method SetupFilesystem(c: InitConfig, h: InitHost) returns (r: Result<(seq<Effect>, Fs)>)
    ensures r == FilesystemPlan(c, h)
  {
    var mounted := SetupMounts(c, h);
    if mounted.Err? {
      return Err(mounted.error);
    }
    if c.spec.process.None? {
      return Err(MissingProcess);
    }
    var view := ContainerView(mounted.value.1, Parse(c.rootfs));
    var cwd := c.spec.process.value.cwd;
    var made: seq<Effect> := [];
    if cwd != "" {
      made := [CreateDirAll(Parse(cwd))];
      view := MkdirAll(view, Parse(cwd));
    }
    assert WorkdirPlan(c, mounted.value.1) == Ok((made, view));
    var finalized := FinalizeRootfs(c, h);
    if finalized.Err? {
      return Err(finalized.error);
    }
    return Ok((mounted.value.0 + made + finalized.value, view));
  }

  // ---------------------------------------------------------------------
  // GRANDCHILD: up to exec
  // ---------------------------------------------------------------------

  /** `PATH` in the environment, if set. */
  function PathVar(env: map<string, string>): Option<string>
  {
    if "PATH" in env then Some(env["PATH"]) else None
  }

  /** Hostname, `no_new_privs`, finding the executable in the container, then the
      ready byte, the exec FIFO, and exec. */
  function ExecPlan(c: InitConfig, env: map<string, string>, view: Fs, fifoFd: int, ready: byte): Result<seq<Effect>>
  {
    if c.spec.process.None? then Err(MissingProcess)
    else if c.spec.process.value.args.None? then Err(MissingArgs)
    else
      var args := c.spec.process.value.args.value;
      if args == [] then Err(EmptyArgs)
      else
        var found :- Paths.Find(Parse(args[0]), None, PathVar(env), view);
        if found.None? then Err(ExecutableNotFound)
        else Ok(Identity(c) + Handover(ready, fifoFd, found.value, args, env))
  }

  /** The hostname, then `no_new_privs`, each if the spec asks for it. */
  function Identity(c: InitConfig): (r: seq<Effect>)
    ensures forall e :: e in r ==> e.SetHostname? || e.SetNoNewPrivs?
  {
    var host := if c.spec.hostname.Some? then [SetHostname(c.spec.hostname.value)] else [];
    var nnp := if c.spec.process.Some? && c.spec.process.value.noNewPrivileges == Some(true) then [SetNoNewPrivs] else [];
    host + nnp
  }

  /** Telling `runh create` init is ready, waiting on the exec FIFO, then exec. */
  function Handover(ready: byte, fifoFd: int, program: Path, args: seq<string>, env: map<string, string>): seq<Effect>
  {
    [WriteInitPipe([ready]), OpenExecFifo(fifoFd), WriteExecFifo([0]), Exec(program, args, env)]
  }

  /** That part of the GRANDCHILD stage. */
  method PrepareExec(c: InitConfig, env: map<string, string>, view: Fs, fifoFd: int, ready: byte)
    returns (r: Result<seq<Effect>>)
    ensures r == ExecPlan(c, env, view, fifoFd, ready)
  {
    var host: seq<Effect> := [];
    if c.spec.hostname.Some? {
      host := [SetHostname(c.spec.hostname.value)];
    }
    var nnp: seq<Effect> := [];
    if c.spec.process.Some? && c.spec.process.value.noNewPrivileges == Some(true) {
      nnp := [SetNoNewPrivs];
    }
    if c.spec.process.None? {
      return Err(MissingProcess);
    }
    if c.spec.process.value.args.None? {
      return Err(MissingArgs);
    }
    var execArgs := c.spec.process.value.args.value;
    if execArgs == [] {
      return Err(EmptyArgs);
    }
    var found :- Paths.FindInPath(Parse(execArgs[0]), None, PathVar(env), view);
    if found.None? {
      return Err(ExecutableNotFound);
    }
    var handover := [WriteInitPipe([ready]), OpenExecFifo(fifoFd), WriteExecFifo([0]), Exec(found.value, execArgs, env)];
    assert host + nnp == Identity(c);
    return Ok(host + nnp + handover);
  }

  // ---------------------------------------------------------------------
  // GRANDCHILD
  // ---------------------------------------------------------------------

  /** GRANDCHILD's first calls: its name, a new session, root's ids, and the cgroup
      namespace CHILD left out. */
  function Credentials(flags: set<CloneFlag>): seq<Effect>
  {
    [SetName("runh:INIT"), SetSid, SetUid(0), SetGid(0)] + (if NewCgroup in flags then [Unshare({NewCgroup})] else [])
  }

  /** The GRANDCHILD stage; `ready` is the byte that tells `runh create` init is
      ready to exec. */
  function GrandchildPlan(c: InitConfig, vars: RunhVars, ready: byte, h: InitHost): Result<seq<Effect>>
  {
    var fifoFd :- EnvFd("RUNH_FIFOFD", vars.fifoFd);
    var env :- EnvPlan(c.spec.process);
    var filesystem :- FilesystemPlan(c, h);
    var exec :- ExecPlan(c, env.1, filesystem.1, fifoFd, ready);
    Ok(Credentials(c.cloneflags) + [ClearEnv] + env.0 + filesystem.0 + exec)
  }

  /** The GRANDCHILD stage of `init_stage`. */
  method RunGrandchild(c: InitConfig, vars: RunhVars, ready: byte, h: InitHost) returns (r: Result<seq<Effect>>)
    ensures r == GrandchildPlan(c, vars, ready, h)
  {
    var credentials := [SetName("runh:INIT"), SetSid, SetUid(0), SetGid(0)];
    if NewCgroup in c.cloneflags {
      credentials := credentials + [Unshare({NewCgroup})];
    }
    var fifoFd := EnvFd("RUNH_FIFOFD", vars.fifoFd);
    if fifoFd.Err? {
      return Err(fifoFd.error);
    }
    var env := SetEnvironment(c.spec.process);
    if env.Err? {
      return Err(env.error);
    }
    var filesystem := SetupFilesystem(c, h);
    if filesystem.Err? {
      return Err(filesystem.error);
    }
    var exec := PrepareExec(c, env.value.1, filesystem.value.1, fifoFd.value, ready);
    if exec.Err? {
      return Err(exec.error);
    }
    assert credentials == Credentials(c.cloneflags);
    return Ok(credentials + [ClearEnv] + env.value.0 + filesystem.value.0 + exec.value);
  }

  // ---------------------------------------------------------------------
  // The whole of init
  // ---------------------------------------------------------------------

  /** `init_container` and the three stages. */
  ghost function InitPlan(vars: RunhVars, pipeIn: seq<byte>, spec: Option<Spec>, ready: byte, h: InitHost): InitOutcome
    requires Text.InI32(h.grandchildPid)
  {
    var pre := Preamble(vars, pipeIn, spec);
    if pre.Err? then InitOutcome(Some(Err(pre.error)), None, None)
    else
      var c := pre.value;
      var child := ChildPlan(c, h);
      if child.Err? then InitOutcome(None, Some(child), None)
      else InitOutcome(Some(Ok(ParentStart(h.childPid) + [WriteInitPipe(I32ToLe(h.grandchildPid))])),
                       Some(child), Some(GrandchildPlan(c, vars, ready, h)))
  }

  /** `init_container`, with PARENT forwarding the pid CHILD sends. */
  method InitContainer(vars: RunhVars, pipeIn: seq<byte>, spec: Option<Spec>, ready: byte, h: InitHost)
    returns (out: InitOutcome)
    requires Text.InI32(h.grandchildPid)
    ensures out == InitPlan(vars, pipeIn, spec, ready, h)
  {
    var pipeFd := EnvFd("RUNH_INITPIPE", vars.initPipe);
    if pipeFd.Err? {
      return InitOutcome(Some(Err(pipeFd.error)), None, None);
    }
    var rootfsPath := Handshake(pipeIn);
    if rootfsPath.Err? {
      return InitOutcome(Some(Err(rootfsPath.error)), None, None);
    }
    var specFd := EnvFd("RUNH_SPEC_FILE", vars.specFile);
    if specFd.Err? {
      return InitOutcome(Some(Err(specFd.error)), None, None);
    }
    if spec.None? {
      return InitOutcome(Some(Err(SpecUnreadable)), None, None);
    }
    if spec.value.linux.None? {
      return InitOutcome(Some(Err(MissingLinuxSection)), None, None);
    }
    var cloneflags: set<CloneFlag> := {};
    if spec.value.linux.value.namespaces.Some? {
      cloneflags := GenerateCloneflags(spec.value.linux.value.namespaces.value);
    }
    var c := InitConfig(spec.value, cloneflags, rootfsPath.value);
    var child := RunChild(c, h);
    if child.Err? {
      return InitOutcome(None, Some(child), None);
    }
    var grandchild := RunGrandchild(c, vars, ready, h);
    var pidBuffer := child.value[|child.value| - 1].bytes;
    var parent := ParentStart(h.childPid) + [WriteInitPipe(pidBuffer)];
    return InitOutcome(Some(Ok(parent)), Some(child), Some(grandchild));
  }

  // ---------------------------------------------------------------------
  // What the stages promise
  // ---------------------------------------------------------------------

  /** CHILD and GRANDCHILD start only after the preamble, GRANDCHILD only after
      CHILD went through; PARENT reports the preamble's abort, and waits forever
      when CHILD aborts. */
  lemma StagesStartInOrder(vars: RunhVars, pipeIn: seq<byte>, spec: Option<Spec>, ready: byte, h: InitHost)
    requires Text.InI32(h.grandchildPid)
    ensures var out := InitPlan(vars, pipeIn, spec, ready, h);
            var pre := Preamble(vars, pipeIn, spec);
            (out.child.Some? <==> pre.Ok?)
            && (pre.Err? ==> out.parent == Some(Err(pre.error)))
            && (out.grandchild.Some? <==> out.child.Some? && out.child.value.Ok?)
            && (out.parent.None? <==> out.child.Some? && out.child.value.Err?)
  {
  }

  /** The pid PARENT writes to the init pipe is GRANDCHILD's: the bytes CHILD sent it,
      which decode to the pid CHILD's clone returned. */
  lemma PidForwarded(vars: RunhVars, pipeIn: seq<byte>, spec: Option<Spec>, ready: byte, h: InitHost)
    requires Text.InI32(h.grandchildPid)
    requires var out := InitPlan(vars, pipeIn, spec, ready, h); out.child.Some? && out.child.value.Ok?
    ensures var out := InitPlan(vars, pipeIn, spec, ready, h);
            var pt := out.parent.value.value;
            var ct := out.child.value.value;
            out.parent.Some? && out.parent.value.Ok? && |pt| >= 1 && |ct| >= 2
            && pt[|pt| - 1].WriteInitPipe? && ct[|ct| - 1] == WriteSync(pt[|pt| - 1].bytes)
            && ct[|ct| - 2] == CloneStage(GrandchildStage, h.grandchildPid)
            && |pt[|pt| - 1].bytes| == 4 && I32FromLe(pt[|pt| - 1].bytes) == h.grandchildPid
  {
    I32RoundTrip(h.grandchildPid);
  }

  /** The namespaces created are those of the spec entries without a path. */
  lemma ConfigFlags(vars: RunhVars, pipeIn: seq<byte>, spec: Option<Spec>, t: NamespaceType)
    requires Preamble(vars, pipeIn, spec).Ok?
    ensures var c := Preamble(vars, pipeIn, spec).value;
            var ns := c.spec.linux.value.namespaces;
            c.spec == spec.value && Handshake(pipeIn) == Ok(c.rootfs)
            && (GetCloneflag(t) in c.cloneflags <==>
                  ns.Some? && exists i :: 0 <= i < |ns.value| && ns.value[i].path.None? && ns.value[i].typ == t)
  {
    var ns := spec.value.linux.value.namespaces;
    if ns.Some? {
      CreationFlagsMembership(ns.value, t);
    }
  }

  /** CHILD creates every namespace but the cgroup one, which it leaves to GRANDCHILD. */
  lemma ChildUnshares(c: InitConfig, h: InitHost)
    requires Text.InI32(h.grandchildPid) && ChildPlan(c, h).Ok?
    ensures var t := ChildPlan(c, h).value;
            |t| >= 5 && t[0] == SetName("runh:CHILD")
            && t[|t| - 4] == SetResUid(0) && t[|t| - 3] == Unshare(c.cloneflags - {NewCgroup})
            && NewCgroup !in t[|t| - 3].namespaces
  {
  }

  /** A call of the filesystem phase: mounting, creating, changing directory or root,
      and the umask. */
  predicate FsCall(e: Effect)
  {
    e.Mount? || e.UnmountDetach? || e.CreateDirAll? || e.CreateFile? || e.RestorePermissions?
    || e.OpenDirectory? || e.Fchdir? || e.PivotRootHere? || e.Chdir? || e.Chroot? || e.SetUmask?
  }

  /** A call the spec's mounts make. */
  predicate MountKind(e: Effect)
  {
    e.Mount? || e.CreateDirAll? || e.CreateFile? || e.RestorePermissions?
  }

  lemma SpecMountsCalls(c: InitConfig, h: InitHost)
    requires SpecMounts(c, h).Ok?
    ensures forall e :: e in SpecMounts(c, h).value.0 ==> MountKind(e)
  {
    if c.spec.mounts.Some? {
      Mounts.ConfigureInside(c.spec.mounts.value, Parse(c.rootfs), Parse(c.rootfs), h.fs, h.tampered);
    }
  }

  lemma EnterRootKinds(flags: set<CloneFlag>, rootfs: Path)
    ensures forall e :: e in EnterRoot(flags, rootfs) ==> FsCall(e) && !e.SetUmask?
  {
  }

  /** Entering the root pivots iff there is a new mount namespace. */
  lemma EnterRootPivots(flags: set<CloneFlag>, rootfs: Path)
    ensures PivotRootHere in EnterRoot(flags, rootfs) <==> NewNs in flags
  {
    var t := EnterRoot(flags, rootfs);
    if NewNs in flags {
      assert t[4] == PivotRootHere;
    } else {
      assert t == [Chdir(rootfs), Chroot([CurDir]), Chdir([RootDir])];
    }
  }

  /** Entering the root chroots iff there is no new mount namespace. */
  lemma EnterRootChroots(flags: set<CloneFlag>, rootfs: Path)
    ensures Chroot([CurDir]) in EnterRoot(flags, rootfs) <==> NewNs !in flags
  {
    var t := EnterRoot(flags, rootfs);
    if NewNs in flags {
      assert t == [Chdir(rootfs)] + PivotRoot(rootfs);
      assert forall e :: e in t ==> !e.Chroot?;
    } else {
      assert t[1] == Chroot([CurDir]);
    }
  }

  /** Entering the root pivots iff there is a new mount namespace, and chroots
      otherwise. */
  lemma EnterRootSwitch(flags: set<CloneFlag>, rootfs: Path)
    ensures PivotRootHere in EnterRoot(flags, rootfs) <==> NewNs in flags
    ensures Chroot([CurDir]) in EnterRoot(flags, rootfs) <==> NewNs !in flags
  {
    EnterRootPivots(flags, rootfs);
    EnterRootChroots(flags, rootfs);
  }

  /** The calls of mounting and entering the root, piece by piece. */
  lemma MountPlanParts(c: InitConfig, h: InitHost)
    requires MountPlan(c, h).Ok?
    ensures c.spec.linux.Some? && RootfsMounts(c.spec.linux.value.rootfsPropagation, Parse(c.rootfs)).Ok?
    ensures SpecMounts(c, h).Ok?
    ensures MountPlan(c, h).value.0 == RootfsMounts(c.spec.linux.value.rootfsPropagation, Parse(c.rootfs)).value
                                        + SpecMounts(c, h).value.0 + EnterRoot(c.cloneflags, Parse(c.rootfs))
  {
  }

  lemma MountPlanKinds(c: InitConfig, h: InitHost)
    requires MountPlan(c, h).Ok?
    ensures forall e :: e in MountPlan(c, h).value.0 ==> FsCall(e) && !e.SetUmask?
  {
    MountPlanParts(c, h);
    SpecMountsCalls(c, h);
    EnterRootKinds(c.cloneflags, Parse(c.rootfs));
  }

  lemma MountPlanSwitch(c: InitConfig, h: InitHost)
    requires MountPlan(c, h).Ok?
    ensures PivotRootHere in MountPlan(c, h).value.0 <==> NewNs in c.cloneflags
    ensures Chroot([CurDir]) in MountPlan(c, h).value.0 <==> NewNs !in c.cloneflags
  {
    MountPlanParts(c, h);
    SpecMountsCalls(c, h);
    EnterRootSwitch(c.cloneflags, Parse(c.rootfs));
    SwitchAfterMounts(RootfsMounts(c.spec.linux.value.rootfsPropagation, Parse(c.rootfs)).value,
                      SpecMounts(c, h).value.0, EnterRoot(c.cloneflags, Parse(c.rootfs)));
  }

  /** Mount calls neither pivot nor chroot: whether the root is switched is up to
      what enters it. */
  lemma SwitchAfterMounts(rootMounts: seq<Effect>, specMounts: seq<Effect>, enter: seq<Effect>)
    requires forall e :: e in rootMounts ==> e.Mount?
    requires forall e :: e in specMounts ==> MountKind(e)
    ensures PivotRootHere in rootMounts + specMounts + enter <==> PivotRootHere in enter
    ensures Chroot([CurDir]) in rootMounts + specMounts + enter <==> Chroot([CurDir]) in enter
  {
  }

  /** The calls of the filesystem phase, piece by piece. */
  lemma FilesystemParts(c: InitConfig, h: InitHost)
    requires FilesystemPlan(c, h).Ok?
    ensures MountPlan(c, h).Ok? && WorkdirPlan(c, MountPlan(c, h).value.1).Ok? && Finalize(c, h).Ok?
    ensures FilesystemPlan(c, h).value.0 == MountPlan(c, h).value.0 + WorkdirPlan(c, MountPlan(c, h).value.1).value.0
                                            + Finalize(c, h).value
    ensures forall e :: e in WorkdirPlan(c, MountPlan(c, h).value.1).value.0 ==> e.CreateDirAll?
  {
  }

  /** Finalising does nothing without a new mount namespace. With one, it sets the
      umask to 022, and remounts `/` read-only exactly when the spec's root asks for
      it: every other call is such a remount. */
  lemma FinalizeCalls(c: InitConfig, h: InitHost)
    requires Finalize(c, h).Ok?
    ensures NewNs !in c.cloneflags ==> Finalize(c, h).value == []
    ensures SetUmask(Umask022) in Finalize(c, h).value <==> NewNs in c.cloneflags
    ensures forall e :: e in Finalize(c, h).value ==> e.Mount? || e == SetUmask(Umask022)
    ensures forall e :: e in Finalize(c, h).value && e.Mount? ==>
              Rdonly in e.flags && Remount in e.flags && e.target == AtPath([RootDir])
    ensures (exists e :: e in Finalize(c, h).value && e.Mount?) <==>
              NewNs in c.cloneflags && c.spec.root.Some? && c.spec.root.value.readonly == Some(true)
  {
    var t := Finalize(c, h).value;
    if NewNs in c.cloneflags {
      assert t[|t| - 1] == SetUmask(Umask022);
      if c.spec.root.Some? && c.spec.root.value.readonly == Some(true) {
        assert t[0].Mount?;
      }
    }
  }

  /** Every call of the filesystem phase is one of its kind. */
  lemma FilesystemKinds(c: InitConfig, h: InitHost)
    requires FilesystemPlan(c, h).Ok?
    ensures forall e :: e in FilesystemPlan(c, h).value.0 ==> FsCall(e)
    ensures forall e :: e in FilesystemPlan(c, h).value.0 && e.SetUmask? ==> e == SetUmask(Umask022)
  {
    FilesystemParts(c, h);
    MountPlanKinds(c, h);
    FinalizeCalls(c, h);
  }

  /** The filesystem phase pivots the root and sets the umask iff there is a new
      mount namespace, and chroots otherwise. */
  lemma FilesystemSwitch(c: InitConfig, h: InitHost)
    requires FilesystemPlan(c, h).Ok?
    ensures PivotRootHere in FilesystemPlan(c, h).value.0 <==> NewNs in c.cloneflags
    ensures Chroot([CurDir]) in FilesystemPlan(c, h).value.0 <==> NewNs !in c.cloneflags
    ensures SetUmask(Umask022) in FilesystemPlan(c, h).value.0 <==> NewNs in c.cloneflags
  {
    FilesystemParts(c, h);
    MountPlanSwitch(c, h);
    MountPlanKinds(c, h);
    FinalizeCalls(c, h);
  }

  /** The calls that set the environment are `SetEnv`s only. */
  lemma EnvCalls(process: Option<Process>)
    requires EnvPlan(process).Ok?
    ensures forall e :: e in EnvPlan(process).value.0 ==> e.SetEnv?
  {
    if process.Some? && process.value.env.Some? {
      EnvFoldCalls(process.value.env.value);
    }
  }

  /** Exec needs arguments, and runs the executable found for the first one, which
      exists in the container, with the spec's arguments and the environment as set;
      before the hand-over come only the hostname and `no_new_privs`. */
  lemma ExecCalls(c: InitConfig, env: map<string, string>, view: Fs, fifoFd: int, ready: byte)
    requires ExecPlan(c, env, view, fifoFd, ready).Ok?
    ensures c.spec.process.Some? && c.spec.process.value.args.Some? && c.spec.process.value.args.value != []
    ensures var args := c.spec.process.value.args.value;
            var found := Paths.Find(Parse(args[0]), None, PathVar(env), view);
            found.Ok? && found.value.Some? && Exists(view, found.value.value)
            && ExecPlan(c, env, view, fifoFd, ready).value == Identity(c) + Handover(ready, fifoFd, found.value.value, args, env)
    ensures forall e :: e in Identity(c) ==> e.SetHostname? || e.SetNoNewPrivs?
  {
    var args := c.spec.process.value.args.value;
    Paths.FoundExists(Parse(args[0]), None, PathVar(env), view);
  }
  /** The calls of GRANDCHILD, phase by phase. */
  lemma GrandchildParts(c: InitConfig, vars: RunhVars, ready: byte, h: InitHost)
    requires GrandchildPlan(c, vars, ready, h).Ok?
    ensures EnvFd("RUNH_FIFOFD", vars.fifoFd).Ok? && EnvPlan(c.spec.process).Ok? && FilesystemPlan(c, h).Ok?
    ensures var env := EnvPlan(c.spec.process).value;
            var filesystem := FilesystemPlan(c, h).value;
            var exec := ExecPlan(c, env.1, filesystem.1, EnvFd("RUNH_FIFOFD", vars.fifoFd).value, ready);
            exec.Ok? && GrandchildPlan(c, vars, ready, h).value == Credentials(c.cloneflags) + [ClearEnv] + env.0 + filesystem.0 + exec.value
  {
  }

  /** A call of the hand-over phase. */
  predicate ExecCall(e: Effect)
  {
    e.SetHostname? || e.SetNoNewPrivs? || e.WriteInitPipe? || e.OpenExecFifo? || e.WriteExecFifo? || e.Exec?
  }

  lemma ExecKinds(c: InitConfig, env: map<string, string>, view: Fs, fifoFd: int, ready: byte)
    requires ExecPlan(c, env, view, fifoFd, ready).Ok?
    ensures forall e :: e in ExecPlan(c, env, view, fifoFd, ready).value ==> ExecCall(e)
  {
    ExecCalls(c, env, view, fifoFd, ready);
  }

  /** The phases of GRANDCHILD make calls of their own kinds. */
  predicate PhasesApart(envCalls: seq<Effect>, fsCalls: seq<Effect>, execCalls: seq<Effect>)
  {
    (forall e :: e in envCalls ==> e.SetEnv?)
    && (forall e :: e in fsCalls ==> FsCall(e))
    && (forall e :: e in execCalls ==> ExecCall(e))
  }

  lemma PhasesOfGrandchild(c: InitConfig, vars: RunhVars, ready: byte, h: InitHost)
    requires GrandchildPlan(c, vars, ready, h).Ok?
    ensures EnvFd("RUNH_FIFOFD", vars.fifoFd).Ok? && EnvPlan(c.spec.process).Ok? && FilesystemPlan(c, h).Ok?
    ensures var env := EnvPlan(c.spec.process).value;
            var filesystem := FilesystemPlan(c, h).value;
            var exec := ExecPlan(c, env.1, filesystem.1, EnvFd("RUNH_FIFOFD", vars.fifoFd).value, ready);
            exec.Ok? && PhasesApart(env.0, filesystem.0, exec.value)
            && GrandchildPlan(c, vars, ready, h).value == Credentials(c.cloneflags) + [ClearEnv] + env.0 + filesystem.0 + exec.value
  {
    GrandchildParts(c, vars, ready, h);
    var env := EnvPlan(c.spec.process).value;
    var filesystem := FilesystemPlan(c, h).value;
    EnvCalls(c.spec.process);
    FilesystemKinds(c, h);
    ExecKinds(c, env.1, filesystem.1, EnvFd("RUNH_FIFOFD", vars.fifoFd).value, ready);
  }

  lemma CgroupOfPhases(flags: set<CloneFlag>, envCalls: seq<Effect>, fsCalls: seq<Effect>, execCalls: seq<Effect>)
    requires PhasesApart(envCalls, fsCalls, execCalls)
    ensures var t := Credentials(flags) + [ClearEnv] + envCalls + fsCalls + execCalls;
            (Unshare({NewCgroup}) in t <==> NewCgroup in flags)
            && forall e :: e in t && e.Unshare? ==> e == Unshare({NewCgroup})
  {
    if NewCgroup in flags {
      assert Credentials(flags)[4] == Unshare({NewCgroup});
    }
  }

  lemma RootSwitchOfPhases(flags: set<CloneFlag>, envCalls: seq<Effect>, fsCalls: seq<Effect>, execCalls: seq<Effect>)
    requires PhasesApart(envCalls, fsCalls, execCalls)
    ensures var t := Credentials(flags) + [ClearEnv] + envCalls + fsCalls + execCalls;
            (PivotRootHere in t <==> PivotRootHere in fsCalls)
            && (Chroot([CurDir]) in t <==> Chroot([CurDir]) in fsCalls)
            && (SetUmask(Umask022) in t <==> SetUmask(Umask022) in fsCalls)
  {
  }

  lemma ClearEnvOfPhases(flags: set<CloneFlag>, envCalls: seq<Effect>, fsCalls: seq<Effect>, execCalls: seq<Effect>)
    ensures var t := Credentials(flags) + [ClearEnv] + envCalls + fsCalls + execCalls;
            var k := |Credentials(flags)|;
            k < |t| && t[k] == ClearEnv && forall i :: 0 <= i <= k && t[i].SetEnv? ==> false
  {
    var t := Credentials(flags) + [ClearEnv] + envCalls + fsCalls + execCalls;
    var cred := Credentials(flags);
    var k := |cred|;
    assert t[k] == ClearEnv;
    forall i | 0 <= i < k
      ensures !t[i].SetEnv?
    {
      assert t[i] == cred[i];
    }
  }

  lemma ExecOnlyLast(pre: seq<Effect>, handover: seq<Effect>)
    requires forall e :: e in pre ==> !e.Exec?
    requires |handover| == 4 && !handover[0].Exec? && !handover[1].Exec? && !handover[2].Exec?
    ensures forall i :: 0 <= i < |pre + handover| - 1 ==> !(pre + handover)[i].Exec?
  {
    var t := pre + handover;
    forall i | 0 <= i < |t| - 1
      ensures !t[i].Exec?
    {
      if i < |pre| {
        assert t[i] == pre[i];
      } else {
        assert t[i] == handover[i - |pre|];
      }
    }
  }

  /** GRANDCHILD creates the cgroup namespace iff it is among the flags, and no
      other namespace. */
  lemma GrandchildCgroup(c: InitConfig, vars: RunhVars, ready: byte, h: InitHost)
    requires GrandchildPlan(c, vars, ready, h).Ok?
    ensures Unshare({NewCgroup}) in GrandchildPlan(c, vars, ready, h).value <==> NewCgroup in c.cloneflags
    ensures forall e :: e in GrandchildPlan(c, vars, ready, h).value && e.Unshare? ==> e == Unshare({NewCgroup})
  {
    PhasesOfGrandchild(c, vars, ready, h);
    var env := EnvPlan(c.spec.process).value;
    var filesystem := FilesystemPlan(c, h).value;
    var exec := ExecPlan(c, env.1, filesystem.1, EnvFd("RUNH_FIFOFD", vars.fifoFd).value, ready).value;
    CgroupOfPhases(c.cloneflags, env.0, filesystem.0, exec);
  }

  /** Between them, CHILD and GRANDCHILD create exactly the namespaces of the flags,
      the cgroup one last. */
  lemma CgroupDeferred(c: InitConfig, vars: RunhVars, ready: byte, h: InitHost)
    requires Text.InI32(h.grandchildPid) && ChildPlan(c, h).Ok? && GrandchildPlan(c, vars, ready, h).Ok?
    ensures var ct := ChildPlan(c, h).value;
            |ct| >= 3 && ct[|ct| - 3].Unshare?
            && c.cloneflags == ct[|ct| - 3].namespaces
                               + (if Unshare({NewCgroup}) in GrandchildPlan(c, vars, ready, h).value then {NewCgroup} else {})
  {
    ChildUnshares(c, h);
    GrandchildCgroup(c, vars, ready, h);
  }

  /** GRANDCHILD pivots the root and sets the umask iff there is a new mount
      namespace, and chroots otherwise. */
  lemma GrandchildRootSwitch(c: InitConfig, vars: RunhVars, ready: byte, h: InitHost)
    requires GrandchildPlan(c, vars, ready, h).Ok?
    ensures PivotRootHere in GrandchildPlan(c, vars, ready, h).value <==> NewNs in c.cloneflags
    ensures Chroot([CurDir]) in GrandchildPlan(c, vars, ready, h).value <==> NewNs !in c.cloneflags
    ensures SetUmask(Umask022) in GrandchildPlan(c, vars, ready, h).value <==> NewNs in c.cloneflags
  {
    PhasesOfGrandchild(c, vars, ready, h);
    var env := EnvPlan(c.spec.process).value;
    var filesystem := FilesystemPlan(c, h).value;
    var exec := ExecPlan(c, env.1, filesystem.1, EnvFd("RUNH_FIFOFD", vars.fifoFd).value, ready).value;
    RootSwitchOfPhases(c.cloneflags, env.0, filesystem.0, exec);
    FilesystemSwitch(c, h);
  }

  /** The environment is cleared right after the credentials, before any variable
      is set. */
  lemma ClearEnvFirst(c: InitConfig, vars: RunhVars, ready: byte, h: InitHost)
    requires GrandchildPlan(c, vars, ready, h).Ok?
    ensures var t := GrandchildPlan(c, vars, ready, h).value;
            var k := |Credentials(c.cloneflags)|;
            k < |t| && t[k] == ClearEnv && forall i :: 0 <= i <= k && t[i].SetEnv? ==> false
  {
    PhasesOfGrandchild(c, vars, ready, h);
    var env := EnvPlan(c.spec.process).value;
    var filesystem := FilesystemPlan(c, h).value;
    var exec := ExecPlan(c, env.1, filesystem.1, EnvFd("RUNH_FIFOFD", vars.fifoFd).value, ready).value;
    ClearEnvOfPhases(c.cloneflags, env.0, filesystem.0, exec);
  }

  /** GRANDCHILD's calls end with the hand-over to the found program. */
  lemma GrandchildHandover(c: InitConfig, vars: RunhVars, ready: byte, h: InitHost)
    requires GrandchildPlan(c, vars, ready, h).Ok?
    ensures EnvFd("RUNH_FIFOFD", vars.fifoFd).Ok? && EnvPlan(c.spec.process).Ok? && FilesystemPlan(c, h).Ok?
    ensures c.spec.process.Some? && c.spec.process.value.args.Some? && c.spec.process.value.args.value != []
    ensures var env := EnvPlan(c.spec.process).value;
            var filesystem := FilesystemPlan(c, h).value;
            var args := c.spec.process.value.args.value;
            var found := Paths.Find(Parse(args[0]), None, PathVar(env.1), filesystem.1);
            found.Ok? && found.value.Some? && Exists(filesystem.1, found.value.value)
            && GrandchildPlan(c, vars, ready, h).value
               == (Credentials(c.cloneflags) + [ClearEnv] + env.0 + filesystem.0 + Identity(c))
                  + Handover(ready, EnvFd("RUNH_FIFOFD", vars.fifoFd).value, found.value.value, args, env.1)
  {
    PhasesOfGrandchild(c, vars, ready, h);
    var env := EnvPlan(c.spec.process).value;
    var filesystem := FilesystemPlan(c, h).value;
    ExecCalls(c, env.1, filesystem.1, EnvFd("RUNH_FIFOFD", vars.fifoFd).value, ready);
  }

  lemma NoExecBefore(flags: set<CloneFlag>, envCalls: seq<Effect>, fsCalls: seq<Effect>, identity: seq<Effect>)
    requires forall e :: e in envCalls ==> e.SetEnv?
    requires forall e :: e in fsCalls ==> FsCall(e)
    requires forall e :: e in identity ==> e.SetHostname? || e.SetNoNewPrivs?
    ensures forall e :: e in Credentials(flags) + [ClearEnv] + envCalls + fsCalls + identity ==> !e.Exec?
  {
  }

  lemma HandoverAtEnd(pre: seq<Effect>, handover: seq<Effect>)
    requires |handover| == 4
    ensures var t := pre + handover;
            var n := |t|;
            n >= 4 && t[n - 4] == handover[0] && t[n - 3] == handover[1] && t[n - 2] == handover[2] && t[n - 1] == handover[3]
  {
  }

  /** GRANDCHILD ends by handing over to the program: the ready byte, the exec FIFO
      opened on the descriptor `RUNH_FIFOFD` names and written, then exec. The
      program exists in the container, its arguments are the spec's and its
      environment is the one set from the spec. */
  lemma ExecLast(c: InitConfig, vars: RunhVars, ready: byte, h: InitHost)
    requires GrandchildPlan(c, vars, ready, h).Ok?
    ensures var t := GrandchildPlan(c, vars, ready, h).value;
            var n := |t|;
            n >= 4 && t[n - 4] == WriteInitPipe([ready])
            && t[n - 3] == OpenExecFifo(EnvFd("RUNH_FIFOFD", vars.fifoFd).value) && t[n - 2] == WriteExecFifo([0])
            && t[n - 1].Exec? && Exists(FilesystemPlan(c, h).value.1, t[n - 1].program)
            && c.spec.process.Some? && Some(t[n - 1].argv) == c.spec.process.value.args
            && t[n - 1].env == EnvPlan(c.spec.process).value.1
  {
    GrandchildHandover(c, vars, ready, h);
    var env := EnvPlan(c.spec.process).value;
    var filesystem := FilesystemPlan(c, h).value;
    var args := c.spec.process.value.args.value;
    var program := Paths.Find(Parse(args[0]), None, PathVar(env.1), filesystem.1).value.value;
    HandoverAtEnd(Credentials(c.cloneflags) + [ClearEnv] + env.0 + filesystem.0 + Identity(c),
                  Handover(ready, EnvFd("RUNH_FIFOFD", vars.fifoFd).value, program, args, env.1));
  }

  /** GRANDCHILD execs nothing before its last call. */
  lemma ExecOnce(c: InitConfig, vars: RunhVars, ready: byte, h: InitHost)
    requires GrandchildPlan(c, vars, ready, h).Ok?
    ensures var t := GrandchildPlan(c, vars, ready, h).value;
            forall i :: 0 <= i < |t| - 1 ==> !t[i].Exec?
  {
    PhasesOfGrandchild(c, vars, ready, h);
    var env := EnvPlan(c.spec.process).value;
    var filesystem := FilesystemPlan(c, h).value;
    var fifoFd := EnvFd("RUNH_FIFOFD", vars.fifoFd).value;
    ExecPlanExecLast(c, env.1, filesystem.1, fifoFd, ready);
    ExecOnceOfPhases(c.cloneflags, env.0, filesystem.0, ExecPlan(c, env.1, filesystem.1, fifoFd, ready).value);
  }

  /** The exec phase execs nothing before its last call. */
  lemma ExecPlanExecLast(c: InitConfig, env: map<string, string>, view: Fs, fifoFd: int, ready: byte)
    requires ExecPlan(c, env, view, fifoFd, ready).Ok?
    ensures var x := ExecPlan(c, env, view, fifoFd, ready).value;
            forall i :: 0 <= i < |x| - 1 ==> !x[i].Exec?
  {
    ExecCalls(c, env, view, fifoFd, ready);
    var args := c.spec.process.value.args.value;
    var program := Paths.Find(Parse(args[0]), None, PathVar(env), view).value.value;
    ExecOnlyLast(Identity(c), Handover(ready, fifoFd, program, args, env));
  }

  lemma ExecOnceOfPhases(flags: set<CloneFlag>, envCalls: seq<Effect>, fsCalls: seq<Effect>, execCalls: seq<Effect>)
    requires PhasesApart(envCalls, fsCalls, execCalls)
    requires forall i :: 0 <= i < |execCalls| - 1 ==> !execCalls[i].Exec?
    ensures var t := Credentials(flags) + [ClearEnv] + envCalls + fsCalls + execCalls;
            forall i :: 0 <= i < |t| - 1 ==> !t[i].Exec?
  {
    var pre := Credentials(flags) + [ClearEnv] + envCalls + fsCalls;
    NoExecBefore(flags, envCalls, fsCalls, []);
    assert pre + [] == pre;
    var t := pre + execCalls;
    forall i | 0 <= i < |t| - 1
      ensures !t[i].Exec?
    {
      if i < |pre| {
        assert t[i] == pre[i];
      } else {
        assert t[i] == execCalls[i - |pre|];
      }
    }
  }
}
