/** The host as runh sees it: a filesystem view and the privileged calls it makes.
    Every system call of the core is an `Effect` appended to a trace; the filesystem
    is a map from clean paths to what `lstat` finds there. */
module Host {
  import opened Wrappers
  import opened PathBufs
  import opened Bytes
  import opened Flags

  /** The `MS_*` flags of `mount(2)` that the core uses. */
  datatype MsFlag =
    | Rdonly | Nosuid | Nodev | Noexec | Synchronous | Remount | Mandlock | Dirsync
    | Noatime | Nodiratime | Bind | Rec | Silent | Posixacl | Unbindable | Private
    | Slave | Shared | Relatime | IVersion | Strictatime

  /** `S_IFCHR`, `S_IFBLK`, `S_IFIFO`. */
  datatype DevKind = CharDevice | BlockDevice | Fifo

  /** What following a symbolic link leads to (`stat` follows links, `lstat` does not). */
  datatype Follow = Dangling | ToDir | ToOther

  datatype Node =
    | Dir
    | File
    | Device(kind: DevKind, major: int, minor: int)
    | Link(target: Path, follows: Follow)

  /** The filesystem: the node at each clean path. Paths are looked up lexically
      cleaned, so `a/../b` names `b`. */
  type Fs = map<Path, Node>

  /** `symlink_metadata`: the node itself, links not followed. */
  function NodeAt(fs: Fs, p: Path): Option<Node>
  {
    if Clean(p) in fs then Some(fs[Clean(p)]) else None
  }

  /** `Path::exists`: something is there, and a link there is not dangling. */
  predicate Exists(fs: Fs, p: Path)
  {
    match NodeAt(fs, p)
    case None => false
    case Some(n) => !(n.Link? && n.follows == Dangling)
  }

  /** `Path::is_dir`: a directory, or a link to one. */
  predicate IsDir(fs: Fs, p: Path)
  {
    match NodeAt(fs, p)
    case None => false
    case Some(n) => n == Dir || (n.Link? && n.follows == ToDir)
  }

  /** Major and minor number of `st_rdev`; zero for anything but a device node. */
  function Rdev(fs: Fs, p: Path): (int, int)
  {
    match NodeAt(fs, p)
    case Some(Device(_, major, minor)) => (major, minor)
    case _ => (0, 0)
  }

  /** The directories `create_dir_all(p)` has to create: every prefix of `p` that
      ends in a name and is not there yet. */
  function MissingDirs(fs: Fs, p: Path): set<Path>
  {
    var c := Clean(p);
    set k | 1 <= k <= |c| && c[k - 1].Normal? && c[..k] !in fs :: c[..k]
  }

  /** The filesystem after `DirBuilder::new().recursive(true).create(p)`. */
  function MkdirAll(fs: Fs, p: Path): (r: Fs)
  {
    fs + map q | q in MissingDirs(fs, p) :: Dir
  }

  /** Creating directories never changes what was already there, and afterwards
      every named prefix of the path exists. */
  lemma MkdirAllEffect(fs: Fs, p: Path)
    ensures forall q :: q in fs ==> q in MkdirAll(fs, p) && MkdirAll(fs, p)[q] == fs[q]
    ensures forall k :: 1 <= k <= |Clean(p)| && Clean(p)[k - 1].Normal? ==> Clean(p)[..k] in MkdirAll(fs, p)
    ensures forall q :: q in MkdirAll(fs, p) && q !in fs ==> MkdirAll(fs, p)[q] == Dir
  {
    var c := Clean(p);
    forall k | 1 <= k <= |c| && c[k - 1].Normal?
      ensures c[..k] in MkdirAll(fs, p)
    {
      if c[..k] !in fs {
        assert c[..k] in MissingDirs(fs, p);
      }
    }
  }

  /** A missing directory (or one already there) is a directory afterwards. */
  lemma MkdirAllMakesDir(fs: Fs, p: Path)
    requires |Clean(p)| >= 1 && Clean(p)[|Clean(p)| - 1].Normal?
    requires Clean(p) !in fs || IsDir(fs, p)
    ensures IsDir(MkdirAll(fs, p), p)
  {
    var c := Clean(p);
    MkdirAllEffect(fs, p);
    assert c[..|c|] == c;
  }

  /** Creating the same directories twice is the same as creating them once. */
  lemma MkdirAllIdempotent(fs: Fs, p: Path)
    ensures MkdirAll(MkdirAll(fs, p), p) == MkdirAll(fs, p)
  {
    var once := MkdirAll(fs, p);
    MkdirAllEffect(fs, p);
    assert MissingDirs(once, p) == {};
    assert MkdirAll(once, p) == once;
  }

  /** The three processes of the init sequence. */
  datatype Stage = ParentStage | ChildStage | GrandchildStage

  /** Where a mount call is aimed: a path, or `/proc/self/fd/<n>` of an `O_PATH`
      descriptor opened on the given destination. */
  datatype MountTarget = AtPath(path: Path) | ThroughProcFd(dest: Path)

  /** One privileged call, with the arguments that matter. */
  datatype Effect =
    | Mount(source: Option<Path>, target: MountTarget, fstype: Option<string>,
            flags: set<MsFlag>, data: Option<string>)
    | UnmountDetach(mountPoint: Path)
    | CreateDirAll(path: Path)
    | CreateFile(path: Path)
    | RestorePermissions(path: Path)
    | Mknod(path: Path, kind: DevKind, mode: int, major: int, minor: int)
    | Chown(path: Path, owner: Option<int>, group: Option<int>)
    | MakeSymlink(pointsTo: Path, link: Path)
    | RemoveDir(path: Path)
    | RemoveFile(path: Path)
    | RemoveDirAll(path: Path)
    | OpenNamespace(path: Path)
    | JoinNamespace(path: Path, flag: CloneFlag)
    | Unshare(namespaces: set<CloneFlag>)
    | OpenDirectory(path: Path)
    | Fchdir(path: Path)
    | PivotRootHere
    | Chdir(path: Path)
    | Chroot(path: Path)
    | SetDumpable(on: bool)
    | SetName(name: string)
    | CreateSocketPair
    | CloneStage(stage: Stage, pid: int)
    | WriteInitPipe(bytes: seq<byte>)
    | WriteSync(bytes: seq<byte>)
    | SetResUid(id: int)
    | SetSid
    | SetUid(id: int)
    | SetGid(id: int)
    | ClearEnv
    | SetEnv(name: string, value: string)
    | SetUmask(mode: int)
    | SetHostname(name: string)
    | SetNoNewPrivs
    | OpenExecFifo(fd: int)
    | WriteExecFifo(bytes: seq<byte>)
    | Exec(program: Path, argv: seq<string>, env: map<string, string>)
    | SendSignal(pid: int, signal: int)
}
