# runh: a model of the runtime's decisions

runh is an OCI container runtime that starts its containers as hermit unikernels
under QEMU. This project models the part of runh that decides **what** privileged
calls to make, in which order, with which arguments, and when to abort. That part is:

- the secure resolution of container paths inside the rootfs;
- the mount options and the per-mount plan;
- device nodes and `/dev` links;
- namespaces to create and to join;
- the search for the executable;
- the three init stages (PARENT, CHILD and GRANDCHILD) and their handshake;
- the container status and the `kill` and `delete` decisions built on it;
- the QEMU command line.

How the model represents the system:

- Every system call is an `Effect` value (`Host.Effect`), appended to a trace.
- The host filesystem is a value: a map from clean paths to what `lstat` finds
  there (`Host.Fs`).
- A mount changes the view that later mounts and the program search see: a
  filesystem type hides what was below its destination, and a bind mount shows
  the source's tree there (`Mounts.MountedOver`, `Mounts.BoundOver`).
- Every `panic!`, `expect` or `unimplemented!` of the source becomes an
  `Err(...)` of the shared `Wrappers.Abort` datatype.
- Paths are sequences of components, as `Path::components()` yields them
  (`PathBufs`). `clean` is the lexical cleaning of the `path_clean` crate.

What the model is made of:

- Each loop of the source is a `method` with a `while` loop and its invariants.
- Each method is proved equal to a specification function (`...Plan`, `...Fold`,
  `Parse`, `Find`, `QemuArgs`).
- The lemmas state what the source promises about those functions.
- Code that is a pure decision in the source is a function here: the status
  derivation, the `kill` gate and the signal names.

Modules follow the source files:

| module | source |
|---|---|
| `Flags` | src/flags.rs |
| `Namespaces` | src/namespaces.rs |
| `Paths` | src/paths.rs |
| `Rootfs` | src/rootfs.rs |
| `Mounts` | src/mounts.rs |
| `Devices` | src/devices.rs |
| `Init` | src/init.rs |
| `State` | src/state.rs |
| `Kill` | src/kill.rs |
| `Delete` | src/delete.rs |
| `Hermit` | src/hermit.rs |

Supporting modules:

- `Wrappers`: `Option`, `Result` and the abort reasons.
- `Text`: split, join, and i32 parsing and formatting.
- `Bytes`: little-endian integers and UTF-8.
- `PathBufs`: path components, `join`, `parent`, `clean` and path order.
- `Host`: the effects and the filesystem view.

## Model

| member | source | states |
|---|---|---|
| Flags.CloneflagBijective | src/flags.rs:14-24 | each of the seven namespace types has its own clone flag: `get_cloneflag` has an inverse on both sides |
| Flags.GenerateCloneflags | src/flags.rs:4-12 | the loop inserts exactly the flags of the entries without a path (`CreationFlags`) |
| Flags.CreationFlagsMembership | src/flags.rs:4-11 | a flag is generated iff some entry with no path has the matching type; entries with a path never contribute |
| Flags.CreationFlagsOrderFree | src/flags.rs:5-11 | the flags depend only on which entries occur, not on their order or repetitions |
| Namespaces.JoinNamespaces | src/namespaces.rs:7-36 | the two loops produce the open-then-`setns` plan `JoinPlan`, or its abort |
| Namespaces.ConfiguredMembers | src/namespaces.rs:9-28 | an entry is configured iff it has a path; every configured file comes from such an entry with its type |
| Namespaces.JoinOrder | src/namespaces.rs:9-35 | on success every namespace file is opened before the first `setns`, and the joins follow the list order with `get_cloneflag` of each entry |
| Namespaces.JoinedEntry | src/namespaces.rs:30-35 | every entry with a path is joined with its own flag |
| Namespaces.JoinsFromEntries | src/namespaces.rs:30-35 | every `setns` joins the file of an entry with a path, with that entry's flag |
| Namespaces.CreateOrJoin | src/namespaces.rs:10-35 | an entry without a path is among the creation flags; one with a path is joined |
| Namespaces.JoinAborts | src/namespaces.rs:12-19 | a file that cannot be opened aborts before any join; one that cannot be joined aborts |
| Paths.FindInPath | src/paths.rs:5-31 | `find_in_path` computes `Find`: the absolute branch or the first-match search |
| Paths.TryPath | src/paths.rs:7-10 | an absolute path is resolved in the rootfs when one is given |
| Paths.SearchFolders | src/paths.rs:19-30 | the loop over the `PATH` folders returns the first candidate that exists |
| Paths.NotFoundIff | src/paths.rs:19-30 | nothing is found iff every candidate was resolved and does not exist |
| Paths.FoundIsFirst | src/paths.rs:19-28 | a found path is a candidate that exists, and every candidate before it was missing |
| Paths.SearchAborts | src/paths.rs:21-24 | an abort of the search is the resolution failure of the first candidate that could not be resolved |
| Paths.UnresolvedAborts | src/paths.rs:21-24 | such a candidate, reached with all before it missing, aborts the search |
| Paths.AbsoluteFound | src/paths.rs:7-15 | an absolute path is found iff it (resolved in the rootfs when given) exists |
| Paths.RelativeSearch | src/paths.rs:16-19 | a relative path without `PATH` aborts; with `PATH` the folders split on `:` are searched in order |
| Paths.FoundExists | src/paths.rs:11-27 | whatever is found exists |
| Paths.FoundInsideRootfs | src/paths.rs:21-27 | with a clean rootfs, whatever the search finds lies inside it |
| Rootfs.ResolveInRootfs | src/rootfs.rs:13-79 | the resolver loop computes `ResolveLoop` from the empty accumulated path and a zero counter |
| Rootfs.ResolveIteration | src/rootfs.rs:18-69 | one iteration of the loop is `Step`, which consumes a component or adds one symlink expansion |
| Rootfs.ResolveStepReset | src/rootfs.rs:28-35 | a component that cleans to `/` resets the accumulated path |
| Rootfs.ResolveStepPlain | src/rootfs.rs:40-54 | a component that is missing or not a symlink is appended unchanged |
| Rootfs.ResolveStepLink | src/rootfs.rs:26-68 | a symlink component is consumed; its target is put in front of the rest, an absolute target clears the accumulated path, and the counter goes up by one |
| Rootfs.ResolveConfined | src/rootfs.rs:70-78 | every successful result is a clean rootfs followed by plain names only, whatever the symlinks |
| Rootfs.ResolveWithoutLinks | src/rootfs.rs:40-78 | without symlinks, resolution is the rootfs joined with the clean of `/` + path |
| Rootfs.SelfLinkAborts | src/rootfs.rs:19-24 | a link to its own absolute name makes the resolver abort after the expansion limit |
| Rootfs.UncleanRootfsNotPrefix | src/rootfs.rs:70-78 | with a rootfs that is not clean, the result need not start with it |
| Rootfs.CleanRooted | src/rootfs.rs:70-78 | cleaning `/` followed by anything gives `/` and plain names |
| Rootfs.UnderRootfsConfined | src/rootfs.rs:70-78 | the final join puts plain names under a clean rootfs |
| Rootfs.RootfsPropagationNames | src/rootfs.rs:84-108 | `shared`, `slave`, `private` and `unbindable` select their flag, absent means slave, and anything else aborts |
| Rootfs.MountRootfs | src/rootfs.rs:81-135 | `/` is made recursive plus one propagation type, then the rootfs is bind-mounted recursively; a bad propagation value aborts |
| Rootfs.SetRootfsReadOnly | src/rootfs.rs:137-151 | `/` is remounted with `MS_BIND`, `MS_REMOUNT` and `MS_RDONLY`; only if that fails is it retried with the current statvfs flags added; every call is read-only |
| Rootfs.PivotRoot | src/rootfs.rs:153-185 | `pivot_root` happens before the old root is made recursive slave and detached, and the sequence ends in `chdir("/")` |
| Mounts.ParseMountOptions | src/mounts.rs:402-478 | the option loop computes `Parse`: both flag sets and the data string, or the abort |
| Mounts.ParseAbortSticks | src/mounts.rs:419-465 | once an option aborts, the options after it change nothing |
| Mounts.ParseAbortsIff | src/mounts.rs:419-465 | parsing aborts iff some option is `lazytime`, `nolazytime` or `tmpcopyup`, and it names the first one |
| Mounts.LaterOptionWins | src/mounts.rs:407-444 | a flag of the main call is set iff some option sets it and no later option clears it |
| Mounts.PropagationKeptApart | src/mounts.rs:433-464 | propagation options never reach the main call; the propagation call gets only propagation types and `MS_REC` |
| Mounts.DataIsUnrecognised | src/mounts.rs:466-477 | the data string is always there: the unrecognised options joined by commas, in order |
| Mounts.OpenThroughProcfd | src/mounts.rs:355-392 | it aborts unless the destination opens and its proc-fd link names it; `MS_RDONLY` is dropped for `/dev` and tmpfs |
| Mounts.MountWithFlags | src/mounts.rs:309-353 | `mount_with_flags` computes `Mounted` |
| Mounts.RemountDestination | src/mounts.rs:283-307 | `remount` computes `Remounted`: the entry's flags plus `MS_REMOUNT` and no data, with `MS_RDONLY` dropped only at `/dev`, so a tmpfs remounted for `ro` becomes read-only (the corrected half of the tmpfs row under Findings) |
| Mounts.RemountAgrees | src/mounts.rs:283-307 | the corrected remount differs from the one as written exactly for a tmpfs asked to be `ro` outside `/dev` |
| Mounts.MountCallsShape | src/mounts.rs:321-352 | a second, propagation-only call is made iff there are propagation flags; every call goes through the proc-fd path |
| Mounts.TmpfsNeverReadOnly | src/mounts.rs:361-363 | as written, neither the mount of a tmpfs nor its remount carries `MS_RDONLY` |
| Mounts.BindMount | src/mounts.rs:96-160 | the bind branch computes `BindPlan` |
| Mounts.TypedMount | src/mounts.rs:162-271 | the branch for filesystem types computes `TypedPlan`, whose tmpfs `ro` remount is the corrected one of the Findings row |
| Mounts.ConfigureMount | src/mounts.rs:63-279 | the loop body computes `MountPlan` for one entry |
| Mounts.ConfigureMounts | src/mounts.rs:55-281 | the loop computes `ConfigureFold`: all calls, the filesystem view after every mount and `setup_dev`, or the first abort; each entry runs on the view the entries before it left |
| Mounts.ConfigureAbortSticks | src/mounts.rs:55-281 | once an entry aborts, the entries after it change nothing |
| Mounts.EntryAborts | src/mounts.rs:63-277 | each entry aborts for a missing source or type, a destination outside the rootfs, a missing bind source, a bind under `proc`, or a `sysfs`/`proc` destination that is not a directory |
| Mounts.SetupDevIff | src/mounts.rs:89-99 | `configure_mounts` returns false iff some bind mount resolves exactly to the rootfs's `dev` |
| Mounts.MountPlanInside | src/mounts.rs:81-133 | every call one entry makes stays inside the rootfs |
| Mounts.ConfigureInside | src/mounts.rs:55-281 | every call of `configure_mounts` stays inside the rootfs |
| Mounts.ProcGuarded | src/mounts.rs:107-111 | bind mounts and mounts of other types never land under the rootfs's `proc` |
| Mounts.BindRemountIff | src/mounts.rs:144-158 | a bind mount is remounted iff flags other than `MS_REC`, `MS_REMOUNT` and `MS_BIND` remain |
| Mounts.TmpfsPlanReadOnly | src/mounts.rs:191-237 | a tmpfs is mounted without `MS_RDONLY`, so that its permissions can be restored; it is remounted iff `ro` was asked for, the remount is the last call, and outside `/dev` it carries `MS_RDONLY` |
| Mounts.TmpfsAsWrittenNeverReadOnly | src/mounts.rs:229-237 | as written, no call of the tmpfs branch carries `MS_RDONLY`, so with `ro` outside `/dev` it differs from the corrected branch |
| Mounts.TmpfsAgrees | src/mounts.rs:229-237 | without `ro`, or at `/dev`, the tmpfs branch as written and the corrected one are the same |
| Mounts.MountedOver | src/mounts.rs:162-271 | after a filesystem is mounted at a destination, the destination is a directory, nothing below it is left, and the rest of the view is unchanged |
| Mounts.BoundOver | src/mounts.rs:134-141 | after a bind mount, the destination shows the source's node, every path below the source appears at the same place below the destination, and nothing outside the destination changes |
| Mounts.TypedPlanView | src/mounts.rs:162-271 | a filesystem-type entry leaves an empty directory at its destination and the rest of the view as it was |
| Mounts.BindPlanView | src/mounts.rs:96-160 | a bind entry shows the source's tree below its destination and leaves the rest of the view as it was |
| Mounts.MountPlanView | src/mounts.rs:63-279 | after an entry, what is at and below its resolved destination is what the mount put there, and the rest of the view is as before; later entries see it |
| Mounts.TmpfsBelowMount | src/mounts.rs:191-227 | a tmpfs below the destination of an earlier filesystem-type entry finds nothing there: it creates its directory and restores no permissions |
| Mounts.OptionsOfShape | src/mounts.rs:63-73 | an entry without options gets the defaults; parsed options always carry data and keep propagation apart |
| Devices.SortByPathSorted | src/devices.rs:83 | the sort by path yields a sorted list |
| Devices.SortByPathStable | src/devices.rs:83 | the sort is stable: for every path, the first entry with it stays first |
| Devices.DedupSorted | src/devices.rs:84 | dedup of a sorted list keeps exactly the first entry of every path |
| Devices.MergeDevicesSpec | src/devices.rs:78-86 | the merged list is strictly sorted by path, and on a collision the configured entry wins over the default |
| Devices.MergeDevicesCovers | src/devices.rs:78-86 | every configured or default path is in the merged list |
| Devices.NodeChecksIff | src/devices.rs:109-120 | a device passes the checks iff it is not of type A, its mode is valid and its numbers are not negative; C and U are character devices, B block and P FIFO, and a missing mode is 0666 |
| Devices.CreateDevice | src/devices.rs:89-129 | the loop body computes `DevicePlan` for one device |
| Devices.CreateDevices | src/devices.rs:14-130 | `create_devices` walks the merged list with `CreateFold` |
| Devices.CreateEach | src/devices.rs:89-129 | the loop over the list computes `CreateFold` |
| Devices.CreateAbortSticks | src/devices.rs:89-129 | once a device aborts, the devices after it change nothing |
| Devices.DeviceAtCreates | src/devices.rs:95-128 | a device that goes through lies inside the rootfs and gets its parent directories, `mknod` and `chown`, in that order |
| Devices.DeviceAtAborts | src/devices.rs:109-116 | a device that fails the checks aborts with the first failed check |
| Devices.CreateFoldMakes | src/devices.rs:89-129 | exactly one node is made per device not at or below `/dev/ptmx`, in list order; nothing existing is changed |
| Devices.DefaultDevicesMade | src/devices.rs:15-87 | with no configured devices, null 1/3, zero 1/5, full 1/7, random 1/8, urandom 1/9 and tty 5/0 are made as 0666 character devices |
| Devices.CreatedNodesVerify | src/devices.rs:143-157 | every node made is still there with its numbers, so `verify_device` accepts it |
| Devices.CreateFoldInside | src/devices.rs:95-106 | every call of `create_devices` stays inside the rootfs, or creates a directory on the way to it |
| Devices.VerifyDevice | src/devices.rs:143-157 | `verify_device` passes iff the node exists with the expected major and minor |
| Devices.CreateTun | src/devices.rs:160-193 | `create_tun` computes `TunPlan` |
| Devices.TunReady | src/devices.rs:180-192 | afterwards the TUN device is inside the rootfs with numbers 10/200; it is made, with mode 0755 and chowned, iff it was not there |
| Devices.MountDevice | src/devices.rs:209-252 | `mount_device` computes `MountDevicePlan` |
| Devices.MountDeviceAtSpec | src/devices.rs:222-251 | an existing node is only verified; otherwise the only mount is a bind of the host path |
| Devices.MountDeviceSpec | src/devices.rs:209-251 | the resolved destination is inside a clean rootfs, and the only mount is the bind of the host device |
| Devices.BindOnlyCall | src/devices.rs:240-251 | a device mount is one `MS_BIND` call of the host path through the proc fd |
| Devices.MountHermitDevices | src/devices.rs:195-207 | `mount_hermit_devices` computes `HermitDevicesPlan` |
| Devices.HermitDevicesMounts | src/devices.rs:195-207 | only `/dev/kvm` and `/dev/vhost-net` are bind-mounted, and nothing happens when neither exists |
| Devices.SetupPtmx | src/devices.rs:132-141 | the corrected `setup_ptmx` computes `SetupPtmxPlan` |
| Devices.SetupPtmxLinks | src/devices.rs:132-141 | it fails only on a non-empty directory; afterwards `dev/ptmx` links to `pts/ptmx` and nothing else changes |
| Devices.SetupPtmxAgrees | src/devices.rs:132-141 | where the code as written goes through, it does what the corrected one does |
| Devices.DanglingPtmxAborts | src/devices.rs:134-139 | a dangling `dev/ptmx` link aborts the code as written but not the corrected one |
| Devices.SetupDevSymlinks | src/devices.rs:254-267 | `setup_dev_symlinks` computes `SymlinksFold` over its four links |
| Devices.SymlinkAll | src/devices.rs:259-266 | the links are made one after another |
| Devices.SymlinksAbortSticks | src/devices.rs:259-266 | once a link fails, the links after it change nothing |
| Devices.SymlinksFoldMakes | src/devices.rs:259-266 | one link per entry, in order, each where nothing was before |
| Devices.DevSymlinksMade | src/devices.rs:259-266 | `dev/fd`, `dev/stdin`, `dev/stdout` and `dev/stderr` link to `/proc/self/fd`, `/proc/self/fd/0`, `/1` and `/2` |
| Init.HandshakeRoundTrip | src/init.rs:84-96 | what `runh create` writes (the length as 8 little-endian bytes, then the UTF-8 path) is read back as the same path |
| Init.HandshakeTruncation | src/init.rs:84-94 | the handshake aborts for lack of bytes exactly when fewer than 8 + length bytes arrive |
| Init.ConfigFlags | src/init.rs:105-112 | the creation flags are those of the namespace entries without a path, none when there is no list |
| Init.InitContainer | src/init.rs:66-151 | `init_container` and its stages compute `InitPlan` |
| Init.StagesStartInOrder | src/init.rs:117-151 | CHILD starts only after the preamble, GRANDCHILD only after CHILD went through, and PARENT reports only when CHILD did |
| Init.PidForwarded | src/init.rs:196-257 | PARENT writes to the init pipe exactly the 4 bytes CHILD sent, which decode as GRANDCHILD's pid |
| Init.RunChild | src/init.rs:216-260 | the CHILD stage computes `ChildPlan` |
| Init.ChildUnshares | src/init.rs:219-236 | CHILD joins, becomes root, then unshares the creation flags without `CLONE_NEWCGROUP` |
| Init.SetEnvironment | src/init.rs:287-302 | the environment loop computes `EnvPlan` |
| Init.EnvFoldOk | src/init.rs:293-301 | the environment is set iff every entry splits at an `=` into a name `set_var` accepts |
| Init.EnvFoldCalls | src/init.rs:293-301 | there is one `set_var` per entry, in order |
| Init.EnvLastWins | src/init.rs:293-301 | a name ends with the value of the last entry that sets it |
| Init.EnvFromEntries | src/init.rs:293-301 | every name set comes from an entry with that value |
| Init.EnvAbortSticks | src/init.rs:293-301 | once an entry is refused, the entries after it change nothing |
| Init.SetupMounts | src/init.rs:308-373 | mounting the rootfs and the spec's mounts, then entering the root, computes `MountPlan`, whose view is the one every spec mount has changed in turn |
| Init.FinalizeRootfs | src/init.rs:385-394 | finalising computes `Finalize` |
| Init.SetupFilesystem | src/init.rs:308-394 | the filesystem phase computes `FilesystemPlan` |
| Init.EnterRootSwitch | src/init.rs:368-373 | entering the root pivots iff there is a new mount namespace, and chroots iff there is not |
| Init.FinalizeCalls | src/init.rs:385-394 | nothing happens without a new mount namespace; with one the umask is set to 022, and `/` is remounted read-only iff the spec's root has `readonly` set: every mount is such a remount of `/` carrying `MS_REMOUNT` and `MS_RDONLY` |
| Init.FilesystemSwitch | src/init.rs:368-394 | the filesystem phase pivots and sets the umask iff there is a new mount namespace, and chroots otherwise |
| Init.PrepareExec | src/init.rs:396-449 | the hand-over part computes `ExecPlan` |
| Init.ExecCalls | src/init.rs:413-449 | exec needs arguments and runs the executable found for the first one, which exists |
| Init.RunGrandchild | src/init.rs:261-452 | the GRANDCHILD stage computes `GrandchildPlan` |
| Init.GrandchildCgroup | src/init.rs:274-278 | GRANDCHILD unshares the cgroup namespace iff it is among the creation flags, and nothing else |
| Init.CgroupDeferred | src/init.rs:234-278 | between them, CHILD and GRANDCHILD create exactly the namespaces of the creation flags |
| Init.GrandchildRootSwitch | src/init.rs:368-394 | GRANDCHILD pivots and sets the umask iff there is a new mount namespace, and chroots otherwise |
| Init.ClearEnvFirst | src/init.rs:287-301 | the environment is cleared before any variable is set |
| Init.GrandchildHandover | src/init.rs:427-449 | GRANDCHILD's calls end with the hand-over to the program found |
| Init.ExecLast | src/init.rs:427-449 | the last four calls are the ready byte, the opening of the exec FIFO, the zero byte written to it, and exec of the spec's arguments with the set environment |
| Init.ExecOnce | src/init.rs:445-451 | nothing is executed before the last call |
| Init.RerootInjective | src/init.rs:369-380 | distinct paths under the new root stay distinct once it is the root |
| Init.ContainerView | src/init.rs:369-380 | the filesystem seen from inside is the part under the rootfs, moved to `/` |
| State.StatusNameInjective | src/state.rs:59-82 | the four status names are distinct |
| State.NoDirectoryNoState | src/state.rs:19-23 | there is no state exactly when there is no container directory |
| State.StateEchoes | src/state.rs:56-86 | a state echoes the id and the version, and carries the bundle link and the pid of `created` |
| State.StatusCases | src/state.rs:37-82 | creating iff there is no `created` file; stopped iff the pid is not alive; created or running iff it is alive, depending on `exec.fifo` |
| State.ActiveHasPid | src/state.rs:59-82 | a created or running container has a pid |
| State.StateAborts | src/state.rs:27-65 | the aborts in the order the queries are made: the bundle link, the pid file, then the container file |
| State.RecordedPidRoundTrip | src/state.rs:36-46 | a pid file holding a formatted i32 reads back as that pid |
| Kill.SignalTable | src/kill.rs:29-39 | signal names and numbers are two views of one table of 31 signals |
| Kill.WithSigPrefixSpec | src/kill.rs:33-37 | afterwards the name starts with `SIG`, the given name follows it, and adding the prefix twice changes nothing |
| Kill.NumberResolves | src/kill.rs:29-31 | every signal can be given by its number |
| Kill.FullNameResolves | src/kill.rs:33-40 | every signal can be given by its full name |
| Kill.ShortNameResolves | src/kill.rs:33-40 | every signal can be given without `SIG` |
| Kill.SignalNameShape | src/kill.rs:33-40 | every signal name is `SIG` and a short name that does not start with `SIG` again |
| Kill.KillSends | src/kill.rs:6-47 | a signal is sent iff the container is created or running and `all` is not set, and then to the recorded pid |
| Kill.KillNeverMissesPid | src/kill.rs:28 | the recorded pid is always there when it is needed |
| Kill.KillQuiet | src/kill.rs:7-26 | an absent, stopped or creating container, or `all`, gets no signal and no abort |
| Delete.DeleteContainer | src/delete.rs:8-45 | `delete_container` computes `DeletePlan` |
| Delete.NotStoppedNeedsForce | src/delete.rs:10-12 | a container that is not stopped, without force, aborts before anything is removed |
| Delete.StoppedIsRemoved | src/delete.rs:10-44 | a stopped container is removed without any signal |
| Delete.ForcedKillsThenRemoves | src/delete.rs:13-44 | a forced delete of a created or running container sends SIGKILL to its pid, then removes it |
| Delete.DeleteRemoves | src/delete.rs:19-44 | every delete that goes through ends by removing the container directory, after at most SIGKILLs |
| Hermit.PrepareEnvironmentSpec | src/hermit.rs:21-38 | the environment is refused iff something is there that is not a directory; by default it is `hermit` under the project directory |
| Hermit.GetQemuArgs | src/hermit.rs:40-140 | `get_qemu_args` computes `QemuArgs` |
| Hermit.QemuArgsAborts | src/hermit.rs:105-107 | the command line is refused exactly when a network has no tap descriptor |
| Hermit.QemuArgsLayout | src/hermit.rs:49-139 | the 13 fixed arguments with the kernel at 10 and the app at 12, then the CPU, microvm and network parts, with `-append` and its text last |
| Hermit.NetdevCarriesFd | src/hermit.rs:105-117 | with a network, `-netdev` carries the tap descriptor, which reads back, followed by the right `-device` |
| Hermit.TapArgReadsBack | src/hermit.rs:107 | the tap argument reads back as the descriptor it was built from |
| Hermit.AppendCarriesArgs | src/hermit.rs:121-137 | with application arguments, the kernel text starts with `-freq 1197` and ends with ` -- ` and the arguments after the program name |
| Hermit.AppendWithoutArgs | src/hermit.rs:121-136 | without application arguments, the text is empty iff there is no network |
| Bytes.LeRoundTrip | src/init.rs:84-88 | decoding the little-endian bytes of a number gives the number back |
| Bytes.LeBytesOfValue | src/init.rs:84-88 | encoding the value of any bytes gives the bytes back |
| Bytes.I32RoundTrip | src/init.rs:206-256 | an i32 survives the trip through its four little-endian bytes |
| Bytes.I32BytesRoundTrip | src/init.rs:206-213 | any four bytes survive the trip through an i32 |
| Bytes.Utf8RoundTrip | src/init.rs:95-96 | decoding the UTF-8 encoding of any string gives it back |
| Text.JoinSplit | src/paths.rs:19 | splitting the `PATH` and joining again gives it back |
| Text.SplitJoin | src/hermit.rs:121-136 | joining words without the separator and splitting again gives them back |
| Text.ParseFormatted | src/state.rs:36-46 | parsing a formatted i32 gives it back |
| PathBufs.ParseWellFormed | src/paths.rs:7 | parsing a path string yields components in the shape `Path::components()` gives them, and it is absolute iff it starts with `/` |
| PathBufs.CleanIdempotent | src/rootfs.rs:70-78 | cleaning a clean path changes nothing |
| PathBufs.PathLessTransitive | src/devices.rs:83 | the order of paths is transitive |
| PathBufs.PathLessTotal | src/devices.rs:83 | any two distinct paths are ordered |
| Host.MkdirAllEffect | src/mounts.rs:394-400 | creating directories changes nothing that was there, and afterwards every named prefix of the path exists |
| Host.MkdirAllIdempotent | src/mounts.rs:394-400 | creating the same directories twice is the same as creating them once |

## Left out

- System calls are effects in a trace. Their own failures are not modelled except
  where the outcome depends on the filesystem view:
  - opening a namespace file or a mount destination;
  - the proc-fd link;
  - `mknod` or `symlinkat` where something already is;
  - `rmdir` of a directory that is not empty;
  - the first read-only remount of `/`.

  Each of these is an input of the model.
- An abort loses the calls made before it. The model returns the abort reason, not
  the partial trace.
- The three init stages are run one after another, not as concurrent processes.
  - The stack and trampoline of `clone_process` (src/init.rs:153-174) are not
    modelled.
  - A PARENT that waits forever for a CHILD that aborted is shown as a PARENT
    without a result.
- Calls into code that is not part of this model are inputs, and nothing beyond
  their use is modelled:
  - `Path::exists` and `is_dir` on the host, `statvfs`, the process table, and
    the contents of `created` and `container.json`. The model's `Exists` and
    `IsDir` clean `..` before they look a path up; the host resolves `..` after
    following links, so for `/a/link/../b` the host looks in the parent of the
    link's target, not in `/a`. This matters only for paths given by the user:
    the PATH folders of `find_in_path` and the hermit environment path;
  - the constants `OCI_STATE_VERSION` and `INIT_READY_TO_EXECV`, whose source
    file (consts.rs) is not part of this model;
  - the network configuration. src/hermit.rs:43 names a type
    `network::HermitNetworkConfig` that src/network.rs does not define. The model
    takes the four fields that src/hermit.rs:105-126 reads: `ip`, `gateway` and
    `mask` as IPv4 values written as dotted quads, and `mac` as text.
- Permissions, owners, labels and file modes beyond the numbers passed to
  `mknod` and `chown` are not modelled. The permission copy of a tmpfs over an
  existing directory is one `RestorePermissions` call.
- `mount_console` (src/mounts.rs:32-53) is console plumbing and is not modelled.
- `is_hermit_app` (src/hermit.rs:6-15) parses ELF files and is not modelled.
- `create_environment` (src/hermit.rs:17-19) does nothing, so preparing an
  environment is modelled as a check only.
- The callers in src/init.rs:351 and src/init.rs:421 pass arguments that do not
  match the signatures in src/mounts.rs and src/paths.rs. The model follows the
  defining files:
  - `configure_mounts` gets the bundle rootfs;
  - `find_in_path` searches the filesystem seen from inside the container,
    without a rootfs.
- src/delete.rs:9-15 uses the optional state as if it were always there. A missing
  state is modelled as an abort, and `kill_container` gets `SIGKILL` as a string.
- A bundle link that is not valid UTF-8 (an `unwrap` in src/state.rs) counts as
  unreadable.
- A length field too large to allocate in the handshake is not modelled. Only
  reading past the end aborts.
- Init.InitContainer: requires GRANDCHILD's pid to fit in an i32, as `clone`
  guarantees; the model does not derive that.
- Rootfs.ResolveConfined: holds only for a rootfs in clean form.
  `Rootfs.UncleanRootfsNotPrefix` shows that the code does not confine a
  rootfs given as `/a/..`.
- Paths.FoundInsideRootfs: holds only for a rootfs in clean form, for the same
  reason.
- Devices.VerifyDevice: reads the numbers of the node at the path without following
  a link there. The destinations it is given are already resolved.
- Mounts.MountWithFlags: the second open of the destination, for the propagation
  call, is assumed to succeed when the first one did, because the destination is
  now the root of the filesystem just mounted there. The remount of a tmpfs for
  `ro` is assumed to open it again in the same way.
- Mounts.ConfigureMounts: the view after a mount is an approximation. A filesystem
  type shows an empty directory, since what `sysfs`, `proc` or `devpts` hold is not
  modelled. A bind mount copies the source's tree as it is when it is mounted; later
  changes to the source, the difference between `bind` and `rbind` for mounts
  below the source, and links that point elsewhere at the new place are not
  modelled.
- Mounts.TypedMount: for a tmpfs with `ro` outside `/dev`, the remount is the
  corrected one of the tmpfs row under Findings and carries `MS_RDONLY`. The code as
  written drops that flag (src/mounts.rs:229-237 with 361-363); that branch is
  `Mounts.TmpfsAsWritten`, and `Mounts.TmpfsAgrees` shows the two are the same in
  every other case.
- Mounts.ConfigureMount: takes the corrected tmpfs remount from
  `Mounts.TypedMount`.
- Mounts.ConfigureMounts: takes the corrected tmpfs remount in every entry, through
  `Mounts.ConfigureMount`.
- Init.SetupMounts: takes the corrected tmpfs remount through
  `Mounts.ConfigureMounts`.
- Init.SetupFilesystem: takes the corrected tmpfs remount through
  `Init.SetupMounts`.
- Init.RunGrandchild: takes the corrected tmpfs remount through
  `Init.SetupFilesystem`.
- Init.InitContainer: takes the corrected tmpfs remount through
  `Init.RunGrandchild`.
- Init.SetupMounts: returns the view of `Mounts.ConfigureMounts`, with the same
  approximation; `Init.SetupFilesystem` and the program search inside the
  container take that view too.
- Paths.FindInPath: a relative `PATH` folder searched without a rootfs is looked up
  by the host relative to the working directory. The view holds absolute paths
  only, so such a candidate is never found.
- Init.SetupFilesystem: the filesystem seen from inside the new root is the part of
  the host view under the clean rootfs path. The host view holds absolute paths
  only, so a relative rootfs path gives an empty view.

## Findings

| source | as written | input that shows it | evidently intended | confidence | as-written member | corrected member |
|---|---|---|---|---|---|---|
| src/devices.rs:132-141 | `setup_ptmx` asks `is_dir` and `exists`, which follow links, before removing what is at `dev/ptmx`; a dangling link there (such as `pts/ptmx` before `devpts` is mounted) is neither, so it is not removed and `symlinkat` fails with `EEXIST` | a rootfs whose `dev/ptmx` is a link to `pts/ptmx` with nothing behind it | look at the entry itself (`symlink_metadata`), remove it whatever it is, then make the link | not executed | Devices.SetupPtmxAsWritten (Devices.DanglingPtmxAborts) | Devices.SetupPtmx (Devices.SetupPtmxPlan, Devices.SetupPtmxLinks) |
| src/mounts.rs:229-237 | a tmpfs asked to be `ro` is mounted without `MS_RDONLY` so that its permissions can be restored, then remounted; the remount goes through `open_trough_procfd`, which drops `MS_RDONLY` again for every tmpfs (src/mounts.rs:361-363), so the tmpfs never becomes read-only | a tmpfs entry at `/tmp` with options `["ro"]` | the remount keeps `MS_RDONLY`, so the tmpfs ends read-only | not executed | Mounts.TmpfsAsWritten (Mounts.TmpfsAsWrittenNeverReadOnly) | Mounts.RemountDestination (Mounts.TmpfsPlanReadOnly, Mounts.TmpfsAgrees) |
