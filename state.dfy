/** The state of a container as `runh state` reports it (src/state.rs): derived from
    what is found in the container's directory below the project directory and from
    the process table. */
module State {
  import opened Wrappers
  import opened Text

  /** The `status` values of the OCI runtime state. */
  datatype Status = Creating | Created | Running | Stopped

  /** The string written into the `status` field. */
  function StatusName(s: Status): string
  {
    match s
    case Creating => "creating"
    case Created => "created"
    case Running => "running"
    case Stopped => "stopped"
  }

  /** The four names are distinct, so the string identifies the status. */
  lemma StatusNameInjective(a: Status, b: Status)
    ensures StatusName(a) == StatusName(b) <==> a == b
  {
  }

  /** `procfs::process::ProcState`. */
  datatype ProcState =
    | Running | Sleeping | Waiting | Zombie | Stopped | Tracing | Dead
    | Wakekill | Waking | Parked | Idle

  /** What `container.json` holds: either it does not parse as a container, or it
      does, with the annotations of its spec. */
  datatype ContainerFile = Unparsable | Parsed(annotations: Option<map<string, string>>)

  /** Everything `get_container_state` looks at. Each field is the outcome of one
      query; `None` where the query fails. */
  datatype Observed = Observed(
    /** `container_dir.is_dir()`. */
    isDir: bool,
    /** The target of the `bundle` link, as text; `None` when it cannot be read. */
    bundleLink: Option<string>,
    /** Whether `created` exists, and then its text (`None` when it cannot be read). */
    createdExists: bool,
    createdText: Option<string>,
    /** `container.json`: `None` when it cannot be opened. */
    containerFile: Option<ContainerFile>,
    /** `exec.fifo` exists. */
    execFifo: bool,
    /** The process table: a pid that is present has a `/proc/<pid>` entry, whose
        state is `None` when `stat` cannot be read. */
    procs: map<int, Option<ProcState>>)

  datatype State = State(
    version: string,
    id: string,
    status: Status,
    pid: Option<int>,
    bundle: string,
    annotations: Option<map<string, string>>)

  /** The pid recorded in `created`, if the file exists. */
  function RecordedPid(o: Observed): Result<Option<int>>
  {
    if !o.createdExists then Ok(None)
    else if o.createdText.None? then Err(StateFileUnreadable)
    else match ParseI32(o.createdText.value)
      case None => Err(PidUnparsable)
      case Some(p) => Ok(Some(p))
  }

  /** The status of a container whose pid is known to be `pid`. */
  function StatusOf(pid: Option<int>, o: Observed): Result<Status>
  {
    match pid
    case None => Ok(Creating)
    case Some(p) =>
      if p !in o.procs then Ok(Status.Stopped)
      else match o.procs[p]
        case None => Err(ProcessStatUnreadable)
        case Some(ps) =>
          if ps == Zombie || ps == Dead then Ok(Status.Stopped)
          else if o.execFifo then Ok(Created)
          else Ok(Status.Running)
  }

  /** `get_container_state`: `Ok(None)` when there is no container directory;
      `version` is the runtime's `OCI_STATE_VERSION`. */
  function GetContainerState(o: Observed, version: string, id: string): Result<Option<State>>
  {
    if !o.isDir then Ok(None)
    else if o.bundleLink.None? then Err(BundleLinkUnreadable)
    else
      var pid :- RecordedPid(o);
      if o.containerFile.None? then Err(ContainerFileUnreadable)
      else if o.containerFile.value.Unparsable? then Err(ContainerFileUnparsable)
      else
        var status :- StatusOf(pid, o);
        Ok(Some(State(version, id, status, pid, o.bundleLink.value, o.containerFile.value.annotations)))
  }

  /** A process that is there and neither a zombie nor dead. */
  predicate Alive(o: Observed, p: int)
  {
    p in o.procs && o.procs[p].Some? && o.procs[p].value != Zombie && o.procs[p].value != Dead
  }

  /** There is no state exactly when there is no container directory. */
  lemma NoDirectoryNoState(o: Observed, version: string, id: string)
    ensures GetContainerState(o, version, id) == Ok(None) <==> !o.isDir
  {
  }

  /** A state echoes the id and the version, carries the bundle link and the pid
      parsed from `created`, and requires `container.json` to have parsed. */
  lemma StateEchoes(o: Observed, version: string, id: string)
    requires GetContainerState(o, version, id).Ok? && GetContainerState(o, version, id).value.Some?
    ensures var st := GetContainerState(o, version, id).value.value;
            st.version == version && st.id == id && Some(st.bundle) == o.bundleLink
            && RecordedPid(o) == Ok(st.pid)
            && o.containerFile == Some(Parsed(st.annotations))
  {
  }

  /** How each status arises, in both directions. */
  lemma StatusCases(o: Observed, version: string, id: string)
    requires GetContainerState(o, version, id).Ok? && GetContainerState(o, version, id).value.Some?
    ensures var st := GetContainerState(o, version, id).value.value;
            && (st.status == Creating <==> !o.createdExists)
            && (st.status == Status.Stopped <==> st.pid.Some? && !Alive(o, st.pid.value))
            && (st.status == Created <==> st.pid.Some? && Alive(o, st.pid.value) && o.execFifo)
            && (st.status == Status.Running <==> st.pid.Some? && Alive(o, st.pid.value) && !o.execFifo)
  {
  }

  /** A container that is created or running has a pid, so `kill` can signal it. */
  lemma ActiveHasPid(o: Observed, version: string, id: string)
    requires GetContainerState(o, version, id).Ok? && GetContainerState(o, version, id).value.Some?
    requires GetContainerState(o, version, id).value.value.status in {Created, Status.Running}
    ensures GetContainerState(o, version, id).value.value.pid.Some?
  {
  }

  /** The aborts, in the order the queries are made. */
  lemma StateAborts(o: Observed, version: string, id: string)
    requires o.isDir
    ensures o.bundleLink.None? ==> GetContainerState(o, version, id) == Err(BundleLinkUnreadable)
    ensures o.bundleLink.Some? && RecordedPid(o).Err? ==> GetContainerState(o, version, id) == Err(RecordedPid(o).error)
    ensures o.bundleLink.Some? && RecordedPid(o).Ok? && o.containerFile.None? ==>
              GetContainerState(o, version, id) == Err(ContainerFileUnreadable)
    ensures GetContainerState(o, version, id).Err? <==>
              o.bundleLink.None? || RecordedPid(o).Err? || o.containerFile.None? || o.containerFile.value.Unparsable?
              || StatusOf(RecordedPid(o).value, o).Err?
  {
  }

  /** A pid file written by formatting an i32 is read back as that pid. */
  lemma RecordedPidRoundTrip(o: Observed, pid: int)
    requires InI32(pid) && o.createdExists && o.createdText == Some(IntToString(pid))
    ensures RecordedPid(o) == Ok(Some(pid))
  {
    ParseFormatted(pid);
  }
}
