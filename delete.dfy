/** `runh delete` (src/delete.rs): a container is removed when it is stopped, or
    killed first when forced. */
module Delete {
  import opened Wrappers
  import opened PathBufs
  import opened Host
  import opened State
  import opened Kill

  /** The container's directory below the project directory. */
  function ContainerDir(projectDir: Path, id: string): Path
  {
    Join(projectDir, Parse(id))
  }

  /** Whether `container.json` opens and parses as a container. */
  predicate ContainerFileParses(o: Observed)
  {
    o.containerFile.Some? && o.containerFile.value.Parsed?
  }

  /** What `delete_container` does. The state is looked up as if it were always
      there: a missing container aborts. */
  function DeletePlan(projectDir: Path, id: Option<string>, force: bool, o: Observed, version: string): Result<seq<Effect>>
  {
    if id.None? then Err(MissingId)
    else
      var found :- GetContainerState(o, version, id.value);
      if found.None? then Err(NoContainerState)
      else
        var killed :- if found.value.status == Status.Stopped then Ok([])
                      else if !force then Err(DeleteNotStopped)
                      else KillContainer(o, version, id.value, "SIGKILL", false);
        Ok(killed + if ContainerFileParses(o) then [RemoveDirAll(ContainerDir(projectDir, id.value))] else [])
  }

  /** `delete_container`. */
  method DeleteContainer(projectDir: Path, id: Option<string>, force: bool, o: Observed, version: string)
    returns (r: Result<seq<Effect>>)
    ensures r == DeletePlan(projectDir, id, force, o, version)
  {
    if id.None? {
      return Err(MissingId);
    }
    var found :- GetContainerState(o, version, id.value);
    if found.None? {
      return Err(NoContainerState);
    }
    var effects: seq<Effect> := [];
    if found.value.status != Status.Stopped {
      if !force {
        return Err(DeleteNotStopped);
      }
      effects :- KillContainer(o, version, id.value, "SIGKILL", false);
    }
    var deleteFile := false;
    var containerDir := ContainerDir(projectDir, id.value);
    if o.containerFile.Some? {
      if o.containerFile.value.Parsed? {
        deleteFile := true;
      }
    }
    if deleteFile {
      effects := effects + [RemoveDirAll(containerDir)];
    }
    return Ok(effects);
  }

  /** A container that is not stopped is only deleted when forced; otherwise nothing
      is done. */
  lemma NotStoppedNeedsForce(projectDir: Path, id: string, o: Observed, version: string)
    requires GetContainerState(o, version, id).Ok? && GetContainerState(o, version, id).value.Some?
    requires GetContainerState(o, version, id).value.value.status != Status.Stopped
    ensures DeletePlan(projectDir, Some(id), false, o, version) == Err(DeleteNotStopped)
  {
  }

  /** A stopped container is removed without any signal. */
  lemma StoppedIsRemoved(projectDir: Path, id: string, force: bool, o: Observed, version: string)
    requires GetContainerState(o, version, id).Ok? && GetContainerState(o, version, id).value.Some?
    requires GetContainerState(o, version, id).value.value.status == Status.Stopped
    ensures DeletePlan(projectDir, Some(id), force, o, version) == Ok([RemoveDirAll(ContainerDir(projectDir, id))])
  {
    StateEchoes(o, version, id);
    var remove := [RemoveDirAll(ContainerDir(projectDir, id))];
    assert [] + remove == remove;
  }

  /** A forced delete of a created or running container sends `SIGKILL` to its pid
      and then removes its directory. */
  lemma ForcedKillsThenRemoves(projectDir: Path, id: string, o: Observed, version: string)
    requires GetContainerState(o, version, id).Ok? && GetContainerState(o, version, id).value.Some?
    requires GetContainerState(o, version, id).value.value.status in {Created, Status.Running}
    ensures var st := GetContainerState(o, version, id).value.value;
            DeletePlan(projectDir, Some(id), true, o, version)
              == Ok([SendSignal(st.pid.value, 9), RemoveDirAll(ContainerDir(projectDir, id))])
  {
    ActiveHasPid(o, version, id);
    StateEchoes(o, version, id);
    FullNameResolves(9);
    var st := GetContainerState(o, version, id).value.value;
    var sent := [SendSignal(st.pid.value, 9)];
    assert KillContainer(o, version, id, "SIGKILL", false) == Ok(sent);
    assert ContainerFileParses(o);
    assert sent + [RemoveDirAll(ContainerDir(projectDir, id))]
        == [SendSignal(st.pid.value, 9), RemoveDirAll(ContainerDir(projectDir, id))];
  }

  /** Every delete that goes through ends by removing the directory: the state lookup
      already needed `container.json` to parse, so the branch that skips the removal
      is never taken. */
  lemma DeleteRemoves(projectDir: Path, id: Option<string>, force: bool, o: Observed, version: string)
    requires DeletePlan(projectDir, id, force, o, version).Ok?
    ensures var effects := DeletePlan(projectDir, id, force, o, version).value;
            effects != [] && effects[|effects| - 1] == RemoveDirAll(ContainerDir(projectDir, id.value))
            && forall i :: 0 <= i < |effects| - 1 ==> effects[i].SendSignal? && effects[i].signal == 9
  {
    StateEchoes(o, version, id.value);
    var st := GetContainerState(o, version, id.value).value.value;
    if st.status != Status.Stopped {
      FullNameResolves(9);
      KillNeverMissesPid(o, version, id.value, "SIGKILL", false);
    }
  }
}
