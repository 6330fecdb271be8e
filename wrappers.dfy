/** Option and Result, and the one list of the reasons for which runh aborts
    (every `panic!`, `expect`, `unwrap` and `unimplemented!` of the modelled core). */
module Wrappers {

  datatype Option<+T> = None | Some(value: T)

  /** Why an operation of the core stops the process. */
  datatype Abort =
    // rootfs.rs
    | TooManySymlinks
    | UnknownRootfsPropagation(value: string)
    | RemountCombineFailed
    // mounts.rs
    | MissingMountSource
    | MissingMountType
    | UnsupportedMountOption(option: string)
    | MountOutsideRootfs
    | BindSourceMissing
    | MountInProc
    | NotADirectory
    | NoParentDir
    | MountDestinationUnopenable
    | ProcFdMismatch
    // devices.rs
    | DeviceOutsideRootfs
    | DeviceTypeAllUnsupported
    | InvalidFileMode
    | InvalidDeviceNumber
    | DeviceIdMismatch
    | DeviceStatFailed
    | MknodFailed
    | PtmxRemoveFailed
    | SymlinkFailed
    // namespaces.rs
    | NamespaceOpenFailed
    | NamespaceJoinFailed
    // paths.rs
    | PathVariableUnset
    // init.rs
    | EnvVarInvalid(name: string)
    | HandshakeTruncated
    | RootfsNotUtf8
    | SpecUnreadable
    | MissingLinuxSection
    | MissingProcess
    | MissingArgs
    | ExecutableNotFound
    | BadEnvironmentEntry(entry: string)
    | SetEnvFailed(name: string)
    | EmptyArgs
    // state.rs
    | BundleLinkUnreadable
    | StateFileUnreadable
    | PidUnparsable
    | ContainerFileUnreadable
    | ContainerFileUnparsable
    | ProcessStatUnreadable
    // kill.rs
    | MissingPid
    | UnknownSignalNumber(number: int)
    | UnknownSignalName(name: string)
    // delete.rs
    | MissingId
    | NoContainerState
    | DeleteNotStopped
    // hermit.rs
    | MissingTapFd
    | EnvironmentNotADirectory

  /** The outcome of an operation that may abort. */
  datatype Result<+T> = Ok(value: T) | Err(error: Abort) {
    predicate IsFailure() { Err? }
    function PropagateFailure<U>(): Result<U>
      requires Err?
    {
      Err(error)
    }
    function Extract(): T
      requires Ok?
    {
      value
    }
  }
}
