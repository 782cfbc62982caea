/**
 * The error taxonomy of src/error.rs and of the per-command `Error` enums.
 * Only the variants are modelled; the display texts are not.
 */
module Errors {

  /** `ExecutionError`: something outside the user's control failed. */
  datatype ExecutionError =
    | GetStorageFolderPath(msg: string)
    | CanonicalizePath(msg: string)
    | GetCurrentDir(msg: string)
      /** A git subprocess could not be spawned; `command` is the step's spawn name. */
    | GitCommand(command: string, err: string)
      /** Waiting for a spawned git subprocess failed; `command` is the step's wait name. */
    | WaitingCommand(command: string, err: string)
    | CopyFile(msg: string)
    | CreateFile(msg: string)
    | WriteToFile(msg: string)
    | OpenFile(msg: string)
    | ReadFile(msg: string)
    | RemoveFile(msg: string)
    | GetEnvVar(name: string, err: string)
    | GetDirEntry(msg: string)
    | RemoveStorageFolder(msg: string)
    | CreateStorageFolder(msg: string)
    | InvalidUTF8(context: string)
    | Regex(msg: string)
    | NoSuccess(command: string)
    | RepositoryNotFound
    | Unknown(err: string, tryingTo: string)

  /**
   * The union of the commands' own `Error` enums, each a mistake the user can
   * fix. Reset's "already in the initial state" error is its variant
   * `SetRemoteRepository`, so it shares that constructor.
   */
  datatype UsageError =
    | FileAlreadyAdded
    | FileDoesNotExists
    | NotAFile
    | FileNotAdded
    | NothingToUpdate
    | SetRemoteRepository
    | NoInternetConnection
    | AlreadyAdded
    | NotSetted
    | NotSSH
    | EmptyRepository

  /** `CommandError`: what a command's `execute` returns on failure. */
  datatype CommandError = Usage(usage: UsageError) | Execution(execution: ExecutionError)
}
