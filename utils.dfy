/**
 * src/utils.rs and the helpers the commands take from it: the storage folder
 * path, the git storage folder inside it, `check_if_file_exists`, and the
 * canonicalization each command starts with.
 *
 * `get_storage_folder_path` in src/utils.rs exits with status 2 when the
 * variable is missing; the commands call a Result-returning variant and turn
 * its error into `GetStorageFolderPath`. Both are `StorageFolderPath` here,
 * whose None is that missing variable.
 */
module Utils {
  import opened Wrappers
  import opened Utf8
  import opened Errors
  import opened State

  /** `io::Error` display texts of the failures the model produces itself. */
  const NotFound := "No such file or directory (os error 2)"
  const IsADirectory := "Is a directory (os error 21)"
  const NotARegularFile := "the source path is neither a regular file nor a symlink to a regular file"
  /** Display text of `env::VarError::NotPresent`. */
  const VarNotPresent := "environment variable not found"

  /** The variable the storage folder hangs from. */
  function VarName(p: Platform): string
  {
    if p == Unix then "HOME" else "APPDATA"
  }

  function Separator(p: Platform): string
  {
    if p == Unix then "/" else "\\"
  }

  /** `Path::join` of a single component. */
  function Join(p: Platform, dir: string, name: string): string
  {
    dir + Separator(p) + name
  }

  /** `get_storage_folder_path`; None when the variable is not set. */
  function StorageFolderPath(p: Platform, vars: map<string, string>): (r: Option<string>)
    ensures r.Some? <==> VarName(p) in vars
  {
    if p == Unix then
      if "HOME" in vars then Some(vars["HOME"] + "/.config/dotfiles") else None
    else
      if "APPDATA" in vars then Some(vars["APPDATA"] + "\\dotfiles") else None
  }

  /**
   * The path exists exactly when the platform's variable is set; it is that
   * variable's value followed by `/.config/dotfiles` on Linux and macOS and
   * by `\dotfiles` elsewhere, so it always ends with "dotfiles".
   */
  lemma StorageFolderPathFormula(p: Platform, vars: map<string, string>)
    ensures StorageFolderPath(p, vars).Some? ==>
      var home, path := vars[VarName(p)], StorageFolderPath(p, vars).value;
      && |path| >= |home| + 9
      && path[..|home|] == home
      && path[|home|..] == (if p == Unix then "/.config/dotfiles" else "\\dotfiles")
      && path[|path| - 8..] == "dotfiles"
  {
  }

  /** `get_git_storage_folder_path`: the `dotfiles` folder inside the storage folder. */
  function GitStoragePath(p: Platform, vars: map<string, string>): Option<string>
  {
    match StorageFolderPath(p, vars)
    case None => None
    case Some(root) => Some(Join(p, root, "dotfiles"))
  }

  /**
   * `check_if_file_exists(folder, name)`: whether `folder` has an entry named
   * `name`, file or directory.
   */
  predicate FileExists(folder: Folder, name: string)
  {
    Key(name) in folder
  }

  /**
   * Whether a name exists depends on that name's own entry only: writing or
   * removing the entry of another name does not change it.
   */
  lemma FileExistsOwnEntry(folder: Folder, name: string, other: string, e: Entry)
    requires name != other
    ensures FileExists(folder[Key(other) := e], name) <==> FileExists(folder, name)
    ensures FileExists(folder - {Key(other)}, name) <==> FileExists(folder, name)
  {
    if Key(name) == Key(other) {
      EncodeInjective(name, other);
    }
  }

  /** The entry `folder` has under `key`, if any. */
  function At(folder: Folder, key: Bytes): Option<Entry>
  {
    if key in folder then Some(folder[key]) else None
  }

  /**
   * `fs::copy` from a path holding `source` to a path holding `dest` (None
   * when nothing is there yet), `step` naming the copy among the faults: a
   * source that is not a regular file is refused, then opening a directory
   * for writing fails, then the copy can still fail as the environment says.
   */
  function CopyFault(env: Env, step: IoStep, source: Entry, dest: Option<Entry>): (r: Option<string>)
    ensures r.None? <==> source.File? && dest != Some(Dir) && step !in env.faults
    ensures source.Dir? ==> r == Some(NotARegularFile)
    ensures source.File? && dest == Some(Dir) ==> r == Some(IsADirectory)
  {
    if source.Dir? then Some(NotARegularFile)
    else if dest == Some(Dir) then Some(IsADirectory)
    else if step in env.faults then Some(env.faults[step])
    else None
  }

  /** `canonicalize`: fails on a missing path; paths are otherwise kept as they are. */
  function Canonicalize(present: bool, env: Env, step: IoStep, path: string): (r: Result<string, ExecutionError>)
    ensures r.Ok? ==> present && r.value == path
    ensures !present ==> r == Err(CanonicalizePath(NotFound))
  {
    if !present then Err(CanonicalizePath(NotFound))
    else if step in env.faults then Err(CanonicalizePath(env.faults[step]))
    else Ok(path)
  }

  /**
   * The start of every command that works in the mirror: the git storage
   * path, canonicalized. It fails when the variable is missing or the mirror
   * does not exist.
   */
  function ResolveMirror(w: World, env: Env): (r: Result<string, CommandError>)
    ensures r.Ok? ==> w.mirror.Some? && GitStoragePath(env.platform, env.vars) == Some(r.value)
  {
    match GitStoragePath(env.platform, env.vars)
    case None => Err(Execution(GetStorageFolderPath(VarNotPresent)))
    case Some(path) =>
      match Canonicalize(w.mirror.Some?, env, CanonicalizeMirror, path)
      case Err(err) => Err(Execution(err))
      case Ok(dir) => Ok(dir)
  }

  /** The same for the storage folder itself, where `remote.txt` lives. */
  function ResolveRoot(w: World, env: Env): (r: Result<string, CommandError>)
    ensures r.Ok? ==> w.rootExists && StorageFolderPath(env.platform, env.vars) == Some(r.value)
  {
    match StorageFolderPath(env.platform, env.vars)
    case None => Err(Execution(GetStorageFolderPath(VarNotPresent)))
    case Some(path) =>
      match Canonicalize(w.rootExists, env, CanonicalizeRoot, path)
      case Err(err) => Err(Execution(err))
      case Ok(dir) => Ok(dir)
  }

  /** `check_if_remote_link_is_added().is_ok()`: `remote.txt` exists. */
  predicate RemoteConfigured(w: World)
  {
    w.marker.Some?
  }
}
