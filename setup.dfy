/**
 * src/setup.rs: what `dfm` does before any command. It checks that git is
 * installed, and on the first run creates the storage folder and starts
 * `git init` in it. Where the source ends the process, the model ends with
 * `Exit(code)`.
 */
module Setup {
  import opened Wrappers
  import opened Git
  import opened State
  import opened Utils

  /** How setup ends: it lets the command run, or the process exits. */
  datatype SetupEnd = Proceed | Exit(code: int)

  /** What setup leaves behind and how it ends. */
  datatype Finish = Finish(after: World, end: SetupEnd)

  /**
   * setup's `get_storage_folder_path`, which returns a string and exits
   * with status 2 when the variable is missing.
   */
  function StoragePath(p: Platform, vars: map<string, string>): Result<string, int>
  {
    if p == Unix then
      if "HOME" in vars then Ok(vars["HOME"] + "/.config/dotfiles") else Err(2)
    else
      if "APPDATA" in vars then Ok(vars["APPDATA"] + "\\dotfiles") else Err(2)
  }

  /**
   * setup's path is the storage folder path of the commands, and a missing
   * variable ends the process with status 2.
   */
  lemma SameStoragePath(p: Platform, vars: map<string, string>)
    ensures StoragePath(p, vars).Ok? <==> StorageFolderPath(p, vars).Some?
    ensures StoragePath(p, vars).Ok? ==> StoragePath(p, vars).value == StorageFolderPath(p, vars).value
    ensures StoragePath(p, vars).Err? ==> StoragePath(p, vars).error == 2 && VarName(p) !in vars
  {
  }

  /**
   * `check_if_git_is_installed`: running `git` with no arguments exits with
   * status 1 when git is installed. A launch failure or a signal ends the
   * process with status 1, any other status with 2.
   */
  function GitCheck(status: ProcessStatus): (r: Option<int>)
    ensures r.None? <==> status == ExitCode(1)
    ensures status.LaunchFailed? || status.Signalled? ==> r == Some(1)
    ensures status.ExitCode? && status.code != 1 ==> r == Some(2)
  {
    match status
    case LaunchFailed(_) => Some(1)
    case Signalled => Some(1)
    case ExitCode(code) => if code != 1 then Some(2) else None
  }

  /** What `setup` does to `w`. */
  function Spec(w: World, env: Env): Finish
  {
    match GitCheck(env.gitCheck)
    case Some(code) => Finish(w, Exit(code))
    case None =>
      match StoragePath(env.platform, env.vars)
      case Err(code) => Finish(w, Exit(code))
      case Ok(path) =>
        if w.rootExists then Finish(w, Proceed)
        else if CreateRoot in env.faults then Finish(w, Exit(1))
        else
          var created := w.(rootExists := true);
          match Canonicalize(true, env, CanonicalizeRoot, path)
          case Err(_) => Finish(created, Exit(1))
          case Ok(root) =>
            var started := created.(trace := created.trace + [Invocation(root, ["init"])]);
            if OutcomeOf(env.git, Init).SpawnError? then Finish(started, Exit(1))
            else Finish(started, Proceed)
  }

  /**
   * `setup`. The `git init` it starts is not waited for, so only a failure
   * to spawn it matters.
   */
  method Execute(h: Host, env: Env) returns (end: SetupEnd)
    modifies h
    ensures Finish(h.Snapshot(), end) == Spec(old(h.Snapshot()), env)
  {
    var failed := GitCheck(env.gitCheck);
    if failed.Some? {
      return Exit(failed.value);
    }
    var path := StoragePath(env.platform, env.vars);
    if path.Err? {
      return Exit(path.error);
    }
    if h.rootExists {
      return Proceed;
    }
    if CreateRoot in env.faults {
      return Exit(1);
    }
    h.rootExists := true;
    var root := Canonicalize(true, env, CanonicalizeRoot, path.value);
    if root.Err? {
      return Exit(1);
    }
    h.trace := h.trace + [Invocation(root.value, ["init"])];
    if OutcomeOf(env.git, Init).SpawnError? {
      return Exit(1);
    }
    end := Proceed;
  }

  /** The git check comes first: when it fails, setup exits before looking at any folder. */
  lemma GitCheckFirst(w: World, env: Env)
    requires env.gitCheck != ExitCode(1)
    ensures Spec(w, env) == Finish(w, Exit(GitCheck(env.gitCheck).value))
  {
  }

  /**
   * With the storage folder already there, setup changes nothing; so once
   * setup has let a command run, running it again changes nothing either.
   */
  lemma Idempotent(w: World, env: Env)
    ensures w.rootExists && env.gitCheck == ExitCode(1) && VarName(env.platform) in env.vars ==>
      Spec(w, env) == Finish(w, Proceed)
    ensures Spec(w, env).end == Proceed ==>
      Spec(Spec(w, env).after, env) == Finish(Spec(w, env).after, Proceed)
  {
  }

  /**
   * On a first run, a failure to create the folder exits with 1 before
   * `git init` is started; otherwise the folder is created and `git init` is
   * started in it, and setup proceeds unless that spawn failed. Nothing but
   * the folder and the trace changes.
   */
  lemma FirstRun(w: World, env: Env)
    requires !w.rootExists && env.gitCheck == ExitCode(1) && VarName(env.platform) in env.vars
    ensures CreateRoot in env.faults ==> Spec(w, env) == Finish(w, Exit(1))
    ensures CreateRoot !in env.faults && CanonicalizeRoot !in env.faults ==>
      var o := Spec(w, env);
      && o.after == w.(rootExists := true,
                       trace := w.trace + [Invocation(StorageFolderPath(env.platform, env.vars).value, ["init"])])
      && (o.end == Proceed <==> !OutcomeOf(env.git, Init).SpawnError?)
      && (o.end != Proceed ==> o.end == Exit(1))
  {
    SameStoragePath(env.platform, env.vars);
  }
}
