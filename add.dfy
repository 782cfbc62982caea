/**
 * `dfm add <name>` (src/commands/add.rs): copies a file of the current
 * directory into the mirror and publishes it with a commit "Add <name>".
 */
module Add {
  import opened Wrappers
  import opened Errors
  import opened Git
  import opened State
  import opened Utils

  const Success := "Successfully added the file and synchronized the local repository with the remote repository"

  function Message(name: string): string
  {
    "Add " + name
  }

  /** What `Add::execute` does to `w`. */
  function Spec(w: World, env: Env, name: string): Outcome
  {
    match ResolveMirror(w, env)
    case Err(err) => Stop(w, err)
    case Ok(dir) =>
      if !RemoteConfigured(w) then Stop(w, Usage(SetRemoteRepository))
      else if CurrentDir in env.faults then Stop(w, Execution(GetCurrentDir(env.faults[CurrentDir])))
      else if !FileExists(w.cwd, name) then Stop(w, Usage(FileDoesNotExists))
      else if !w.cwd[Key(name)].File? then Stop(w, Usage(NotAFile))
      else if FileExists(w.mirror.value, name) then Stop(w, Usage(FileAlreadyAdded))
      else if CopyIn in env.faults then Stop(w, Execution(CopyFile(env.faults[CopyIn])))
      else
        var copied := w.(mirror := Some(w.mirror.value[Key(name) := w.cwd[Key(name)]]));
        RunPlan(copied, env, CommitPlan(dir, Message(name)), Success)
  }

  method Execute(h: Host, env: Env, name: string) returns (r: Result<string, CommandError>)
    modifies h
    ensures Outcome(h.Snapshot(), r) == Spec(old(h.Snapshot()), env, name)
  {
    var resolved := ResolveMirror(h.Snapshot(), env);
    if resolved.Err? {
      return Err(resolved.error);
    }
    var dir := resolved.value;
    if h.marker.None? {
      return Err(Usage(SetRemoteRepository));
    }
    if CurrentDir in env.faults {
      return Err(Execution(GetCurrentDir(env.faults[CurrentDir])));
    }
    var key := Key(name);
    if key !in h.cwd {
      return Err(Usage(FileDoesNotExists));
    }
    if !h.cwd[key].File? {
      return Err(Usage(NotAFile));
    }
    if key in h.mirror.value {
      return Err(Usage(FileAlreadyAdded));
    }
    if CopyIn in env.faults {
      return Err(Execution(CopyFile(env.faults[CopyIn])));
    }
    h.mirror := Some(h.mirror.value[key := h.cwd[key]]);
    r := ExecutePlan(h, env, CommitPlan(dir, Message(name)), Success);
  }

  /**
   * The checks come in a fixed order: without a remote the answer is
   * `SetRemoteRepository` whatever the files; a name missing from the current
   * directory is `FileDoesNotExists`, one that is not a regular file is
   * `NotAFile`, one already in the mirror is `FileAlreadyAdded`; every one of
   * these leaves everything as it was.
   */
  lemma CheckOrder(w: World, env: Env, name: string)
    requires ResolveMirror(w, env).Ok?
    ensures !RemoteConfigured(w) ==> Spec(w, env, name) == Stop(w, Usage(SetRemoteRepository))
    ensures RemoteConfigured(w) && CurrentDir !in env.faults ==>
      && (Key(name) !in w.cwd ==> Spec(w, env, name) == Stop(w, Usage(FileDoesNotExists)))
      && (Key(name) in w.cwd && w.cwd[Key(name)].Dir? ==> Spec(w, env, name) == Stop(w, Usage(NotAFile)))
      && (Key(name) in w.cwd && w.cwd[Key(name)].File? && Key(name) in w.mirror.value ==>
            Spec(w, env, name) == Stop(w, Usage(FileAlreadyAdded)))
  {
  }

  /**
   * Only the named mirror entry and the trace can change: the current
   * directory, `remote.txt` and every other mirror entry stay as they were;
   * the mirror changes only by gaining the named file, copied from the
   * current directory, where it was missing; the trace only grows; a usage
   * error changes nothing.
   */
  lemma Frame(w: World, env: Env, name: string)
    ensures var o := Spec(w, env, name);
      && o.after.cwd == w.cwd && o.after.marker == w.marker && o.after.rootExists == w.rootExists
      && w.trace <= o.after.trace
      && (o.after.mirror == w.mirror
          || (&& w.mirror.Some? && Key(name) !in w.mirror.value
              && Key(name) in w.cwd && w.cwd[Key(name)].File?
              && o.after.mirror == Some(w.mirror.value[Key(name) := w.cwd[Key(name)]])))
      && (o.result.Err? && o.result.error.Usage? ==> o.after == w)
  {
  }

  /**
   * On success the mirror holds the file with the bytes of the current
   * directory's copy, and exactly the four spawns of a commit "Add <name>"
   * in the git storage folder were started.
   */
  lemma Succeeds(w: World, env: Env, name: string)
    requires Spec(w, env, name).result.Ok?
    ensures var o := Spec(w, env, name);
      && Key(name) in w.cwd && w.cwd[Key(name)].File?
      && o.after.mirror.Some? && Key(name) in o.after.mirror.value
      && o.after.mirror.value[Key(name)] == w.cwd[Key(name)]
      && w.mirror.Some? && Key(name) !in w.mirror.value
      && o.after.trace == w.trace + CommitCalls(ResolveMirror(w, env).value, Message(name))
      && o.result.value == Success
  {
    CommitPlanRun(ResolveMirror(w, env).value, Message(name), env.git);
  }

  /**
   * Git runs only after the copy went through, and what it starts is a
   * commit plan with message "Add <name>", stopped at its first failure.
   */
  lemma PlanFollowsCopy(w: World, env: Env, name: string)
    requires Spec(w, env, name).after.trace != w.trace
    ensures var o := Spec(w, env, name);
      && ResolveMirror(w, env).Ok?
      && o.after.mirror == Some(w.mirror.value[Key(name) := w.cwd[Key(name)]])
      && exists n :: 1 <= n <= 4 && o.after.trace == w.trace + CommitCalls(ResolveMirror(w, env).value, Message(name))[..n]
  {
    var dir := ResolveMirror(w, env).value;
    CommitPlanRun(dir, Message(name), env.git);
    var n := |RunSpec(CommitPlan(dir, Message(name)), env.git).calls|;
    assert 1 <= n <= 4;
  }
}
