/**
 * `dfm remove <name>` (src/commands/remove.rs): deletes a tracked file from
 * the mirror and publishes the deletion with a commit "Remove <name>".
 */
module Remove {
  import opened Wrappers
  import opened Errors
  import opened Git
  import opened State
  import opened Utils

  const Success := "Successfully removed the file and synchronized the local repository with the remote repository"

  function Message(name: string): string
  {
    "Remove " + name
  }

  /** `fs::remove_file` of a mirror entry: a directory cannot be removed this way. */
  function RemoveError(env: Env, e: Entry): Option<string>
  {
    if e.Dir? then Some(IsADirectory)
    else if RemoveEntry in env.faults then Some(env.faults[RemoveEntry])
    else None
  }

  /** What `Remove::execute` does to `w`. */
  function Spec(w: World, env: Env, name: string): Outcome
  {
    if !env.online then Stop(w, Usage(NoInternetConnection))
    else match ResolveMirror(w, env)
      case Err(err) => Stop(w, err)
      case Ok(dir) =>
        if !RemoteConfigured(w) then Stop(w, Usage(SetRemoteRepository))
        else if !FileExists(w.mirror.value, name) then Stop(w, Usage(FileDoesNotExists))
        else match RemoveError(env, w.mirror.value[Key(name)])
          case Some(msg) => Stop(w, Execution(RemoveFile(msg)))
          case None =>
            var removed := w.(mirror := Some(w.mirror.value - {Key(name)}));
            RunPlan(removed, env, CommitPlan(dir, Message(name)), Success)
  }

  method Execute(h: Host, env: Env, name: string) returns (r: Result<string, CommandError>)
    modifies h
    ensures Outcome(h.Snapshot(), r) == Spec(old(h.Snapshot()), env, name)
  {
    if !env.online {
      return Err(Usage(NoInternetConnection));
    }
    var resolved := ResolveMirror(h.Snapshot(), env);
    if resolved.Err? {
      return Err(resolved.error);
    }
    var dir := resolved.value;
    if h.marker.None? {
      return Err(Usage(SetRemoteRepository));
    }
    var key := Key(name);
    if key !in h.mirror.value {
      return Err(Usage(FileDoesNotExists));
    }
    var failed := RemoveError(env, h.mirror.value[key]);
    if failed.Some? {
      return Err(Execution(RemoveFile(failed.value)));
    }
    h.mirror := Some(h.mirror.value - {key});
    r := ExecutePlan(h, env, CommitPlan(dir, Message(name)), Success);
  }

  /**
   * Offline, the answer is `NoInternetConnection` before anything else is
   * looked at; then no remote is `SetRemoteRepository` and an untracked name
   * is `FileDoesNotExists`; none of them changes anything.
   */
  lemma CheckOrder(w: World, env: Env, name: string)
    ensures !env.online ==> Spec(w, env, name) == Stop(w, Usage(NoInternetConnection))
    ensures env.online && ResolveMirror(w, env).Ok? ==>
      && (!RemoteConfigured(w) ==> Spec(w, env, name) == Stop(w, Usage(SetRemoteRepository)))
      && (RemoteConfigured(w) && Key(name) !in w.mirror.value ==> Spec(w, env, name) == Stop(w, Usage(FileDoesNotExists)))
  {
  }

  /**
   * Only the named mirror entry and the trace can change: the entry can only
   * disappear, every other entry stays, the current directory and
   * `remote.txt` stay, and a failed removal (`RemoveFile`) or a usage error
   * changes nothing and starts no git process.
   */
  lemma Frame(w: World, env: Env, name: string)
    ensures var o := Spec(w, env, name);
      && o.after.cwd == w.cwd && o.after.marker == w.marker && o.after.rootExists == w.rootExists
      && w.trace <= o.after.trace
      && (o.after.mirror == w.mirror
          || (w.mirror.Some? && Key(name) in w.mirror.value && o.after.mirror == Some(w.mirror.value - {Key(name)})))
      && (o.result.Err? && (o.result.error.Usage? || o.result.error.execution.RemoveFile?) ==> o.after == w)
  {
  }

  /**
   * On success the name is gone from the mirror, every other entry is
   * untouched, and exactly the four spawns of a commit "Remove <name>"
   * were started.
   */
  lemma Succeeds(w: World, env: Env, name: string)
    requires Spec(w, env, name).result.Ok?
    ensures var o := Spec(w, env, name);
      && w.mirror.Some? && o.after.mirror.Some?
      && !FileExists(o.after.mirror.value, name)
      && (forall k :: k != Key(name) ==> (k in o.after.mirror.value <==> k in w.mirror.value))
      && (forall k :: k in o.after.mirror.value ==> o.after.mirror.value[k] == w.mirror.value[k])
      && o.after.trace == w.trace + CommitCalls(ResolveMirror(w, env).value, Message(name))
  {
    CommitPlanRun(ResolveMirror(w, env).value, Message(name), env.git);
  }
}
