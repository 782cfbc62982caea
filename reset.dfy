/**
 * `dfm reset` (src/commands/reset.rs): forgets the remote and every tracked
 * file. It removes the mirror, then `remote.txt`, recreates the mirror empty
 * and runs setup's git commands in it.
 *
 * `setup::execute_git_commands` is not part of this model: it is the plan
 * built in the mirror by the setter calls `env.setupCalls`.
 */
module Reset {
  import opened Wrappers
  import opened Errors
  import opened Git
  import opened State
  import opened Utils

  const Success := "Successfully reseted the dfmn to the initial state"

  /** The plan of `setup::execute_git_commands(dir)`. */
  function InitPlan(dir: string, calls: seq<Setter>): Executer
  {
    Build(Chain(New(dir), calls))
  }

  /** What `Reset::execute` does to `w`. */
  function Spec(w: World, env: Env): Outcome
  {
    if StorageFolderPath(env.platform, env.vars).None? then Stop(w, Execution(GetStorageFolderPath(VarNotPresent)))
    else match ResolveMirror(w, env)
      case Err(err) => Stop(w, err)
      case Ok(dir) =>
        if !RemoteConfigured(w) then Stop(w, Usage(SetRemoteRepository))
        else if RemoveMirror in env.faults then Stop(w, Execution(RemoveStorageFolder(env.faults[RemoveMirror])))
        else
          var cleared := w.(mirror := None);
          if RemoveMarker in env.faults then Stop(cleared, Execution(RemoveFile(env.faults[RemoveMarker])))
          else
            var unmarked := cleared.(marker := None);
            if CreateMirror in env.faults then Stop(unmarked, Execution(CreateStorageFolder(env.faults[CreateMirror])))
            else
              var created := unmarked.(mirror := Some(map[]), rootExists := true);
              RunPlan(created, env, InitPlan(dir, env.setupCalls), Success)
  }

  method Execute(h: Host, env: Env) returns (r: Result<string, CommandError>)
    modifies h
    ensures Outcome(h.Snapshot(), r) == Spec(old(h.Snapshot()), env)
  {
    if StorageFolderPath(env.platform, env.vars).None? {
      return Err(Execution(GetStorageFolderPath(VarNotPresent)));
    }
    var resolved := ResolveMirror(h.Snapshot(), env);
    if resolved.Err? {
      return Err(resolved.error);
    }
    var dir := resolved.value;
    if h.marker.None? {
      return Err(Usage(SetRemoteRepository));
    }
    if RemoveMirror in env.faults {
      return Err(Execution(RemoveStorageFolder(env.faults[RemoveMirror])));
    }
    h.mirror := None;
    if RemoveMarker in env.faults {
      return Err(Execution(RemoveFile(env.faults[RemoveMarker])));
    }
    h.marker := None;
    if CreateMirror in env.faults {
      return Err(Execution(CreateStorageFolder(env.faults[CreateMirror])));
    }
    h.mirror, h.rootExists := Some(map[]), true;
    r := ExecutePlan(h, env, InitPlan(dir, env.setupCalls), Success);
  }

  /**
   * Without a remote the state already is the initial one: the answer is
   * `SetRemoteRepository` and nothing is removed or started.
   */
  lemma NoRemoteNothingRemoved(w: World, env: Env)
    requires ResolveMirror(w, env).Ok? && !RemoteConfigured(w)
    ensures Spec(w, env) == Stop(w, Usage(SetRemoteRepository))
  {
  }

  /**
   * A successful reset leaves an empty mirror, tracking no file, and no
   * `remote.txt`, so no remote is configured; the current directory is
   * untouched and the spawns attempted are those of setup's plan in the
   * mirror.
   */
  lemma Succeeds(w: World, env: Env)
    requires Spec(w, env).result.Ok?
    ensures var o := Spec(w, env);
      && RemoteConfigured(w)
      && o.after.mirror == Some(map[])
      && (forall name :: !FileExists(o.after.mirror.value, name))
      && !RemoteConfigured(o.after)
      && o.after.cwd == w.cwd
      && o.after.trace == w.trace + RunSpec(InitPlan(ResolveMirror(w, env).value, env.setupCalls), env.git).calls
  {
  }

  /**
   * The mirror is removed before `remote.txt`: when removing the marker
   * fails, the mirror is already gone, the marker is still there, and no
   * git process is started.
   */
  lemma MarkerRemovalFails(w: World, env: Env)
    requires ResolveMirror(w, env).Ok? && RemoteConfigured(w)
    requires RemoveMirror !in env.faults && RemoveMarker in env.faults
    ensures var o := Spec(w, env);
      && o.result == Err(Execution(RemoveFile(env.faults[RemoveMarker])))
      && o.after.mirror.None?
      && o.after.marker == w.marker && RemoteConfigured(o.after)
      && o.after.trace == w.trace
  {
  }

  /**
   * Every path of reset but the last stops before git runs: a reset that
   * attempted a spawn went through to the end of `Spec`.
   */
  lemma RanToEnd(w: World, env: Env)
    requires Spec(w, env).after.trace != w.trace
    ensures ResolveMirror(w, env).Ok?
    ensures Spec(w, env) == RunPlan(w.(mirror := Some(map[]), marker := None, rootExists := true), env,
                                    InitPlan(ResolveMirror(w, env).value, env.setupCalls), Success)
  {
  }

  /**
   * Reset never touches the current directory and only appends to the
   * trace. Git runs only once the mirror has been recreated empty and the
   * marker removed, and every spawn it attempts is in the mirror.
   */
  lemma GitAfterRecreate(w: World, env: Env)
    ensures var o := Spec(w, env);
      && o.after.cwd == w.cwd
      && w.trace <= o.after.trace
      && (o.after.trace != w.trace ==>
            && o.after.mirror == Some(map[]) && o.after.marker.None?
            && ResolveMirror(w, env).Ok?
            && forall k :: |w.trace| <= k < |o.after.trace| ==> o.after.trace[k].dir == ResolveMirror(w, env).value)
  {
    var o := Spec(w, env);
    if o.after.trace != w.trace {
      RanToEnd(w, env);
      var dir := ResolveMirror(w, env).value;
      var e := InitPlan(dir, env.setupCalls);
      ChainFlags(dir, env.setupCalls);
      RunInDir(e, env.git);
      var calls := RunSpec(e, env.git).calls;
      assert o.after.trace == w.trace + calls;
      forall k | |w.trace| <= k < |o.after.trace|
        ensures o.after.trace[k].dir == dir
      {
        assert o.after.trace[k] in calls;
      }
    }
  }
}
