/**
 * `dfm sync` (src/commands/sync.rs): pulls the mirror from `origin`. It
 * changes no file itself; the pull is its only effect.
 */
module Sync {
  import opened Wrappers
  import opened Errors
  import opened Git
  import opened State
  import opened Utils

  const Success := "Finished the synchronization with the remote repository"

  /** What `Sync::execute` does to `w`. */
  function Spec(w: World, env: Env): Outcome
  {
    if !env.online then Stop(w, Usage(NoInternetConnection))
    else match ResolveMirror(w, env)
      case Err(err) => Stop(w, err)
      case Ok(dir) =>
        if !RemoteConfigured(w) then Stop(w, Usage(SetRemoteRepository))
        else RunPlan(w, env, PullPlan(dir), Success)
  }

  method Execute(h: Host, env: Env) returns (r: Result<string, CommandError>)
    modifies h
    ensures Outcome(h.Snapshot(), r) == Spec(old(h.Snapshot()), env)
  {
    if !env.online {
      return Err(Usage(NoInternetConnection));
    }
    var resolved := ResolveMirror(h.Snapshot(), env);
    if resolved.Err? {
      return Err(resolved.error);
    }
    if h.marker.None? {
      return Err(Usage(SetRemoteRepository));
    }
    r := ExecutePlan(h, env, PullPlan(resolved.value), Success);
  }

  /**
   * Offline, the answer is `NoInternetConnection` before anything else is
   * looked at; with the mirror found but no remote it is
   * `SetRemoteRepository`, and no git process is started.
   */
  lemma CheckOrder(w: World, env: Env)
    ensures !env.online ==> Spec(w, env) == Stop(w, Usage(NoInternetConnection))
    ensures env.online && ResolveMirror(w, env).Ok? && !RemoteConfigured(w) ==>
      Spec(w, env) == Stop(w, Usage(SetRemoteRepository))
  {
  }

  /**
   * Sync changes neither the mirror, the current directory nor `remote.txt`;
   * the only spawn it can attempt is one pull in the mirror, so it never
   * adds, commits or pushes.
   */
  lemma Frame(w: World, env: Env)
    ensures var o := Spec(w, env);
      && o.after.mirror == w.mirror && o.after.cwd == w.cwd
      && o.after.marker == w.marker && o.after.rootExists == w.rootExists
      && (o.after.trace == w.trace
          || (&& ResolveMirror(w, env).Ok?
              && o.after.trace == w.trace + [Invocation(ResolveMirror(w, env).value, ["pull", "origin", "main"])]))
  {
    if env.online && ResolveMirror(w, env).Ok? && RemoteConfigured(w) {
      PullPlanRun(ResolveMirror(w, env).value, env.git);
    }
  }

  /**
   * Online, with the mirror found and a remote set, sync starts the pull;
   * it succeeds exactly when the pull does, and otherwise answers with the
   * pull's own error.
   */
  lemma PullsOnce(w: World, env: Env)
    requires env.online && ResolveMirror(w, env).Ok? && RemoteConfigured(w)
    ensures var o := Spec(w, env);
      && o.after == w.(trace := w.trace + [Invocation(ResolveMirror(w, env).value, ["pull", "origin", "main"])])
      && (o.result == Ok(Success) <==> Failure(Pull, OutcomeOf(env.git, Pull)).None?)
      && (o.result.Err? ==> o.result == Err(Execution(Failure(Pull, OutcomeOf(env.git, Pull)).value)))
  {
    PullPlanRun(ResolveMirror(w, env).value, env.git);
  }
}
