/**
 * The git plan executor of src/git.rs: a builder that records which of six
 * git subprocesses to run, and `run`, which spawns them one after another in
 * a fixed order, waits for each, and stops at the first step that cannot be
 * spawned or waited for.
 *
 * Subprocesses are not run here. Each step the executor tries to spawn is
 * appended to a trace of invocations (working directory and argument vector
 * of `git`), whether or not the spawn succeeds, and a map says what happens
 * to it: it fails to spawn, fails to be waited for, or exits with some status
 * (a missing step exits with 0).
 */
module Git {
  import opened Wrappers
  import opened Errors

  datatype GitStep = Init | RemoteAdd | Pull | AddAll | Commit | Push

  /** What happens to one git subprocess that the executor tries to start. */
  datatype StepOutcome = SpawnError(err: string) | WaitError(err: string) | Exited(code: int)

  /** One attempt to spawn `git`: the directory it is to run in and its arguments. */
  datatype Invocation = Invocation(dir: string, args: seq<string>)

  /** `ExecuterBuilder` (also imported as `GitCommandExecuterBuilder`). */
  datatype Builder = Builder(
    dir: string, commitMessage: string, remoteLink: string,
    runInit: bool, runRemoteAdd: bool, runPull: bool, runCommit: bool)

  /** `Executer`: the frozen plan. */
  datatype Executer = Executer(
    dir: string, commitMessage: string, remoteLink: string,
    runInit: bool, runRemoteAdd: bool, runPull: bool, runCommit: bool)

  function New(dir: string): Builder
  {
    Builder(dir, "", "", false, false, false, false)
  }

  function RunInit(b: Builder): Builder
  {
    b.(runInit := true)
  }

  function RunCommit(b: Builder, message: string): Builder
  {
    b.(runCommit := true, commitMessage := message)
  }

  function RunPull(b: Builder): Builder
  {
    b.(runPull := true)
  }

  function RunRemoteAdd(b: Builder, link: string): Builder
  {
    b.(runRemoteAdd := true, remoteLink := link)
  }

  function Build(b: Builder): Executer
  {
    Executer(b.dir, b.commitMessage, b.remoteLink, b.runInit, b.runRemoteAdd, b.runPull, b.runCommit)
  }

  /** One call of a builder setter. */
  datatype Setter = SetInit | SetCommit(message: string) | SetPull | SetRemoteAdd(link: string)

  function Set(b: Builder, call: Setter): Builder
  {
    match call
    case SetInit => RunInit(b)
    case SetCommit(m) => RunCommit(b, m)
    case SetPull => RunPull(b)
    case SetRemoteAdd(l) => RunRemoteAdd(b, l)
  }

  /** The builder after the setter calls `calls`, made left to right. */
  function Chain(b: Builder, calls: seq<Setter>): Builder
    decreases |calls|
  {
    if calls == [] then b else Set(Chain(b, calls[..|calls| - 1]), calls[|calls| - 1])
  }

  function LastCommitMessage(calls: seq<Setter>): string
    decreases |calls|
  {
    if calls == [] then ""
    else if calls[|calls| - 1].SetCommit? then calls[|calls| - 1].message
    else LastCommitMessage(calls[..|calls| - 1])
  }

  function LastRemoteLink(calls: seq<Setter>): string
    decreases |calls|
  {
    if calls == [] then ""
    else if calls[|calls| - 1].SetRemoteAdd? then calls[|calls| - 1].link
    else LastRemoteLink(calls[..|calls| - 1])
  }

  /** A chain from `new` keeps the directory; init and pull are on exactly when their setters were called. */
  lemma {:induction false} ChainFlags(dir: string, calls: seq<Setter>)
    ensures var b := Chain(New(dir), calls);
      && b.dir == dir
      && (b.runInit <==> SetInit in calls)
      && (b.runPull <==> SetPull in calls)
    decreases |calls|
  {
    if calls != [] {
      var init, last := calls[..|calls| - 1], calls[|calls| - 1];
      ChainFlags(dir, init);
      assert calls == init + [last];
    }
  }

  /** Commit is on exactly when `run_commit` was called. */
  lemma {:induction false} ChainCommitFlag(dir: string, calls: seq<Setter>)
    ensures Chain(New(dir), calls).runCommit <==> exists i :: 0 <= i < |calls| && calls[i].SetCommit?
    decreases |calls|
  {
    if calls != [] {
      var init := calls[..|calls| - 1];
      ChainCommitFlag(dir, init);
      assert forall i :: 0 <= i < |init| ==> init[i] == calls[i];
    }
  }

  /** Remote add is on exactly when `run_remote_add` was called. */
  lemma {:induction false} ChainRemoteFlag(dir: string, calls: seq<Setter>)
    ensures Chain(New(dir), calls).runRemoteAdd <==> exists i :: 0 <= i < |calls| && calls[i].SetRemoteAdd?
    decreases |calls|
  {
    if calls != [] {
      var init := calls[..|calls| - 1];
      ChainRemoteFlag(dir, init);
      assert forall i :: 0 <= i < |init| ==> init[i] == calls[i];
    }
  }

  /** The message and the link of a chain from `new` are those of the last setter that sets them. */
  lemma {:induction false} ChainStrings(dir: string, calls: seq<Setter>)
    ensures var b := Chain(New(dir), calls);
      && b.commitMessage == LastCommitMessage(calls)
      && b.remoteLink == LastRemoteLink(calls)
    decreases |calls|
  {
    if calls != [] {
      ChainStrings(dir, calls[..|calls| - 1]);
    }
  }

  /**
   * Whatever chain of setters builds a plan: `new` starts with every flag
   * off and both strings empty, each setter turns on only its own flag, the
   * message and the link are those of the last `run_commit` and
   * `run_remote_add`, and `build` copies all of it unchanged.
   */
  lemma BuiltPlanReflectsCalls(dir: string, calls: seq<Setter>)
    ensures var e := Build(Chain(New(dir), calls));
      && e.dir == dir
      && (e.runInit <==> SetInit in calls)
      && (e.runPull <==> SetPull in calls)
      && (e.runCommit <==> exists i :: 0 <= i < |calls| && calls[i].SetCommit?)
      && (e.runRemoteAdd <==> exists i :: 0 <= i < |calls| && calls[i].SetRemoteAdd?)
      && e.commitMessage == LastCommitMessage(calls)
      && e.remoteLink == LastRemoteLink(calls)
  {
    ChainFlags(dir, calls);
    ChainCommitFlag(dir, calls);
    ChainRemoteFlag(dir, calls);
    ChainStrings(dir, calls);
  }

  /** Position of a step in the fixed order of `run`. */
  function Rank(s: GitStep): nat
  {
    match s
    case Init => 0
    case RemoteAdd => 1
    case Pull => 2
    case AddAll => 3
    case Commit => 4
    case Push => 5
  }

  function When(wanted: bool, s: GitStep): seq<GitStep>
  {
    if wanted then [s] else []
  }

  /** The steps a plan asks for, in the order `run` takes them. */
  function Requested(e: Executer): seq<GitStep>
  {
    When(e.runInit, Init)
    + (When(e.runRemoteAdd, RemoteAdd)
       + (When(e.runPull || e.runCommit, Pull)
          + (if e.runCommit then [AddAll, Commit, Push] else [])))
  }

  predicate InRankOrder(steps: seq<GitStep>)
  {
    forall i, j :: 0 <= i < j < |steps| ==> Rank(steps[i]) < Rank(steps[j])
  }

  /** Every step of `steps` comes after rank `r`. */
  predicate RanksAbove(steps: seq<GitStep>, r: int)
  {
    forall k :: 0 <= k < |steps| ==> r < Rank(steps[k])
  }

  /** Putting a step before steps of higher rank keeps the order. */
  lemma PrependInOrder(wanted: bool, s: GitStep, rest: seq<GitStep>)
    requires InRankOrder(rest) && RanksAbove(rest, Rank(s))
    ensures InRankOrder(When(wanted, s) + rest) && RanksAbove(When(wanted, s) + rest, Rank(s) - 1)
  {
    var steps := When(wanted, s) + rest;
    if wanted {
      forall i, j | 0 <= i < j < |steps|
        ensures Rank(steps[i]) < Rank(steps[j])
      {
        assert steps[j] == rest[j - 1];
        if i > 0 {
          assert steps[i] == rest[i - 1];
        }
      }
      forall k | 0 <= k < |steps|
        ensures Rank(s) - 1 < Rank(steps[k])
      {
        if k > 0 {
          assert steps[k] == rest[k - 1];
        }
      }
    } else {
      assert steps == rest;
    }
  }

  lemma PublishInOrder(commit: bool)
    ensures var publish := if commit then [AddAll, Commit, Push] else [];
      InRankOrder(publish) && RanksAbove(publish, Rank(Pull))
  {
  }

  lemma InWhen(x: GitStep, wanted: bool, s: GitStep, rest: seq<GitStep>)
    ensures x in When(wanted, s) + rest <==> (wanted && x == s) || x in rest
  {
  }

  /** The steps come in the fixed order init, remote add, pull, add, commit, push. */
  lemma RequestedInOrder(e: Executer)
    ensures InRankOrder(Requested(e))
  {
    var publish := if e.runCommit then [AddAll, Commit, Push] else [];
    var fromPull := When(e.runPull || e.runCommit, Pull) + publish;
    var fromRemote := When(e.runRemoteAdd, RemoteAdd) + fromPull;
    assert Requested(e) == When(e.runInit, Init) + fromRemote;
    PublishInOrder(e.runCommit);
    PrependInOrder(e.runPull || e.runCommit, Pull, publish);
    PrependInOrder(e.runRemoteAdd, RemoteAdd, fromPull);
    PrependInOrder(e.runInit, Init, fromRemote);
  }

  /**
   * Each step is there exactly when its flag asks for it; pull is there when
   * either pull or commit is asked for; add, commit and push only with commit.
   */
  lemma RequestedSteps(e: Executer)
    ensures Init in Requested(e) <==> e.runInit
    ensures RemoteAdd in Requested(e) <==> e.runRemoteAdd
    ensures Pull in Requested(e) <==> e.runPull || e.runCommit
    ensures AddAll in Requested(e) <==> e.runCommit
    ensures Commit in Requested(e) <==> e.runCommit
    ensures Push in Requested(e) <==> e.runCommit
  {
    var publish := if e.runCommit then [AddAll, Commit, Push] else [];
    var fromPull := When(e.runPull || e.runCommit, Pull) + publish;
    var fromRemote := When(e.runRemoteAdd, RemoteAdd) + fromPull;
    assert Requested(e) == When(e.runInit, Init) + fromRemote;
    forall x: GitStep
      ensures x in Requested(e) <==>
        (e.runInit && x == Init) || (e.runRemoteAdd && x == RemoteAdd)
        || ((e.runPull || e.runCommit) && x == Pull) || (x in publish)
    {
      InWhen(x, e.runInit, Init, fromRemote);
      InWhen(x, e.runRemoteAdd, RemoteAdd, fromPull);
      InWhen(x, e.runPull || e.runCommit, Pull, publish);
    }
  }

  /** The argument vector each step gives `git`. */
  function Args(e: Executer, s: GitStep): seq<string>
  {
    match s
    case Init => ["init"]
    case RemoteAdd => ["remote", "add", "origin", e.remoteLink]
    case Pull => ["pull", "origin", "main"]
    case AddAll => ["add", "."]
    case Commit => ["commit", "-m", e.commitMessage]
    case Push => ["push", "origin", "main"]
  }

  /** The name a spawn failure carries (`GitError::command`). */
  function SpawnName(s: GitStep): string
  {
    match s
    case Init => "init"
    case RemoteAdd => "remote add"
    case Pull => "git pull"
    case AddAll => "add"
    case Commit => "commit"
    case Push => "push"
  }

  /** The name a wait failure carries. */
  function WaitName(s: GitStep): string
  {
    match s
    case Init => "git init"
    case RemoteAdd => "git remote add"
    case Pull => "git pull"
    case AddAll => "git add"
    case Commit => "git commit"
    case Push => "git push"
  }

  function OutcomeOf(o: map<GitStep, StepOutcome>, s: GitStep): StepOutcome
  {
    if s in o then o[s] else Exited(0)
  }

  /** The error a step's outcome stops the plan with, if any. */
  function Failure(s: GitStep, outcome: StepOutcome): (r: Option<ExecutionError>)
    ensures r.None? <==> outcome.Exited?
    ensures r.Some? ==> r.value.GitCommand? || r.value.WaitingCommand?
  {
    match outcome
    case SpawnError(err) => Some(GitCommand(SpawnName(s), err))
    case WaitError(err) => Some(WaitingCommand(WaitName(s), err))
    case Exited(_) => None
  }

  /** The steps spawned, and the error that stopped them if one did. */
  datatype Issued = Issued(steps: seq<GitStep>, failure: Option<ExecutionError>)

  /**
   * Spawns `steps` in order until one fails: every step before the last one
   * spawned ran to its exit, the last one is the failing one when there is a
   * failure, and without a failure every step was spawned.
   */
  function Issue(steps: seq<GitStep>, o: map<GitStep, StepOutcome>): (r: Issued)
    ensures r.steps <= steps
    ensures forall k :: 0 <= k < |r.steps| - 1 ==> OutcomeOf(o, r.steps[k]).Exited?
    ensures r.failure.None? ==> r.steps == steps && forall k :: 0 <= k < |steps| ==> OutcomeOf(o, steps[k]).Exited?
    ensures r.failure.Some? ==>
      && |r.steps| > 0
      && r.failure == Failure(r.steps[|r.steps| - 1], OutcomeOf(o, r.steps[|r.steps| - 1]))
      && r.failure.Some?
    decreases |steps|
  {
    if steps == [] then Issued([], None)
    else match Failure(steps[0], OutcomeOf(o, steps[0]))
      case Some(err) => Issued([steps[0]], Some(err))
      case None =>
        var rest := Issue(steps[1..], o);
        Issued([steps[0]] + rest.steps, rest.failure)
  }

  function Invocations(e: Executer, steps: seq<GitStep>): (r: seq<Invocation>)
    ensures |r| == |steps|
    ensures forall k :: 0 <= k < |steps| ==> r[k] == Invocation(e.dir, Args(e, steps[k]))
    decreases |steps|
  {
    if steps == [] then [] else [Invocation(e.dir, Args(e, steps[0]))] + Invocations(e, steps[1..])
  }

  /** The spawns a run attempts, and what it returns. */
  datatype Effect = Effect(calls: seq<Invocation>, result: Result<(), ExecutionError>)

  /** One block of `run` that spawns `s`, followed by the rest of the run. */
  function Stage(s: GitStep, e: Executer, o: map<GitStep, StepOutcome>, next: Effect): Effect
  {
    match Failure(s, OutcomeOf(o, s))
    case Some(err) => Effect([Invocation(e.dir, Args(e, s))], Err(err))
    case None => Effect([Invocation(e.dir, Args(e, s))] + next.calls, next.result)
  }

  /** What running the steps `steps` one after another does. */
  function RunOf(e: Executer, steps: seq<GitStep>, o: map<GitStep, StepOutcome>): (r: Effect)
    ensures |r.calls| <= |steps|
    ensures r.result.Err? ==> r.result.error.GitCommand? || r.result.error.WaitingCommand?
    decreases |steps|
  {
    if steps == [] then Effect([], Ok(())) else Stage(steps[0], e, o, RunOf(e, steps[1..], o))
  }

  /** What `Executer::run` does with the plan `e`. */
  function RunSpec(e: Executer, o: map<GitStep, StepOutcome>): Effect
  {
    RunOf(e, Requested(e), o)
  }

  /**
   * The run agrees with `Issue`: it attempts one `git` spawn per issued step,
   * in order, with that step's arguments in the plan's directory, and it fails
   * exactly with the error of the step that stopped it.
   */
  lemma {:induction false} RunIssues(e: Executer, steps: seq<GitStep>, o: map<GitStep, StepOutcome>)
    ensures RunOf(e, steps, o).calls == Invocations(e, Issue(steps, o).steps)
    ensures RunOf(e, steps, o).result.Ok? <==> Issue(steps, o).failure.None?
    ensures RunOf(e, steps, o).result.Err? ==> Issue(steps, o).failure == Some(RunOf(e, steps, o).result.error)
    decreases |steps|
  {
    if steps != [] {
      RunIssues(e, steps[1..], o);
      var rest := Issue(steps[1..], o);
      if Failure(steps[0], OutcomeOf(o, steps[0])).None? {
        assert Invocations(e, [steps[0]] + rest.steps)
          == [Invocation(e.dir, Args(e, steps[0]))] + Invocations(e, rest.steps);
      }
    }
  }

  lemma RunOfWhen(e: Executer, o: map<GitStep, StepOutcome>, wanted: bool, s: GitStep, rest: seq<GitStep>)
    ensures RunOf(e, When(wanted, s) + rest, o)
      == if wanted then Stage(s, e, o, RunOf(e, rest, o)) else RunOf(e, rest, o)
  {
    var steps := When(wanted, s) + rest;
    if wanted {
      assert steps[0] == s && steps[1..] == rest;
    } else {
      assert steps == rest;
    }
  }

  /**
   * Spawns one step and waits for it: the spawn attempt is recorded, a spawn
   * error is the `?` on the spawn, a wait error is returned as
   * `WaitingCommand`, and the exit status is not looked at.
   */
  method Spawn(e: Executer, s: GitStep, o: map<GitStep, StepOutcome>, trace: seq<Invocation>)
    returns (trace': seq<Invocation>, failure: Option<ExecutionError>)
    ensures trace' == trace + [Invocation(e.dir, Args(e, s))]
    ensures failure == Failure(s, OutcomeOf(o, s))
  {
    trace' := trace + [Invocation(e.dir, Args(e, s))];
    failure := Failure(s, OutcomeOf(o, s));
  }

  /** Invocations of a prefix of the steps are a prefix of their invocations. */
  lemma InvocationsPrefix(e: Executer, p: seq<GitStep>, steps: seq<GitStep>)
    requires p <= steps
    ensures Invocations(e, p) <= Invocations(e, steps)
  {
    var a, b := Invocations(e, p), Invocations(e, steps);
    assert a == b[..|a|];
  }

  /**
   * A run of `steps` starts the invocations of a prefix of them, and every
   * step before the last one started exited.
   */
  lemma RunPrefix(e: Executer, steps: seq<GitStep>, o: map<GitStep, StepOutcome>)
    ensures RunOf(e, steps, o).calls <= Invocations(e, steps)
    ensures forall k :: 0 <= k < |RunOf(e, steps, o).calls| - 1 ==> OutcomeOf(o, steps[k]).Exited?
  {
    var issued := Issue(steps, o);
    RunIssues(e, steps, o);
    InvocationsPrefix(e, issued.steps, steps);
    assert forall k :: 0 <= k < |issued.steps| ==> issued.steps[k] == steps[k];
  }

  /**
   * A run of `steps` succeeds exactly when it started all of them and each
   * exited; otherwise it fails with the error of the last one it started.
   */
  lemma RunVerdict(e: Executer, steps: seq<GitStep>, o: map<GitStep, StepOutcome>)
    ensures RunOf(e, steps, o).result.Ok? <==>
      && RunOf(e, steps, o).calls == Invocations(e, steps)
      && forall k :: 0 <= k < |steps| ==> OutcomeOf(o, steps[k]).Exited?
    ensures RunOf(e, steps, o).result.Err? ==> var n := |RunOf(e, steps, o).calls|;
      && n > 0
      && Some(RunOf(e, steps, o).result.error) == Failure(steps[n - 1], OutcomeOf(o, steps[n - 1]))
  {
    var issued := Issue(steps, o);
    RunIssues(e, steps, o);
    var n := |issued.steps|;
    assert forall k :: 0 <= k < n ==> issued.steps[k] == steps[k];
    if issued.failure.Some? {
      var last := steps[n - 1];
      assert Failure(last, OutcomeOf(o, last)).Some?;
      if RunOf(e, steps, o).calls == Invocations(e, steps) {
        assert n == |steps|;
      }
    }
  }

  /**
   * What any run does: it starts a prefix of the requested steps, in order;
   * every step before the last one started exited (with whatever status);
   * it succeeds exactly when it started every requested step and each of them
   * exited; and it fails with the error of the last step it started.
   */
  lemma RunShape(e: Executer, o: map<GitStep, StepOutcome>)
    ensures RunSpec(e, o).calls <= Invocations(e, Requested(e))
    ensures var n := |RunSpec(e, o).calls|;
      forall k :: 0 <= k < n - 1 ==> OutcomeOf(o, Requested(e)[k]).Exited?
    ensures RunSpec(e, o).result.Ok? <==>
      && RunSpec(e, o).calls == Invocations(e, Requested(e))
      && forall k :: 0 <= k < |Requested(e)| ==> OutcomeOf(o, Requested(e)[k]).Exited?
    ensures RunSpec(e, o).result.Err? ==> var n := |RunSpec(e, o).calls|;
      && n > 0
      && Some(RunSpec(e, o).result.error) == Failure(Requested(e)[n - 1], OutcomeOf(o, Requested(e)[n - 1]))
  {
    RunPrefix(e, Requested(e), o);
    RunVerdict(e, Requested(e), o);
  }

  /** Every spawn a run attempts is in the plan's directory. */
  lemma RunInDir(e: Executer, o: map<GitStep, StepOutcome>)
    ensures forall c :: c in RunSpec(e, o).calls ==> c.dir == e.dir
  {
    var calls := RunSpec(e, o).calls;
    var all := Invocations(e, Requested(e));
    RunPrefix(e, Requested(e), o);
    forall c | c in calls
      ensures c.dir == e.dir
    {
      var k :| 0 <= k < |calls| && calls[k] == c;
      assert c == all[k];
    }
  }

  /** `new(dir).run_commit(message).build()`. */
  function CommitPlan(dir: string, message: string): Executer
  {
    Build(RunCommit(New(dir), message))
  }

  /** `new(dir).run_pull().build()`. */
  function PullPlan(dir: string): Executer
  {
    Build(RunPull(New(dir)))
  }

  /** `new(dir).run_remote_add(link).run_pull().build()`. */
  function RemotePlan(dir: string, link: string): Executer
  {
    Build(RunPull(RunRemoteAdd(New(dir), link)))
  }

  /** The four spawns a fully successful commit plan makes in `dir`. */
  function CommitCalls(dir: string, message: string): seq<Invocation>
  {
    [Invocation(dir, ["pull", "origin", "main"]), Invocation(dir, ["add", "."]),
     Invocation(dir, ["commit", "-m", message]), Invocation(dir, ["push", "origin", "main"])]
  }

  /** A commit plan requests pull, add, commit and push, and its first step is started whatever happens. */
  lemma CommitPlanSteps(dir: string, message: string)
    ensures Requested(CommitPlan(dir, message)) == [Pull, AddAll, Commit, Push]
    ensures Invocations(CommitPlan(dir, message), [Pull, AddAll, Commit, Push]) == CommitCalls(dir, message)
    ensures forall o :: RunOf(CommitPlan(dir, message), [Pull, AddAll, Commit, Push], o).calls != []
  {
    var e := CommitPlan(dir, message);
    var steps := [Pull, AddAll, Commit, Push];
    assert steps[1..] == [AddAll, Commit, Push];
    forall o
      ensures RunOf(e, steps, o).calls != []
    {
      assert RunOf(e, steps, o) == Stage(Pull, e, o, RunOf(e, [AddAll, Commit, Push], o));
    }
  }

  /**
   * A commit plan pulls first, then adds everything, commits with exactly the
   * given message and pushes, stopping at the first failure: it always
   * starts the pull, and it succeeds only after starting all four.
   */
  lemma CommitPlanRun(dir: string, message: string, o: map<GitStep, StepOutcome>)
    ensures var run := RunSpec(CommitPlan(dir, message), o);
      && 1 <= |run.calls| <= 4
      && run.calls == CommitCalls(dir, message)[..|run.calls|]
      && (run.result.Ok? ==> run.calls == CommitCalls(dir, message))
  {
    var e := CommitPlan(dir, message);
    CommitPlanSteps(dir, message);
    RunPrefix(e, Requested(e), o);
    RunVerdict(e, Requested(e), o);
  }

  /** A pull plan attempts exactly one spawn, `git pull origin main`, and fails only with its error. */
  lemma PullPlanRun(dir: string, o: map<GitStep, StepOutcome>)
    ensures RunSpec(PullPlan(dir), o).calls == [Invocation(dir, ["pull", "origin", "main"])]
    ensures RunSpec(PullPlan(dir), o).result.Err? <==> Failure(Pull, OutcomeOf(o, Pull)).Some?
    ensures RunSpec(PullPlan(dir), o).result.Err? ==>
      Some(RunSpec(PullPlan(dir), o).result.error) == Failure(Pull, OutcomeOf(o, Pull))
  {
    var e := PullPlan(dir);
    assert Requested(e) == [Pull] && [Pull][1..] == [];
    assert RunSpec(e, o) == Stage(Pull, e, o, RunOf(e, [], o));
  }

  /**
   * A remote plan adds `origin` with exactly the given link and then pulls;
   * it never adds, commits or pushes, and the pull is started only when the
   * remote add went through.
   */
  lemma RemotePlanRun(dir: string, link: string, o: map<GitStep, StepOutcome>)
    ensures var run := RunSpec(RemotePlan(dir, link), o);
      && run.calls[0] == Invocation(dir, ["remote", "add", "origin", link])
      && (Failure(RemoteAdd, OutcomeOf(o, RemoteAdd)).Some? ==>
            run.calls == [run.calls[0]] && Some(run.result.error) == Failure(RemoteAdd, OutcomeOf(o, RemoteAdd)))
      && (Failure(RemoteAdd, OutcomeOf(o, RemoteAdd)).None? ==>
            run.calls == [run.calls[0], Invocation(dir, ["pull", "origin", "main"])]
            && (run.result.Ok? <==> Failure(Pull, OutcomeOf(o, Pull)).None?))
  {
    var e := RemotePlan(dir, link);
    assert Requested(e) == [RemoteAdd, Pull];
    assert [RemoteAdd, Pull][1..] == [Pull];
    assert RunSpec(e, o) == Stage(RemoteAdd, e, o, RunOf(e, [Pull], o));
    assert [Pull][1..] == [];
    assert RunOf(e, [Pull], o) == Stage(Pull, e, o, RunOf(e, [], o));
  }

  /** Different steps give `git` different arguments. */
  lemma ArgsDistinct(e: Executer, s: GitStep, t: GitStep)
    requires s != t
    ensures Args(e, s) != Args(e, t)
  {
  }

  /** A run never attempts a spawn with the arguments of a step it was not given. */
  lemma {:induction false} RunAvoids(e: Executer, steps: seq<GitStep>, o: map<GitStep, StepOutcome>, x: GitStep)
    requires x !in steps
    ensures forall c :: c in RunOf(e, steps, o).calls ==> c.args != Args(e, x)
    decreases |steps|
  {
    if steps != [] {
      RunAvoids(e, steps[1..], o, x);
      ArgsDistinct(e, steps[0], x);
    }
  }

  /** Without the commit flag, no run starts add, commit or push. */
  lemma NoCommitNoPublish(e: Executer, o: map<GitStep, StepOutcome>)
    requires !e.runCommit
    ensures forall c :: c in RunSpec(e, o).calls ==>
      c.args != Args(e, AddAll) && c.args != Args(e, Commit) && c.args != Args(e, Push)
  {
    RequestedSteps(e);
    RunAvoids(e, Requested(e), o, AddAll);
    RunAvoids(e, Requested(e), o, Commit);
    RunAvoids(e, Requested(e), o, Push);
  }

  /** Runs over oracles that fail the same steps in the same way are the same run. */
  lemma {:induction false} SameFailuresSameRun(e: Executer, steps: seq<GitStep>, o1: map<GitStep, StepOutcome>, o2: map<GitStep, StepOutcome>)
    requires forall s :: Failure(s, OutcomeOf(o1, s)) == Failure(s, OutcomeOf(o2, s))
    ensures RunOf(e, steps, o1) == RunOf(e, steps, o2)
    decreases |steps|
  {
    if steps != [] {
      SameFailuresSameRun(e, steps[1..], o1, o2);
      assert Failure(steps[0], OutcomeOf(o1, steps[0])) == Failure(steps[0], OutcomeOf(o2, steps[0]));
    }
  }

  /**
   * `run` never looks at exit statuses: a step that exits with any code
   * leaves the run exactly as if it had exited with 0.
   */
  lemma ExitStatusIgnored(e: Executer, o: map<GitStep, StepOutcome>, s: GitStep, code: int)
    ensures RunSpec(e, o[s := Exited(code)]) == RunSpec(e, o[s := Exited(0)])
  {
    var o1, o2 := o[s := Exited(code)], o[s := Exited(0)];
    forall t
      ensures Failure(t, OutcomeOf(o1, t)) == Failure(t, OutcomeOf(o2, t))
    {
      if t != s {
        assert OutcomeOf(o1, t) == OutcomeOf(o2, t);
      }
    }
    SameFailuresSameRun(e, Requested(e), o1, o2);
  }

  /** Spawning the first step of a stage extends the trace by that step's invocation. */
  lemma StageStep(trace: seq<Invocation>, s: GitStep, e: Executer, o: map<GitStep, StepOutcome>, next: Effect)
    ensures Failure(s, OutcomeOf(o, s)).None? ==>
      && trace + Stage(s, e, o, next).calls == (trace + [Invocation(e.dir, Args(e, s))]) + next.calls
      && Stage(s, e, o, next).result == next.result
    ensures Failure(s, OutcomeOf(o, s)).Some? ==>
      && trace + Stage(s, e, o, next).calls == trace + [Invocation(e.dir, Args(e, s))]
      && Stage(s, e, o, next).result == Err(Failure(s, OutcomeOf(o, s)).value)
  {
  }

  /**
   * One block of `run`: spawns `s` ahead of the steps `rest`. When the step
   * goes through, what is left of the run is the run of `rest`; when it
   * fails, the run ends here with its error.
   */
  method Step(s: GitStep, e: Executer, o: map<GitStep, StepOutcome>, trace: seq<Invocation>, ghost rest: seq<GitStep>)
    returns (trace': seq<Invocation>, failure: Option<ExecutionError>)
    ensures failure.None? ==>
      && trace + RunOf(e, [s] + rest, o).calls == trace' + RunOf(e, rest, o).calls
      && RunOf(e, [s] + rest, o).result == RunOf(e, rest, o).result
    ensures failure.Some? ==>
      && trace' == trace + RunOf(e, [s] + rest, o).calls
      && RunOf(e, [s] + rest, o).result == Err(failure.value)
  {
    RunOfWhen(e, o, true, s, rest);
    StageStep(trace, s, e, o, RunOf(e, rest, o));
    trace', failure := Spawn(e, s, o, trace);
  }

  /**
   * A block of `run` guarded by a flag: when the flag is off nothing is
   * spawned and the run goes on with `rest`.
   */
  method StepWhen(wanted: bool, s: GitStep, e: Executer, o: map<GitStep, StepOutcome>,
                  trace: seq<Invocation>, ghost rest: seq<GitStep>)
    returns (trace': seq<Invocation>, failure: Option<ExecutionError>)
    ensures failure.None? ==>
      && trace + RunOf(e, When(wanted, s) + rest, o).calls == trace' + RunOf(e, rest, o).calls
      && RunOf(e, When(wanted, s) + rest, o).result == RunOf(e, rest, o).result
    ensures failure.Some? ==>
      && trace' == trace + RunOf(e, When(wanted, s) + rest, o).calls
      && RunOf(e, When(wanted, s) + rest, o).result == Err(failure.value)
  {
    if wanted {
      assert When(wanted, s) + rest == [s] + rest;
      trace', failure := Step(s, e, o, trace, rest);
    } else {
      assert When(wanted, s) + rest == rest;
      trace', failure := trace, None;
    }
  }

  /** The last three blocks of `run`: add, commit and push. */
  method Publish(e: Executer, o: map<GitStep, StepOutcome>, trace: seq<Invocation>)
    returns (trace': seq<Invocation>, r: Result<(), ExecutionError>)
    ensures trace' == trace + RunOf(e, [AddAll, Commit, Push], o).calls
    ensures r == RunOf(e, [AddAll, Commit, Push], o).result
  {
    var failure: Option<ExecutionError>;
    assert [AddAll, Commit, Push] == [AddAll] + [Commit, Push];
    trace', failure := Step(AddAll, e, o, trace, [Commit, Push]);
    if failure.Some? {
      return trace', Err(failure.value);
    }
    assert [Commit, Push] == [Commit] + [Push];
    trace', failure := Step(Commit, e, o, trace', [Push]);
    if failure.Some? {
      return trace', Err(failure.value);
    }
    assert [Push] == [Push] + [];
    trace', failure := Step(Push, e, o, trace', []);
    if failure.Some? {
      return trace', Err(failure.value);
    }
    assert trace' + [] == trace';
    return trace', Ok(());
  }

  /** `Executer::run`: appends the spawns it attempts to `trace`. */
  method Run(e: Executer, o: map<GitStep, StepOutcome>, trace: seq<Invocation>)
    returns (trace': seq<Invocation>, r: Result<(), ExecutionError>)
    ensures trace' == trace + RunSpec(e, o).calls
    ensures r == RunSpec(e, o).result
  {
    // After each block, `trace'` followed by the run of the steps still to
    // take is the whole run's trace.
    ghost var publish := if e.runCommit then [AddAll, Commit, Push] else [];
    ghost var fromPull := When(e.runPull || e.runCommit, Pull) + publish;
    ghost var fromRemote := When(e.runRemoteAdd, RemoteAdd) + fromPull;
    assert Requested(e) == When(e.runInit, Init) + fromRemote;

    var failure: Option<ExecutionError>;
    trace', failure := StepWhen(e.runInit, Init, e, o, trace, fromRemote);
    if failure.Some? {
      return trace', Err(failure.value);
    }
    trace', failure := StepWhen(e.runRemoteAdd, RemoteAdd, e, o, trace', fromPull);
    if failure.Some? {
      return trace', Err(failure.value);
    }
    trace', failure := StepWhen(e.runPull || e.runCommit, Pull, e, o, trace', publish);
    if failure.Some? {
      return trace', Err(failure.value);
    }
    if !e.runCommit {
      assert trace' + [] == trace';
      return trace', Ok(());
    }
    trace', r := Publish(e, o, trace');
  }
}
