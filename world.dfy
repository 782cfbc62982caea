/**
 * The part of the machine the commands see. The storage folder
 * (`~/.config/dotfiles`, or `%APPDATA%\dotfiles`) holds the marker file
 * `remote.txt` and the git working copy `dotfiles`, called the mirror here.
 * There is also the directory the user runs `dfm` from, and the `git`
 * spawn attempts made so far.
 *
 * Everything a command cannot decide comes from an `Env`: environment
 * variables, the platform, whether the machine is online, which filesystem
 * calls fail (and with what message), what each git step does, the order in
 * which the mirror is walked, and how the "is git installed" probe ends.
 */
module State {
  import opened Wrappers
  import opened Utf8
  import opened Errors
  import opened Git

  /** A directory entry: a regular file with its contents, or a directory. */
  datatype Entry = File(bytes: Bytes) | Dir

  /** A directory's entries by name; names are OS strings, here byte strings. */
  type Folder = map<Bytes, Entry>

  /** The name under which the OS stores the file the user names `name`. */
  function Key(name: string): Bytes
  {
    Encode(name)
  }

  /**
   * The target `dfm` was built for: `Unix` is Linux and macOS, `Other` every
   * other target (Windows, but also the BSDs), which reads `APPDATA`.
   */
  datatype Platform = Unix | Other

  /** The fallible calls the commands make besides git. */
  datatype IoStep =
    | CurrentDir           // env::current_dir
    | CanonicalizeMirror   // canonicalize of the git storage folder
    | CanonicalizeRoot     // canonicalize of the storage folder
    | CopyIn               // fs::copy from the current directory into the mirror
    | CopyOut              // fs::copy from storage into the current directory
    | CompareFiles         // opening, measuring or reading the two files update compares
    | RemoveEntry          // fs::remove_file of a mirror entry
    | CreateMarker         // File::create of remote.txt
    | WriteMarker          // write_all to remote.txt
    | OpenMarker           // File::open of remote.txt
    | ReadMarker           // read_to_end of remote.txt
    | RemoveMirror         // fs::remove_dir_all of the git storage folder
    | RemoveMarker         // fs::remove_file of remote.txt
    | CreateMirror         // fs::create_dir_all of the git storage folder
    | CreateRoot           // fs::create_dir_all of the storage folder in setup

  /** One item `WalkDir` yields below the mirror: an entry's name, or an error. */
  datatype WalkItem = Visit(name: Bytes) | WalkError(msg: string)

  /** How the `git` probe of setup ends. */
  datatype ProcessStatus = LaunchFailed(err: string) | Signalled | ExitCode(code: int)

  datatype Env = Env(
    platform: Platform,
    vars: map<string, string>,
    online: bool,
    faults: map<IoStep, string>,
    git: map<GitStep, StepOutcome>,
    walk: seq<WalkItem>,
    gitCheck: ProcessStatus,
    setupCalls: seq<Setter>,
    dirLength: nat)  // what `metadata().len()` reports for a directory

  /**
   * The state commands change: whether the storage folder exists, the mirror
   * (None when the git storage folder does not exist), the contents of
   * `remote.txt` (None when it does not exist), the current directory, and
   * the git spawn attempts made so far, oldest first. A spawn that failed is
   * recorded too: the trace says what was tried, not what ran.
   */
  datatype World = World(
    rootExists: bool,
    mirror: Option<Folder>,
    marker: Option<Bytes>,
    cwd: Folder,
    trace: seq<Invocation>)

  /** What a command leaves behind and what its `execute` returns. */
  datatype Outcome = Outcome(after: World, result: Result<string, CommandError>)

  /** A command that stops with `err` before changing anything. */
  function Stop(w: World, err: CommandError): Outcome
  {
    Outcome(w, Err(err))
  }

  /**
   * Runs `plan` and reports: its spawn attempts join the trace, its error becomes
   * the command's error (`?` on `run`), and otherwise the command answers
   * `success`.
   */
  function RunPlan(w: World, env: Env, plan: Executer, success: string): Outcome
  {
    var run := RunSpec(plan, env.git);
    Outcome(w.(trace := w.trace + run.calls),
            if run.result.Ok? then Ok(success) else Err(Execution(run.result.error)))
  }

  /** The filesystem and the trace of git spawns, updated in place by the commands. */
  class Host {
    var rootExists: bool
    var mirror: Option<Folder>
    var marker: Option<Bytes>
    var cwd: Folder
    var trace: seq<Invocation>

    function Snapshot(): World
      reads this
    {
      World(rootExists, mirror, marker, cwd, trace)
    }

    constructor (w: World)
      ensures Snapshot() == w
    {
      rootExists, mirror, marker, cwd, trace := w.rootExists, w.mirror, w.marker, w.cwd, w.trace;
    }
  }

  /** Runs `plan` against the host's trace of git spawns. */
  method ExecutePlan(h: Host, env: Env, plan: Executer, success: string) returns (r: Result<string, CommandError>)
    modifies h
    ensures Outcome(h.Snapshot(), r) == RunPlan(old(h.Snapshot()), env, plan, success)
  {
    var trace, result := Run(plan, env.git, h.trace);
    h.trace := trace;
    if result.Ok? {
      r := Ok(success);
    } else {
      r := Err(Execution(result.error));
    }
  }
}
