/**
 * `dfm update <name>` (src/commands/update.rs): replaces the mirror's copy of
 * a tracked file with the current directory's copy when the two differ, and
 * publishes it with a commit "Update <name>".
 */
module Update {
  import opened Wrappers
  import opened Utf8
  import opened Errors
  import opened Git
  import opened State
  import opened Utils

  const Success := "Successfully updated the file and synchronized the local repository with the remote repository"
  const ComparingFiles := "check if files are equal"

  function Message(name: string): string
  {
    "Update " + name
  }

  /**
   * The byte loop of `check_if_files_are_equal`: different lengths answer
   * false before any byte is read; otherwise bytes are read in pairs and the
   * first differing pair answers false. `compared` is the number of pairs
   * read: none on the length path, up to and including the first difference
   * otherwise.
   */
  method FilesEqual(a: Bytes, b: Bytes) returns (equal: bool, compared: nat)
    ensures equal <==> a == b
    ensures |a| != |b| ==> compared == 0
    ensures |a| == |b| && equal ==> compared == |a|
    ensures |a| == |b| && !equal ==>
      && 1 <= compared <= |a|
      && a[..compared - 1] == b[..compared - 1]
      && a[compared - 1] != b[compared - 1]
  {
    if |a| != |b| {
      return false, 0;
    }
    compared := 0;
    while compared < |a|
      invariant compared <= |a|
      invariant a[..compared] == b[..compared]
    {
      if a[compared] != b[compared] {
        return false, compared + 1;
      }
      compared := compared + 1;
    }
    assert a == a[..compared] && b == b[..compared];
    return true, compared;
  }

  /** `metadata().len()` of an entry. */
  function Length(env: Env, e: Entry): nat
  {
    if e.File? then |e.bytes| else env.dirLength
  }

  /**
   * `check_if_files_are_equal` on two entries, with Unix file semantics:
   * opening a directory succeeds and reading it fails. Different lengths
   * answer false before anything is read. With equal lengths the two byte
   * streams are zipped, `mine` first: reading a directory fails, unless the
   * stream beside it is an empty file, which ends the zip with true.
   */
  function Compare(env: Env, mine: Entry, tracked: Entry): (r: Result<bool, string>)
    ensures r.Ok? && mine.File? && tracked.File? ==> (r.value <==> mine == tracked)
    ensures CompareFiles !in env.faults && Length(env, mine) != Length(env, tracked) ==> r == Ok(false)
    ensures r == Ok(true) ==> Length(env, mine) == Length(env, tracked)
    ensures r.Ok? && (mine.Dir? || tracked.Dir?) ==> r.value ==> env.dirLength == 0
  {
    if CompareFiles in env.faults then Err(env.faults[CompareFiles])
    else if Length(env, mine) != Length(env, tracked) then Ok(false)
    else if mine.Dir? && tracked.Dir? then Err(IsADirectory)
    else if mine.Dir? then (if tracked.bytes == [] then Ok(true) else Err(IsADirectory))
    else if tracked.Dir? then (if mine.bytes == [] then Ok(true) else Err(IsADirectory))
    else Ok(mine.bytes == tracked.bytes)
  }

  method CompareEntries(env: Env, mine: Entry, tracked: Entry) returns (r: Result<bool, string>)
    ensures r == Compare(env, mine, tracked)
  {
    if CompareFiles in env.faults {
      return Err(env.faults[CompareFiles]);
    }
    if Length(env, mine) != Length(env, tracked) {
      return Ok(false);
    }
    if mine.Dir? || tracked.Dir? {
      if (mine.File? && mine.bytes == []) || (tracked.File? && tracked.bytes == []) {
        return Ok(true);
      }
      return Err(IsADirectory);
    }
    var equal, _ := FilesEqual(mine.bytes, tracked.bytes);
    return Ok(equal);
  }

  /** What `Update::execute` does to `w`. */
  function Spec(w: World, env: Env, name: string): Outcome
  {
    match ResolveMirror(w, env)
    case Err(err) => Stop(w, err)
    case Ok(dir) =>
      if !RemoteConfigured(w) then Stop(w, Usage(SetRemoteRepository))
      else if CurrentDir in env.faults then Stop(w, Execution(GetCurrentDir(env.faults[CurrentDir])))
      else if !FileExists(w.cwd, name) then Stop(w, Usage(FileDoesNotExists))
      else if !FileExists(w.mirror.value, name) then Stop(w, Usage(FileNotAdded))
      else match Compare(env, w.cwd[Key(name)], w.mirror.value[Key(name)])
        case Err(msg) => Stop(w, Execution(Unknown(msg, ComparingFiles)))
        case Ok(true) => Stop(w, Usage(NothingToUpdate))
        case Ok(false) =>
          match CopyFault(env, CopyIn, w.cwd[Key(name)], Some(w.mirror.value[Key(name)]))
          case Some(msg) => Stop(w, Execution(CopyFile(msg)))
          case None =>
            var copied := w.(mirror := Some(w.mirror.value[Key(name) := w.cwd[Key(name)]]));
            RunPlan(copied, env, CommitPlan(dir, Message(name)), Success)
  }

  method Execute(h: Host, env: Env, name: string) returns (r: Result<string, CommandError>)
    modifies h
    ensures Outcome(h.Snapshot(), r) == Spec(old(h.Snapshot()), env, name)
  {
    var resolved := ResolveMirror(h.Snapshot(), env);
    if resolved.Err? {
      return Err(resolved.error);
    }
    var dir := resolved.value;
    if h.marker.None? {
      return Err(Usage(SetRemoteRepository));
    }
    if CurrentDir in env.faults {
      return Err(Execution(GetCurrentDir(env.faults[CurrentDir])));
    }
    var key := Key(name);
    if key !in h.cwd {
      return Err(Usage(FileDoesNotExists));
    }
    if key !in h.mirror.value {
      return Err(Usage(FileNotAdded));
    }
    var same := CompareEntries(env, h.cwd[key], h.mirror.value[key]);
    if same.Err? {
      return Err(Execution(Unknown(same.error, ComparingFiles)));
    }
    if same.value {
      return Err(Usage(NothingToUpdate));
    }
    var failed := CopyFault(env, CopyIn, h.cwd[key], Some(h.mirror.value[key]));
    if failed.Some? {
      return Err(Execution(CopyFile(failed.value)));
    }
    h.mirror := Some(h.mirror.value[key := h.cwd[key]]);
    r := ExecutePlan(h, env, CommitPlan(dir, Message(name)), Success);
  }

  /**
   * The checks come in a fixed order: no remote is `SetRemoteRepository`;
   * then a name missing from the current directory is `FileDoesNotExists`;
   * then one missing from the mirror is `FileNotAdded`; each changes nothing.
   */
  lemma CheckOrder(w: World, env: Env, name: string)
    requires ResolveMirror(w, env).Ok?
    ensures !RemoteConfigured(w) ==> Spec(w, env, name) == Stop(w, Usage(SetRemoteRepository))
    ensures RemoteConfigured(w) && CurrentDir !in env.faults ==>
      && (Key(name) !in w.cwd ==> Spec(w, env, name) == Stop(w, Usage(FileDoesNotExists)))
      && (Key(name) in w.cwd && Key(name) !in w.mirror.value ==> Spec(w, env, name) == Stop(w, Usage(FileNotAdded)))
  {
  }

  /**
   * Two identical regular files give `NothingToUpdate`: nothing is copied
   * and no git process is started.
   */
  lemma IdenticalIsNothingToUpdate(w: World, env: Env, name: string)
    requires ResolveMirror(w, env).Ok? && RemoteConfigured(w)
    requires CurrentDir !in env.faults && CompareFiles !in env.faults
    requires Key(name) in w.cwd && w.cwd[Key(name)].File?
    requires Key(name) in w.mirror.value && w.mirror.value[Key(name)] == w.cwd[Key(name)]
    ensures Spec(w, env, name) == Stop(w, Usage(NothingToUpdate))
  {
  }

  /**
   * Only the named mirror entry and the trace can change: the current
   * directory, `remote.txt` and the other mirror entries stay; the named
   * entry can only become the current directory's copy, and only when it
   * was tracked and differed from it; a failed copy (`CopyFile`) and every
   * usage error change nothing.
   */
  lemma Frame(w: World, env: Env, name: string)
    ensures var o := Spec(w, env, name);
      && o.after.cwd == w.cwd && o.after.marker == w.marker && o.after.rootExists == w.rootExists
      && w.trace <= o.after.trace
      && (o.after.mirror == w.mirror
          || (&& w.mirror.Some? && Key(name) in w.mirror.value && Key(name) in w.cwd
              && w.cwd[Key(name)].File? && w.mirror.value[Key(name)].File?
              && w.mirror.value[Key(name)] != w.cwd[Key(name)]
              && o.after.mirror == Some(w.mirror.value[Key(name) := w.cwd[Key(name)]])))
      && (o.result.Err? && (o.result.error.Usage? || o.result.error.execution.CopyFile?) ==> o.after == w)
  {
  }

  /**
   * On success the mirror's copy equals the current directory's copy, the
   * entry was tracked and different before, and exactly the four spawns
   * of a commit "Update <name>" were started.
   */
  lemma Succeeds(w: World, env: Env, name: string)
    requires Spec(w, env, name).result.Ok?
    ensures var o := Spec(w, env, name);
      && w.mirror.Some? && Key(name) in w.mirror.value && Key(name) in w.cwd
      && w.mirror.value[Key(name)] != w.cwd[Key(name)]
      && o.after.mirror == Some(w.mirror.value[Key(name) := w.cwd[Key(name)]])
      && o.after.trace == w.trace + CommitCalls(ResolveMirror(w, env).value, Message(name))
      && o.result.value == Success
  {
    CommitPlanRun(ResolveMirror(w, env).value, Message(name), env.git);
  }

  /**
   * Once an update has copied the file, updating again in the same
   * circumstances finds nothing to update.
   */
  lemma SecondUpdateIsNothingToUpdate(w: World, env: Env, name: string)
    requires Spec(w, env, name).after.mirror != w.mirror
    ensures var w' := Spec(w, env, name).after;
      Spec(w', env, name) == Stop(w', Usage(NothingToUpdate))
  {
    var w' := Spec(w, env, name).after;
    assert ResolveMirror(w', env) == ResolveMirror(w, env);
    IdenticalIsNothingToUpdate(w', env, name);
  }

  /**
   * A directory on one side of the comparison, with a length different from
   * the other side's, compares as different, so the copy is tried and fails
   * with `CopyFile`: a directory in the current directory is not a regular
   * file, and a directory in the mirror cannot be opened for writing. With
   * equal non-zero lengths the read fails instead and the answer is
   * `Unknown`. Either way nothing changes and no process is started.
   */
  lemma DirectoryEntry(w: World, env: Env, name: string)
    requires ResolveMirror(w, env).Ok? && RemoteConfigured(w)
    requires CurrentDir !in env.faults && CompareFiles !in env.faults
    requires Key(name) in w.cwd && Key(name) in w.mirror.value
    requires w.cwd[Key(name)].Dir? || w.mirror.value[Key(name)].Dir?
    ensures var mine, tracked := w.cwd[Key(name)], w.mirror.value[Key(name)];
      Length(env, mine) != Length(env, tracked) ==>
        Spec(w, env, name) == Stop(w, Execution(CopyFile(if mine.Dir? then NotARegularFile else IsADirectory)))
    ensures env.dirLength != 0 && Length(env, w.cwd[Key(name)]) == Length(env, w.mirror.value[Key(name)]) ==>
      Spec(w, env, name) == Stop(w, Execution(Unknown(IsADirectory, ComparingFiles)))
  {
  }
}
