/**
 * `dfm clone <name>` (src/commands/clone.rs): copies a tracked file into the
 * current directory, overwriting a regular file there; a directory there
 * makes the copy fail. It starts no git process and does not look at the
 * remote.
 *
 * As written, the command looks for the file in `get_dfm_folder_path()`.
 * src/commands/reset.rs uses that folder for `remote.txt`, so it is the storage
 * folder. Its entries here are `remote.txt` and the mirror `dotfiles`; the
 * `.git` folder that setup's `git init` creates there is not part of this
 * model. The tracked files are one level down, in the mirror. `AsWritten`
 * models the lookup as written; `Spec`, used by the lemmas and scenarios
 * that do not say `AsWritten`, is the corrected lookup in the mirror.
 */
module Clone {
  import opened Wrappers
  import opened Utf8
  import opened Errors
  import opened State
  import opened Utils

  const Success := "Successfully cloned the file to your current directory"

  /** The OS names of `remote.txt` and `dotfiles`. */
  const MarkerFile: Bytes := [0x72, 0x65, 0x6D, 0x6F, 0x74, 0x65, 0x2E, 0x74, 0x78, 0x74]
  const MirrorDir: Bytes := [0x64, 0x6F, 0x74, 0x66, 0x69, 0x6C, 0x65, 0x73]

  /** An ASCII string encodes to one byte per character, its code. */
  lemma {:induction false} AsciiKey(s: string)
    requires forall i | 0 <= i < |s| :: s[i] as int < 0x80
    ensures |Key(s)| == |s| && forall i | 0 <= i < |s| :: Key(s)[i] == s[i] as int as byte
  {
    if s != [] {
      AsciiKey(s[1..]);
      assert Key(s) == [s[0] as int as byte] + Key(s[1..]);
    }
  }

  lemma MarkerName()
    ensures Key("remote.txt") == MarkerFile
  {
    AsciiKey("remote.txt");
  }

  lemma MirrorName()
    ensures Key("dotfiles") == MirrorDir
  {
    AsciiKey("dotfiles");
  }

  /** The storage folder's own entries: the marker file and the mirror directory. */
  function StorageEntries(w: World): Folder
  {
    var withMarker: Folder := if w.marker.Some? then map[MarkerFile := File(w.marker.value)] else map[];
    if w.mirror.Some? then withMarker[MirrorDir := Dir] else withMarker
  }

  lemma KeyDistinct(a: string, b: string)
    requires a != b
    ensures Key(a) != Key(b)
  {
    if Key(a) == Key(b) {
      EncodeInjective(a, b);
    }
  }

  /** Any other name is neither the marker's nor the mirror's. */
  lemma NotStorageName(name: string)
    requires name != "remote.txt" && name != "dotfiles"
    ensures Key(name) != MarkerFile && Key(name) != MirrorDir
  {
    MarkerName();
    MirrorName();
    KeyDistinct(name, "remote.txt");
    KeyDistinct(name, "dotfiles");
  }

  /** Looks `name` up in `folder` and copies it into the current directory. */
  function CopyFrom(w: World, env: Env, folder: Folder, name: string): Outcome
  {
    if !FileExists(folder, name) then Stop(w, Usage(FileDoesNotExists))
    else if CurrentDir in env.faults then Stop(w, Execution(GetCurrentDir(env.faults[CurrentDir])))
    else match CopyFault(env, CopyOut, folder[Key(name)], At(w.cwd, Key(name)))
      case Some(msg) => Stop(w, Execution(CopyFile(msg)))
      case None => Outcome(w.(cwd := w.cwd[Key(name) := folder[Key(name)]]), Ok(Success))
  }

  /** `Clone::execute` as written: the lookup is in the storage folder. */
  function AsWritten(w: World, env: Env, name: string): Outcome
  {
    match ResolveRoot(w, env)
    case Err(err) => Stop(w, err)
    case Ok(_) => CopyFrom(w, env, StorageEntries(w), name)
  }

  /** `Clone::execute` with the lookup in the mirror. */
  function Spec(w: World, env: Env, name: string): Outcome
  {
    match ResolveMirror(w, env)
    case Err(err) => Stop(w, err)
    case Ok(_) => CopyFrom(w, env, w.mirror.value, name)
  }

  method Execute(h: Host, env: Env, name: string) returns (r: Result<string, CommandError>)
    modifies h
    ensures Outcome(h.Snapshot(), r) == Spec(old(h.Snapshot()), env, name)
  {
    var resolved := ResolveMirror(h.Snapshot(), env);
    if resolved.Err? {
      return Err(resolved.error);
    }
    var key := Key(name);
    if key !in h.mirror.value {
      return Err(Usage(FileDoesNotExists));
    }
    if CurrentDir in env.faults {
      return Err(Execution(GetCurrentDir(env.faults[CurrentDir])));
    }
    var failed := CopyFault(env, CopyOut, h.mirror.value[key], At(h.cwd, key));
    if failed.Some? {
      return Err(Execution(CopyFile(failed.value)));
    }
    h.cwd := h.cwd[key := h.mirror.value[key]];
    r := Ok(Success);
  }

  /**
   * As written, clone finds no file other than `remote.txt` and `dotfiles`:
   * every other name is `FileDoesNotExists`, whatever the mirror tracks.
   */
  lemma AsWrittenMissesTrackedFiles(w: World, env: Env, name: string)
    requires ResolveRoot(w, env).Ok?
    requires name != "remote.txt" && name != "dotfiles"
    ensures AsWritten(w, env, name) == Stop(w, Usage(FileDoesNotExists))
  {
    NotStorageName(name);
    assert Key(name) !in StorageEntries(w);
  }

  /**
   * As written, `dfm clone remote.txt` copies the remote marker into the
   * current directory, unless a directory of that name is in the way.
   */
  lemma AsWrittenCopiesMarker(w: World, env: Env)
    requires ResolveRoot(w, env).Ok? && w.marker.Some?
    requires CurrentDir !in env.faults && CopyOut !in env.faults && At(w.cwd, MarkerFile) != Some(Dir)
    ensures AsWritten(w, env, "remote.txt").result.Ok?
    ensures AsWritten(w, env, "remote.txt").after.cwd[Key("remote.txt")] == File(w.marker.value)
  {
    MarkerName();
    CopiesMarker(w, env, "remote.txt");
  }

  /** As written, clone copies the marker for any name whose key is the marker's. */
  lemma CopiesMarker(w: World, env: Env, name: string)
    requires ResolveRoot(w, env).Ok? && w.marker.Some?
    requires CurrentDir !in env.faults && CopyOut !in env.faults && At(w.cwd, MarkerFile) != Some(Dir)
    requires Key(name) == MarkerFile
    ensures AsWritten(w, env, name).result.Ok?
    ensures AsWritten(w, env, name).after.cwd[Key(name)] == File(w.marker.value)
  {
    assert MarkerFile != MirrorDir;
  }

  /**
   * With the mirror tracking a file, the corrected clone copies it while the
   * one as written reports `FileDoesNotExists`.
   */
  lemma TrackedFileCloned(w: World, env: Env, name: string)
    requires ResolveMirror(w, env).Ok? && ResolveRoot(w, env).Ok?
    requires name != "remote.txt" && name != "dotfiles"
    requires Key(name) in w.mirror.value && w.mirror.value[Key(name)].File?
    requires CurrentDir !in env.faults && CopyOut !in env.faults && At(w.cwd, Key(name)) != Some(Dir)
    ensures AsWritten(w, env, name).result == Err(Usage(FileDoesNotExists))
    ensures Spec(w, env, name).result == Ok(Success)
    ensures Spec(w, env, name).after.cwd[Key(name)] == w.mirror.value[Key(name)]
  {
    AsWrittenMissesTrackedFiles(w, env, name);
  }

  /**
   * Clone changes the current directory only, and only at `name`: storage,
   * the marker and the trace stay as they are (no git process is started);
   * every failure changes nothing.
   */
  lemma Frame(w: World, env: Env, name: string)
    ensures var o := Spec(w, env, name);
      && o.after.mirror == w.mirror && o.after.marker == w.marker
      && o.after.trace == w.trace && o.after.rootExists == w.rootExists
      && (forall k :: k != Key(name) ==> (k in o.after.cwd <==> k in w.cwd))
      && (forall k :: k != Key(name) && k in w.cwd ==> o.after.cwd[k] == w.cwd[k])
      && (o.result.Err? ==> o.after == w)
  {
  }

  /**
   * An untracked name is `FileDoesNotExists`; on success the current
   * directory's entry equals the mirror's, replacing an earlier regular
   * file; a directory in the current directory under the name makes the
   * copy fail with `CopyFile` and changes nothing; a tracked regular file
   * whose copy fails gives `CopyFile`.
   */
  lemma Outcomes(w: World, env: Env, name: string)
    requires ResolveMirror(w, env).Ok?
    ensures Key(name) !in w.mirror.value ==> Spec(w, env, name) == Stop(w, Usage(FileDoesNotExists))
    ensures Spec(w, env, name).result.Ok? ==>
      && Key(name) in w.mirror.value && w.mirror.value[Key(name)].File?
      && (Key(name) in w.cwd ==> w.cwd[Key(name)].File?)
      && Spec(w, env, name).after.cwd[Key(name)] == w.mirror.value[Key(name)]
    ensures Key(name) in w.mirror.value && w.mirror.value[Key(name)].File? && CurrentDir !in env.faults
            && Key(name) in w.cwd && w.cwd[Key(name)].Dir? ==>
      Spec(w, env, name) == Stop(w, Execution(CopyFile(IsADirectory)))
    ensures Key(name) in w.mirror.value && w.mirror.value[Key(name)].File? && CurrentDir !in env.faults
            && At(w.cwd, Key(name)) != Some(Dir) && CopyOut in env.faults ==>
      Spec(w, env, name) == Stop(w, Execution(CopyFile(env.faults[CopyOut])))
  {
  }

  /** Clone does not check the remote: the marker makes no difference to it. */
  lemma NoRemoteCheck(w: World, env: Env, name: string, marker: Option<Bytes>)
    ensures Spec(w.(marker := marker), env, name).result == Spec(w, env, name).result
  {
    assert ResolveMirror(w.(marker := marker), env) == ResolveMirror(w, env);
  }

  /**
   * As written, clone changes the current directory only, and only at
   * `name`; storage, the marker and the trace stay as they are, and every
   * failure changes nothing.
   */
  lemma AsWrittenFrame(w: World, env: Env, name: string)
    ensures var o := AsWritten(w, env, name);
      && o.after.mirror == w.mirror && o.after.marker == w.marker
      && o.after.trace == w.trace && o.after.rootExists == w.rootExists
      && (forall k :: k != Key(name) ==> (k in o.after.cwd <==> k in w.cwd))
      && (forall k :: k != Key(name) && k in w.cwd ==> o.after.cwd[k] == w.cwd[k])
      && (o.result.Err? ==> o.after == w)
  {
  }

  /**
   * As written, the marker decides nothing for names other than
   * `remote.txt`; for `remote.txt` itself it decides whether the file is
   * found, although no remote check is made.
   */
  lemma AsWrittenNoRemoteCheck(w: World, env: Env, name: string, marker: Option<Bytes>)
    requires name != "remote.txt"
    ensures AsWritten(w.(marker := marker), env, name).result == AsWritten(w, env, name).result
  {
    MarkerName();
    KeyDistinct(name, "remote.txt");
    MarkerDecidesNothing(w, env, name, marker);
  }

  /** The marker decides nothing for a name whose key is not the marker's. */
  lemma MarkerDecidesNothing(w: World, env: Env, name: string, marker: Option<Bytes>)
    requires Key(name) != MarkerFile
    ensures AsWritten(w.(marker := marker), env, name).result == AsWritten(w, env, name).result
  {
    var w' := w.(marker := marker);
    assert ResolveRoot(w', env) == ResolveRoot(w, env);
    if ResolveRoot(w, env).Ok? {
      assert FileExists(StorageEntries(w'), name) <==> FileExists(StorageEntries(w), name);
      if FileExists(StorageEntries(w), name) {
        assert StorageEntries(w')[Key(name)] == StorageEntries(w)[Key(name)];
      }
    }
  }
}
