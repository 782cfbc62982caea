/**
 * How the commands combine: what one command leaves behind decides what the
 * next one answers.
 */
module Scenarios {
  import opened Wrappers
  import opened Errors
  import opened State
  import opened Utils
  import Add
  import Remove
  import Clone
  import Remote
  import Reset
  import List
  import opened Utf8
  import opened Git

  /** A file once added cannot be added again: the second add is `FileAlreadyAdded`. */
  lemma AddTwice(w: World, env: Env, name: string)
    requires Add.Spec(w, env, name).after.mirror != w.mirror
    ensures var w' := Add.Spec(w, env, name).after;
      Add.Spec(w', env, name) == Stop(w', Usage(FileAlreadyAdded))
  {
    var w' := Add.Spec(w, env, name).after;
    assert ResolveMirror(w', env) == ResolveMirror(w, env);
  }

  /**
   * Removing a file just added gives the mirror back as it was before the
   * add, whatever happens to the commit that follows.
   */
  lemma RemoveUndoesAdd(w: World, env: Env, name: string)
    requires Add.Spec(w, env, name).after.mirror != w.mirror
    requires env.online && RemoveEntry !in env.faults
    ensures var w' := Add.Spec(w, env, name).after;
      Remove.Spec(w', env, name).after.mirror == w.mirror
  {
    var w' := Add.Spec(w, env, name).after;
    assert ResolveMirror(w', env) == ResolveMirror(w, env);
    var m := w.mirror.value;
    assert Key(name) !in m;
    assert (m[Key(name) := w.cwd[Key(name)]]) - {Key(name)} == m;
  }

  /**
   * Cloning a file just added writes back the very bytes the current
   * directory already holds, so the current directory does not change.
   */
  lemma CloneAfterAddKeepsCwd(w: World, env: Env, name: string)
    requires Add.Spec(w, env, name).after.mirror != w.mirror
    requires CurrentDir !in env.faults && CopyOut !in env.faults
    ensures var w' := Add.Spec(w, env, name).after;
      && Clone.Spec(w', env, name).result.Ok?
      && Clone.Spec(w', env, name).after.cwd == w.cwd
  {
    var w' := Add.Spec(w, env, name).after;
    assert ResolveMirror(w', env) == ResolveMirror(w, env);
    assert w.cwd[Key(name) := w.cwd[Key(name)]] == w.cwd;
  }

  /** After a successful reset, setting a remote is no longer `AlreadyAdded`. */
  lemma SetAfterReset(w: World, env: Env, gitDir: string, link: string)
    requires Reset.Spec(w, env).result.Ok?
    ensures var w' := Reset.Spec(w, env).after;
      Remote.SetRemoteLink(w', env, gitDir, link).result != Err(Usage(AlreadyAdded))
  {
    Reset.Succeeds(w, env);
  }

  /**
   * After a successful reset the mirror is there but no remote is: adding a
   * file answers `SetRemoteRepository` until a remote is set again.
   */
  lemma AddAfterReset(w: World, env: Env, name: string)
    requires Reset.Spec(w, env).result.Ok?
    ensures var w' := Reset.Spec(w, env).after;
      Add.Spec(w', env, name) == Stop(w', Usage(SetRemoteRepository))
  {
    Reset.Succeeds(w, env);
    var w' := Reset.Spec(w, env).after;
    assert ResolveMirror(w', env) == ResolveMirror(w, env);
  }

  /**
   * Listing right after an add, over a walk of the new mirror, prints the
   * added name under some number.
   */
  lemma ListShowsAdded(w: World, env: Env, name: string)
    requires Add.Spec(w, env, name).after.mirror != w.mirror
    requires var m := Add.Spec(w, env, name).after.mirror.value;
      List.Clean(m, env.walk) && List.WalkOf(m, env.walk)
    requires Failure(Pull, OutcomeOf(env.git, Pull)).None?
    ensures var w' := Add.Spec(w, env, name).after;
      exists k :: 0 <= k < |List.Spec(w', env).printed| && List.Spec(w', env).printed[k] == List.Line(k + 1, name)
  {
    var w' := Add.Spec(w, env, name).after;
    var m := w'.mirror.value;
    assert ResolveMirror(w', env) == ResolveMirror(w, env);
    assert Key(name) in List.FileKeys(m);
    List.ListsMirror(w', env);
    List.FilesOfMirror(m, env.walk);
    var files := List.Files(m, env.walk);
    assert Key(name) in files;
    var k :| 0 <= k < |files| && files[k] == Key(name);
    DecodeEncode(name);
    List.ListsFiles(w', env);
    assert List.Spec(w', env).result.Ok?;
    assert List.Spec(w', env).printed[k] == List.Line(k + 1, name);
  }

  /**
   * Removing the only tracked file and then listing, over a walk of the
   * emptied mirror, answers `EmptyRepository`.
   */
  lemma ListEmptyAfterRemovingLast(w: World, env: Env, name: string)
    requires Remove.Spec(w, env, name).after.mirror != w.mirror
    requires w.mirror.Some? && List.FileKeys(w.mirror.value) == {Key(name)}
    requires var m := Remove.Spec(w, env, name).after.mirror.value;
      List.Clean(m, env.walk) && List.WalkOf(m, env.walk)
    requires Failure(Pull, OutcomeOf(env.git, Pull)).None?
    ensures var w' := Remove.Spec(w, env, name).after;
      List.Spec(w', env).result == Err(Usage(EmptyRepository))
  {
    var w' := Remove.Spec(w, env, name).after;
    assert ResolveMirror(w', env) == ResolveMirror(w, env);
    assert w'.mirror.value == w.mirror.value - {Key(name)};
    assert List.FileKeys(w'.mirror.value) == {};
    List.ListsMirror(w', env);
  }
}
