/**
 * `dfm list` (src/commands/list.rs): pulls, then prints the files of the
 * mirror as a numbered list, in the order the directory walk yields them.
 * The walk's order and its failures come from the environment; the mirror
 * itself is the walk's first item, a directory, and is left out of it here
 * because it is skipped like every directory.
 */
module List {
  import opened Wrappers
  import opened Utf8
  import opened Errors
  import opened Git
  import opened State
  import opened Utils

  const Finished := "Finished listing your files"
  const ConvertName := "convert OsStr to &str"

  function DigitChar(d: nat): char
    requires d < 10
  {
    "0123456789"[d]
  }

  /** `format!("{n}")` of a natural number. */
  function Decimal(n: nat): (r: string)
    ensures |r| > 0
    decreases n
  {
    if n < 10 then [DigitChar(n)] else Decimal(n / 10) + [DigitChar(n % 10)]
  }

  /** The line printed for the `index`-th file. */
  function Line(index: nat, name: string): string
  {
    Decimal(index) + ". " + name
  }

  /** `Path::is_dir` of a walked entry. */
  predicate IsDirectory(mirror: Folder, name: Bytes)
  {
    name in mirror && mirror[name].Dir?
  }

  /** What the loop prints, and the error that stopped it if one did. */
  datatype Listing = Listing(printed: seq<string>, failure: Option<ExecutionError>)

  /** The walk over `items`, numbering files from `next`. */
  function Walk(mirror: Folder, items: seq<WalkItem>, next: nat): Listing
    decreases |items|
  {
    if items == [] then Listing([], None)
    else match items[0]
      case WalkError(msg) => Listing([], Some(GetDirEntry(msg)))
      case Visit(name) =>
        if IsDirectory(mirror, name) then Walk(mirror, items[1..], next)
        else match Decode(name)
          case None => Listing([], Some(InvalidUTF8(ConvertName)))
          case Some(s) =>
            var rest := Walk(mirror, items[1..], next + 1);
            Listing([Line(next, s)] + rest.printed, rest.failure)
  }

  /** The walked names that are not directories, in walk order. */
  function Files(mirror: Folder, items: seq<WalkItem>): (r: seq<Bytes>)
    ensures forall k :: 0 <= k < |r| ==> Visit(r[k]) in items && !IsDirectory(mirror, r[k])
    decreases |items|
  {
    if items == [] then []
    else if items[0].Visit? && !IsDirectory(mirror, items[0].name) then [items[0].name] + Files(mirror, items[1..])
    else Files(mirror, items[1..])
  }

  /** An item the loop passes over: no error, and a file name that is UTF-8. */
  predicate CleanItem(mirror: Folder, item: WalkItem)
  {
    && !item.WalkError?
    && (item.Visit? && !IsDirectory(mirror, item.name) ==> Decode(item.name).Some?)
  }

  /** A walk with no error item and no undecodable file name. */
  predicate Clean(mirror: Folder, items: seq<WalkItem>)
  {
    forall k :: 0 <= k < |items| ==> CleanItem(mirror, items[k])
  }

  lemma CleanCons(mirror: Folder, items: seq<WalkItem>)
    requires items != []
    ensures Clean(mirror, items) <==> CleanItem(mirror, items[0]) && Clean(mirror, items[1..])
  {
    var tail := items[1..];
    if CleanItem(mirror, items[0]) && Clean(mirror, tail) {
      forall k | 0 <= k < |items|
        ensures CleanItem(mirror, items[k])
      {
        if k > 0 {
          assert items[k] == tail[k - 1];
        }
      }
    }
    if Clean(mirror, items) {
      forall k | 0 <= k < |tail|
        ensures CleanItem(mirror, tail[k])
      {
        assert tail[k] == items[k + 1];
      }
    }
  }

  /** The loop stops exactly when the walk is not clean. */
  lemma {:induction false} WalkFails(mirror: Folder, items: seq<WalkItem>, next: nat)
    ensures Walk(mirror, items, next).failure.None? <==> Clean(mirror, items)
    decreases |items|
  {
    if items != [] {
      CleanCons(mirror, items);
      WalkFails(mirror, items[1..], next);
      WalkFails(mirror, items[1..], next + 1);
    }
  }

  /** `printed` numbers the names `files` from `next`, one line each. */
  predicate NumberedLines(printed: seq<string>, files: seq<Bytes>, next: nat)
  {
    && |printed| == |files|
    && forall k :: 0 <= k < |files| ==>
         Decode(files[k]).Some? && printed[k] == Line(next + k, Decode(files[k]).value)
  }

  lemma ConsLine(name: Bytes, printed: seq<string>, files: seq<Bytes>, next: nat)
    requires Decode(name).Some? && NumberedLines(printed, files, next + 1)
    ensures NumberedLines([Line(next, Decode(name).value)] + printed, [name] + files, next)
  {
    var p, f := [Line(next, Decode(name).value)] + printed, [name] + files;
    forall k | 0 <= k < |f|
      ensures Decode(f[k]).Some? && p[k] == Line(next + k, Decode(f[k]).value)
    {
      if k > 0 {
        assert f[k] == files[k - 1] && p[k] == printed[k - 1];
      }
    }
  }

  /** A clean walk prints one line per file, numbered from `next` in walk order. */
  lemma {:induction false} WalkPrints(mirror: Folder, items: seq<WalkItem>, next: nat)
    requires Clean(mirror, items)
    ensures NumberedLines(Walk(mirror, items, next).printed, Files(mirror, items), next)
    decreases |items|
  {
    if items != [] {
      CleanCons(mirror, items);
      var tail := items[1..];
      var name := items[0].name;
      if IsDirectory(mirror, name) {
        WalkPrints(mirror, tail, next);
      } else {
        WalkPrints(mirror, tail, next + 1);
        ConsLine(name, Walk(mirror, tail, next + 1).printed, Files(mirror, tail), next);
      }
    }
  }

  /**
   * The loop stops exactly when the walk is not clean; when it is clean it
   * prints one line per file, numbered consecutively from `next` in walk
   * order, each with the file's name, and nothing for directories.
   */
  lemma WalkLines(mirror: Folder, items: seq<WalkItem>, next: nat)
    ensures Walk(mirror, items, next).failure.None? <==> Clean(mirror, items)
    ensures Walk(mirror, items, next).failure.None? ==>
      var printed, files := Walk(mirror, items, next).printed, Files(mirror, items);
      && |printed| == |files|
      && forall k :: 0 <= k < |files| ==>
           Decode(files[k]).Some? && printed[k] == Line(next + k, Decode(files[k]).value)
  {
    WalkFails(mirror, items, next);
    if Clean(mirror, items) {
      WalkPrints(mirror, items, next);
    }
  }

  /** A clean walk prints nothing exactly when the mirror has no file among the walked names. */
  lemma EmptyIffNoFiles(mirror: Folder, items: seq<WalkItem>)
    requires Clean(mirror, items)
    ensures Walk(mirror, items, 1).printed == [] <==> Files(mirror, items) == []
  {
    WalkLines(mirror, items, 1);
  }

  /** The walk from the `i`-th item, by what that item is. */
  lemma WalkAt(mirror: Folder, items: seq<WalkItem>, i: nat, next: nat)
    requires i < |items|
    ensures items[i].WalkError? ==> Walk(mirror, items[i..], next) == Listing([], Some(GetDirEntry(items[i].msg)))
    ensures items[i].Visit? && IsDirectory(mirror, items[i].name) ==>
      Walk(mirror, items[i..], next) == Walk(mirror, items[i + 1..], next)
    ensures items[i].Visit? && !IsDirectory(mirror, items[i].name) && Decode(items[i].name).None? ==>
      Walk(mirror, items[i..], next) == Listing([], Some(InvalidUTF8(ConvertName)))
    ensures items[i].Visit? && !IsDirectory(mirror, items[i].name) && Decode(items[i].name).Some? ==>
      var rest := Walk(mirror, items[i + 1..], next + 1);
      Walk(mirror, items[i..], next) == Listing([Line(next, Decode(items[i].name).value)] + rest.printed, rest.failure)
  {
    assert items[i..][0] == items[i] && items[i..][1..] == items[i + 1..];
  }

  /** The loop of `List::execute`: prints the files as it meets them, counting with `index`. */
  method WalkEntries(mirror: Folder, items: seq<WalkItem>) returns (printed: seq<string>, failure: Option<ExecutionError>)
    ensures Listing(printed, failure) == Walk(mirror, items, 1)
  {
    var index := 1;
    var i := 0;
    printed := [];
    while i < |items|
      invariant 0 <= i <= |items|
      invariant index == |printed| + 1
      invariant Walk(mirror, items, 1)
        == Listing(printed + Walk(mirror, items[i..], index).printed, Walk(mirror, items[i..], index).failure)
    {
      WalkAt(mirror, items, i, index);
      match items[i]
      case WalkError(msg) =>
        return printed, Some(GetDirEntry(msg));
      case Visit(name) =>
        if !IsDirectory(mirror, name) {
          var decoded := Decode(name);
          if decoded.None? {
            return printed, Some(InvalidUTF8(ConvertName));
          }
          ghost var rest := Walk(mirror, items[i + 1..], index + 1).printed;
          assert printed + ([Line(index, decoded.value)] + rest) == (printed + [Line(index, decoded.value)]) + rest;
          printed := printed + [Line(index, decoded.value)];
          index := index + 1;
        }
      i := i + 1;
    }
    assert printed + [] == printed;
    failure := None;
  }

  /** What a run of `dfm list` leaves behind, prints, and returns. */
  datatype Report = Report(after: World, printed: seq<string>, result: Result<string, CommandError>)

  /** What `List::execute` does to `w`. */
  function Spec(w: World, env: Env): Report
  {
    match ResolveMirror(w, env)
    case Err(err) => Report(w, [], Err(err))
    case Ok(dir) =>
      if !RemoteConfigured(w) then Report(w, [], Err(Usage(SetRemoteRepository)))
      else
        var pulled := RunPlan(w, env, PullPlan(dir), Finished);
        if pulled.result.Err? then Report(pulled.after, [], pulled.result)
        else
          var listing := Walk(w.mirror.value, env.walk, 1);
          if listing.failure.Some? then Report(pulled.after, listing.printed, Err(Execution(listing.failure.value)))
          else if listing.printed == [] then Report(pulled.after, [], Err(Usage(EmptyRepository)))
          else Report(pulled.after, listing.printed, Ok(Finished))
  }

  method Execute(h: Host, env: Env) returns (printed: seq<string>, r: Result<string, CommandError>)
    modifies h
    ensures Report(h.Snapshot(), printed, r) == Spec(old(h.Snapshot()), env)
  {
    printed := [];
    var resolved := ResolveMirror(h.Snapshot(), env);
    if resolved.Err? {
      return [], Err(resolved.error);
    }
    var dir := resolved.value;
    if h.marker.None? {
      return [], Err(Usage(SetRemoteRepository));
    }
    r := ExecutePlan(h, env, PullPlan(dir), Finished);
    if r.Err? {
      return;
    }
    var failure;
    printed, failure := WalkEntries(h.mirror.value, env.walk);
    if failure.Some? {
      return printed, Err(Execution(failure.value));
    }
    if printed == [] {
      return [], Err(Usage(EmptyRepository));
    }
    r := Ok(Finished);
  }

  /** Without a remote the answer is `SetRemoteRepository`, and no pull is started. */
  lemma NoRemoteNoPull(w: World, env: Env)
    requires ResolveMirror(w, env).Ok? && !RemoteConfigured(w)
    ensures Spec(w, env) == Report(w, [], Err(Usage(SetRemoteRepository)))
  {
  }

  /**
   * The pull comes before the walk: it is the one git spawn a listing
   * attempts, and when it fails its error is the answer and nothing is printed.
   */
  lemma PullFirst(w: World, env: Env)
    requires ResolveMirror(w, env).Ok? && RemoteConfigured(w)
    ensures Spec(w, env).after == w.(trace := w.trace + [Invocation(ResolveMirror(w, env).value, ["pull", "origin", "main"])])
    ensures Failure(Pull, OutcomeOf(env.git, Pull)).Some? ==>
      && Spec(w, env).printed == []
      && Spec(w, env).result == Err(Execution(Failure(Pull, OutcomeOf(env.git, Pull)).value))
  {
    PullPlanRun(ResolveMirror(w, env).value, env.git);
  }

  /**
   * Once the pull went through over a clean walk, the answer is
   * `EmptyRepository` exactly when the mirror has no file among the walked
   * names; otherwise the files are printed, numbered from 1 in walk order.
   */
  lemma ListsFiles(w: World, env: Env)
    requires ResolveMirror(w, env).Ok? && RemoteConfigured(w)
    requires Failure(Pull, OutcomeOf(env.git, Pull)).None?
    requires Clean(w.mirror.value, env.walk)
    ensures var files := Files(w.mirror.value, env.walk);
      && (Spec(w, env).result == Err(Usage(EmptyRepository)) <==> files == [])
      && (files != [] ==>
            && Spec(w, env).result == Ok(Finished)
            && |Spec(w, env).printed| == |files|
            && forall k :: 0 <= k < |files| ==>
                 Spec(w, env).printed[k] == Line(k + 1, Decode(files[k]).value))
  {
    PullPlanRun(ResolveMirror(w, env).value, env.git);
    WalkLines(w.mirror.value, env.walk, 1);
  }

  /**
   * `items` walks `mirror`: every name visited is an entry of the mirror,
   * and every entry is visited exactly once (error items aside).
   */
  predicate WalkOf(mirror: Folder, items: seq<WalkItem>)
  {
    && (forall k :: 0 <= k < |items| && items[k].Visit? ==> items[k].name in mirror)
    && (forall name :: name in mirror ==> Visit(name) in items)
    && (forall i, j :: 0 <= i < j < |items| && items[i].Visit? ==> items[j] != items[i])
  }

  /** The regular files of the mirror. */
  function FileKeys(mirror: Folder): set<Bytes>
  {
    set name | name in mirror && mirror[name].File?
  }

  /** A name is among `Files` exactly when it is visited and not a directory. */
  lemma {:induction false} FilesElements(mirror: Folder, items: seq<WalkItem>, name: Bytes)
    ensures name in Files(mirror, items) <==> Visit(name) in items && !IsDirectory(mirror, name)
    decreases |items|
  {
    if items != [] {
      FilesElements(mirror, items[1..], name);
      assert items == [items[0]] + items[1..];
    }
  }

  /** A walk that visits each name once lists each file once. */
  lemma {:induction false} FilesOnce(mirror: Folder, items: seq<WalkItem>)
    requires forall i, j :: 0 <= i < j < |items| && items[i].Visit? ==> items[j] != items[i]
    ensures forall i, j :: 0 <= i < j < |Files(mirror, items)| ==> Files(mirror, items)[i] != Files(mirror, items)[j]
    decreases |items|
  {
    if items != [] {
      var tail := items[1..];
      FilesOnce(mirror, tail);
      if items[0].Visit? && !IsDirectory(mirror, items[0].name) {
        var name := items[0].name;
        FilesElements(mirror, tail, name);
        assert Visit(name) !in tail by {
          forall j | 0 <= j < |tail|
            ensures tail[j] != Visit(name)
          {
            assert tail[j] == items[j + 1];
          }
        }
      }
    }
  }

  /**
   * Over a walk of the mirror, the files listed are exactly the mirror's
   * regular files, each once.
   */
  lemma FilesOfMirror(mirror: Folder, items: seq<WalkItem>)
    requires WalkOf(mirror, items)
    ensures forall name :: name in Files(mirror, items) <==> name in FileKeys(mirror)
    ensures forall i, j :: 0 <= i < j < |Files(mirror, items)| ==> Files(mirror, items)[i] != Files(mirror, items)[j]
  {
    FilesOnce(mirror, items);
    forall name
      ensures name in Files(mirror, items) <==> name in FileKeys(mirror)
    {
      FilesElements(mirror, items, name);
      if Visit(name) in items {
        var k :| 0 <= k < |items| && items[k] == Visit(name);
        assert items[k].name in mirror;
      }
    }
  }

  /**
   * When the walk is a walk of the mirror and the pull went through over a
   * clean walk, the answer is `EmptyRepository` exactly when the mirror has
   * no regular file; otherwise every regular file of the mirror is printed
   * once, numbered from 1, and nothing else is.
   */
  lemma ListsMirror(w: World, env: Env)
    requires ResolveMirror(w, env).Ok? && RemoteConfigured(w)
    requires Failure(Pull, OutcomeOf(env.git, Pull)).None?
    requires Clean(w.mirror.value, env.walk) && WalkOf(w.mirror.value, env.walk)
    ensures Spec(w, env).result == Err(Usage(EmptyRepository)) <==> FileKeys(w.mirror.value) == {}
    ensures Spec(w, env).result.Ok? ==>
      var files := Files(w.mirror.value, env.walk);
      && |Spec(w, env).printed| == |files|
      && (forall k :: 0 <= k < |files| ==>
            files[k] in FileKeys(w.mirror.value) && Spec(w, env).printed[k] == Line(k + 1, Decode(files[k]).value))
      && (forall name :: name in FileKeys(w.mirror.value) ==> name in files)
  {
    var mirror := w.mirror.value;
    ListsFiles(w, env);
    FilesOfMirror(mirror, env.walk);
    var files := Files(mirror, env.walk);
    if files != [] {
      assert files[0] in FileKeys(mirror);
    }
  }
}
