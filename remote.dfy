/**
 * `dfm remote set <link>` and `dfm remote show` (src/commands/remote.rs).
 * The remote is remembered in `remote.txt` in the storage folder. It can be
 * set once (until a reset), only to an SSH link of GitHub or GitLab, and
 * setting it adds the `origin` remote to the mirror and pulls.
 */
module Remote {
  import opened Wrappers
  import opened Utf8
  import opened Errors
  import opened Git
  import opened State
  import opened Utils

  const SetSuccess := "Successfully setted the remote repository and synchronized the local repository with the remote repository"
  const ConvertMarker := "Convert Vec<u8> to String"

  /** `\s` of the regex crate: the characters with Unicode's White_Space property. */
  predicate IsWhitespace(c: char)
  {
    var n := c as int;
    || 0x09 <= n <= 0x0D || n == 0x20 || n == 0x85 || n == 0xA0 || n == 0x1680
    || 0x2000 <= n <= 0x200A || n == 0x2028 || n == 0x2029 || n == 0x202F
    || n == 0x205F || n == 0x3000
  }

  const GitHub := "git@github.com:"
  const GitLab := "git@gitlab.com:"

  /** `git@git((hub)|(lab))\.com:` matches at `i`. */
  predicate HostAt(link: string, i: nat)
  {
    i + 15 <= |link| && (link[i..i + 15] == GitHub || link[i..i + 15] == GitLab)
  }

  /** `\.git` matches at `k`. */
  predicate GitSuffixAt(link: string, k: nat)
  {
    k + 4 <= |link| && link[k..k + 4] == ".git"
  }

  // The rest of the pattern, `\S*` then a slash then `\S*\.git`, matches from `p`:
  // a slash, later `.git`, and no white space before that `.git`.
  predicate RepoPathFrom(link: string, p: nat)
  {
    exists j, k | p <= j < k <= |link| ::
      && link[j] == '/' && GitSuffixAt(link, k)
      && forall t | p <= t < k :: !IsWhitespace(link[t])
  }

  // `is_match` of the pattern `git@git((hub)|(lab))\.com:\S*/\S*\.git` on `link`:
  // the pattern is not anchored, so it may match anywhere in the link.
  predicate IsSshLink(link: string)
  {
    exists i | 0 <= i <= |link| :: HostAt(link, i) && RepoPathFrom(link, i + 15)
  }

  /** An accepted link contains `git@github.com:` or `git@gitlab.com:`, in particular an `@`. */
  lemma SshLinkNamesHost(link: string)
    requires IsSshLink(link)
    ensures exists i :: HostAt(link, i)
    ensures '@' in link
  {
    var i :| 0 <= i <= |link| && HostAt(link, i) && RepoPathFrom(link, i + 15);
    assert link[i..i + 15][3] == '@';
    assert link[i + 3] == '@';
  }

  /** `git@github.com:<owner>/<repo>.git` (or on gitlab.com) is accepted when owner and repo have no white space. */
  lemma SshLinkAccepted(onGitHub: bool, owner: string, repo: string)
    requires forall t | 0 <= t < |owner| :: !IsWhitespace(owner[t])
    requires forall t | 0 <= t < |repo| :: !IsWhitespace(repo[t])
    ensures IsSshLink((if onGitHub then GitHub else GitLab) + owner + "/" + repo + ".git")
  {
    var host := if onGitHub then GitHub else GitLab;
    var link := host + owner + "/" + repo + ".git";
    var j, k := 15 + |owner|, 16 + |owner| + |repo|;
    assert link[0..15] == host;
    assert link[j] == '/';
    assert GitSuffixAt(link, k);
    forall t | 15 <= t < k
      ensures !IsWhitespace(link[t])
    {
      if t < j {
        assert link[t] == owner[t - 15];
      } else if t > j {
        assert link[t] == repo[t - j - 1];
      }
    }
    assert HostAt(link, 0) && RepoPathFrom(link, 15);
  }

  /** A link without an `@` is never an SSH link; an HTTPS link, for one. */
  lemma NoAtRejected(link: string)
    requires '@' !in link
    ensures !IsSshLink(link)
  {
    if IsSshLink(link) {
      SshLinkNamesHost(link);
    }
  }

  lemma HttpsRejected()
    ensures !IsSshLink("https://github.com/owner/repo.git")
  {
    NoAtRejected("https://github.com/owner/repo.git");
  }

  /**
   * `set_remote_link(root, gitDir, link)`: the marker is created (empty),
   * then written, then the remote plan runs in `gitDir`.
   */
  function SetRemoteLink(w: World, env: Env, gitDir: string, link: string): Outcome
  {
    if w.marker.Some? then Stop(w, Usage(AlreadyAdded))
    else if !IsSshLink(link) then Stop(w, Usage(NotSSH))
    else if CreateMarker in env.faults then Stop(w, Execution(CreateFile(env.faults[CreateMarker])))
    else
      var created := w.(marker := Some([]));
      if WriteMarker in env.faults then Stop(created, Execution(WriteToFile(env.faults[WriteMarker])))
      else
        var written := w.(marker := Some(Encode(link)));
        RunPlan(written, env, RemotePlan(gitDir, link), SetSuccess)
  }

  /** `show_remote_link`: the marker's contents, which must be UTF-8. */
  function ShowRemoteLink(w: World, env: Env): Result<string, CommandError>
  {
    if w.marker.None? then Err(Usage(NotSetted))
    else if OpenMarker in env.faults then Err(Execution(OpenFile(env.faults[OpenMarker])))
    else if ReadMarker in env.faults then Err(Execution(ReadFile(env.faults[ReadMarker])))
    else match Decode(w.marker.value)
      case None => Err(Execution(InvalidUTF8(ConvertMarker)))
      case Some(content) => Ok(content)
  }

  datatype Subcommand = Show | Set(link: string)

  /** What `Remote::execute` does to `w`. */
  function Spec(w: World, env: Env, sub: Subcommand): Outcome
  {
    match ResolveRoot(w, env)
    case Err(err) => Stop(w, err)
    case Ok(root) =>
      match sub
      case Show => Outcome(w, ShowRemoteLink(w, env))
      case Set(link) => SetRemoteLink(w, env, Join(env.platform, root, "dotfiles"), link)
  }

  method SetLink(h: Host, env: Env, gitDir: string, link: string) returns (r: Result<string, CommandError>)
    modifies h
    ensures Outcome(h.Snapshot(), r) == SetRemoteLink(old(h.Snapshot()), env, gitDir, link)
  {
    if h.marker.Some? {
      return Err(Usage(AlreadyAdded));
    }
    if !IsSshLink(link) {
      return Err(Usage(NotSSH));
    }
    if CreateMarker in env.faults {
      return Err(Execution(CreateFile(env.faults[CreateMarker])));
    }
    h.marker := Some([]);
    if WriteMarker in env.faults {
      return Err(Execution(WriteToFile(env.faults[WriteMarker])));
    }
    h.marker := Some(Encode(link));
    r := ExecutePlan(h, env, RemotePlan(gitDir, link), SetSuccess);
  }

  method ShowLink(h: Host, env: Env) returns (r: Result<string, CommandError>)
    ensures r == ShowRemoteLink(h.Snapshot(), env)
    ensures r.Ok? ==> h.marker == Some(Encode(r.value))
  {
    if h.marker.None? {
      return Err(Usage(NotSetted));
    }
    if OpenMarker in env.faults {
      return Err(Execution(OpenFile(env.faults[OpenMarker])));
    }
    if ReadMarker in env.faults {
      return Err(Execution(ReadFile(env.faults[ReadMarker])));
    }
    var content := Decode(h.marker.value);
    if content.None? {
      return Err(Execution(InvalidUTF8(ConvertMarker)));
    }
    EncodeDecode(h.marker.value);
    return Ok(content.value);
  }

  method Execute(h: Host, env: Env, sub: Subcommand) returns (r: Result<string, CommandError>)
    modifies h
    ensures Outcome(h.Snapshot(), r) == Spec(old(h.Snapshot()), env, sub)
  {
    var resolved := ResolveRoot(h.Snapshot(), env);
    if resolved.Err? {
      return Err(resolved.error);
    }
    var root := resolved.value;
    match sub
    case Show =>
      r := ShowLink(h, env);
    case Set(link) =>
      r := SetLink(h, env, Join(env.platform, root, "dotfiles"), link);
  }

  /**
   * A remote can be set once: with `remote.txt` present the answer is
   * `AlreadyAdded` and the marker keeps its contents; a link that is not an
   * SSH link is `NotSSH`, before the marker is written or git is started.
   */
  lemma SetRejects(w: World, env: Env, gitDir: string, link: string)
    ensures w.marker.Some? ==> SetRemoteLink(w, env, gitDir, link) == Stop(w, Usage(AlreadyAdded))
    ensures w.marker.None? && !IsSshLink(link) ==> SetRemoteLink(w, env, gitDir, link) == Stop(w, Usage(NotSSH))
  {
  }

  /**
   * Setting touches only the marker and the trace. The marker is written
   * before git runs: whenever a git spawn was attempted it holds exactly the
   * link's bytes, and it stays so when the plan fails. The plan adds the
   * remote with exactly that link and pulls; it never commits.
   */
  lemma SetFrame(w: World, env: Env, gitDir: string, link: string)
    ensures var o := SetRemoteLink(w, env, gitDir, link);
      && o.after.mirror == w.mirror && o.after.cwd == w.cwd && o.after.rootExists == w.rootExists
      && w.trace <= o.after.trace
      && (o.after.marker == w.marker || (w.marker.None? && IsSshLink(link)))
      && (o.after.trace != w.trace ==>
            && o.after.marker == Some(Encode(link))
            && o.after.trace[|w.trace|] == Invocation(gitDir, ["remote", "add", "origin", link])
            && |o.after.trace| <= |w.trace| + 2)
  {
    var o := SetRemoteLink(w, env, gitDir, link);
    if o.after.trace != w.trace {
      RemotePlanRun(gitDir, link, env.git);
      var calls := RunSpec(RemotePlan(gitDir, link), env.git).calls;
      assert o.after.trace == w.trace + calls;
    }
  }

  /** On success the marker holds exactly the link's bytes and both git spawns were attempted. */
  lemma SetSucceeds(w: World, env: Env, gitDir: string, link: string)
    requires SetRemoteLink(w, env, gitDir, link).result.Ok?
    ensures var o := SetRemoteLink(w, env, gitDir, link);
      && w.marker.None? && IsSshLink(link)
      && o.after.marker == Some(Encode(link))
      && o.after.trace == w.trace + [Invocation(gitDir, ["remote", "add", "origin", link]),
                                     Invocation(gitDir, ["pull", "origin", "main"])]
  {
    RemotePlanRun(gitDir, link, env.git);
  }

  /**
   * Show answers `NotSetted` without a marker; otherwise, when the marker can
   * be read, it gives back the marker's contents exactly, or `InvalidUTF8`
   * when they are not UTF-8.
   */
  lemma ShowReadsMarker(w: World, env: Env)
    ensures w.marker.None? ==> ShowRemoteLink(w, env) == Err(Usage(NotSetted))
    ensures w.marker.Some? && OpenMarker !in env.faults && ReadMarker !in env.faults ==>
      && (Decode(w.marker.value).None? <==> ShowRemoteLink(w, env) == Err(Execution(InvalidUTF8(ConvertMarker))))
      && (ShowRemoteLink(w, env).Ok? ==> Encode(ShowRemoteLink(w, env).value) == w.marker.value)
  {
    if w.marker.Some? && Decode(w.marker.value).Some? {
      EncodeDecode(w.marker.value);
    }
  }

  /** After a set has written the marker, show gives back the same link. */
  lemma SetThenShow(w: World, env: Env, gitDir: string, link: string)
    requires SetRemoteLink(w, env, gitDir, link).after.trace != w.trace
    requires OpenMarker !in env.faults && ReadMarker !in env.faults
    ensures ShowRemoteLink(SetRemoteLink(w, env, gitDir, link).after, env) == Ok(link)
  {
    SetFrame(w, env, gitDir, link);
    DecodeEncode(link);
  }
}
