# dfm — a Dafny model of the dotfiles manager's orchestration

dfm keeps a user's dotfiles in a git working copy. That copy, the *mirror*,
is the `dotfiles` folder inside the storage folder (`$HOME/.config/dotfiles`,
or `%APPDATA%\dotfiles`). The storage folder also holds `remote.txt`, the
*marker*, which records the SSH link of the remote repository. Each command
does the same three things: a fixed chain of checks, then its changes to the
files (one copy, removal or write for most commands; reset removes the
mirror, then `remote.txt`, then recreates the mirror), and at most one git
plan run by the executer.

This project models that orchestration. It covers which error wins, what
changes on failure and on success, and which `git` spawns are attempted, in
what order, with which arguments.

The model is built in three layers.

- **State** (`world.dfy`). A `World` holds:
  - whether the storage folder exists;
  - the mirror, as a map from entry names to file contents or directories;
  - the marker's bytes;
  - the current directory;
  - the trace of git spawn attempts made so far. A spawn that fails is
    recorded too, so the trace says what was tried, not what ran.

  Entry names are byte strings: the UTF-8 encoding of the name the user
  types. This lets a non-UTF-8 name be represented (`utf8.dfy`). An `Env`
  supplies everything a command cannot decide itself: environment
  variables, the platform, connectivity, which filesystem call fails and
  with what message, how each git step ends, the order of the directory
  walk, what a directory's metadata length is, and how the "is git
  installed" probe ends.
- **The git executer** (`git.rs`, modelled in `git.dfy`). The builder is a
  record whose setters are functions. `Requested` gives the steps a plan
  asks for, in `run`'s fixed order. `RunOf` is what running them does.
  `Run` is the imperative `Executer::run`, with its early returns, and it
  is proved equal to `RunSpec`.
- **Commands** (one module per file under `src/commands`, plus `setup.rs`).
  Each command has three parts:
  - `Spec`, a function from the old world to an `Outcome` (the new world
    and the result);
  - `Execute`, a method that updates a `Host` object in place and is
    proved to agree with `Spec`;
  - lemmas about `Spec`: check order, frame conditions, success and failure
    cases.

  `scenarios.dfy` relates commands run one after another.

Where the code and the design description disagree, the model follows the
code:
- `clone` looks in the storage folder, not the mirror. `Clone.AsWritten`
  models that lookup, and the `Clone.AsWritten…` rows are about it; it is
  listed under Findings. `Clone.Spec` is the corrected lookup in the
  mirror. The other clone rows and the scenarios describe that corrected
  lookup, as their texts say.
- `setup` runs `git init` in the storage folder itself.

The commands call Result-returning path helpers. `src/utils.rs` and
`src/setup.rs` show only the variant that exits with status 2. Both are
modelled: `Utils.StorageFolderPath` returns None for the missing variable,
and `Setup.StoragePath` ends with `Err(2)`.

Helpers the shown sources use but do not define are modelled as follows.
These helpers are not part of this model beyond that.
- `check_if_remote_link_is_added` means the marker exists.
- `get_git_storage_folder_path` is the storage folder joined with
  `dotfiles`.
- `get_dfm_folder_path` is the storage folder, because `src/commands/reset.rs`
  removes `remote.txt` from it.
- `setup::execute_git_commands` is the plan built in the mirror by the
  builder calls `env.setupCalls`.

## Model

| member | source | states |
|---|---|---|
| Git.BuiltPlanReflectsCalls | src/git.rs:98-146 | After any chain of setter calls from `new`, each flag is set exactly when its setter was called. The message and the link are those of the last `run_commit` and `run_remote_add` (empty if none). `build` copies the directory and every field unchanged. |
| Git.Requested | src/git.rs:30-83 | The steps `run` issues for a plan, in its fixed order. It carries no contract of its own: `Git.RequestedSteps` and `Git.RequestedInOrder` state which steps and in what order. |
| Git.RequestedInOrder | src/git.rs:30-83 | The steps a plan issues come in strictly increasing order: init, remote add, pull, add, commit, push. |
| Git.RequestedSteps | src/git.rs:31-60 | Each step is requested exactly when its flag asks for it. Pull is requested when pull or commit is set. Add, commit and push are requested exactly when commit is set. |
| Git.Failure | src/git.rs:32-37 | A step stops the run exactly when its spawn or its `wait()` failed. The error is then `GitCommand` or `WaitingCommand`. |
| Git.Issue | src/git.rs:30-83 | The steps spawned are a prefix of those requested. Every step before the last one spawned exited. The error, if any, is the last spawned step's. With no error, every requested step was spawned. |
| Git.Invocations | src/git.rs:149-267 | One invocation per step, each in the plan's directory, with that step's argument vector. |
| Git.RunOf | src/git.rs:30-83 | A run attempts at most one spawn per step. Its error is always a git spawn or wait error. |
| Git.RunSpec | src/git.rs:30-83 | What `Executer::run` does with a plan: the run of its requested steps. It carries no contract of its own: `Git.RunShape`, `Git.RunInDir` and `Git.RunIssues` state what it attempts and returns. |
| Git.RunIssues | src/git.rs:30-83 | The run attempts exactly the issued steps' invocations, in order. It fails exactly when a step failed, and with that step's error. |
| Git.Spawn | src/git.rs:149-167 | Spawning a step records the attempt's invocation, whether or not the spawn succeeds. The failure is the spawn error under the step's spawn name, or the wait error under its wait name. |
| Git.RunShape | src/git.rs:30-83 | The spawns attempted are a prefix of the plan's invocations, and each one before the last exited. The run succeeds exactly when all were attempted and all exited. Otherwise it fails with the last attempted step's error. |
| Git.RunPrefix | src/git.rs:30-83 | Whatever plan runs, the spawns attempted are a prefix of its steps' invocations, and every step before the last one attempted exited. |
| Git.RunVerdict | src/git.rs:30-83 | A run succeeds exactly when it attempted every step and each exited. Otherwise it attempted at least one, and fails with the last one's error. |
| Git.RunInDir | src/git.rs:149-267 | Every spawn a run attempts is in the plan's directory. |
| Git.CommitPlanRun | src/git.rs:49-83 | A commit-only plan always attempts the pull. It attempts a prefix of pull, `add .`, `commit -m <message>`, push, of length 1 to 4. It succeeds only after all four. |
| Git.PullPlanRun | src/git.rs:49-56 | A pull-only plan attempts exactly `git pull origin main`. It fails exactly when that step fails, and with its error. |
| Git.RemotePlanRun | src/git.rs:40-56 | A remote plan first adds `origin` with exactly the given link. If that fails, it stops there. Otherwise it pulls, and succeeds exactly when the pull does. |
| Git.NoCommitNoPublish | src/git.rs:58-60 | Without the commit flag, no spawn attempted has the arguments of add, commit or push. |
| Git.SameFailuresSameRun | src/git.rs:30-83 | A run depends only on which steps fail and how. |
| Git.ExitStatusIgnored | src/git.rs:32 | A step's exit code never changes the run: any exit code behaves like 0. |
| Git.Step | src/git.rs:62-67 | One block of `run`: on success the rest of the run continues; on failure the run ends with that error. |
| Git.Run | src/git.rs:30-84 | `Executer::run` appends exactly `RunSpec`'s spawn attempts to the trace and returns `RunSpec`'s result. |
| State.ExecutePlan | src/commands/add.rs:81-84 | Running a plan with `?` appends its spawn attempts to the trace. The command then answers with the plan's error, or with its own success text. |
| Utf8.DecodeEncode | src/commands/remote.rs:79-114 | The bytes `as_bytes` writes are accepted by `String::from_utf8`, which gives back the same string. |
| Utf8.EncodeDecode | src/commands/remote.rs:110-112 | Bytes that `String::from_utf8` accepts are exactly the encoding of the string it returns. |
| Utf8.EncodeInjective | src/utils.rs:34-36 | Different names have different encodings, so they name different entries. |
| Utils.StorageFolderPath | src/utils.rs:6-32 | The path exists exactly when the platform's variable (HOME on Linux and macOS, APPDATA elsewhere) is set. |
| Utils.StorageFolderPathFormula | src/utils.rs:6-32 | The path exists exactly when HOME (Linux, macOS) or APPDATA (elsewhere) is set. It is that value followed by `/.config/dotfiles` or `\dotfiles`, so it ends with `dotfiles`. |
| Utils.FileExists | src/utils.rs:34-36 | A name exists in a folder when it has an entry there, file or directory. It carries no contract of its own: `Utils.FileExistsOwnEntry` states its property. |
| Utils.FileExistsOwnEntry | src/utils.rs:34-36 | Whether a name exists in a folder depends only on that name's own entry. |
| Utils.CopyFault | src/commands/clone.rs:54-59 | `fs::copy` succeeds exactly when the source is a regular file, the destination is not a directory, and the environment lets it. A directory source gives the "not a regular file" error, and a directory destination gives "Is a directory". |
| Utils.Canonicalize | src/commands/add.rs:44-49 | Canonicalization succeeds only on an existing path. A missing path is the "not found" error. |
| Utils.ResolveMirror | src/commands/add.rs:37-49 | Resolving the git storage folder succeeds only when the mirror exists, and it gives the `dotfiles` path. |
| Utils.ResolveRoot | src/commands/remote.rs:119-131 | Resolving the storage folder succeeds only when it exists, and it gives the storage folder path. |
| Add.Execute | src/commands/add.rs:36-87 | The in-place command ends in exactly the state and answer of `Add.Spec`. |
| Add.CheckOrder | src/commands/add.rs:51-72 | Errors come in this order: no remote gives `SetRemoteRepository`, a missing name gives `FileDoesNotExists`, a directory gives `NotAFile`, and a name already in the mirror gives `FileAlreadyAdded`. None of them changes anything. |
| Add.Frame | src/commands/add.rs:62-79 | The current directory and the marker stay as they were. The mirror changes only by gaining the named regular file, copied from the current directory. The trace only grows. A usage error changes nothing. |
| Add.Succeeds | src/commands/add.rs:74-86 | On success the mirror holds the current directory's bytes under the name, which it did not have before. Exactly the four spawns of commit "Add <name>" were attempted. |
| Add.PlanFollowsCopy | src/commands/add.rs:74-84 | Git runs only after the copy, and what it starts is a prefix of commit "Add <name>". |
| Update.FilesEqual | src/commands/update.rs:44-57 | The result is true exactly when the two byte sequences are equal. Different lengths give false with no byte read. Otherwise it stops right after the first differing pair of bytes. |
| Update.Compare | src/commands/update.rs:37-58 | On two regular files, a successful comparison says whether their contents are equal. Different metadata lengths give false before anything is read. True implies equal lengths. A directory compares equal only to an empty file, when directories report length 0. |
| Update.CompareEntries | src/commands/update.rs:37-58 | The loop version of the comparison gives exactly `Update.Compare`'s answer. |
| Update.Execute | src/commands/update.rs:61-126 | The in-place command ends in exactly the state and answer of `Update.Spec`. |
| Update.CheckOrder | src/commands/update.rs:76-93 | Errors come in this order: no remote gives `SetRemoteRepository`, a name missing from the current directory gives `FileDoesNotExists`, and a name missing from the mirror gives `FileNotAdded`. None of them changes anything. |
| Update.IdenticalIsNothingToUpdate | src/commands/update.rs:109-111 | Identical regular files give `NothingToUpdate`: nothing is copied and no process is started. |
| Update.Frame | src/commands/update.rs:113-118 | The current directory, the marker and the other mirror entries stay as they were. The named entry changes only to the current directory's differing copy. A copy failure or a usage error changes nothing. |
| Update.Succeeds | src/commands/update.rs:113-123 | On success the mirror entry equals the current directory's copy and differed before. Exactly the spawns of commit "Update <name>" were attempted. |
| Update.DirectoryEntry | src/commands/update.rs:95-118 | A directory on one side whose length differs from the other side's compares as different. The copy is then tried and fails with `CopyFile`: "not a regular file" for a directory in the current directory, "Is a directory" for one in the mirror. With equal non-zero lengths the read fails, giving `Unknown`. |
| Update.SecondUpdateIsNothingToUpdate | src/commands/update.rs:95-111 | Updating again right after a copy finds nothing to update. |
| Remove.Execute | src/commands/remove.rs:33-70 | The in-place command ends in exactly the state and answer of `Remove.Spec`. |
| Remove.CheckOrder | src/commands/remove.rs:34-58 | Offline gives `NoInternetConnection` before anything else. Then no remote gives `SetRemoteRepository`, and an untracked name gives `FileDoesNotExists`. None of them changes anything. |
| Remove.Frame | src/commands/remove.rs:56-62 | Only the named mirror entry can change, and only by disappearing. A failed removal or a usage error changes nothing and attempts no spawn. |
| Remove.Succeeds | src/commands/remove.rs:60-69 | On success the name is gone and every other entry is unchanged. Exactly the spawns of commit "Remove <name>" were attempted. |
| Remote.IsSshLink | src/commands/remote.rs:61-68 | The SSH-link regex as the unanchored search `is_match` performs. It carries no contract of its own: `Remote.SshLinkNamesHost`, `Remote.SshLinkAccepted`, `Remote.NoAtRejected` and `Remote.HttpsRejected` state what it accepts and rejects. |
| Remote.SshLinkNamesHost | src/commands/remote.rs:61-68 | The match is unanchored: every accepted link contains `git@github.com:` or `git@gitlab.com:`, and so contains an `@`. |
| Remote.SshLinkAccepted | src/commands/remote.rs:61-68 | `git@github.com:<owner>/<repo>.git` is accepted, and so is the GitLab form, when owner and repo have no white space. |
| Remote.NoAtRejected | src/commands/remote.rs:61-70 | A link without `@` is rejected. |
| Remote.HttpsRejected | src/commands/remote.rs:61-70 | An HTTPS link is rejected. |
| Remote.SetLink | src/commands/remote.rs:52-90 | The in-place `set_remote_link` ends in exactly the state and answer of `Remote.SetRemoteLink`. |
| Remote.ShowLink | src/commands/remote.rs:92-115 | `show_remote_link` changes nothing. Whatever it returns encodes to exactly the marker's bytes. |
| Remote.Execute | src/commands/remote.rs:118-141 | The command resolves the storage folder, then shows, or sets with the `dotfiles` folder as the git directory. |
| Remote.SetRejects | src/commands/remote.rs:57-70 | An existing marker gives `AlreadyAdded` and the marker is unchanged. A non-SSH link gives `NotSSH` before any write or process. |
| Remote.SetFrame | src/commands/remote.rs:72-87 | Only the marker and the trace change. Whenever a git spawn was attempted, the marker holds exactly the link's bytes, even if the plan then failed, and the first attempt is remote add with that link. |
| Remote.SetSucceeds | src/commands/remote.rs:72-89 | On success the marker holds exactly the link's bytes, and exactly remote add followed by pull were attempted. |
| Remote.ShowReadsMarker | src/commands/remote.rs:92-115 | No marker gives `NotSetted`. With a readable marker, invalid UTF-8 gives `InvalidUTF8`, and otherwise the content is returned exactly. |
| Remote.SetThenShow | src/commands/remote.rs:79-114 | Once set has written the marker, show returns the same link. |
| List.Walk | src/commands/list.rs:57-81 | The loop over the walk: what it prints and the error that stops it. It carries no contract of its own: `List.WalkLines` states it. |
| List.Files | src/commands/list.rs:67-69 | The listed names are walked entries that are not directories. |
| List.WalkLines | src/commands/list.rs:57-81 | The loop stops with an error exactly when an entry errs or a file name is not UTF-8. Otherwise it prints one line per file, numbered consecutively in walk order, and none for directories. |
| List.EmptyIffNoFiles | src/commands/list.rs:57-85 | A clean walk prints nothing exactly when it yields no file. |
| List.WalkEntries | src/commands/list.rs:57-81 | The loop with its `index` counter prints exactly what `Walk` says, numbering from 1. |
| List.Execute | src/commands/list.rs:30-88 | The in-place command ends in exactly the state, printout and answer of `List.Spec`. |
| List.NoRemoteNoPull | src/commands/list.rs:45-47 | No remote gives `SetRemoteRepository` with no pull and nothing printed. |
| List.PullFirst | src/commands/list.rs:49-55 | The pull is the only spawn attempted. If it fails, its error is the answer and nothing is printed. |
| List.FilesOfMirror | src/commands/list.rs:59-71 | Over a walk of the mirror (each entry visited once, nothing else visited), the files listed are exactly the mirror's regular files, each once. |
| List.ListsMirror | src/commands/list.rs:57-87 | Over a clean walk of the mirror after a successful pull, the answer is `EmptyRepository` exactly when the mirror has no regular file. Otherwise every regular file is printed once, numbered from 1, and nothing else is. |
| List.ListsFiles | src/commands/list.rs:57-87 | After a pull that succeeded, a clean walk gives `EmptyRepository` exactly when there is no file. Otherwise it gives the files numbered from 1 in walk order. |
| Clone.AsWritten | src/commands/clone.rs:28-62 | The command as written, looking in the storage folder. It carries no contract of its own: the `Clone.AsWritten…` lemmas and `Clone.TrackedFileCloned` state its behaviour. |
| Clone.Execute | src/commands/clone.rs:28-62 | The in-place command, with the corrected lookup in the mirror, ends in exactly the state and answer of `Clone.Spec`. |
| Clone.AsWrittenMissesTrackedFiles | src/commands/clone.rs:29-45 | As written, the lookup is in the storage folder, so any name other than `remote.txt` and `dotfiles` gives `FileDoesNotExists`. |
| Clone.AsWrittenCopiesMarker | src/commands/clone.rs:29-59 | As written, `clone remote.txt` copies the marker into the current directory, unless a directory of that name is there. |
| Clone.AsWrittenFrame | src/commands/clone.rs:28-62 | As written, clone changes only the named entry of the current directory. It attempts no spawn, leaves storage alone, and every failure changes nothing. |
| Clone.AsWrittenNoRemoteCheck | src/commands/clone.rs:28-62 | As written, the marker makes no difference for names other than `remote.txt`. For `remote.txt` it decides whether the file is found. |
| Clone.TrackedFileCloned | src/commands/clone.rs:43-61 | The same tracked file is missed by the code as written but copied by the corrected lookup. |
| Clone.Frame | src/commands/clone.rs:28-62 | Corrected lookup: clone changes only the named entry of the current directory. It starts no git process and leaves storage alone. Every failure changes nothing. |
| Clone.Outcomes | src/commands/clone.rs:43-59 | Corrected lookup: an untracked name gives `FileDoesNotExists`. Success needs a tracked regular file and no directory in the way, and replaces the current directory's entry with the stored one. A directory in the current directory under the name gives `CopyFile` ("Is a directory"), and so does a failed copy. |
| Clone.NoRemoteCheck | src/commands/clone.rs:28-62 | Corrected lookup: clone's answer does not depend on the marker. |
| Sync.Execute | src/commands/sync.rs:27-56 | The in-place command ends in exactly the state and answer of `Sync.Spec`. |
| Sync.CheckOrder | src/commands/sync.rs:28-48 | Offline gives `NoInternetConnection` first. Then no remote gives `SetRemoteRepository`, with no process started. |
| Sync.Frame | src/commands/sync.rs:26-56 | The mirror, the current directory and the marker never change. At most one pull in the mirror is attempted. |
| Sync.PullsOnce | src/commands/sync.rs:50-55 | Sync attempts exactly one pull. It succeeds exactly when the pull does, and otherwise returns the pull's error unchanged. |
| Reset.Execute | src/commands/reset.rs:26-67 | The in-place command ends in exactly the state and answer of `Reset.Spec`. |
| Reset.NoRemoteNothingRemoved | src/commands/reset.rs:48-50 | Without a remote the answer is `SetRemoteRepository`, and nothing is removed or attempted. |
| Reset.Succeeds | src/commands/reset.rs:52-66 | On success the mirror is empty, so no file is tracked. The marker is gone and the current directory is untouched. Exactly setup's plan was attempted. |
| Reset.MarkerRemovalFails | src/commands/reset.rs:52-58 | If removing the marker fails, the mirror is already gone, the marker is still there, and no spawn was attempted. |
| Reset.GitAfterRecreate | src/commands/reset.rs:60-64 | Git runs only after the mirror is recreated empty and the marker removed. Every spawn it attempts is in the mirror. |
| Setup.SameStoragePath | src/setup.rs:7-33 | Setup's path string follows the same formula as the commands' path. A missing variable exits with status 2. |
| Setup.GitCheck | src/setup.rs:35-60 | The probe passes only on exit code 1. A launch failure or a signal exits with 1, and any other code exits with 2. |
| Setup.Execute | src/setup.rs:68-110 | The in-place `setup` ends in exactly the state and exit of `Setup.Spec`. |
| Setup.GitCheckFirst | src/setup.rs:68-69 | A failing git check exits before any folder is looked at. |
| Setup.Idempotent | src/setup.rs:71-73 | With the storage folder present setup changes nothing, so running it twice is the same as running it once. |
| Setup.FirstRun | src/setup.rs:75-109 | A create failure exits with 1 before init. Otherwise the folder is created and `git init` is started in it. Setup proceeds exactly when that spawn succeeded. |
| Scenarios.AddTwice | src/commands/add.rs:70-79 | Adding the same file again gives `FileAlreadyAdded`. |
| Scenarios.RemoveUndoesAdd | src/commands/remove.rs:60-62 | Removing a file just added gives back the mirror as it was before. |
| Scenarios.CloneAfterAddKeepsCwd | src/commands/clone.rs:54-59 | Corrected lookup: cloning a file just added leaves the current directory as it was. |
| Scenarios.SetAfterReset | src/commands/reset.rs:56-58 | After a successful reset, setting a remote is no longer `AlreadyAdded`. |
| Scenarios.ListShowsAdded | src/commands/list.rs:57-81 | Listing right after an add, over a walk of the new mirror, prints the added name under some number. |
| Scenarios.ListEmptyAfterRemovingLast | src/commands/list.rs:83-85 | Removing the only tracked file and then listing answers `EmptyRepository`. |
| Scenarios.AddAfterReset | src/commands/add.rs:51-53 | After a successful reset, add gives `SetRemoteRepository` until a remote is set again. |

## Left out

- Effects of the git processes themselves: what `pull` merges into the mirror, and what `push` sends. A plan is a trace of invocations and an outcome per step from the environment. The mirror is never changed by git.
- `online::check`, environment variables, `env::current_dir`, `canonicalize` and `WalkDir` are inputs. Canonicalization is the identity on an existing path. The walk's order and errors are given, and its first item, the mirror itself, is left out because it is a directory and is skipped.
- Names are single path components, each one map key. `.`, `..`, names containing a separator, and absolute names are not modelled. In the source `Path::join` resolves them through directories: for example, `dfm add .` gives `NotAFile` there, but `FileDoesNotExists` in the model.
- `Other` stands for every target but Linux and macOS, and reads `APPDATA`. Its paths are joined with `\`. On non-Windows targets of that kind, such as the BSDs, `Path::join` uses `/`, which is not modelled. An environment variable that is set but not valid Unicode (`env::var` gives `NotUnicode`) cannot be represented: a variable is present with a string value, or absent.
- The `.git` folder that setup's `git init` creates in the storage folder is not modelled. As written, clone's lookup would also find `.git` there, a directory, whose copy fails with `CopyFile`.
- `fs::remove_dir_all` of the mirror either succeeds or changes nothing. In the source, a removal that fails partway can leave part of the mirror behind.
- Paths are strings joined with the platform separator. Symbolic links, permissions and partially written files are not modelled. A failed copy or write changes nothing, except `File::create` of `remote.txt`, which leaves it empty.
- `check_if_files_are_equal` follows Unix semantics: opening a directory succeeds, its metadata length is an input, and reading it fails. On Windows, opening a directory already fails; that behaviour is not modelled. Its other I/O failures are one error.
- Update.FilesEqual: does not model the buffered, byte-at-a-time reads or their I/O errors. The same loop runs over two byte sequences in memory.
- Regex construction (`ExecutionError::Regex`) is left out: the pattern is fixed and valid, so `Regex::new` cannot fail on it. `is_match` is modelled as the search it performs for that one pattern, not as a general regex engine.
- `src/commands/push.rs` is not wired into the command line, and the executer's push step subsumes it.
- The error display texts, coloured output and the dispatch in `cli.rs`, `main.rs`, `lib.rs` and `commands/mod.rs` are left out. `NoSuccess` and `RepositoryNotFound` are declared but never produced by the modelled code.
- A git spawn that fails is recorded in the trace like one that succeeds. The trace is the list of attempts, and each step's outcome says which of them started a process.
- The `git init` of setup shares the per-step outcomes of the environment with the executer. Only its spawn failure matters, because it is not waited for.
- Concurrency: commands run one at a time.

## Findings

| source | as written | input that shows it | evidently intended | confidence | as-written member | corrected member |
|---|---|---|---|---|---|---|
| src/commands/clone.rs:29-45 | Looks the name up in `get_dfm_folder_path()`, the storage folder, which holds only `remote.txt` and the mirror `dotfiles`. | `dfm add notes.txt`, then `dfm clone notes.txt`: the answer is `FileDoesNotExists`. Meanwhile `dfm clone remote.txt` copies the marker. | Look the name up in the git storage folder (the mirror) and copy the tracked file, as add, update and remove do. | not executed; `get_dfm_folder_path` is not part of this model, and its meaning is inferred from src/commands/reset.rs:27-58 | Clone.AsWrittenMissesTrackedFiles | Clone.TrackedFileCloned |
