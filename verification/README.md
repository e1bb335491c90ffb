# git-worktree-agent, modelled in Dafny

git-worktree-agent is a terminal program. It watches the remote branches of a git
repository and keeps one git worktree per branch. A background fetch runs every
few seconds. New remote branches are registered in the watcher's branch
registry. With auto-create on, they are queued and their worktrees created one
at a time, each optionally followed by a post-create hook command. The terminal
UI shows the branch list, command logs and a status bar. It also has:

- a first-run setup wizard;
- a settings screen;
- a two-step "create worktree" dialog;
- a delete confirmation dialog.

This project models the decision logic of that program and proves properties
about it. One Dafny module corresponds to each source file:

- `Util`, `Text`: `Option`/`Result`, and the standard `str` operations the program relies on (`lines`, `trim`, `split_whitespace` (whitespace being Unicode's White_Space), `strip_prefix`, `parse::<u64>`, ASCII `to_lowercase`).
- `Process`: `Run`, one finished external process (`std::process::Output`).
- `Executor` (src/executor.rs): `CommandOutput`, and the `CommandLog` class with `add_output` and `summary`.
- `Configuration` (src/config.rs): the `Config` class; branch tracking, worktree records, `sanitize_branch_name`, `get_worktree_path`.
- `GitRepository` (src/git/repository.rs): parsing of `git for-each-ref` and `git remote`; `get_default_branch`; `validate_remote`.
- `GitWorktree` (src/git/worktree.rs): `parse_worktree_list`, an imperative loop proved against a recursive specification; lookups; the decision structure of `create` and `remove`.
- `Watching` (src/watcher.rs): the `Watcher` class (registry, queue, running hooks, logs, fetch flag) and the `EventChannel` class (the mpsc channel). Each operation is proved against a step function on a `WatcherState` value.
- `AppState` (src/app/state.rs): the create-worktree dialog state, `SetupState`, `SettingsField`, `SettingsState`.
- `BranchList` (src/ui/branch_list.rs): the `BranchListState` class (selection).
- `Logs` (src/ui/logs.rs): the `LogsState` class (scrolling), and the filtering and windowing of the two log panels.
- `Status` (src/ui/status.rs): `AppStatus`, and `truncate_str` at UTF-8 byte level.
- `Actions` (src/app/actions.rs): status classification and the sort of `update_branch_list`.
- `Setup` (src/app/setup.rs): the setup wizard's transitions.
- `Settings` (src/app/settings.rs): the settings screen's transitions.
- `Dialogs` (src/app/handlers.rs): the delete confirmation and create-worktree dialogs.
- `Application` (src/app/mod.rs, actions.rs, setup.rs, settings.rs, handlers.rs): the `App` class, with `new`, the event loop body `process_watcher_events`, and every key handler of the modelled screens.

The repository the program runs against is a value of type `Watching.Repo`. For
each git command the program runs, it holds what that command answers:

- the `for-each-ref` listing per remote;
- the local branches;
- `git worktree list --porcelain`;
- the outcome of `git worktree add` per branch;
- `git remote`;
- `git remote get-url`;
- the three commands of `get_default_branch`;
- `git worktree remove` per path.

Glob matching is a function parameter of `Repo`. A hook's output channel is a
`HookFeed`: the finite queue of outputs it holds when drained, and whether it
has hung up. The clock is a parameter `now`.

## Model

| member | source | states |
|---|---|---|
| `Util.SatSub` | src/app/actions.rs:191 | `saturating_sub`: when `a >= b` the result plus `b` is `a`; otherwise the result is 0 |
| `Util.Filter` | src/app/state.rs:75-85 | an element is kept iff it was in the input and passes the test, and the kept elements stay in their original order |
| `Util.Position` | src/app/settings.rs:84-97 | `iter().position`: the first index holding the value, and None iff the value is absent |
| `Util.Reverse` | src/ui/logs.rs:147-151 | `iter().rev()`: the same elements, last first |
| `Text.Trim` | src/git/repository.rs:98 | `str::trim`: neither end of the result is whitespace, and it is never longer than the input |
| `Text.TrimKeepsSlice` | src/git/repository.rs:98 | `trim` keeps one contiguous slice of its input, starting where `trim_start` starts |
| `Text.TrimDropsWhitespace` | src/git/repository.rs:98 | every character `trim` drops, before or after that slice, is (Unicode) whitespace |
| `Text.ToLower` | src/app/handlers.rs:175 | `to_lowercase`: the same length, and ASCII capitals become lower case |
| `Text.Pop` | src/app/setup.rs:344-359 | `String::pop`: the input without its last character; unchanged when empty |
| `Text.PopPush` | src/app/settings.rs:45-52 | popping a character just pushed gives back the original string |
| `Text.StripPrefix` | src/git/worktree.rs:72 | `str::strip_prefix`: Some(rest) iff the input starts with the prefix, and prefix + rest is the input |
| `Text.TrimStartMatches` | src/git/repository.rs:202 | `trim_start_matches`: the result is a suffix of the input that does not start with the pattern |
| `Text.TrimStartMatchesRepeats` | src/git/repository.rs:202 | what is removed is whole copies of the pattern: the input is the pattern repeated, then the result |
| `Text.Lines` | src/git/repository.rs:97 | `str::lines`: no line holds a line feed, and non-empty text has at least one line |
| `Text.LinesOfTerminated` | src/git/repository.rs:97 | plain lines each ended by a line feed, then an optional last line, are split back exactly |
| `Text.LinesOfPlainLine` | src/git/repository.rs:97 | a plain line followed by a line feed is the first line, and the rest is split on |
| `Text.Join` | src/watcher.rs:141 | `join`: nothing for no parts, the part itself for one part |
| `Text.JoinTerminates` | src/watcher.rs:141 | every part but the last is followed by the separator, and the last part ends the text |
| `Text.LinesOfJoin` | src/watcher.rs:141 | `lines` undoes `join("\n")` on plain lines whose last one is non-empty |
| `Text.SplitWhitespace` | src/git/repository.rs:130 | `split_whitespace`: every word is non-empty and free of whitespace |
| `Text.SplitWhitespaceOfWord` | src/git/repository.rs:130 | a word at the front, up to whitespace or the end, is the first word |
| `Text.SplitWhitespaceOfJoin` | src/git/repository.rs:130 | words joined by any non-empty whitespace gap split back into the same words |
| `Text.NatToString` | src/app/settings.rs:123 | `to_string` on a u64: a non-empty string of decimal digits |
| `Text.ParseU64` | src/app/settings.rs:164 | `parse::<u64>`: after an optional '+', Some iff what is left is a non-empty run of decimal digits whose value is at most 2^64 - 1, and then that value; empty input is rejected |
| `Text.ParseU64OfNatToString` | src/app/settings.rs:121-165 | formatting a 64-bit value and parsing the text back gives the value again |
| `Text.StrLessIrreflexive` | src/app/actions.rs:80 | the string order used by the sort is irreflexive |
| `Text.StrLessTransitive` | src/app/actions.rs:80 | the string order used by the sort is transitive |
| `Text.StrLessTotal` | src/app/actions.rs:80 | of two different strings, one is less than the other |
| `Text.StrLessAsymmetric` | src/app/actions.rs:80 | the string order used by the sort is asymmetric |
| `Executor.WithOutput` | src/executor.rs:203-216 | `add_output` appends the output and keeps branch, command and system flag. `Exit(c)` stops the log with code `c`, `Error` stops it with -1, and stream lines leave state and code alone |
| `Executor.LastTerminalCode` | src/executor.rs:204-214 | the code the last `Exit`/`Error` of a batch leaves; None iff the batch has neither |
| `Executor.WithOutputsEffect` | src/executor.rs:203-216 | after a batch of outputs the log holds all of them, in order, after its old ones, and is finished with the last terminal code, or is unchanged in state if there is none |
| `Executor.WithOutputsSnoc` | src/executor.rs:203-216 | a batch with one more output is the batch followed by that output |
| `Executor.CommandLog.New` | src/executor.rs:179-188 | a running, non-system log of the branch and command, with no output and no code |
| `Executor.CommandLog.NewSystem` | src/executor.rs:191-200 | the same as `New`, except flagged as a system log |
| `Executor.CommandLog.AddOutput` | src/executor.rs:203-216 | the log's new value is `WithOutput` of its old value |
| `Executor.CommandLog.Summary` | src/executor.rs:219-236 | starts with "Running: " iff running, with "✓ " iff finished with code 0, with "✗ " otherwise; then the command, followed for a failure by " (exit code: c)" with -1 for a missing code |
| `Configuration.AnyPatternMatches` | src/config.rs:187-194 | true iff some pattern in the list compiles and matches the branch |
| `Configuration.ReplaceWithDash` | src/config.rs:250 | `replace(c, "-")`: the same length; `c` becomes '-' and every other character stays |
| `Configuration.SanitizeBranchName` | src/config.rs:248-259 | the same length; each of `/ \ : * ? " < > \|` becomes '-' and every other character stays in place |
| `Configuration.SanitizedIsSafe` | src/config.rs:248-259 | a sanitized name contains none of the nine unsafe characters |
| `Configuration.SanitizeIdempotent` | src/config.rs:248-259 | sanitizing twice is sanitizing once |
| `Configuration.SanitizeNotInjective` | src/config.rs:248-259 | "a/b" and "a:b" map to the same directory name |
| `Configuration.SanitizeExamples` | src/config.rs:266-269 | the unit test's cases: "feature/my-branch" becomes "feature-my-branch", and "fix:bug" becomes "fix-bug" |
| `Configuration.PathJoin` | src/config.rs:241-243 | `Path::join`: an absolute component replaces the path; otherwise the result is the path, a '/' where needed, then the component |
| `Configuration.WithoutBranch` | src/config.rs:217-226 | `retain(w.branch != b)`: the entries for other branches, in their original order |
| `Configuration.WithoutBranchMembers` | src/config.rs:225 | an entry survives iff it was there and is for another branch |
| `Configuration.WithoutBranchAppend` | src/config.rs:225 | filtering distributes over concatenation, so survivors keep their relative order |
| `Configuration.AddWorktreeUnique` | src/config.rs:217-221 | after `add_worktree(w)`, `w` is the one and only entry for its branch, and it is the last one |
| `Configuration.FirstIndexFor` | src/config.rs:230 | the index of the first entry for the branch, or the length when there is none |
| `Configuration.FindWorktree` | src/config.rs:229-231 | `find`: the first entry for the branch; None iff no entry has it |
| `Configuration.Config.Default` | src/config.rs:91-112 | version 1, poll 10 s, no command or working directory, patterns `dependabot/*` and `renovate/*`, no tracked or untracked branches, auto-create off, base dir "..", remote "origin", no worktrees, never fetched |
| `Configuration.Config.ShouldIgnoreBranch` | src/config.rs:181-197 | true iff the branch is explicitly untracked or some ignore pattern compiles and matches it |
| `Configuration.Config.TrackBranch` | src/config.rs:205-208 | the branch joins the tracked set and leaves the untracked set; other names are unaffected |
| `Configuration.Config.UntrackBranch` | src/config.rs:211-214 | the branch joins the untracked set and leaves the tracked set; other names are unaffected |
| `Configuration.Config.AddWorktree` | src/config.rs:217-221 | the entries for other branches in order, then `w` |
| `Configuration.Config.RemoveWorktree` | src/config.rs:224-226 | the entries for other branches, in order |
| `Configuration.Config.GetWorktree` | src/config.rs:229-231 | the first entry for the branch |
| `Configuration.Config.GetWorktreePath` | src/config.rs:239-244 | starts with repo root joined with the base dir and ends with the sanitized branch name, joined by at most one '/' |
| `Configuration.ShouldIgnoreExample` | src/config.rs:272-280 | the unit test: with "main" untracked and a `feature/*` pattern, "feature/test" and "main" are ignored and "develop" is not |
| `GitRepository.ParseRefLine` | src/git/repository.rs:129-151 | a branch iff the line has two or more fields and the first does not end in "/HEAD". It records the first field as the full ref, the second as the commit, and the requested remote. Its name is the full ref without "<remote>/" when it has that prefix, else the full ref |
| `GitRepository.ParseRefLines` | src/git/repository.rs:129-153 | one branch per accepted line, never more than there are lines |
| `GitRepository.ParseRefLinesAppend` | src/git/repository.rs:129-153 | parsing follows input order: the branches of `a + b` are those of `a` then those of `b` |
| `GitRepository.ParseRefLinesSound` | src/git/repository.rs:129-153 | every parsed branch comes from some input line, carries the requested remote and is not a HEAD alias |
| `GitRepository.RemoteBranchesOutcome` | src/git/repository.rs:106-161 | a spawn failure is an error; a failed listing is an empty list, not an error; otherwise the branches of the stdout lines |
| `GitRepository.GetRemoteBranches` | src/git/repository.rs:106-161 | the parsing loop returns exactly `RemoteBranchesOutcome` |
| `GitRepository.NonBlankTrimmed` | src/git/repository.rs:96-100 | trimmed lines that are not empty, in order |
| `GitRepository.NonBlankTrimmedMembers` | src/git/repository.rs:96-100 | a name is listed iff it is the trimmed form of some line that is not blank |
| `GitRepository.GetRemotes` | src/git/repository.rs:86-103 | only a spawn failure is an error. The exit status is not consulted, and the remotes are the non-blank trimmed stdout lines |
| `GitRepository.RemoteNotFoundShape` | src/git/repository.rs:74-80 | the message starts with "Remote '<r>' not found." and contains "git remote add <r> <url>" |
| `GitRepository.ValidateRemote` | src/git/repository.rs:72-83 | Ok iff the remote exists, else the not-found message naming it |
| `GitRepository.FirstListed` | src/git/repository.rs:196-206 | the first candidate that `git branch -r` lists as "<remote>/<candidate>", after trimming and dropping "* "; None iff it lists none of them |
| `GitRepository.GetDefaultBranch` | src/git/repository.rs:164-226 | tries three sources in order: (1) the symbolic ref without "refs/remotes/<r>/"; (2) the first of main, master, develop, dev that the remote lists; (3) the current branch if non-empty. A git that cannot be spawned ends the search with None at that step |
| `GitWorktree.ApplyAttribute` | src/git/worktree.rs:84-99 | "HEAD h" sets the head. "branch refs/heads/X" sets the branch X, and any other "branch r" sets r. "bare", "locked" and "prunable" set their flags; other lines change nothing; the path never changes |
| `GitWorktree.BranchRef` | src/git/worktree.rs:87-92 | the branch after "refs/heads/" when present, else the whole reference |
| `GitWorktree.Fill` | src/git/worktree.rs:84-100 | the attribute lines of an entry never change its path |
| `GitWorktree.EntriesFollowHeaders` | src/git/worktree.rs:64-105 | one entry per "worktree <path>" line, in input order, with that path; attribute lines before the first header are ignored |
| `GitWorktree.MarkFirstMain` | src/git/worktree.rs:107-110 | the first entry is flagged main and the others are unchanged |
| `GitWorktree.ParseWorktreeList` | src/git/worktree.rs:60-113 | the loop with a pending entry returns exactly the recursive specification `ParsedWorktrees` |
| `GitWorktree.ReadLine` | src/git/worktree.rs:65-100 | a blank line closes the pending entry, a header closes it and opens the next, any other line is an attribute of it; what is done plus what is pending is preserved |
| `GitWorktree.EntryBlock` | src/git/worktree.rs:72-92 | a "worktree/HEAD/branch" block is read into one entry with that path, head and branch |
| `GitWorktree.EntriesBlank` | src/git/worktree.rs:65-70 | a blank line between blocks contributes no entry |
| `GitWorktree.ParseTwoWorktrees` | src/git/worktree.rs:289-308 | the unit test's shape: two blocks separated by a blank line give two entries in order, each with its path, head and branch ("refs/heads/" dropped), and only the first is main |
| `GitWorktree.FindByBranch` | src/git/worktree.rs:269-281 | the first entry whose branch is the argument; None iff there is none |
| `GitWorktree.WorktreePathFor` | src/git/worktree.rs:275-281 | the path of the first entry on the branch, Some iff there is one |
| `GitWorktree.ListOutcome` | src/git/worktree.rs:39-57 | Ok iff git ran and succeeded, and then the parsed listing |
| `GitWorktree.List` | src/git/worktree.rs:39-57 | returns exactly `ListOutcome` |
| `GitWorktree.HasWorktreeOutcome` | src/git/worktree.rs:269-272 | fails iff listing fails, else whether some entry has the branch |
| `GitWorktree.WorktreePathOutcome` | src/git/worktree.rs:275-281 | fails iff listing fails; a path is returned iff some entry has the branch |
| `GitWorktree.RemoveOutcome` | src/git/worktree.rs:217-244 | Ok iff git ran and succeeded; a failure carries "git worktree remove failed: " and git's stderr |
| `GitWorktree.LastSlash` | src/git/worktree.rs:123 | the position of the last '/', the separator `Path::parent` splits at, or -1 |
| `GitWorktree.NonBlank` | src/git/worktree.rs:158-162 | every line kept is an input line that is not blank once trimmed |
| `GitWorktree.NonBlankAppend` | src/git/worktree.rs:158-162 | filtering two batches of lines is filtering each, in order |
| `GitWorktree.NonBlankMembers` | src/git/worktree.rs:158-162 | a line is kept iff it is an input line that is not blank once trimmed |
| `GitWorktree.PushOutputLines` | src/git/worktree.rs:158-162 | appends the non-blank stdout lines, then the non-blank stderr lines |
| `GitWorktree.PushNonBlank` | src/git/worktree.rs:158-162 | the skipping loop appends exactly `NonBlank(lines)` |
| `GitWorktree.NonBlankStep` | src/git/worktree.rs:158-162 | one step of the skipping loop |
| `GitWorktree.CreateCalls` | src/git/worktree.rs:117-214 | no git call when the parent cannot be made or the target exists. Otherwise the first call is `worktree add --track -b <b> <path> <remote>/<b>`, and a second call, `worktree add <path> <b>`, happens iff the first failed with "already exists" |
| `GitWorktree.CreateOutcomeCases` | src/git/worktree.rs:117-214 | an existing target fails before any git call. Success requires git to succeed (directly or on retry) and the directory to appear, and then returns the log. The failure messages of each other case are stated |
| `GitWorktree.CreateLogShape` | src/git/worktree.rs:117-214 | a successful creation's log starts with "Creating worktree at: <path>" and ends with the success line |
| `GitWorktree.Create` | src/git/worktree.rs:117-214 | the step-by-step procedure returns exactly `CreateOutcome`, and runs exactly the git calls of `CreateCalls` |
| `GitWorktree.AddWorktree` | src/git/worktree.rs:134-203 | the git part of `create` agrees with `CreateOutcome` and `CreateCalls` |
| `GitWorktree.RetryAdd` | src/git/worktree.rs:166-198 | the retry agrees with `CreateOutcome` |
| `GitWorktree.FinishCreate` | src/git/worktree.rs:205-213 | fails with "Worktree directory was not created" iff the directory is missing, else appends the success line |
| `Watching.EventChannel.constructor` | src/watcher.rs:105 | an empty channel |
| `Watching.EventChannel.Send` | src/watcher.rs:112 | the event is appended to the channel |
| `Watching.EventChannel.TryRecv` | src/app/actions.rs:112 | None on an empty channel, else the oldest event, which is removed |
| `Watching.FetchSummary` | src/watcher.rs:128-142 | None iff stderr and stdout have no non-blank line, else their trimmed non-blank lines, stderr first |
| `Watching.FetchOutcome` | src/watcher.rs:123-170 | `FetchFailed` iff git could not be spawned or it failed with a real error line in stderr; the failure carries stderr or the spawn error. Every other case is `FetchCompleted` with the summary |
| `Watching.InsertAllSpec` | src/watcher.rs:75-78 | overwriting insertion registers every listed name under its own record |
| `Watching.InsertAbsentSpec` | src/watcher.rs:81-86 | non-overwriting insertion keeps existing entries and registers only new names |
| `Watching.RemoteTakesPrecedence` | src/watcher.rs:72-93 | `init`: every listed name is registered under its own name, and remote records win over local ones |
| `Watching.NewNamesSpec` | src/watcher.rs:197-209 | the names reported as new are exactly the remote names unknown before and not ignored, each once |
| `Watching.RescannedSpec` | src/watcher.rs:197-228 | after a scan the registry holds exactly the remote and local names. Surviving entries keep their old record, and new remote names get a remote record |
| `Watching.StdoutLines` | src/watcher.rs:527-530 | each line becomes a `Stdout` output |
| `Watching.MessageOutput` | src/watcher.rs:554-560 | a message is logged as `Stderr` iff it starts with "ERROR:", else as `Stdout`, with the same text |
| `Watching.MessageOutputs` | src/watcher.rs:554-560 | each message becomes its `MessageOutput` |
| `Watching.WorktreeLogFinished` | src/watcher.rs:550-563 | a worktree log is finished with code 0 and holds the messages |
| `Watching.AutoQueueSpec` | src/watcher.rs:237-252 | the auto-queue keeps the old queue and appends each new, not ignored, worktree-less, not yet queued branch once, so the queue stays free of duplicates |
| `Watching.HookEvent` | src/watcher.rs:361-380 | `Exit(c)` becomes `HookCompleted(b, c)` and `Error` becomes `HookCompleted(b, -1)`; any other output is `HookOutput` |
| `Watching.HookEvents` | src/watcher.rs:361-380 | each drained output becomes its event, in order |
| `Watching.HasTerminalSnoc` | src/watcher.rs:362-381 | one more output ends a hook iff the earlier ones did or it is an exit or error |
| `Watching.LastLogFor` | src/watcher.rs:362-367 | the last log of the branch, or -1 when there is none |
| `Watching.DrainDone` | src/watcher.rs:343-396 | a hook is completed iff it ran and its feed yields a terminal output or hangs up |
| `Watching.HooksStepSpec` | src/watcher.rs:343-396 | completed hooks leave the running set, and the branch being processed is cleared only when it is one of them |
| `Watching.CreateStepSpec` | src/watcher.rs:412-459 | `WorktreeCreating` is sent first, then exactly one of `WorktreeCreated`/`WorktreeCreateFailed`. The branch being processed is cleared on failure or without a hook, and stays set once a hook starts |
| `Watching.AfterCreateSpec` | src/watcher.rs:426-457 | the outcome of a creation as it is logged and announced |
| `Watching.CreateStepInvariant` | src/watcher.rs:412-459 | creation keeps the watcher invariant: no duplicates in the queue, entries keyed by name, a branch in progress only while its hook runs |
| `Watching.ProcessNextStepInvariant` | src/watcher.rs:263-280 | taking the next branch keeps the invariant |
| `Watching.QueueStepSpec` | src/watcher.rs:316-335 | no-op for a queued or in-progress branch. Otherwise the branch is appended, and when nothing is in progress the head of the queue is taken (FIFO) |
| `Watching.QueueStepInvariant` | src/watcher.rs:316-335 | queueing keeps the invariant |
| `Watching.TryProcessNextStepInvariant` | src/watcher.rs:399-409 | `try_process_next` keeps the invariant |
| `Watching.AutoCreateStepSpec` | src/watcher.rs:233-258 | the auto-create part of a scan queues as `AutoQueue` says and starts processing only when idle |
| `Watching.ScanStepSpec` | src/watcher.rs:197-258 | a scan rewrites the registry as `Rescanned`. It sends `NewBranchesFound` iff the new names are non-empty, and auto-creates only when enabled |
| `Watching.FetchCompleteSpec` | src/watcher.rs:176-260 | the fetch flag is cleared even when the scan fails; a failed scan changes nothing else; the invariant is kept |
| `Watching.HooksStepInvariant` | src/watcher.rs:343-396 | draining hooks keeps the invariant |
| `Watching.RunHookInvariant` | src/watcher.rs:462-480 | starting a hook keeps the invariant |
| `Watching.RegisterAll` | src/watcher.rs:75-78 | the insertion loop computes `InsertAll` |
| `Watching.RegisterAbsent` | src/watcher.rs:81-86 | the loop that skips known names computes `InsertAbsent` |
| `Watching.ScanBranches` | src/watcher.rs:197-228 | the scan loops compute `Rescanned` and `NewNames` |
| `Watching.QueueNewBranches` | src/watcher.rs:237-252 | the auto-queue loop computes `AutoQueue` |
| `Watching.NewFetchLog` | src/watcher.rs:522-534 | the fetch log record built line by line equals `FetchLogRecord` |
| `Watching.NewWorktreeLog` | src/watcher.rs:550-563 | the worktree log record built line by line equals `WorktreeLogRecord` |
| `Watching.DrainHook` | src/watcher.rs:361-390 | draining one hook appends its outputs to its last log, sends their events, and reports it completed iff its feed ends it |
| `Watching.DrainHooks` | src/watcher.rs:343-396 | each running hook is drained once, in some order, with the combined effect of `DrainAll` |
| `Watching.RetireHooks` | src/watcher.rs:387-395 | exactly the completed hooks leave the running set, and the branch in progress is cleared iff it is one of them |
| `Watching.CollectStep` | src/watcher.rs:496-498 | one step of collecting the registry's values |
| `Watching.Watcher.New` | src/watcher.rs:60-69 | an empty registry, no hooks or logs, not fetching, nothing queued or in progress |
| `Watching.Watcher.Init` | src/watcher.rs:72-93 | a failing remote scan is an error and changes nothing. Otherwise remote, then local branches are registered with remote records winning, and a local listing failure is an error after the remotes are in |
| `Watching.Watcher.StartFetch` | src/watcher.rs:101-112 | while a fetch runs nothing changes and nothing is sent; otherwise the flag is set and exactly `FetchStarted` is sent |
| `Watching.Watcher.OnFetchComplete` | src/watcher.rs:176-260 | the last-fetch time is recorded, and state and events are exactly `FetchCompleteStep` |
| `Watching.Watcher.ApplyScan` | src/watcher.rs:197-258 | state and events are exactly `ScanStep` |
| `Watching.Watcher.AutoCreate` | src/watcher.rs:233-258 | state and events are exactly `AutoCreateStep` |
| `Watching.Watcher.OnFetchFailed` | src/watcher.rs:338-340 | the fetch flag is cleared |
| `Watching.Watcher.ProcessNextBranch` | src/watcher.rs:263-280 | state and events are exactly `ProcessNextStep`: the head of the queue is removed and created |
| `Watching.Watcher.ProcessingIffPendingCount` | src/watcher.rs:283-295 | `is_processing` iff `pending_count` is positive |
| `Watching.Watcher.QueueBranch` | src/watcher.rs:316-335 | state and events are exactly `QueueStep` |
| `Watching.Watcher.TryProcessNext` | src/watcher.rs:399-409 | state and events are exactly `TryProcessNextStep` |
| `Watching.Watcher.CreateWorktree` | src/watcher.rs:412-459 | state and events are exactly `CreateStep` |
| `Watching.Watcher.ApplyCreation` | src/watcher.rs:426-457 | state and events are exactly `AfterCreate` |
| `Watching.Watcher.RunHook` | src/watcher.rs:462-480 | the hook is registered as running and `HookStarted` is sent |
| `Watching.Watcher.StartHook` | src/watcher.rs:483-493 | the same as `run_hook`, from outside the creation flow |
| `Watching.Watcher.CheckRunningHooks` | src/watcher.rs:343-396 | every running hook is drained once; state and events are `HooksStep` for that order |
| `Watching.Watcher.GetKnownBranches` | src/watcher.rs:496-498 | every registered record exactly once, each stored under its name |
| `Watching.Watcher.GetBranchByName` | src/watcher.rs:501-503 | the record under the name, Some iff it is registered |
| `Watching.Watcher.AddLocalBranch` | src/watcher.rs:506-519 | a known name is left alone; otherwise a local record with that name is added |
| `Watching.Watcher.AppendLog` | src/watcher.rs:533 | the log is appended |
| `Watching.Watcher.AddFetchLog` | src/watcher.rs:522-534 | exactly one log, `FetchLogRecord`, is appended |
| `Watching.Watcher.AddFetchSuccessLog` | src/watcher.rs:537-547 | exactly one log, `FetchSuccessRecord`, is appended |
| `Watching.Watcher.AddWorktreeLog` | src/watcher.rs:550-563 | exactly one log, `WorktreeLogRecord`, is appended |
| `Watching.Watcher.AddCommandLog` | src/watcher.rs:566-569 | exactly one log, `CommandRecord`, is appended |
| `AppState.NewCreateState` | src/app/state.rs:58-72 | starts at selecting a base, with an empty filter, nothing chosen and the index of the default branch when it is listed, else 0 |
| `AppState.FilteredBranches` | src/app/state.rs:75-85 | all branches for an empty filter; otherwise exactly those whose lower case contains the lower-case filter, in original order |
| `AppState.HighlightedBaseBranch` | src/app/state.rs:88-91 | the filtered branch at the index, Some iff the index is in range |
| `AppState.OnFilterChanged` | src/app/state.rs:94-96 | only the index changes, to 0, so the first match is highlighted |
| `AppState.NextStep` | src/app/state.rs:99-115 | succeeds iff a base is highlighted at the first step, then stores it and moves on; otherwise changes nothing |
| `AppState.PrevStep` | src/app/state.rs:118-127 | back to selecting a base; a no-op there |
| `AppState.NextThenPrev` | src/app/state.rs:99-127 | going forward then back restores the dialog, keeping the chosen base |
| `AppState.NewSetupState` | src/app/state.rs:158-171 | step Remote, remote "origin", poll 10, dir "..", no base branch, no command, auto-create off |
| `AppState.FromIndex` | src/app/state.rs:214-224 | the field at that position of `all()`, and `Remote` out of range |
| `AppState.IndexRoundTrip` | src/app/state.rs:192-224 | `from_index(f.index()) == f` for every field |
| `AppState.NewSettingsState` | src/app/state.rs:239-248 | first field, not editing, nothing loaded |
| `AppState.SettingsField.Index` | src/app/state.rs:203-212 | the position of the field in `all()`, below the number of fields |
| `BranchList.ItemNames` | src/ui/branch_list.rs:94-98 | the names of the rows, position by position |
| `BranchList.NextRow` | src/ui/branch_list.rs:56-66 | the next row, wrapping from the last to 0, and 0 without a selection; always in range |
| `BranchList.PreviousRow` | src/ui/branch_list.rs:73-83 | the previous row, wrapping from 0 to the last, and 0 without a selection |
| `BranchList.NextPreviousInverse` | src/ui/branch_list.rs:52-84 | moving down then up, or up then down, returns to the row |
| `BranchList.BranchListState.New` | src/ui/branch_list.rs:45-50 | no rows and no selection |
| `BranchList.BranchListState.SelectNext` | src/ui/branch_list.rs:52-67 | no change on an empty list, else `NextRow` |
| `BranchList.BranchListState.SelectPrevious` | src/ui/branch_list.rs:69-84 | no change on an empty list, else `PreviousRow` |
| `BranchList.BranchListState.Selected` | src/ui/branch_list.rs:86-88 | the selected row, Some iff the selection is in range |
| `BranchList.BranchListState.SelectByName` | src/ui/branch_list.rs:94-98 | selects the first row with that name; no-op when absent |
| `BranchList.BranchListState.UpdateItems` | src/ui/branch_list.rs:100-117 | the new rows. The previously selected name is reselected at its first new position; otherwise 0 is selected only when nothing was, and a stale index is kept |
| `Logs.LogLines` | src/ui/logs.rs:65-127 | one header line, then one line per output, in order |
| `Logs.LineTotal` | src/ui/logs.rs:152-157 | at least one line per log |
| `Logs.Joined` | src/ui/logs.rs:152-157 | empty iff there are no logs; as long as the logs' lines plus one separator between neighbours |
| `Logs.CollectLines` | src/ui/logs.rs:152-157 | the collecting loop computes `Joined` |
| `Logs.PanelLogs` | src/ui/logs.rs:147-151 | newest first; only system logs unless all are shown |
| `Logs.BranchLogs` | src/ui/logs.rs:297-301 | exactly the logs of the selected branch, in original order; none without a selection |
| `Logs.MaxScroll` | src/ui/logs.rs:160-161 | content lines minus height, saturating at 0 |
| `Logs.Window` | src/ui/logs.rs:164-168 | skip `scroll` lines, take at most `height` |
| `Logs.WindowAtBottom` | src/ui/logs.rs:160-168 | scrolled to `max_scroll`, the window shows the last line and is full when there is enough content |
| `Logs.LogsState.Default` | src/ui/logs.rs:20-23 | scroll and limit 0 |
| `Logs.LogsState.ScrollDown` | src/ui/logs.rs:26-30 | one line down only below the limit, so `scroll <= max_scroll` is kept |
| `Logs.LogsState.ScrollUp` | src/ui/logs.rs:32-34 | one line up, saturating at 0 |
| `Logs.LogsState.ScrollToBottom` | src/ui/logs.rs:36-38 | scroll becomes the limit |
| `Logs.LogsState.ShowLines` | src/ui/logs.rs:159-168 | sets the limit from the content and returns its window |
| `Logs.LogsState.RenderPanel` | src/ui/logs.rs:131-192 | the bottom panel shows the window of the joined panel logs |
| `Logs.LogsState.RenderBranchPanel` | src/ui/logs.rs:278-366 | nothing and no limit change without logs for the branch; else the window of the branch's joined logs |
| `Status.Utf8Width` | src/ui/status.rs:149 | the UTF-8 length of a character, 1 iff ASCII |
| `Status.ByteLen` | src/ui/status.rs:149 | `str::len`: at least one byte per character |
| `Status.ByteLenAscii` | src/ui/status.rs:149 | on ASCII text bytes are characters |
| `Status.PrefixOfBytes` | src/ui/status.rs:152 | `&s[..k]`: Some iff byte `k` is a character boundary, and then the prefix of `k` bytes |
| `Status.TruncateStr` | src/ui/status.rs:148-154 | the string when it fits. Otherwise it is the first `max_len - 3` bytes (saturating), defined iff that cut is at a character boundary. Always a prefix of at most `max_len` bytes |
| `Status.AsciiTruncates` | src/ui/status.rs:148-154 | on ASCII text the cut never panics and keeps `max_len - 3` characters |
| `Status.TruncatePanicsInsideChar` | src/ui/status.rs:152 | a cut that falls inside a multi-byte character panics |
| `Status.StatusBarPanics` | src/ui/status.rs:117-154 | a 40-byte-limited error message with "é" at byte 36 panics |
| `Status.FloorPrefix` | src/ui/status.rs:152 | the longest prefix of at most `k` bytes |
| `Status.FloorPrefixExact` | src/ui/status.rs:152 | at a character boundary the longest fitting prefix is exactly the prefix of that many bytes |
| `Status.TruncateAtBoundary` | src/ui/status.rs:148-154 | corrected cut: the string when it fits, else a prefix of at most `max_len - 3` bytes; never panics |
| `Status.BoundaryAgrees` | src/ui/status.rs:148-154 | wherever the original does not panic, the corrected cut gives the same string |
| `Actions.Classify` | src/app/actions.rs:27-49 | the status by priority: in progress (hook running or creating), then queued, then untracked, then worktree-based (hook, prunable, active), then remote; each status given as iff |
| `Actions.BeforeTransitive` | src/app/actions.rs:67-82 | the comparator is transitive |
| `Actions.BeforeAsymmetric` | src/app/actions.rs:67-82 | the comparator is asymmetric |
| `Actions.Insert` | src/app/actions.rs:67-82 | insertion into a sorted list keeps it sorted and adds exactly the item |
| `Actions.SortItems` | src/app/actions.rs:67-82 | sorted by the comparator, and a permutation of the input |
| `Actions.SortedGroups` | src/app/actions.rs:67-82 | rows with a worktree come before all others, and within each group names ascend |
| `Actions.Unordered` | src/app/actions.rs:67-82 | two rows the comparator cannot order have the same name |
| `Actions.SortedUnique` | src/app/actions.rs:67-82 | two sorted lists of the same rows with distinct names are equal, so the sort's result is fixed |
| `Application.SortedListing` | src/app/actions.rs:13-82 | the sorted rows built once per registered branch, in any order, are the listing |
| `Application.ListedUnique` | src/app/actions.rs:13-82 | the listing does not depend on the order the registry is read in |
| `Application.KnownCount` | src/app/actions.rs:212 | the branch count is the number of registered names |
| `Application.Listing` | src/app/actions.rs:13-82 | one row per registered branch, classified and sorted |
| `Application.BuildRows` | src/app/actions.rs:16-64 | one row per registered branch, in the order read, each as `ItemFor` classifies it |
| `Application.RowFor` | src/app/actions.rs:20-64 | the row of one branch as `ItemFor` defines it |
| `Application.FetchResults` | src/app/actions.rs:112-133 | the number of fetch results waiting, at most the channel's length |
| `Application.QuietAppend` | src/app/actions.rs:112-207 | sending events that are not fetch results does not change that count |
| `Application.TryProcessNextProgress` | src/watcher.rs:399-409 | `try_process_next` sends no fetch result and either does nothing or takes a branch off the queue |
| `Application.FetchCompleteQuiet` | src/watcher.rs:176-260 | `on_fetch_complete` sends no fetch result |
| `Application.WithStatus` | src/app/actions.rs:145-186 | the first row of the name takes the status; all other rows and every name stay |
| `Application.UnblockedIsIdle` | src/app/actions.rs:227-239 | on a list that shows the watcher's state, a row that is not blocked is neither queued nor in progress, so queueing it really appends it |
| `Application.RemovalError` | src/app/actions.rs:284-296 | an error only when the branch has a listed worktree and removing its path failed, and then git's error |
| `Application.NameList` | src/app/settings.rs:23 | the names of a listing, in order |
| `Application.BranchesOf` | src/app/settings.rs:22-24 | the branch names of the remote, Some iff the listing succeeded |
| `Application.OpenedSettings` | src/app/settings.rs:17-28 | a fresh settings state with the repository's remotes and the configured remote's branches (none on failure) |
| `Application.StartView` | src/app/mod.rs:95-117 | the wizard on a first run; else `Main` when the remote exists, and otherwise the not-found error message |
| `Application.StartScreen` | src/app/mod.rs:95-117 | the first view and the wizard, as `StartView` and `InitialSetup` say |
| `Application.StoreAnswers` | src/app/setup.rs:456-462 | the six wizard answers become the configuration |
| `Application.Reinit` | src/app/setup.rs:466 | the registry after a repeated `init`, its result ignored |
| `Application.StartWatcher` | src/app/mod.rs:76-141 | the watcher is initialised only when the remote exists, and the list is filled unless the wizard comes first |
| `Application.NewWatcher` | src/app/mod.rs:76-80 | a fresh watcher, initialised when the remote exists, and its branch count |
| `Application.InitialSetup` | src/app/mod.rs:97-109 | the remotes offered, with "origin" preselected when listed, else the first |
| `Application.App.New` | src/app/mod.rs:64-143 | the status (not fetching, the config's values, the registry's size); the wizard on a first run, an error for a missing remote, else `Main` with the list shown; an empty channel |
| `Application.App.UpdateBranchList` | src/app/actions.rs:13-85 | the rows become the listing of the watcher's state and the selected branch is kept |
| `Application.App.DoPoll` | src/app/actions.rs:88-105 | nothing while a fetch runs; otherwise the poll time is recorded and a fetch started |
| `Application.App.ProcessWatcherEvents` | src/app/actions.rs:107-208 | every running hook is drained once (the returned order has no repeats and holds exactly the running hooks); then the events already queued, followed by those the hook drain sent, are the first events handled, in that order, and handling goes on until the channel is empty |
| `Application.App.DrainChannel` | src/app/actions.rs:111-207 | every queued event, and every event sent while handling, is taken off in order until the channel is empty |
| `Application.App.ReceiveAndHandle` | src/app/actions.rs:111-207 | one turn of the drain: None iff the channel was empty; else its first event is taken off and handled as `EventHandled` states, from the channel without it |
| `Application.App.HandleEvent` | src/app/actions.rs:113-206 | each of the ten events has the effect `EventHandled` states: the watcher step, the events sent, the status, and the rows, with everything else unchanged |
| `Application.App.HandleFetchEvent` | src/app/actions.rs:114-144 | `FetchEventHandled`: fetch started sets only `is_fetching`; completed logs, runs `on_fetch_complete`, records the fetch time and refreshes the status and listing; failed logs "Error: msg" and shows it; new branches refresh the listing only |
| `Application.App.HandleCreationEvent` | src/app/actions.rs:145-205 | `CreationEventHandled`: creating and hook-started mark the branch's row; created refreshes and moves the queue on only without a hook command; a failure is shown and the queue moves on; hook output changes nothing; a finished hook lowers the count, shows a non-zero code, and moves the queue on |
| `Application.App.OnFetchStarted` | src/app/actions.rs:114-116 | only `is_fetching` becomes true |
| `Application.App.OnHookStarted` | src/app/actions.rs:176-186 | one more running hook, and the branch's first row shows `RunningHook` |
| `Application.App.OnFetchCompleted` | src/app/actions.rs:117-133 | the log and `on_fetch_complete`. The status shows not fetching, the new last fetch and no error, and the list and counts are refreshed |
| `Application.App.RecordFetch` | src/app/actions.rs:119-127 | the log is the output when present, else a success log; then `on_fetch_complete` |
| `Application.App.OnFetchFailed` | src/app/actions.rs:134-140 | the watcher may fetch again, "Error: msg" is logged, and the message is shown |
| `Application.App.OnWorktreeCreated` | src/app/actions.rs:156-166 | the list and counts are refreshed, and the next branch is started only without a hook command |
| `Application.App.OnWorktreeCreateFailed` | src/app/actions.rs:167-175 | the error "branch: msg" is shown, the list refreshed, and the queue always moves on |
| `Application.App.OnHookCompleted` | src/app/actions.rs:190-205 | one hook fewer (saturating), an error only for a non-zero code, the list refreshed, the queue moves on |
| `Application.App.HookFinished` | src/app/actions.rs:191-198 | the hook count and the error of a finished hook |
| `Application.App.NextBranch` | src/app/actions.rs:203-204 | `try_process_next` as `TryProcessNextStep` says |
| `Application.App.SetListedStatus` | src/app/actions.rs:147-154 | the first row of the name takes the status; no change when there is none |
| `Application.App.CreateSelectedWorktree` | src/app/actions.rs:221-245 | no selection or a blocked status (active, creating, hook, queued) changes nothing; otherwise the branch is queued and the list refreshed |
| `Application.App.DeleteSelectedWorktree` | src/app/actions.rs:248-281 | only rows with a worktree proceed; a main worktree is refused with "Cannot delete the main worktree"; otherwise the confirmation opens with empty input |
| `Application.App.DoDeleteWorktree` | src/app/actions.rs:284-296 | the removal failure, if any, is shown, and the list shows the repository after removal |
| `Application.App.ToggleTrackSelected` | src/app/actions.rs:299-315 | an ignored branch is tracked, any other one untracked; it is then ignored iff it was not, or a pattern matches it |
| `Application.App.ToggleAutoCreate` | src/app/actions.rs:318-325 | the setting flips and the status bar shows it |
| `Application.App.HandleDeleteConfirmKeys` | src/app/handlers.rs:163-191 | the key as `DeleteConfirmKey` takes it; a confirmed "yes" runs the deletion |
| `Application.App.HandleCreateWorktreeKeys` | src/app/handlers.rs:194-292 | the key as `CreateDialogKey` takes it; the requested worktree is returned |
| `Application.App.HandleSetupKeys` | src/app/setup.rs:262-362 | `SetupKeyHandled`: Esc closes the wizard with the configuration and status unchanged, re-initialising the registry when the remote exists and showing the list; Tab and Enter finish at the last step (`FinishedSetup`: all six answers stored, registry re-initialised, status and list refreshed) and go forward otherwise; BackTab goes back; other keys edit as the source does (`SetupKeyAsWritten`); except when finishing or skipping, configuration, status, registry and rows stay as they were; nothing happens without an open wizard |
| `Application.App.SetupNextStep` | src/app/setup.rs:364-418 | `Advance`, loading the chosen remote's branches and default, with configuration, status, registry and rows unchanged; at the last step the wizard finishes as `FinishedSetup` states |
| `Application.App.SetupPrevStep` | src/app/setup.rs:420-449 | `Back` |
| `Application.App.FinishSetup` | src/app/setup.rs:451-476 | `FinishedSetup`: the six answers are stored, the registry re-initialised for the chosen remote, the status shows the new settings, the list is shown; the stored poll is a multiple of 5 in [5, 300] and the command is never empty |
| `Application.App.FinishSetupWithDefaults` | src/app/setup.rs:478-491 | the wizard closes and the configuration is unchanged |
| `Application.App.OpenSettings` | src/app/settings.rs:17-28 | the settings screen opens with `OpenedSettings` |
| `Application.App.HandleSettingsKeys` | src/app/settings.rs:31-157 | nothing when the screen is closed; while editing, the key does what `Edited` states; otherwise what `Browsed` states |
| `Application.App.EditingKey` | src/app/settings.rs:34-55 | `Edited`: Esc drops the edit and clears the text, Enter applies it, any other key edits the text; config and watcher unchanged except by Enter |
| `Application.App.ApplySettingsEdit` | src/app/settings.rs:159-185 | `EditApplied`: only the selected field changes; a parsable poll is stored clamped to [1, 3600] (kept otherwise); the directory is stored; an empty command becomes None; editing ends with empty text |
| `Application.App.BrowsingKey` | src/app/settings.rs:57-154 | `Browsed`: Esc/q/s close to the main view; j/k and Down/Up move without wrapping and reset the list row only when the field changes; Enter as `EnterDone`; Left/Right nudge the poll interval by 5 within its limits; any other key changes nothing |
| `Application.App.NudgePoll` | src/app/settings.rs:135-154 | the Left and Right cases of `Browsed`: on the poll-interval field Left lowers the interval by 5 when it is above 5 and Right raises it by 5 when it is below 300, the status mirrors it, and nothing else changes |
| `Application.App.CloseSettings` | src/app/settings.rs:57-60 | the settings screen closes and the main view returns |
| `Application.App.NextSettingsField` | src/app/settings.rs:61-67 | the next field, stopping at the last; the list row resets to 0 only when the field changes |
| `Application.App.PrevSettingsField` | src/app/settings.rs:68-74 | the previous field, stopping at the first; the list row resets to 0 only when the field changes |
| `Application.App.SettingsEnter` | src/app/settings.rs:75-134 | `EnterDone`: auto-create flips; the remote cycles, reloading its branches and re-initialising the registry; the base branch cycles; the three text fields start editing their current value; in each case every other setting stays as it was |
| `Application.App.NextRemote` | src/app/settings.rs:83-98 | the remote after `CycleRemote`, its branches, and a re-initialised watcher |
| `Application.App.UpdateStatus` | src/app/actions.rs:211-218 | branch and worktree counts, auto-create and poll interval from their sources |
| `Setup.MoveUp` | src/app/setup.rs:285-307 | only the index or poll changes: poll up by 5 below 300, index up, auto-create toggled |
| `Setup.MoveDown` | src/app/setup.rs:308-331 | only the index or poll changes: poll down by 5 above 5, index down within the list (branches plus "auto") |
| `Setup.Typed` | src/app/setup.rs:332-343 | a character is appended at the two text steps (creating the command) and ignored elsewhere |
| `Setup.Erased` | src/app/setup.rs:344-359 | Backspace pops at the text steps, and an emptied command becomes None |
| `Setup.SetupKey` | src/app/setup.rs:285-360 | corrected editing keys: every character is typed at a text step; everything else as written |
| `Setup.TypingJOrKIsLost` | src/app/setup.rs:285-343 | as written, 'j' and 'k' cannot be typed into the directory or command |
| `Setup.EraseUndoesTyping` | src/app/setup.rs:332-359 | Backspace undoes a typed character |
| `Setup.SetupKeyKeepsBounds` | src/app/setup.rs:285-359 | the corrected editing keys keep the index in range, the poll a multiple of 5 in [5, 300] and the command non-empty when present |
| `Setup.SetupKeyAsWrittenKeepsBounds` | src/app/setup.rs:285-359 | the editing keys as written keep the same bounds |
| `Setup.NewSetupStateInRange` | src/app/state.rs:158-171 | the initial wizard is within those bounds |
| `Setup.BaseBranchAt` | src/app/setup.rs:397-402 | 0 is "(auto)", else the branch at index - 1 |
| `Setup.BaseBranchRow` | src/app/setup.rs:425-440 | the row of the configured base when listed, else "(auto)" |
| `Setup.Advance` | src/app/setup.rs:364-418 | one step forward; leaving each step stores its answer (remote, base branch, auto-create iff row 0) |
| `Setup.Back` | src/app/setup.rs:420-449 | one step back, none from `Remote`; only step and index change |
| `Setup.BackUndoesAdvance` | src/app/setup.rs:364-449 | going forward then back returns to the same step and row |
| `Settings.NextField` | src/app/settings.rs:61-67 | the next field, stopping at the last |
| `Settings.PrevField` | src/app/settings.rs:68-74 | the previous field, stopping at the first |
| `Settings.FieldMovesUndo` | src/app/settings.rs:61-74 | down then up, or up then down, away from the ends, returns to the field |
| `Settings.CycleRemote` | src/app/settings.rs:84-97 | the next remote, wrapping; from an unlisted one the second; none iff there are no remotes |
| `Settings.RemoteCycleVisitsAll` | src/app/settings.rs:84-97 | from the first remote, Enter visits every remote in order and returns to the first |
| `Settings.CycleRemoteStep` | src/app/settings.rs:84-97 | one press from a listed remote selects the next, or the first after the last |
| `Settings.CycleBaseBranch` | src/app/settings.rs:99-118 | "(auto)" to the first branch, a listed branch to the next, the last or an unlisted one to "(auto)" |
| `Settings.BaseBranchCycleVisitsAll` | src/app/settings.rs:99-118 | from "(auto)", Enter visits every branch in order, then "(auto)" again |
| `Settings.ClampPoll` | src/app/settings.rs:165 | `max(1).min(3600)` |
| `Settings.EditedPoll` | src/app/settings.rs:163-168 | unchanged when unparsable, else in [1, 3600] |
| `Settings.EditPollRoundTrip` | src/app/settings.rs:121-168 | accepting the text the editor starts with keeps a poll in [1, 3600] |
| `Settings.EditedCommand` | src/app/settings.rs:172-180 | None iff the text is empty, else the text |
| `Settings.EditCommandRoundTrip` | src/app/settings.rs:129-180 | accepting the text the editor starts with keeps a non-empty command |
| `Settings.PollLeft` | src/app/settings.rs:135-144 | 5 less only above 5 |
| `Settings.PollRight` | src/app/settings.rs:145-154 | 5 more only below 300 |
| `Settings.PollArrowsUndo` | src/app/settings.rs:135-154 | Left and Right undo each other away from the limits |
| `Settings.EditText` | src/app/settings.rs:45-52 | a character is appended, Backspace pops, other keys do nothing |
| `Settings.EditTextUndo` | src/app/settings.rs:45-52 | Backspace undoes a typed character |
| `Dialogs.DeleteConfirmKey` | src/app/handlers.rs:163-191 | deletes iff Enter with input "yes" in any case; Esc or deletion returns to `Main`; characters append, Backspace pops, other keys change nothing |
| `Dialogs.ConfirmWordIsYes` | src/app/handlers.rs:175 | the input lowercases to "yes" iff it is three letters y, e, s in either case |
| `Dialogs.DeleteInputUndo` | src/app/handlers.rs:181-188 | Backspace undoes a typed character |
| `Dialogs.SelectBaseKey` | src/app/handlers.rs:201-247 | step 1: Esc cancels, Up/Down move within the matches, typing and Backspace edit the filter and reset the index, Enter/Tab try `next_step` |
| `Dialogs.BranchNameKey` | src/app/handlers.rs:249-290 | step 2: Esc and Backspace on an empty name go back. Valid characters are appended and others dropped. Enter requests the worktree iff the name is non-empty and a base is chosen |
| `Dialogs.CreateDialogKey` | src/app/handlers.rs:194-292 | a request only from step 2's Enter, and the dialog closes iff a request is made or step 1 is cancelled |
| `Dialogs.NewDialogInvariant` | src/app/state.rs:58-72 | a new dialog satisfies the dialog invariant (index within the matches, a base chosen at step 2) |
| `Dialogs.DialogKeyKeepsInvariant` | src/app/handlers.rs:194-292 | every key keeps the dialog invariant |
| `Dialogs.SelectBaseKeepsInvariant` | src/app/handlers.rs:201-247 | step 1 keys keep it |
| `Dialogs.BranchNameKeepsInvariant` | src/app/handlers.rs:249-290 | step 2 keys keep it |
| `Dialogs.RequestIsValid` | src/app/handlers.rs:268-277 | a requested worktree has a non-empty name and a listed base |
| `Dialogs.EnterAdvancesIffMatch` | src/app/handlers.rs:232-236 | Enter at step 1 advances iff some branch matches the filter, choosing the highlighted one |
| `Dialogs.BranchNameUndo` | src/app/handlers.rs:258-286 | Backspace undoes a typed name character |

## Left out

- Threads, subprocesses and channels: the fetch thread, `CommandExecutor::run_sync`, `run_async` and `run_command_with_output` (src/executor.rs:38-157), and every `git` call. Their results are inputs (`Process.Run`, `Watching.Repo`, `Watching.HookFeed`). An mpsc channel is an `EventChannel` of queued events. Interleaving between threads is not modelled: each drain sees a hook's output as one finite queue.
- Glob matching (`glob::Pattern`) is the function `Repo.glob`, true when a pattern compiles and matches.
- `HashMap`/`HashSet` iteration order is unspecified in Rust: the model picks an arbitrary order (`:|`) and proves that the branch listing does not depend on it (`ListedUnique`).
- `Config::load`/`save` and JSON are not modelled. The `is_first_run` test (config file exists) is the `firstRun` parameter of `App.New`, which starts after the repository is found and the configuration loaded.
- The clock: `Utc::now` and `Instant` readings are the parameter `now`. One drain of `process_watcher_events` uses one `now`. Formatting of the last fetch time (src/ui/status.rs:48-64) is not modelled.
- Rendering: views.rs, help.rs, ui/mod.rs and the widgets' styling, so no member uses `TruncateAtBoundary` (it replaces `truncate_str` in the status bar's error span).
- The main, logs, help, error and mouse key handlers, `run`, `render`, and src/main.rs.
- `do_create_new_worktree`, `open_create_worktree`, `untrack_selected`, `open_selected_worktree` and `Repository::get_local_branches` are not defined in the files of this revision. `HandleCreateWorktreeKeys` therefore returns the requested worktree, and local branches are the input `Repo.localBranches`.
- `is_ignored`, `ignore_branch` and `unignore_branch`, which `toggle_track_selected` calls, are not defined in src/config.rs either. They are modelled as `should_ignore_branch`, `untrack_branch` and `track_branch`.
- `RemoteBranch` has an `isLocal` field, because src/watcher.rs:515 sets `is_local`; the struct in src/git/repository.rs:10-19 does not declare one.
- `WorktreeManager::prune` and `Config::get_worktree_mut` are not modelled: they are never called by the modelled code.
- src/app.rs, the older single-file version of the app, is not modelled.
- Logs.MaxScroll: `all_lines.len() as u16` wraps above 65535 lines; the contract is stated only for up to 65535 lines.
- Text.ToLower and the branch-name character test: only ASCII letters are case-folded, and `is_alphanumeric` is taken as ASCII letters and digits.
- Text.Trim: its own contract gives only the two ends and the length; that it keeps one slice and drops only whitespace is stated by `Text.TrimKeepsSlice` and `Text.TrimDropsWhitespace`.
- Text.TrimStartMatches: its own contract gives only a suffix that does not start with the pattern; that the removed part is whole copies of the pattern is `Text.TrimStartMatchesRepeats`.
- Text.Lines: its own contract gives only line-feed-free lines; which lines come out is stated by `Text.LinesOfTerminated`, `Text.LinesOfPlainLine` and `Text.LinesOfJoin`, for input whose lines hold no carriage return at their end.
- Text.Join: its own contract covers no part and one part; the general shape is `Text.JoinTerminates`.
- Text.SplitWhitespace: its own contract gives only whitespace-free, non-empty words; that the words are the input's runs, in order, is stated by `Text.SplitWhitespaceOfWord` and `Text.SplitWhitespaceOfJoin`, for input built from words and gaps.
- GitWorktree.NonBlank: its own contract gives only that each kept line is a non-blank input line; order is stated by `GitWorktree.NonBlankAppend` and `GitWorktree.PushNonBlank`, and the converse by `GitWorktree.NonBlankMembers`.
- Text.IsWhitespace is Unicode's White_Space set, as `char::is_whitespace` uses; only case folding and `is_alphanumeric` are restricted to ASCII.
- Counters that are `usize` in the source (`running_hooks`, indices) are unbounded `nat`s; only the saturating subtraction is written out.
- Application.App.DoDeleteWorktree: the repository after the removal is a second `Repo` value, `after`, because `Repo` is one snapshot.
- Application.App.ProcessWatcherEvents: one `Repo` value serves the whole drain, so a worktree created during the drain is not seen by the listings and counts refreshed later in that drain. The drain's contract states which hooks are drained and which events are handled, in what order; it does not state the drain's combined effect on the watcher, the status or the rows. Each turn is `ReceiveAndHandle`, whose contract states that turn's effect (`EventHandled`); the turns are not composed into one function, because the configuration they read changes during the drain.
- GitWorktree.LastSlash: the parent directory is taken as the text before the last '/'. `Path::parent` first drops a trailing separator and gives "/" for a child of the root; the two differ only for such paths, which `get_worktree_path` does not produce, and only the "Failed to create parent directory" outcome depends on it.
- Application.App.HandleSetupKeys runs the editing keys as the source does (`Setup.SetupKeyAsWritten`, where j and k always move). The corrected `Setup.SetupKey` and its bounds lemma stand beside it and are not wired into the app.
- Application.App.New: the missing-remote error view is stated only by the start of its message ("Remote '<r>' not found."). `Application.StartView` states the whole message.

## Findings

| source | as written | input that shows it | evidently intended | confidence | as-written member | corrected member |
|---|---|---|---|---|---|---|
| src/ui/status.rs:148-154 | `&s[..max_len.saturating_sub(3)]` cuts at a byte offset, which panics when the offset falls inside a multi-byte character | the status bar's error "aaa…a" (36 × 'a') + "é" + "xyz", limit 40: the cut at byte 37 is inside "é" | cut at the last character boundary at or below `max_len - 3` | not executed | `Status.StatusBarPanics` | `Status.TruncateAtBoundary` |
| src/app/setup.rs:285-343 | `KeyCode::Char('k')` and `KeyCode::Char('j')` are matched as Up/Down before the typing arm, at every step | at the WorktreeBaseDir step, typing "../projects" stores "../proects" | characters are typed at the two text steps; j/k move only at the list steps | not executed | `Setup.TypingJOrKIsLost` | `Setup.SetupKey` |
