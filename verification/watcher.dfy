// The background watcher (src/watcher.rs): fetch classification, the branch
// registry, the sequential worktree-creation queue and post-create hooks.
//
// The watcher's state is a class whose methods are proved equal to step
// functions over `WatcherState`, the value of the class at one moment; the
// properties of the watcher are lemmas about those step functions.
module Watching {
  import opened Util
  import opened Text
  import opened Process
  import opened Executor
  import opened Configuration
  import opened GitRepository
  import opened GitWorktree

  datatype WatcherEvent =
    | FetchStarted
    | FetchCompleted(output: Option<string>)
    | FetchFailed(message: string)
    | NewBranchesFound(branches: seq<string>)
    | WorktreeCreating(branch: string)
    | WorktreeCreated(branch: string, path: string)
    | WorktreeCreateFailed(branch: string, message: string)
    | HookStarted(branch: string)
    | HookOutput(branch: string, item: CommandOutput)
    | HookCompleted(branch: string, code: int)

  /** The watcher's mpsc channel, with the events it holds in order. */
  class EventChannel {
    var queue: seq<WatcherEvent>

    constructor ()
      ensures queue == []
    {
      queue := [];
    }

    method Send(e: WatcherEvent)
      modifies this
      ensures queue == old(queue) + [e]
    {
      queue := queue + [e];
    }

    /** `try_recv`: the oldest event, or nothing when the channel is empty. */
    method TryRecv() returns (e: Option<WatcherEvent>)
      modifies this
      ensures old(queue) == [] ==> e == None && queue == []
      ensures old(queue) != [] ==> e == Some(old(queue)[0]) && queue == old(queue)[1..]
    {
      if queue == [] {
        e := None;
      } else {
        e := Some(queue[0]);
        queue := queue[1..];
      }
    }
  }

  /**
   * What the repository answers to the git commands the program runs: the
   * `for-each-ref` listing per remote, the local branches, the worktree
   * listing, the outcome of `git worktree add` per branch, `git remote`,
   * whether a remote exists, the three commands `get_default_branch` tries
   * (per remote where the remote is part of the command), and
   * `git worktree remove` per path. Glob matching of ignore patterns is part
   * of it.
   */
  datatype Repo = Repo(
    root: string,
    remoteListing: string -> Run,
    localBranches: Result<seq<RemoteBranch>>,
    worktreeListing: Run,
    creation: string -> CreateScenario,
    glob: GlobMatcher,
    remotes: Run,
    remoteExists: string -> bool,
    symbolicRef: string -> Run,
    remoteBranchList: Run,
    currentBranch: Run,
    removal: string -> Run)

  // ---------------------------------------------------------------------
  // Fetch output classification (the body of the fetch thread)
  // ---------------------------------------------------------------------

  /** Non-blank trimmed lines of stderr, then of stdout. */
  function FetchMessages(stdout: string, stderr: string): seq<string>
  {
    NonBlankTrimmed(Lines(stderr) + Lines(stdout))
  }

  /** The optional message of `FetchCompleted`: none when there is nothing to say. */
  function FetchSummary(stdout: string, stderr: string): (r: Option<string>)
    ensures r.None? <==> FetchMessages(stdout, stderr) == []
  {
    var msgs := FetchMessages(stdout, stderr);
    if msgs == [] then None else Some(Join(msgs, "\n"))
  }

  /** A stderr line that is more than git's usual chatter. */
  predicate IsRealErrorLine(line: string)
  {
    var l := ToLower(Trim(line));
    l != [] && !StartsWith(l, "warning") && !Contains(l, "post-quantum")
    && !StartsWith(l, "hint:") && !StartsWith(l, "from ")
  }

  predicate HasRealError(stderr: string)
  {
    exists k :: 0 <= k < |Lines(stderr)| && IsRealErrorLine(Lines(stderr)[k])
  }

  /**
   * The event the fetch thread sends for its run of `git fetch --prune`:
   * a failing exit counts as a failure only when stderr holds a real error.
   */
  function FetchOutcome(run: Run): (e: WatcherEvent)
    ensures e.FetchCompleted? || e.FetchFailed?
    ensures e.FetchFailed? <==> run.SpawnFailed? || (!run.success && HasRealError(run.stderr))
    ensures run.SpawnFailed? ==> e == FetchFailed(run.reason)
    ensures run.Exited? && e.FetchFailed? ==> e.message == run.stderr
    ensures run.Exited? && e.FetchCompleted? ==> e.output == FetchSummary(run.stdout, run.stderr)
  {
    match run
    case SpawnFailed(reason) => FetchFailed(reason)
    case Exited(success, _, stdout, stderr) =>
      if !success && HasRealError(stderr) then FetchFailed(stderr)
      else FetchCompleted(FetchSummary(stdout, stderr))
  }

  // ---------------------------------------------------------------------
  // The branch registry
  // ---------------------------------------------------------------------

  function Names(bs: seq<RemoteBranch>): set<string>
  {
    set b | b in bs :: b.name
  }

  /** Every registry entry is stored under its own name. */
  predicate KeysNamed(known: map<string, RemoteBranch>)
  {
    forall n :: n in known ==> known[n].name == n
  }

  /** Inserting each branch under its name, later ones overwriting earlier ones. */
  function InsertAll(known: map<string, RemoteBranch>, bs: seq<RemoteBranch>): map<string, RemoteBranch>
    decreases |bs|
  {
    if bs == [] then known
    else
      var b := bs[|bs| - 1];
      InsertAll(known, bs[..|bs| - 1])[b.name := b]
  }

  /** Inserting each branch under its name unless the name is already present. */
  function InsertAbsent(known: map<string, RemoteBranch>, bs: seq<RemoteBranch>): map<string, RemoteBranch>
    decreases |bs|
  {
    if bs == [] then known
    else
      var m := InsertAbsent(known, bs[..|bs| - 1]);
      var b := bs[|bs| - 1];
      if b.name in m then m else m[b.name := b]
  }

  lemma NamesOfPrefix(bs: seq<RemoteBranch>)
    requires bs != []
    ensures Names(bs) == Names(bs[..|bs| - 1]) + {bs[|bs| - 1].name}
  {
    var init := bs[..|bs| - 1];
    assert bs == init + [bs[|bs| - 1]];
    forall n | n in Names(bs)
      ensures n in Names(init) + {bs[|bs| - 1].name}
    {
      var b :| b in bs && b.name == n;
      var k :| 0 <= k < |bs| && bs[k] == b;
      if k < |bs| - 1 { assert init[k] == b; }
    }
  }

  /** Overwriting insertion: every name ends up present, with a record from `bs` carrying it. */
  lemma {:induction false} InsertAllSpec(known: map<string, RemoteBranch>, bs: seq<RemoteBranch>)
    ensures InsertAll(known, bs).Keys == known.Keys + Names(bs)
    ensures forall n :: n in Names(bs) ==> InsertAll(known, bs)[n] in bs && InsertAll(known, bs)[n].name == n
    ensures forall n :: n in known && n !in Names(bs) ==> InsertAll(known, bs)[n] == known[n]
    decreases |bs|
  {
    if bs != [] {
      var init := bs[..|bs| - 1];
      InsertAllSpec(known, init);
      NamesOfPrefix(bs);
    }
  }

  /** Non-overwriting insertion: existing entries keep their record, new names get one from `bs`. */
  lemma {:induction false} InsertAbsentSpec(known: map<string, RemoteBranch>, bs: seq<RemoteBranch>)
    ensures InsertAbsent(known, bs).Keys == known.Keys + Names(bs)
    ensures forall n :: n in known ==> InsertAbsent(known, bs)[n] == known[n]
    ensures forall n :: n in InsertAbsent(known, bs) && n !in known ==>
              InsertAbsent(known, bs)[n] in bs && InsertAbsent(known, bs)[n].name == n
    decreases |bs|
  {
    if bs != [] {
      var init := bs[..|bs| - 1];
      InsertAbsentSpec(known, init);
      NamesOfPrefix(bs);
    }
  }

  /**
   * `init`: remote records win over local ones, and every name of either
   * listing is registered under its own name.
   */
  lemma RemoteTakesPrecedence(known: map<string, RemoteBranch>, remote: seq<RemoteBranch>, local: seq<RemoteBranch>)
    requires KeysNamed(known)
    ensures var r := InsertAbsent(InsertAll(known, remote), local);
            KeysNamed(r) && r.Keys == known.Keys + Names(remote) + Names(local) &&
            forall n :: n in Names(remote) ==> r[n] in remote
  {
    InsertAllSpec(known, remote);
    InsertAbsentSpec(InsertAll(known, remote), local);
  }

  /**
   * The names `on_fetch_complete` reports: remote names not registered
   * before, first occurrence only, without the ignored ones, in scan order.
   */
  function NewNames(known: map<string, RemoteBranch>, bs: seq<RemoteBranch>, config: Config, glob: GlobMatcher): seq<string>
    reads config
    decreases |bs|
  {
    if bs == [] then []
    else
      var init := bs[..|bs| - 1];
      var b := bs[|bs| - 1];
      NewNames(known, init, config, glob)
      + (if b.name !in InsertAbsent(known, init) && !config.ShouldIgnoreBranch(b.name, glob) then [b.name] else [])
  }

  lemma {:induction false} NewNamesSpec(known: map<string, RemoteBranch>, bs: seq<RemoteBranch>, config: Config, glob: GlobMatcher)
    ensures forall x :: x in NewNames(known, bs, config, glob) <==>
              x !in known && x in Names(bs) && !config.ShouldIgnoreBranch(x, glob)
    ensures NoDup(NewNames(known, bs, config, glob))
    decreases |bs|
  {
    if bs != [] {
      var init := bs[..|bs| - 1];
      NewNamesSpec(known, init, config, glob);
      InsertAbsentSpec(known, init);
      NamesOfPrefix(bs);
    }
  }

  /** The registry after a scan: local names added where absent, vanished names dropped. */
  function Rescanned(known: map<string, RemoteBranch>, remote: seq<RemoteBranch>, local: seq<RemoteBranch>): map<string, RemoteBranch>
  {
    var merged := InsertAbsent(InsertAbsent(known, remote), local);
    var current := Names(remote) + Names(local);
    map n | n in merged && n in current :: merged[n]
  }

  /**
   * After a scan the registry holds exactly the listed names; entries that
   * survive keep their old record, and new ones come from the listings with
   * remote records first.
   */
  lemma RescannedSpec(known: map<string, RemoteBranch>, remote: seq<RemoteBranch>, local: seq<RemoteBranch>)
    requires KeysNamed(known)
    ensures var r := Rescanned(known, remote, local);
            KeysNamed(r) &&
            r.Keys == Names(remote) + Names(local) &&
            (forall n :: n in r && n in known ==> r[n] == known[n]) &&
            (forall n :: n in r && n !in known && n in Names(remote) ==> r[n] in remote)
  {
    InsertAbsentSpec(known, remote);
    InsertAbsentSpec(InsertAbsent(known, remote), local);
  }

  // ---------------------------------------------------------------------
  // The watcher state and its steps
  // ---------------------------------------------------------------------

  /** A running hook: its command line and working directory. */
  datatype HookProcess = HookProcess(command: string, workingDir: string)

  /** What a hook's output channel yields when drained: its items, and whether it has hung up. */
  datatype HookFeed = HookFeed(outputs: seq<CommandOutput>, disconnected: bool)

  datatype WatcherState = WatcherState(
    known: map<string, RemoteBranch>,
    hooks: map<string, HookProcess>,
    logs: seq<LogRecord>,
    fetching: bool,
    pending: seq<string>,
    current: Option<string>)

  /** A step's new state and the events it sent, in order. */
  datatype Step = Step(state: WatcherState, events: seq<WatcherEvent>)

  /**
   * The queue keeps no duplicate, a branch in progress always has its hook
   * running, and the registry is keyed by name.
   */
  predicate Invariant(s: WatcherState)
  {
    NoDup(s.pending) && (s.current.Some? ==> s.current.value in s.hooks) && KeysNamed(s.known)
  }

  function SystemLogStart(remote: string): LogRecord
  {
    LogRecord("fetch:" + remote, "git fetch --prune " + remote, [], true, None, true)
  }

  function StdoutLines(lines: seq<string>): (r: seq<CommandOutput>)
    ensures |r| == |lines| && forall i :: 0 <= i < |lines| ==> r[i] == Stdout(lines[i])
  {
    seq(|lines|, i requires 0 <= i < |lines| => Stdout(lines[i]))
  }

  /** `add_fetch_log`: each output line as stdout, then a zero exit. */
  function FetchLogRecord(remote: string, output: string): LogRecord
  {
    WithOutputs(SystemLogStart(remote), StdoutLines(Lines(output)) + [Exit(0)])
  }

  /** `add_fetch_success_log` */
  function FetchSuccessRecord(remote: string): LogRecord
  {
    WithOutputs(SystemLogStart(remote), [Stdout("Fetch successful"), Exit(0)])
  }

  /** Lines that start with "ERROR:" go to stderr, the others to stdout. */
  function MessageOutput(line: string): (o: CommandOutput)
    ensures o.Stderr? <==> StartsWith(line, "ERROR:")
    ensures o.Stderr? || o.Stdout?
    ensures o.line == line
  {
    if StartsWith(line, "ERROR:") then Stderr(line) else Stdout(line)
  }

  function MessageOutputs(msgs: seq<string>): (r: seq<CommandOutput>)
    ensures |r| == |msgs| && forall i :: 0 <= i < |msgs| ==> r[i] == MessageOutput(msgs[i])
  {
    seq(|msgs|, i requires 0 <= i < |msgs| => MessageOutput(msgs[i]))
  }

  /** `add_worktree_log` */
  function WorktreeLogRecord(branch: string, msgs: seq<string>): LogRecord
  {
    WithOutputs(LogRecord(branch, "git worktree add (" + branch + ")", [], true, None, false),
                MessageOutputs(msgs) + [Exit(0)])
  }

  /** A worktree log is the branch's, holds one item per message and has finished with code 0. */
  lemma WorktreeLogFinished(branch: string, msgs: seq<string>)
    ensures var r := WorktreeLogRecord(branch, msgs);
            r.branch == branch && !r.isSystemLog && !r.isRunning && r.exitCode == Some(0) &&
            |r.output| == |msgs| + 1 &&
            forall i :: 0 <= i < |msgs| ==> (r.output[i].Stderr? <==> StartsWith(msgs[i], "ERROR:"))
  {
    var outs := MessageOutputs(msgs) + [Exit(0)];
    WithOutputsEffect(LogRecord(branch, "git worktree add (" + branch + ")", [], true, None, false), outs);
    assert LastTerminalCode(outs) == Some(0);
  }

  /** `CommandLog::new(branch, command)` */
  function CommandRecord(branch: string, command: string): LogRecord
  {
    LogRecord(branch, command, [], true, None, false)
  }

  /** `run_hook`: a fresh running log for the hook, and the hook registered under its branch. */
  function RunHookState(s: WatcherState, branch: string, command: string, path: string): WatcherState
  {
    s.(logs := s.logs + [CommandRecord(branch, command)], hooks := s.hooks[branch := HookProcess(command, path)])
  }

  function CreationOutcome(repo: Repo, config: Config, branch: string): Result<seq<string>>
    reads config
  {
    CreateOutcome(branch, config.GetWorktreePath(repo.root, branch), config.remoteName, repo.creation(branch))
  }

  /** What `create_worktree` does once `git worktree add` has given its outcome. */
  function AfterCreate(s: WatcherState, branch: string, path: string, outcome: Result<seq<string>>,
                       hook: Option<string>): Step
  {
    match outcome
    case Err(e) => Step(s.(current := None), [WorktreeCreateFailed(branch, e)])
    case Ok(msgs) =>
      var s1 := s.(logs := s.logs + [WorktreeLogRecord(branch, msgs)]);
      match hook
      case None => Step(s1.(current := None), [WorktreeCreated(branch, path)])
      case Some(cmd) => Step(RunHookState(s1, branch, cmd, path), [WorktreeCreated(branch, path), HookStarted(branch)])
  }

  /** `create_worktree` */
  function CreateStep(s: WatcherState, repo: Repo, config: Config, branch: string): Step
    reads config
  {
    var path := config.GetWorktreePath(repo.root, branch);
    var st := AfterCreate(s, branch, path, CreationOutcome(repo, config, branch), config.postCreateCommand);
    Step(st.state, [WorktreeCreating(branch)] + st.events)
  }

  /** `process_next_branch`: the head of the queue becomes current and its worktree is created. */
  function ProcessNextStep(s: WatcherState, repo: Repo, config: Config): Step
    reads config
  {
    if s.pending == [] then Step(s.(current := None), [])
    else CreateStep(s.(pending := s.pending[1..], current := Some(s.pending[0])), repo, config, s.pending[0])
  }

  /** `queue_branch` */
  function QueueStep(s: WatcherState, repo: Repo, config: Config, branch: string): Step
    reads config
  {
    if branch in s.pending || s.current == Some(branch) then Step(s, [])
    else
      var s1 := s.(pending := s.pending + [branch]);
      if s1.current.None? then ProcessNextStep(s1, repo, config) else Step(s1, [])
  }

  /** `try_process_next` */
  function TryProcessNextStep(s: WatcherState, repo: Repo, config: Config): Step
    reads config
  {
    if s.current.None? && s.pending != [] then ProcessNextStep(s, repo, config) else Step(s, [])
  }

  /** `has_worktree_for_branch(..).unwrap_or(false)` */
  predicate HasWorktree(repo: Repo, branch: string)
  {
    var r := HasWorktreeOutcome(repo.worktreeListing, branch);
    r.Ok? && r.value
  }

  /** The auto-create loop: each new name not ignored, without a worktree and not yet queued is appended. */
  function AutoQueue(pending: seq<string>, names: seq<string>, repo: Repo, config: Config): seq<string>
    reads config
    decreases |names|
  {
    if names == [] then pending
    else
      var p := AutoQueue(pending, names[..|names| - 1], repo, config);
      var b := names[|names| - 1];
      if config.ShouldIgnoreBranch(b, repo.glob) || HasWorktree(repo, b) || b in p then p else p + [b]
  }

  /**
   * Auto-queueing only appends (the existing queue is kept in order in front),
   * never creates a duplicate, and queues exactly the eligible names.
   */
  lemma {:induction false} AutoQueueSpec(pending: seq<string>, names: seq<string>, repo: Repo, config: Config)
    requires NoDup(pending)
    ensures var r := AutoQueue(pending, names, repo, config);
            |r| >= |pending| && r[..|pending|] == pending && NoDup(r) &&
            forall x :: x in r <==>
              x in pending || (x in names && !config.ShouldIgnoreBranch(x, repo.glob) && !HasWorktree(repo, x))
    decreases |names|
  {
    if names != [] {
      var init := names[..|names| - 1];
      AutoQueueSpec(pending, init, repo, config);
      assert names == init + [names[|names| - 1]];
      var p := AutoQueue(pending, init, repo, config);
      var b := names[|names| - 1];
      if !(config.ShouldIgnoreBranch(b, repo.glob) || HasWorktree(repo, b) || b in p) {
        assert (p + [b])[..|pending|] == p[..|pending|];
      }
    }
  }

  function LocalsOrEmpty(repo: Repo): seq<RemoteBranch>
  {
    if repo.localBranches.Ok? then repo.localBranches.value else []
  }

  /** `on_fetch_complete`, apart from the timestamp it stores in the configuration. */
  function FetchCompleteStep(s: WatcherState, repo: Repo, config: Config): Step
    reads config
  {
    var s0 := s.(fetching := false);
    match RemoteBranchesOutcome(repo.remoteListing(config.remoteName), config.remoteName)
    case Err(_) => Step(s0, [])
    case Ok(remote) => ScanStep(s0, remote, LocalsOrEmpty(repo), repo, config)
  }

  /** `on_fetch_complete` once the remote listing has been read. */
  function ScanStep(s: WatcherState, remote: seq<RemoteBranch>, local: seq<RemoteBranch>, repo: Repo, config: Config): Step
    reads config
  {
    var newNames := NewNames(s.known, remote, config, repo.glob);
    var s1 := s.(known := Rescanned(s.known, remote, local));
    if newNames == [] then Step(s1, [])
    else if !config.autoCreateWorktrees then Step(s1, [NewBranchesFound(newNames)])
    else
      var st := AutoCreateStep(s1, newNames, repo, config);
      Step(st.state, [NewBranchesFound(newNames)] + st.events)
  }

  /** The auto-create pass: eligible new names are queued, and processing starts when idle. */
  function AutoCreateStep(s: WatcherState, newNames: seq<string>, repo: Repo, config: Config): Step
    reads config
  {
    TryProcessNextStep(s.(pending := AutoQueue(s.pending, newNames, repo, config)), repo, config)
  }

  // -- hooks ---------------------------------------------------------------

  function FeedOf(feeds: map<string, HookFeed>, branch: string): HookFeed
  {
    if branch in feeds then feeds[branch] else HookFeed([], false)
  }

  /** The event for one drained hook output. */
  function HookEvent(branch: string, o: CommandOutput): (e: WatcherEvent)
    ensures e.HookCompleted? <==> o.IsTerminal()
    ensures e.HookCompleted? ==> e.branch == branch && e.code == TerminalCode(o)
    ensures !o.IsTerminal() ==> e == HookOutput(branch, o)
  {
    match o
    case Exit(c) => HookCompleted(branch, c)
    case Error(_) => HookCompleted(branch, -1)
    case _ => HookOutput(branch, o)
  }

  function HookEvents(branch: string, outs: seq<CommandOutput>): (r: seq<WatcherEvent>)
    ensures |r| == |outs| && forall i :: 0 <= i < |outs| ==> r[i] == HookEvent(branch, outs[i])
  {
    seq(|outs|, i requires 0 <= i < |outs| => HookEvent(branch, outs[i]))
  }

  predicate HasTerminal(outs: seq<CommandOutput>)
  {
    exists k :: 0 <= k < |outs| && outs[k].IsTerminal()
  }

  lemma HookEventsSnoc(branch: string, outs: seq<CommandOutput>, o: CommandOutput)
    ensures HookEvents(branch, outs + [o]) == HookEvents(branch, outs) + [HookEvent(branch, o)]
  {
  }

  lemma HasTerminalSnoc(outs: seq<CommandOutput>, o: CommandOutput)
    ensures HasTerminal(outs + [o]) <==> HasTerminal(outs) || o.IsTerminal()
  {
    if o.IsTerminal() {
      assert (outs + [o])[|outs|] == o;
    }
    if HasTerminal(outs) {
      var t :| 0 <= t < |outs| && outs[t].IsTerminal();
      assert (outs + [o])[t] == outs[t];
    }
    if HasTerminal(outs + [o]) {
      var t :| 0 <= t < |outs| + 1 && (outs + [o])[t].IsTerminal();
      if t < |outs| {
        assert outs[t] == (outs + [o])[t];
      }
    }
  }

  /** A hook is complete once it has reported an exit or an error, or its channel has hung up. */
  predicate Completes(feed: HookFeed)
  {
    feed.disconnected || HasTerminal(feed.outputs)
  }

  /** The index of the newest log of the branch, or -1. */
  function LastLogFor(logs: seq<LogRecord>, branch: string): (k: int)
    ensures -1 <= k < |logs|
    ensures k >= 0 ==> logs[k].branch == branch
    ensures forall j :: k < j < |logs| ==> logs[j].branch != branch
    decreases |logs|
  {
    if logs == [] then -1
    else if logs[|logs| - 1].branch == branch then |logs| - 1
    else LastLogFor(logs[..|logs| - 1], branch)
  }

  /** The logs after the drained outputs of one hook went to the branch's newest log. */
  function FeedLogs(logs: seq<LogRecord>, branch: string, outs: seq<CommandOutput>): seq<LogRecord>
  {
    var k := LastLogFor(logs, branch);
    if k < 0 then logs else logs[k := WithOutputs(logs[k], outs)]
  }

  datatype Drain = Drain(logs: seq<LogRecord>, events: seq<WatcherEvent>, done: set<string>)

  /** Draining the hooks in the given order. */
  function DrainAll(logs: seq<LogRecord>, feeds: map<string, HookFeed>, order: seq<string>): Drain
    decreases |order|
  {
    if order == [] then Drain(logs, [], {})
    else
      var d := DrainAll(logs, feeds, order[..|order| - 1]);
      var b := order[|order| - 1];
      var feed := FeedOf(feeds, b);
      Drain(FeedLogs(d.logs, b, feed.outputs),
            d.events + HookEvents(b, feed.outputs),
            if Completes(feed) then d.done + {b} else d.done)
  }

  lemma {:induction false} DrainDone(logs: seq<LogRecord>, feeds: map<string, HookFeed>, order: seq<string>)
    ensures forall x :: x in DrainAll(logs, feeds, order).done <==> x in order && Completes(FeedOf(feeds, x))
    decreases |order|
  {
    if order != [] {
      DrainDone(logs, feeds, order[..|order| - 1]);
      assert order == order[..|order| - 1] + [order[|order| - 1]];
    }
  }

  /** `check_running_hooks`, visiting the hooks in the given order. */
  function HooksStep(s: WatcherState, feeds: map<string, HookFeed>, order: seq<string>): Step
  {
    var d := DrainAll(s.logs, feeds, order);
    Step(s.(logs := d.logs,
            hooks := map b | b in s.hooks && b !in d.done :: s.hooks[b],
            current := if s.current.Some? && s.current.value in d.done then None else s.current),
         d.events)
  }

  /**
   * Completed hooks leave the running set, the others stay; the branch in
   * progress is released exactly when its own hook completed.
   */
  lemma HooksStepSpec(s: WatcherState, feeds: map<string, HookFeed>, order: seq<string>)
    requires forall b :: b in order <==> b in s.hooks
    ensures var t := HooksStep(s, feeds, order).state;
            (forall b :: b in t.hooks <==> b in s.hooks && !Completes(FeedOf(feeds, b))) &&
            (forall b :: b in t.hooks ==> t.hooks[b] == s.hooks[b]) &&
            (s.current.Some? && s.current.value in s.hooks ==>
               (t.current.None? <==> Completes(FeedOf(feeds, s.current.value)))) &&
            (s.current.None? ==> t.current.None?) &&
            t.pending == s.pending && t.known == s.known && t.fetching == s.fetching
  {
    DrainDone(s.logs, feeds, order);
  }

  // -- properties of the steps ----------------------------------------------

  /**
   * `create_worktree` announces the creation first and then exactly one of
   * success or failure; the branch stays current only once its hook runs.
   */
  lemma CreateStepSpec(s: WatcherState, repo: Repo, config: Config, branch: string)
    ensures var st := CreateStep(s, repo, config, branch);
            var ok := CreationOutcome(repo, config, branch).Ok?;
            |st.events| >= 2 && st.events[0] == WorktreeCreating(branch) &&
            (st.events[1].WorktreeCreated? <==> ok) &&
            (st.events[1].WorktreeCreateFailed? <==> !ok) &&
            (forall i :: 2 <= i < |st.events| ==> st.events[i] == HookStarted(branch)) &&
            (st.state.current.Some? <==> ok && config.postCreateCommand.Some? && s.current.Some?) &&
            (st.state.current.Some? ==> st.state.current == s.current && branch in st.state.hooks) &&
            st.state.pending == s.pending && st.state.known == s.known && st.state.fetching == s.fetching
  {
    var path := config.GetWorktreePath(repo.root, branch);
    var outcome := CreationOutcome(repo, config, branch);
    AfterCreateSpec(s, branch, path, outcome, config.postCreateCommand);
    var after := AfterCreate(s, branch, path, outcome, config.postCreateCommand);
    var st := CreateStep(s, repo, config, branch);
    assert st.events == [WorktreeCreating(branch)] + after.events && st.state == after.state;
    assert forall i :: 2 <= i < |st.events| ==> st.events[i] == after.events[i - 1];
  }

  /** After `git worktree add`: one success or failure event, then the hook's start when one runs. */
  lemma AfterCreateSpec(s: WatcherState, branch: string, path: string, outcome: Result<seq<string>>, hook: Option<string>)
    ensures var st := AfterCreate(s, branch, path, outcome, hook);
            |st.events| >= 1 &&
            (st.events[0].WorktreeCreated? <==> outcome.Ok?) &&
            (st.events[0].WorktreeCreateFailed? <==> outcome.Err?) &&
            (forall i :: 1 <= i < |st.events| ==> st.events[i] == HookStarted(branch)) &&
            (st.state.current.Some? <==> outcome.Ok? && hook.Some? && s.current.Some?) &&
            (st.state.current.Some? ==> st.state.current == s.current && branch in st.state.hooks) &&
            st.state.pending == s.pending && st.state.known == s.known && st.state.fetching == s.fetching
  {
  }

  /** A creation started from the queue never leaves a branch current without its hook. */
  lemma CreateStepInvariant(s: WatcherState, repo: Repo, config: Config, branch: string)
    requires NoDup(s.pending) && KeysNamed(s.known) && s.current == Some(branch)
    ensures Invariant(CreateStep(s, repo, config, branch).state)
  {
    CreateStepSpec(s, repo, config, branch);
  }

  lemma ProcessNextStepInvariant(s: WatcherState, repo: Repo, config: Config)
    requires NoDup(s.pending) && KeysNamed(s.known)
    ensures Invariant(ProcessNextStep(s, repo, config).state)
  {
    if s.pending != [] {
      CreateStepInvariant(s.(pending := s.pending[1..], current := Some(s.pending[0])), repo, config, s.pending[0]);
    }
  }

  /**
   * `queue_branch` does nothing for a branch already queued or current; it
   * otherwise appends, and when idle starts on the head of the queue (FIFO).
   */
  lemma QueueStepSpec(s: WatcherState, repo: Repo, config: Config, branch: string)
    ensures branch in s.pending || s.current == Some(branch) ==> QueueStep(s, repo, config, branch) == Step(s, [])
    ensures branch !in s.pending && s.current.Some? && s.current != Some(branch) ==>
              QueueStep(s, repo, config, branch) == Step(s.(pending := s.pending + [branch]), [])
    ensures branch !in s.pending && s.current.None? ==>
              var q := s.pending + [branch];
              var st := QueueStep(s, repo, config, branch);
              st.events[0] == WorktreeCreating(q[0]) && st.state.pending == q[1..]
  {
    if branch !in s.pending && s.current.None? {
      var q := s.pending + [branch];
      CreateStepSpec(s.(pending := q[1..], current := Some(q[0])), repo, config, q[0]);
    }
  }

  lemma QueueStepInvariant(s: WatcherState, repo: Repo, config: Config, branch: string)
    requires Invariant(s)
    ensures Invariant(QueueStep(s, repo, config, branch).state)
  {
    if !(branch in s.pending || s.current == Some(branch)) {
      var s1 := s.(pending := s.pending + [branch]);
      assert NoDup(s1.pending);
      if s1.current.None? {
        ProcessNextStepInvariant(s1, repo, config);
      }
    }
  }

  lemma TryProcessNextStepInvariant(s: WatcherState, repo: Repo, config: Config)
    requires Invariant(s)
    ensures Invariant(TryProcessNextStep(s, repo, config).state)
  {
    if s.current.None? && s.pending != [] {
      ProcessNextStepInvariant(s, repo, config);
    }
  }

  /** Auto-creation keeps the invariant and touches neither the registry nor the fetch flag. */
  lemma AutoCreateStepSpec(s: WatcherState, names: seq<string>, repo: Repo, config: Config)
    requires Invariant(s)
    ensures var st := AutoCreateStep(s, names, repo, config);
            Invariant(st.state) && st.state.known == s.known && st.state.fetching == s.fetching
  {
    var s2 := s.(pending := AutoQueue(s.pending, names, repo, config));
    AutoQueueSpec(s.pending, names, repo, config);
    TryProcessNextStepInvariant(s2, repo, config);
    if s2.current.None? && s2.pending != [] {
      CreateStepSpec(s2.(pending := s2.pending[1..], current := Some(s2.pending[0])), repo, config, s2.pending[0]);
    }
  }

  /** The scan replaces the registry and reports new names first, and only when there are some. */
  lemma ScanStepSpec(s: WatcherState, remote: seq<RemoteBranch>, local: seq<RemoteBranch>, repo: Repo, config: Config)
    requires Invariant(s)
    ensures var st := ScanStep(s, remote, local, repo, config);
            var newNames := NewNames(s.known, remote, config, repo.glob);
            Invariant(st.state) && st.state.fetching == s.fetching &&
            st.state.known == Rescanned(s.known, remote, local) &&
            (newNames == [] <==> st.events == []) &&
            (newNames != [] ==> st.events[0] == NewBranchesFound(newNames))
  {
    RescannedSpec(s.known, remote, local);
    var newNames := NewNames(s.known, remote, config, repo.glob);
    if newNames != [] && config.autoCreateWorktrees {
      AutoCreateStepSpec(s.(known := Rescanned(s.known, remote, local)), newNames, repo, config);
    }
  }

  /**
   * `on_fetch_complete`: the flag is cleared in every case; a failed scan
   * changes nothing else; otherwise the registry holds exactly the listed
   * names, surviving entries keep their record, and `NewBranchesFound`
   * carries exactly the unknown, non-ignored remote names and is sent first,
   * and only when there are some.
   */
  lemma FetchCompleteSpec(s: WatcherState, repo: Repo, config: Config)
    requires Invariant(s)
    ensures !FetchCompleteStep(s, repo, config).state.fetching
    ensures var scan := RemoteBranchesOutcome(repo.remoteListing(config.remoteName), config.remoteName);
            scan.Err? ==> FetchCompleteStep(s, repo, config) == Step(s.(fetching := false), [])
    ensures var scan := RemoteBranchesOutcome(repo.remoteListing(config.remoteName), config.remoteName);
            var st := FetchCompleteStep(s, repo, config);
            scan.Ok? ==>
              var newNames := NewNames(s.known, scan.value, config, repo.glob);
              st.state.known.Keys == Names(scan.value) + Names(LocalsOrEmpty(repo)) &&
              (forall n :: n in st.state.known && n in s.known ==> st.state.known[n] == s.known[n]) &&
              (forall x :: x in newNames <==>
                 x !in s.known && x in Names(scan.value) && !config.ShouldIgnoreBranch(x, repo.glob)) &&
              (newNames == [] <==> st.events == []) &&
              (newNames != [] ==> st.events[0] == NewBranchesFound(newNames))
    ensures Invariant(FetchCompleteStep(s, repo, config).state)
  {
    var scan := RemoteBranchesOutcome(repo.remoteListing(config.remoteName), config.remoteName);
    if scan.Ok? {
      NewNamesSpec(s.known, scan.value, config, repo.glob);
      RescannedSpec(s.known, scan.value, LocalsOrEmpty(repo));
      ScanStepSpec(s.(fetching := false), scan.value, LocalsOrEmpty(repo), repo, config);
    }
  }

  lemma HooksStepInvariant(s: WatcherState, feeds: map<string, HookFeed>, order: seq<string>)
    requires Invariant(s)
    requires forall b :: b in order <==> b in s.hooks
    ensures Invariant(HooksStep(s, feeds, order).state)
  {
    HooksStepSpec(s, feeds, order);
  }

  lemma RunHookInvariant(s: WatcherState, branch: string, command: string, path: string)
    requires Invariant(s)
    ensures Invariant(RunHookState(s, branch, command, path))
  {
  }

  /** Inserts every branch under its name, overwriting. */
  method RegisterAll(known0: map<string, RemoteBranch>, bs: seq<RemoteBranch>) returns (known: map<string, RemoteBranch>)
    ensures known == InsertAll(known0, bs)
  {
    known := known0;
    for i := 0 to |bs|
      invariant known == InsertAll(known0, bs[..i])
    {
      assert bs[..i + 1][..i] == bs[..i];
      known := known[bs[i].name := bs[i]];
    }
    assert bs[..|bs|] == bs;
  }

  /** Inserts every branch whose name is not yet present. */
  method RegisterAbsent(known0: map<string, RemoteBranch>, bs: seq<RemoteBranch>) returns (known: map<string, RemoteBranch>)
    ensures known == InsertAbsent(known0, bs)
  {
    known := known0;
    for i := 0 to |bs|
      invariant known == InsertAbsent(known0, bs[..i])
    {
      assert bs[..i + 1][..i] == bs[..i];
      if bs[i].name !in known {
        known := known[bs[i].name := bs[i]];
      }
    }
    assert bs[..|bs|] == bs;
  }

  /**
   * The registry pass of `on_fetch_complete`: unknown remote branches are
   * registered (and reported unless ignored), then unknown local ones, and
   * names that are in neither listing are dropped.
   */
  method ScanBranches(known0: map<string, RemoteBranch>, remote: seq<RemoteBranch>, local: seq<RemoteBranch>,
                      config: Config, glob: GlobMatcher)
    returns (known: map<string, RemoteBranch>, newBranches: seq<string>)
    ensures known == Rescanned(known0, remote, local)
    ensures newBranches == NewNames(known0, remote, config, glob)
  {
    known := known0;
    newBranches := [];
    for i := 0 to |remote|
      invariant known == InsertAbsent(known0, remote[..i])
      invariant newBranches == NewNames(known0, remote[..i], config, glob)
    {
      assert remote[..i + 1][..i] == remote[..i];
      var b := remote[i];
      if b.name !in known {
        if !config.ShouldIgnoreBranch(b.name, glob) {
          newBranches := newBranches + [b.name];
        }
        known := known[b.name := b];
      }
    }
    assert remote[..|remote|] == remote;
    known := RegisterAbsent(known, local);
    var currentNames := Names(remote) + Names(local);
    known := map n | n in known && n in currentNames :: known[n];
  }

  /** The auto-create pass of `on_fetch_complete`. */
  method QueueNewBranches(pending0: seq<string>, newBranches: seq<string>, repo: Repo, config: Config)
    returns (pending: seq<string>)
    ensures pending == AutoQueue(pending0, newBranches, repo, config)
  {
    pending := pending0;
    for i := 0 to |newBranches|
      invariant pending == AutoQueue(pending0, newBranches[..i], repo, config)
    {
      assert newBranches[..i + 1][..i] == newBranches[..i];
      var b := newBranches[i];
      if config.ShouldIgnoreBranch(b, repo.glob) {
        continue;
      }
      var listed := HasWorktreeOutcome(repo.worktreeListing, b);
      if listed.Ok? && listed.value {
        continue;
      }
      if b !in pending {
        pending := pending + [b];
      }
    }
    assert newBranches[..|newBranches|] == newBranches;
  }

  /** The log `add_fetch_log` builds. */
  method NewFetchLog(remote: string, output: string) returns (r: LogRecord)
    ensures r == FetchLogRecord(remote, output)
  {
    var log := new CommandLog.NewSystem("fetch:" + remote, "git fetch --prune " + remote);
    var lines := Lines(output);
    ghost var outs := StdoutLines(lines);
    for i := 0 to |lines|
      invariant log.Snapshot() == WithOutputs(SystemLogStart(remote), outs[..i])
    {
      WithOutputsSnoc(SystemLogStart(remote), outs[..i], Stdout(lines[i]));
      assert outs[..i + 1] == outs[..i] + [Stdout(lines[i])];
      log.AddOutput(Stdout(lines[i]));
    }
    assert outs[..|lines|] == outs;
    WithOutputsSnoc(SystemLogStart(remote), outs, Exit(0));
    log.AddOutput(Exit(0));
    r := log.Snapshot();
  }

  /** The log `add_worktree_log` builds. */
  method NewWorktreeLog(branch: string, msgs: seq<string>) returns (r: LogRecord)
    ensures r == WorktreeLogRecord(branch, msgs)
  {
    var log := new CommandLog.New(branch, "git worktree add (" + branch + ")");
    ghost var start := log.Snapshot();
    ghost var outs := MessageOutputs(msgs);
    for i := 0 to |msgs|
      invariant log.Snapshot() == WithOutputs(start, outs[..i])
    {
      WithOutputsSnoc(start, outs[..i], MessageOutput(msgs[i]));
      assert outs[..i + 1] == outs[..i] + [MessageOutput(msgs[i])];
      if StartsWith(msgs[i], "ERROR:") {
        log.AddOutput(Stderr(msgs[i]));
      } else {
        log.AddOutput(Stdout(msgs[i]));
      }
    }
    assert outs[..|msgs|] == outs;
    WithOutputsSnoc(start, outs, Exit(0));
    log.AddOutput(Exit(0));
    r := log.Snapshot();
  }

  /**
   * Drains one hook's output channel: every item goes to the branch's newest
   * log and becomes an event; the branch is reported as completed once for
   * each Exit or Error and once more if the channel has hung up.
   */
  method DrainHook(logs: seq<LogRecord>, b: string, feed: HookFeed, tx: EventChannel)
    returns (logs': seq<LogRecord>, completed: seq<string>)
    modifies tx
    ensures logs' == FeedLogs(logs, b, feed.outputs)
    ensures tx.queue == old(tx.queue) + HookEvents(b, feed.outputs)
    ensures forall x :: x in completed <==> x == b && Completes(feed)
  {
    logs' := logs;
    completed := [];
    // a log's branch never changes, so every output of the hook finds the same log
    var k := LastLogFor(logs, b);
    var j := 0;
    while j < |feed.outputs|
      invariant 0 <= j <= |feed.outputs|
      invariant k < 0 ==> logs' == logs
      invariant k >= 0 ==> logs' == logs[k := WithOutputs(logs[k], feed.outputs[..j])]
      invariant tx.queue == old(tx.queue) + HookEvents(b, feed.outputs[..j])
      invariant forall x :: x in completed <==> x == b && HasTerminal(feed.outputs[..j])
    {
      var o := feed.outputs[j];
      assert feed.outputs[..j + 1] == feed.outputs[..j] + [o];
      if k >= 0 {
        WithOutputsSnoc(logs[k], feed.outputs[..j], o);
        UpdateTwice(logs, k, WithOutputs(logs[k], feed.outputs[..j]), WithOutputs(logs[k], feed.outputs[..j + 1]));
        logs' := logs'[k := WithOutput(logs'[k], o)];
      }
      tx.Send(HookEvent(b, o));
      HookEventsSnoc(b, feed.outputs[..j], o);
      AppendAssoc(old(tx.queue), HookEvents(b, feed.outputs[..j]), [HookEvent(b, o)]);
      if o.IsTerminal() {
        completed := completed + [b];
      }
      HasTerminalSnoc(feed.outputs[..j], o);
      j := j + 1;
    }
    assert feed.outputs[..j] == feed.outputs;
    if feed.disconnected {
      completed := completed + [b];
    }
  }

  /** The draining pass of `check_running_hooks`, over the running hooks in the order the map yields them. */
  method DrainHooks(logs: seq<LogRecord>, running: set<string>, feeds: map<string, HookFeed>, tx: EventChannel)
    returns (logs': seq<LogRecord>, completed: seq<string>, ghost order: seq<string>)
    modifies tx
    ensures NoDup(order) && forall b :: b in order <==> b in running
    ensures logs' == DrainAll(logs, feeds, order).logs
    ensures tx.queue == old(tx.queue) + DrainAll(logs, feeds, order).events
    ensures forall x :: x in completed <==> x in DrainAll(logs, feeds, order).done
  {
    logs' := logs;
    completed := [];
    var remaining := running;
    order := [];
    while remaining != {}
      invariant remaining <= running
      invariant NoDup(order)
      invariant forall b :: b in running <==> b in remaining || b in order
      invariant forall b :: b in order ==> b !in remaining
      invariant logs' == DrainAll(logs, feeds, order).logs
      invariant tx.queue == old(tx.queue) + DrainAll(logs, feeds, order).events
      invariant forall x :: x in completed <==> x in DrainAll(logs, feeds, order).done
      decreases |remaining|
    {
      var b :| b in remaining;
      remaining := remaining - {b};
      var pushed;
      logs', pushed := DrainHook(logs', b, FeedOf(feeds, b), tx);
      completed := completed + pushed;
      AppendAssoc(old(tx.queue), DrainAll(logs, feeds, order).events, HookEvents(b, FeedOf(feeds, b).outputs));
      assert (order + [b])[..|order|] == order;
      order := order + [b];
    }
  }

  /** Removes the completed hooks and releases the branch in progress if its hook is among them. */
  method RetireHooks(hooks: map<string, HookProcess>, current: Option<string>, completed: seq<string>,
                     ghost done: set<string>)
    returns (hooks': map<string, HookProcess>, current': Option<string>)
    requires forall x :: x in completed <==> x in done
    ensures hooks' == map x | x in hooks && x !in done :: hooks[x]
    ensures current' == if current.Some? && current.value in done then None else current
  {
    hooks' := hooks;
    current' := current;
    for i := 0 to |completed|
      invariant hooks' == map x | x in hooks && x !in completed[..i] :: hooks[x]
      invariant current' == if current.Some? && current.value in completed[..i] then None else current
    {
      assert completed[..i + 1] == completed[..i] + [completed[i]];
      hooks' := hooks' - {completed[i]};
      if current' == Some(completed[i]) {
        current' := None;
      }
    }
    assert completed[..|completed|] == completed;
  }

  /**
   * Part way through listing a registry: `bs` holds registered records, each
   * once, and every registered name not still `remaining`.
   */
  ghost predicate CollectedFrom(known: map<string, RemoteBranch>, bs: seq<RemoteBranch>, remaining: set<string>)
  {
    && remaining <= known.Keys
    && (forall i :: 0 <= i < |bs| ==> bs[i].name in known && bs[i] == known[bs[i].name] && bs[i].name !in remaining)
    && (forall n :: n in known ==> n in remaining || exists i :: 0 <= i < |bs| && bs[i].name == n)
    && (forall i, j :: 0 <= i < j < |bs| ==> bs[i].name != bs[j].name)
  }

  /** Taking one remaining name's record keeps the listing consistent. */
  lemma CollectStep(known: map<string, RemoteBranch>, bs: seq<RemoteBranch>, remaining: set<string>, n: string)
    requires KeysNamed(known) && CollectedFrom(known, bs, remaining) && n in remaining
    ensures CollectedFrom(known, bs + [known[n]], remaining - {n})
  {
    var bs' := bs + [known[n]];
    forall m | m in known
      ensures m in remaining - {n} || exists i :: 0 <= i < |bs'| && bs'[i].name == m
    {
      if m == n {
        assert bs'[|bs|].name == m;
      } else if m !in remaining {
        var i :| 0 <= i < |bs| && bs[i].name == m;
        assert bs'[i] == bs[i];
      }
    }
  }

  // ---------------------------------------------------------------------
  // The watcher
  // ---------------------------------------------------------------------

  class Watcher {
    var knownBranches: map<string, RemoteBranch>
    var runningHooks: map<string, HookProcess>
    var commandLogs: seq<LogRecord>
    var fetchInProgress: bool
    var pendingBranches: seq<string>
    var currentProcessing: Option<string>

    function State(): WatcherState
      reads this
    {
      WatcherState(knownBranches, runningHooks, commandLogs, fetchInProgress, pendingBranches, currentProcessing)
    }

    /** What holds between operations. */
    ghost predicate Valid()
      reads this
    {
      Invariant(State())
    }

    /** `Valid` without the hook requirement on the current branch, which holds again once a step ends. */
    ghost predicate Sound()
      reads this
    {
      NoDup(pendingBranches) && KeysNamed(knownBranches)
    }

    constructor New()
      ensures State() == WatcherState(map[], map[], [], false, [], None)
      ensures Valid()
    {
      knownBranches := map[];
      runningHooks := map[];
      commandLogs := [];
      fetchInProgress := false;
      pendingBranches := [];
      currentProcessing := None;
    }

    /** `init`: registers the remote branches, then the local ones whose name is still free. */
    method Init(repo: Repo, config: Config) returns (r: Result<()>)
      requires Valid()
      modifies this`knownBranches
      ensures Valid()
      ensures var scan := RemoteBranchesOutcome(repo.remoteListing(config.remoteName), config.remoteName);
              (scan.Err? ==> r == Err(scan.error) && knownBranches == old(knownBranches)) &&
              (scan.Ok? && repo.localBranches.Err? ==>
                 r == Err(repo.localBranches.error) && knownBranches == InsertAll(old(knownBranches), scan.value)) &&
              (scan.Ok? && repo.localBranches.Ok? ==>
                 r == Ok(()) &&
                 knownBranches == InsertAbsent(InsertAll(old(knownBranches), scan.value), repo.localBranches.value))
    {
      var scan := GetRemoteBranches(repo.remoteListing(config.remoteName), config.remoteName);
      if scan.Err? {
        return Err(scan.error);
      }
      RemoteTakesPrecedence(knownBranches, scan.value, if repo.localBranches.Ok? then repo.localBranches.value else []);
      InsertAllSpec(knownBranches, scan.value);
      knownBranches := RegisterAll(knownBranches, scan.value);
      if repo.localBranches.Err? {
        return Err(repo.localBranches.error);
      }
      knownBranches := RegisterAbsent(knownBranches, repo.localBranches.value);
      r := Ok(());
    }

    function IsFetching(): bool
      reads this
    {
      fetchInProgress
    }

    /**
     * `start_fetch`: ignored while a fetch runs; otherwise raises the flag and
     * announces the fetch. The fetch itself runs on its own thread, whose event
     * is `FetchOutcome` of its run.
     */
    method StartFetch(tx: EventChannel)
      modifies this`fetchInProgress, tx
      ensures old(fetchInProgress) ==> fetchInProgress && tx.queue == old(tx.queue)
      ensures !old(fetchInProgress) ==> fetchInProgress && tx.queue == old(tx.queue) + [FetchStarted]
    {
      if fetchInProgress {
        return;
      }
      fetchInProgress := true;
      tx.Send(FetchStarted);
    }

    /** `on_fetch_complete` */
    method OnFetchComplete(repo: Repo, config: Config, tx: EventChannel, now: int)
      requires Valid()
      modifies this, config`lastFetch, tx
      ensures Valid()
      ensures config.lastFetch == Some(now)
      ensures State() == FetchCompleteStep(old(State()), repo, config).state
      ensures tx.queue == old(tx.queue) + FetchCompleteStep(old(State()), repo, config).events
    {
      fetchInProgress := false;
      config.lastFetch := Some(now);
      var scan := GetRemoteBranches(repo.remoteListing(config.remoteName), config.remoteName);
      if scan.Err? {
        return;
      }
      var local := if repo.localBranches.Ok? then repo.localBranches.value else [];
      ApplyScan(scan.value, local, repo, config, tx);
    }

    /** The part of `on_fetch_complete` after the remote listing was read. */
    method ApplyScan(remote: seq<RemoteBranch>, local: seq<RemoteBranch>, repo: Repo, config: Config, tx: EventChannel)
      requires Valid()
      modifies this, tx
      ensures Valid()
      ensures State() == ScanStep(old(State()), remote, local, repo, config).state
      ensures tx.queue == old(tx.queue) + ScanStep(old(State()), remote, local, repo, config).events
    {
      ghost var s0 := State();
      ghost var step := ScanStep(s0, remote, local, repo, config);
      RescannedSpec(knownBranches, remote, local);
      var known, newBranches := ScanBranches(knownBranches, remote, local, config, repo.glob);
      knownBranches := known;
      ghost var s1 := State();
      assert s1 == s0.(known := Rescanned(s0.known, remote, local));
      if newBranches == [] {
        assert step == Step(s1, []);
        return;
      }
      tx.Send(NewBranchesFound(newBranches));
      if !config.autoCreateWorktrees {
        assert step == Step(s1, [NewBranchesFound(newBranches)]);
        return;
      }
      AutoCreate(newBranches, repo, config, tx);
      AppendAssoc(old(tx.queue), [NewBranchesFound(newBranches)], AutoCreateStep(s1, newBranches, repo, config).events);
    }

    /** The auto-create pass of `on_fetch_complete`. */
    method AutoCreate(newBranches: seq<string>, repo: Repo, config: Config, tx: EventChannel)
      requires Valid()
      modifies this, tx
      ensures Valid()
      ensures State() == AutoCreateStep(old(State()), newBranches, repo, config).state
      ensures tx.queue == old(tx.queue) + AutoCreateStep(old(State()), newBranches, repo, config).events
    {
      var pending := QueueNewBranches(pendingBranches, newBranches, repo, config);
      AutoQueueSpec(pendingBranches, newBranches, repo, config);
      pendingBranches := pending;
      if currentProcessing.None? && pendingBranches != [] {
        ProcessNextBranch(repo, config, tx);
      }
    }

    /** `on_fetch_failed` */
    method OnFetchFailed()
      modifies this`fetchInProgress
      ensures !fetchInProgress
    {
      fetchInProgress := false;
    }

    /** `process_next_branch` */
    method ProcessNextBranch(repo: Repo, config: Config, tx: EventChannel)
      requires Sound()
      modifies this, tx
      ensures Sound() && Valid()
      ensures State() == ProcessNextStep(old(State()), repo, config).state
      ensures tx.queue == old(tx.queue) + ProcessNextStep(old(State()), repo, config).events
    {
      ProcessNextStepInvariant(State(), repo, config);
      if pendingBranches == [] {
        currentProcessing := None;
        return;
      }
      var branch := pendingBranches[0];
      pendingBranches := pendingBranches[1..];
      currentProcessing := Some(branch);
      CreateWorktree(repo, config, branch, tx);
    }

    function IsProcessing(): bool
      reads this
    {
      currentProcessing.Some? || pendingBranches != []
    }

    function PendingCount(): nat
      reads this
    {
      |pendingBranches| + if currentProcessing.Some? then 1 else 0
    }

    /** The watcher is busy exactly when something is counted as pending. */
    lemma ProcessingIffPendingCount()
      ensures IsProcessing() <==> PendingCount() > 0
    {
    }

    function IsPending(branch: string): bool
      reads this
    {
      branch in pendingBranches
    }

    function IsCurrent(branch: string): bool
      reads this
    {
      currentProcessing == Some(branch)
    }

    function HasRunningHook(branch: string): bool
      reads this
    {
      branch in runningHooks
    }

    /** `queue_branch` */
    method QueueBranch(repo: Repo, config: Config, branch: string, tx: EventChannel)
      requires Valid()
      modifies this, tx
      ensures Valid()
      ensures State() == QueueStep(old(State()), repo, config, branch).state
      ensures tx.queue == old(tx.queue) + QueueStep(old(State()), repo, config, branch).events
    {
      if IsPending(branch) || IsCurrent(branch) {
        return;
      }
      pendingBranches := pendingBranches + [branch];
      if currentProcessing.None? {
        ProcessNextBranch(repo, config, tx);
      }
      QueueStepInvariant(old(State()), repo, config, branch);
    }

    /** `try_process_next` */
    method TryProcessNext(repo: Repo, config: Config, tx: EventChannel)
      requires Valid()
      modifies this, tx
      ensures Valid()
      ensures State() == TryProcessNextStep(old(State()), repo, config).state
      ensures tx.queue == old(tx.queue) + TryProcessNextStep(old(State()), repo, config).events
    {
      if currentProcessing.None? && pendingBranches != [] {
        ProcessNextBranch(repo, config, tx);
      }
    }

    /** `create_worktree` */
    method CreateWorktree(repo: Repo, config: Config, branch: string, tx: EventChannel)
      requires Sound()
      modifies this, tx
      ensures Sound()
      ensures State() == CreateStep(old(State()), repo, config, branch).state
      ensures tx.queue == old(tx.queue) + CreateStep(old(State()), repo, config, branch).events
    {
      var path := config.GetWorktreePath(repo.root, branch);
      tx.Send(WorktreeCreating(branch));
      var result, _ := Create(branch, path, config.remoteName, repo.creation(branch));
      ghost var queued := tx.queue;
      ApplyCreation(branch, path, result, config.postCreateCommand, tx);
      AppendAssoc(old(tx.queue), [WorktreeCreating(branch)], tx.queue[|queued|..]);
    }

    /** The part of `create_worktree` after `git worktree add` returned. */
    method ApplyCreation(branch: string, path: string, result: Result<seq<string>>, hook: Option<string>,
                         tx: EventChannel)
      requires Sound()
      modifies this, tx
      ensures Sound()
      ensures State() == AfterCreate(old(State()), branch, path, result, hook).state
      ensures tx.queue == old(tx.queue) + AfterCreate(old(State()), branch, path, result, hook).events
    {
      match result {
        case Ok(msgs) =>
          AddWorktreeLog(branch, msgs);
          tx.Send(WorktreeCreated(branch, path));
        case Err(e) =>
          tx.Send(WorktreeCreateFailed(branch, e));
          currentProcessing := None;
          return;
      }
      var hookStarted := false;
      if hook.Some? {
        RunHook(branch, hook.value, path, tx);
        hookStarted := true;
      }
      if !hookStarted {
        currentProcessing := None;
      }
    }

    /** `run_hook`: announces the hook, opens its log and registers it. */
    method RunHook(branch: string, command: string, path: string, tx: EventChannel)
      requires Sound()
      modifies this, tx
      ensures Sound()
      ensures State() == RunHookState(old(State()), branch, command, path)
      ensures tx.queue == old(tx.queue) + [HookStarted(branch)]
    {
      tx.Send(HookStarted(branch));
      var log := new CommandLog.New(branch, command);
      AppendLog(log.Snapshot());
      runningHooks := runningHooks[branch := HookProcess(command, path)];
    }

    /** `start_hook`: a hook for a worktree created outside the queue. */
    method StartHook(branch: string, command: string, path: string, tx: EventChannel)
      requires Valid()
      modifies this, tx
      ensures Valid()
      ensures State() == RunHookState(old(State()), branch, command, path)
      ensures tx.queue == old(tx.queue) + [HookStarted(branch)]
    {
      RunHook(branch, command, path, tx);
      RunHookInvariant(old(State()), branch, command, path);
    }

    /**
     * `check_running_hooks`: drains every running hook's channel in the order
     * the map yields them (returned as `order`), then retires completed hooks.
     */
    method CheckRunningHooks(feeds: map<string, HookFeed>, tx: EventChannel) returns (ghost order: seq<string>)
      requires Valid()
      modifies this, tx
      ensures Valid()
      ensures NoDup(order) && forall b :: b in order <==> b in old(runningHooks)
      ensures State() == HooksStep(old(State()), feeds, order).state
      ensures tx.queue == old(tx.queue) + HooksStep(old(State()), feeds, order).events
    {
      ghost var s := State();
      var logs, completed;
      logs, completed, order := DrainHooks(commandLogs, runningHooks.Keys, feeds, tx);
      runningHooks, currentProcessing := RetireHooks(runningHooks, currentProcessing, completed,
                                                     DrainAll(s.logs, feeds, order).done);
      commandLogs := logs;
      HooksStepInvariant(s, feeds, order);
    }

    /** `get_known_branches`: every registered record once, in the map's order. */
    method GetKnownBranches() returns (bs: seq<RemoteBranch>)
      requires Valid()
      ensures forall i :: 0 <= i < |bs| ==> bs[i].name in knownBranches && bs[i] == knownBranches[bs[i].name]
      ensures forall n :: n in knownBranches ==> exists i :: 0 <= i < |bs| && bs[i].name == n
      ensures forall i, j :: 0 <= i < j < |bs| ==> bs[i].name != bs[j].name
    {
      bs := [];
      var remaining := knownBranches.Keys;
      while remaining != {}
        invariant CollectedFrom(knownBranches, bs, remaining)
        decreases |remaining|
      {
        var n :| n in remaining;
        CollectStep(knownBranches, bs, remaining, n);
        bs := bs + [knownBranches[n]];
        remaining := remaining - {n};
      }
    }

    /** `get_branch_by_name` */
    function GetBranchByName(name: string): (r: Option<RemoteBranch>)
      reads this
      ensures r.Some? <==> name in knownBranches
      ensures r.Some? ==> r.value == knownBranches[name]
    {
      if name in knownBranches then Some(knownBranches[name]) else None
    }

    /** `add_local_branch`: registers a local record unless the name is already known. */
    method AddLocalBranch(name: string)
      requires Valid()
      modifies this`knownBranches
      ensures Valid()
      ensures name in old(knownBranches) ==> knownBranches == old(knownBranches)
      ensures name !in old(knownBranches) ==>
                knownBranches == old(knownBranches)[name := RemoteBranch(name, name, "", "", true)]
    {
      if name !in knownBranches {
        knownBranches := knownBranches[name := RemoteBranch(name, name, "", "", true)];
      }
    }

    /** `self.command_logs.push(log)` */
    method AppendLog(log: LogRecord)
      modifies this`commandLogs
      ensures commandLogs == old(commandLogs) + [log]
    {
      commandLogs := commandLogs + [log];
    }

    /** `add_fetch_log` */
    method AddFetchLog(remote: string, output: string)
      requires Valid()
      modifies this`commandLogs
      ensures Valid()
      ensures State() == old(State()).(logs := old(State()).logs + [FetchLogRecord(remote, output)])
    {
      var log := NewFetchLog(remote, output);
      AppendLog(log);
    }

    /** `add_fetch_success_log` */
    method AddFetchSuccessLog(remote: string)
      requires Valid()
      modifies this`commandLogs
      ensures Valid()
      ensures State() == old(State()).(logs := old(State()).logs + [FetchSuccessRecord(remote)])
    {
      var log := new CommandLog.NewSystem("fetch:" + remote, "git fetch --prune " + remote);
      log.AddOutput(Stdout("Fetch successful"));
      WithOutputsSnoc(SystemLogStart(remote), [], Stdout("Fetch successful"));
      WithOutputsSnoc(SystemLogStart(remote), [Stdout("Fetch successful")], Exit(0));
      log.AddOutput(Exit(0));
      AppendLog(log.Snapshot());
    }

    /** `add_worktree_log` */
    method AddWorktreeLog(branch: string, msgs: seq<string>)
      requires Sound()
      modifies this`commandLogs
      ensures Sound()
      ensures State() == old(State()).(logs := old(State()).logs + [WorktreeLogRecord(branch, msgs)])
    {
      var log := NewWorktreeLog(branch, msgs);
      AppendLog(log);
    }

    /** `add_command_log`: a running log holding only the message as its command. */
    method AddCommandLog(branch: string, message: string)
      requires Valid()
      modifies this`commandLogs
      ensures Valid()
      ensures State() == old(State()).(logs := old(State()).logs + [CommandRecord(branch, message)])
    {
      var log := new CommandLog.New(branch, message);
      AppendLog(log.Snapshot());
    }
  }
}
