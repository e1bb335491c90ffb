// The application object (src/app/mod.rs and the `impl App` blocks of
// src/app/actions.rs, handlers.rs, setup.rs and settings.rs): it owns the
// configuration, the watcher, the watcher's event channel and the branch
// list, and turns watcher events and keys into changes of them.
//
// Every git command the application runs is answered by a `Repo`; the clock
// is a parameter. The branch list is specified by `ListedAs`, which the rows
// of the list satisfy after every refresh and which fixes them completely
// (`ListedUnique`).
module Application {
  import opened Util
  import opened Text
  import opened Executor
  import opened Configuration
  import opened GitRepository
  import opened GitWorktree
  import opened Watching
  import opened AppState
  import opened BranchList
  import opened Actions
  import opened Status
  import opened Dialogs
  import Wizard = Setup
  import SettingsScreen = Settings

  // ---- the branch list ----

  /** The worktrees `update_branch_list` sees: the listing, or none when it fails. */
  function WorktreesOf(repo: Repo): seq<WorktreeInfo>
  {
    match ListOutcome(repo.worktreeListing)
    case Ok(ws) => ws
    case Err(_) => []
  }

  /** The row `update_branch_list` builds for a registered branch. */
  function ItemFor(name: string, s: WatcherState, config: Config, repo: Repo): BranchItem
    reads config
  {
    BranchItem(
      name,
      Classify(s.current == Some(name), name in s.hooks, name in s.pending,
               config.ShouldIgnoreBranch(name, repo.glob), FindByBranch(WorktreesOf(repo), name)),
      config.baseBranch == Some(name))
  }

  /**
   * The branch list as `update_branch_list` leaves it: one row per registered
   * branch, each classified from the watcher's state, local rows first and
   * then by name.
   */
  predicate ListedAs(items: seq<BranchItem>, s: WatcherState, config: Config, repo: Repo)
    reads config
  {
    && Sorted(items)
    && NoDup(ItemNames(items))
    && (forall n :: n in s.known ==> n in ItemNames(items))
    && (forall i :: 0 <= i < |items| ==> items[i].name in s.known && items[i] == ItemFor(items[i].name, s, config, repo))
  }

  /**
   * Sorting the rows built for the registered branches, read once each in
   * any order, gives the listing.
   */
  lemma SortedListing(known: seq<RemoteBranch>, items: seq<BranchItem>, sorted: seq<BranchItem>,
                      s: WatcherState, config: Config, repo: Repo)
    requires forall i :: 0 <= i < |known| ==> known[i].name in s.known
    requires forall n :: n in s.known ==> exists i :: 0 <= i < |known| && known[i].name == n
    requires forall i, j :: 0 <= i < j < |known| ==> known[i].name != known[j].name
    requires |items| == |known|
    requires forall i :: 0 <= i < |items| ==> items[i] == ItemFor(known[i].name, s, config, repo)
    requires Sorted(sorted) && multiset(sorted) == multiset(items)
    ensures ListedAs(sorted, s, config, repo)
  {
    assert NoDup(items) by {
      forall i, j | 0 <= i < j < |items| ensures items[i] != items[j] {
        assert items[i].name == known[i].name && items[j].name == known[j].name;
      }
    }
    NoDupPermutation(items, sorted);
    SortedRowsClassified(known, items, sorted, s, config, repo);
    RowNamesDistinct(sorted, s, config, repo);
    SortedRowsCover(known, items, sorted, s);
  }

  lemma SortedRowsClassified(known: seq<RemoteBranch>, items: seq<BranchItem>, sorted: seq<BranchItem>,
                             s: WatcherState, config: Config, repo: Repo)
    requires forall i :: 0 <= i < |known| ==> known[i].name in s.known
    requires |items| == |known|
    requires forall i :: 0 <= i < |items| ==> items[i] == ItemFor(known[i].name, s, config, repo)
    requires multiset(sorted) == multiset(items)
    ensures forall j :: 0 <= j < |sorted| ==>
              sorted[j] == ItemFor(sorted[j].name, s, config, repo) && sorted[j].name in s.known
  {
    forall j | 0 <= j < |sorted|
      ensures sorted[j] == ItemFor(sorted[j].name, s, config, repo) && sorted[j].name in s.known
    {
      assert sorted[j] in multiset(items);
      var k :| 0 <= k < |items| && items[k] == sorted[j];
      assert sorted[j].name == known[k].name;
    }
  }

  lemma RowNamesDistinct(rows: seq<BranchItem>, s: WatcherState, config: Config, repo: Repo)
    requires NoDup(rows)
    requires forall j :: 0 <= j < |rows| ==> rows[j] == ItemFor(rows[j].name, s, config, repo)
    ensures NoDup(ItemNames(rows))
  {
    forall i, j | 0 <= i < j < |rows| ensures ItemNames(rows)[i] != ItemNames(rows)[j] {
      assert rows[i] != rows[j];
      assert rows[i] == ItemFor(rows[i].name, s, config, repo);
      assert rows[j] == ItemFor(rows[j].name, s, config, repo);
    }
  }

  lemma SortedRowsCover(known: seq<RemoteBranch>, items: seq<BranchItem>, sorted: seq<BranchItem>, s: WatcherState)
    requires forall n :: n in s.known ==> exists i :: 0 <= i < |known| && known[i].name == n
    requires |items| == |known| && forall i :: 0 <= i < |items| ==> items[i].name == known[i].name
    requires multiset(sorted) == multiset(items)
    ensures forall n :: n in s.known ==> n in ItemNames(sorted)
  {
    forall n | n in s.known ensures n in ItemNames(sorted) {
      var k :| 0 <= k < |known| && known[k].name == n;
      assert items[k] in multiset(sorted);
      var j :| 0 <= j < |sorted| && sorted[j] == items[k];
      assert ItemNames(sorted)[j] == n;
    }
  }

  /**
   * The listing is fixed by the watcher's state, the configuration and the
   * repository: it does not depend on the order the registry is read in.
   */
  lemma ListedUnique(a: seq<BranchItem>, b: seq<BranchItem>, s: WatcherState, config: Config, repo: Repo)
    requires ListedAs(a, s, config, repo) && ListedAs(b, s, config, repo)
    ensures a == b
  {
    ListedIncluded(a, b, s, config, repo);
    ListedIncluded(b, a, s, config, repo);
    SortedUnique(a, b);
  }

  /** Every row of one listing is a row of any other listing of the same state. */
  lemma ListedIncluded(a: seq<BranchItem>, b: seq<BranchItem>, s: WatcherState, config: Config, repo: Repo)
    requires ListedAs(a, s, config, repo) && ListedAs(b, s, config, repo)
    ensures forall x :: x in a ==> x in b
  {
    forall x | x in a ensures x in b {
      var i :| 0 <= i < |a| && a[i] == x;
      assert x.name in s.known && x == ItemFor(x.name, s, config, repo);
      assert x.name in ItemNames(b);
      var j :| 0 <= j < |ItemNames(b)| && ItemNames(b)[j] == x.name;
      assert b[j] == ItemFor(b[j].name, s, config, repo);
    }
  }

  /** Branches read once each in any order are as many as the registered names. */
  lemma KnownCount(bs: seq<RemoteBranch>, known: map<string, RemoteBranch>)
    requires forall i :: 0 <= i < |bs| ==> bs[i].name in known
    requires forall n :: n in known ==> exists i :: 0 <= i < |bs| && bs[i].name == n
    requires forall i, j :: 0 <= i < j < |bs| ==> bs[i].name != bs[j].name
    ensures |bs| == |known|
  {
    var names := seq(|bs|, i requires 0 <= i < |bs| => bs[i].name);
    NoDupCard(names);
    forall x | x in names ensures x in known {
      var i :| 0 <= i < |names| && names[i] == x;
    }
    forall n | n in known ensures n in names {
      var i :| 0 <= i < |bs| && bs[i].name == n;
      assert names[i] == n;
    }
    assert (set x | x in names) == known.Keys;
  }

  /** The rows of `update_branch_list`: one per registered branch, sorted. */
  method Listing(w: Watcher, config: Config, repo: Repo) returns (sorted: seq<BranchItem>)
    requires w.Valid()
    ensures ListedAs(sorted, w.State(), config, repo)
  {
    var listed := List(repo.worktreeListing);
    var worktrees := if listed.Ok? then listed.value else [];
    var known := w.GetKnownBranches();
    var items := BuildRows(w, config, known, worktrees, repo);
    sorted := SortItems(items);
    SortedListing(known, items, sorted, w.State(), config, repo);
  }

  /** The loop of `update_branch_list` that builds one row per registered branch, in the order read. */
  method BuildRows(w: Watcher, config: Config, known: seq<RemoteBranch>, worktrees: seq<WorktreeInfo>, repo: Repo)
    returns (items: seq<BranchItem>)
    requires worktrees == WorktreesOf(repo)
    ensures |items| == |known|
    ensures forall k :: 0 <= k < |items| ==> items[k] == ItemFor(known[k].name, w.State(), config, repo)
  {
    items := [];
    var i := 0;
    while i < |known|
      invariant 0 <= i <= |known| && |items| == i
      invariant forall k :: 0 <= k < i ==> items[k] == ItemFor(known[k].name, w.State(), config, repo)
    {
      var item := RowFor(w, config, known[i].name, worktrees, repo);
      items := items + [item];
      i := i + 1;
    }
  }

  /** The row `update_branch_list` builds for one registered branch. */
  method RowFor(w: Watcher, config: Config, name: string, worktrees: seq<WorktreeInfo>, repo: Repo) returns (item: BranchItem)
    requires worktrees == WorktreesOf(repo)
    ensures item == ItemFor(name, w.State(), config, repo)
  {
    var existing := FindByBranch(worktrees, name);
    var st := Classify(w.IsCurrent(name), w.HasRunningHook(name), w.IsPending(name),
                       config.ShouldIgnoreBranch(name, repo.glob), existing);
    item := BranchItem(name, st, config.baseBranch == Some(name));
  }

  // ---- the event loop ----

  /** How many fetch results wait in the channel; only the fetch thread sends them. */
  function FetchResults(q: seq<WatcherEvent>): (n: nat)
    ensures n <= |q|
  {
    if q == [] then 0 else (if q[0].FetchCompleted? then 1 else 0) + FetchResults(q[1..])
  }

  /** Events among which there is no fetch result. */
  predicate Quiet(evs: seq<WatcherEvent>)
  {
    forall i :: 0 <= i < |evs| ==> !evs[i].FetchCompleted?
  }

  lemma {:induction false} QuietCount(evs: seq<WatcherEvent>)
    requires Quiet(evs)
    ensures FetchResults(evs) == 0
    decreases |evs|
  {
    if evs != [] {
      QuietCount(evs[1..]);
    }
  }

  /** Sending events that are not fetch results leaves the count of waiting fetch results unchanged. */
  lemma {:induction false} QuietAppend(q: seq<WatcherEvent>, evs: seq<WatcherEvent>)
    requires Quiet(evs)
    ensures FetchResults(q + evs) == FetchResults(q)
    decreases |q|
  {
    if q == [] {
      assert q + evs == evs;
      QuietCount(evs);
    } else {
      assert (q + evs)[1..] == q[1..] + evs;
      QuietAppend(q[1..], evs);
    }
  }

  /**
   * `try_process_next` sends no fetch result, and either does nothing or
   * takes a branch off the queue.
   */
  lemma TryProcessNextProgress(s: WatcherState, repo: Repo, config: Config)
    ensures var st := TryProcessNextStep(s, repo, config);
            && Quiet(st.events)
            && ((st.state == s && st.events == []) || |st.state.pending| < |s.pending|)
  {
    if s.current.None? && s.pending != [] {
      var b := s.pending[0];
      var s1 := s.(pending := s.pending[1..], current := Some(b));
      CreateStepSpec(s1, repo, config, b);
      var st := CreateStep(s1, repo, config, b);
      assert TryProcessNextStep(s, repo, config) == st;
      forall i | 0 <= i < |st.events| ensures !st.events[i].FetchCompleted? {
        if i >= 2 {
          assert st.events[i] == HookStarted(b);
        }
      }
    }
  }

  /** A non-fetch event in front of quiet events. */
  lemma QuietCons(e: WatcherEvent, evs: seq<WatcherEvent>)
    requires !e.FetchCompleted? && Quiet(evs)
    ensures Quiet([e] + evs)
  {
    assert forall i :: 1 <= i < |[e] + evs| ==> ([e] + evs)[i] == evs[i - 1];
  }

  /** `on_fetch_complete` sends no fetch result. */
  lemma FetchCompleteQuiet(s: WatcherState, repo: Repo, config: Config)
    ensures Quiet(FetchCompleteStep(s, repo, config).events)
  {
    var s0 := s.(fetching := false);
    match RemoteBranchesOutcome(repo.remoteListing(config.remoteName), config.remoteName)
    case Err(_) =>
    case Ok(remote) =>
      var local := LocalsOrEmpty(repo);
      assert FetchCompleteStep(s, repo, config) == ScanStep(s0, remote, local, repo, config);
      var newNames := NewNames(s0.known, remote, config, repo.glob);
      var s1 := s0.(known := Rescanned(s0.known, remote, local));
      if newNames != [] && config.autoCreateWorktrees {
        var queued := s1.(pending := AutoQueue(s1.pending, newNames, repo, config));
        TryProcessNextProgress(queued, repo, config);
        var st := AutoCreateStep(s1, newNames, repo, config);
        assert st == TryProcessNextStep(queued, repo, config);
        QuietCons(NewBranchesFound(newNames), st.events);
      }
  }

  /** The log `process_watcher_events` adds for a fetch result: its message, or a plain success. */
  function FetchLogFor(remote: string, output: Option<string>): LogRecord
  {
    match output
    case Some(msg) => FetchLogRecord(remote, msg)
    case None => FetchSuccessRecord(remote)
  }

  /**
   * The rows after a creation or hook start is shown: the first row named
   * `name` takes the status, every other row and all names stay.
   */
  function WithStatus(items: seq<BranchItem>, name: string, st: BranchStatus): (r: seq<BranchItem>)
    ensures ItemNames(r) == ItemNames(items)
    ensures forall i :: 0 <= i < |items| && Position(ItemNames(items), name) != Some(i) ==> r[i] == items[i]
    ensures forall i :: 0 <= i < |items| && Position(ItemNames(items), name) == Some(i) ==> r[i].status == st
    ensures forall i :: 0 <= i < |items| ==> r[i].isDefault == items[i].isDefault
  {
    match Position(ItemNames(items), name)
    case None => items
    case Some(i) => items[i := items[i].(status := st)]
  }

  /** The text `last_error` gets when a hook exits with a non-zero code. */
  function HookFailure(branch: string, code: int): string
  {
    "Hook failed for " + branch + ": exit code " + IntToString(code)
  }

  // ---- actions on the selected row ----

  /** The rows `create_selected_worktree` leaves alone: a worktree, a creation or hook in progress, or already queued. */
  predicate CreationBlocked(st: BranchStatus)
  {
    st == LocalActive || st == Creating || st == RunningHook || st == Queued
  }

  /**
   * On a list that shows the watcher's state, a row that is not blocked
   * names a branch that is neither queued nor in progress, so queueing it
   * really adds it to the queue.
   */
  lemma UnblockedIsIdle(items: seq<BranchItem>, s: WatcherState, config: Config, repo: Repo, i: nat)
    requires ListedAs(items, s, config, repo) && i < |items| && !CreationBlocked(items[i].status)
    ensures items[i].name !in s.pending && s.current != Some(items[i].name)
    ensures QueueStep(s, repo, config, items[i].name).state.pending == s.pending + [items[i].name] ||
            (s.current.None? && QueueStep(s, repo, config, items[i].name).events != [])
  {
    var name := items[i].name;
    assert items[i] == ItemFor(name, s, config, repo);
    QueueStepSpec(s, repo, config, name);
  }

  /** Whether the listed worktree of `branch` is the main one, which is never deleted. */
  predicate IsMainWorktree(repo: Repo, branch: string)
  {
    match ListOutcome(repo.worktreeListing)
    case Ok(ws) => var w := FindByBranch(ws, branch); w.Some? && w.value.isMain
    case Err(_) => false
  }

  /** The error `do_delete_worktree` shows: the failure of removing the branch's listed worktree, if it has one. */
  function RemovalError(repo: Repo, branch: string): (r: Option<string>)
    ensures r.Some? ==> ListOutcome(repo.worktreeListing).Ok? && HasWorktreeForBranch(ListOutcome(repo.worktreeListing).value, branch)
    ensures r.Some? ==> RemoveOutcome(repo.removal(WorktreePathFor(ListOutcome(repo.worktreeListing).value, branch).value)) == Err(r.value)
  {
    match WorktreePathOutcome(repo.worktreeListing, branch)
    case Ok(Some(path)) =>
      (match RemoveOutcome(repo.removal(path))
       case Err(e) => Some(e)
       case Ok(_) => None)
    case _ => None
  }

  // ---- the setup wizard and the settings screen ----

  /** The names of a branch listing, in order. */
  function NameList(bs: seq<RemoteBranch>): (r: seq<string>)
    ensures |r| == |bs| && forall i :: 0 <= i < |bs| ==> r[i] == bs[i].name
  {
    seq(|bs|, i requires 0 <= i < |bs| => bs[i].name)
  }

  /** `get_remote_branches(remote)` as the wizard and the settings screen use it: the names, or none on failure. */
  function BranchesOf(repo: Repo, remote: string): (r: Option<seq<string>>)
    ensures r.Some? <==> RemoteBranchesOutcome(repo.remoteListing(remote), remote).Ok?
  {
    match RemoteBranchesOutcome(repo.remoteListing(remote), remote)
    case Ok(bs) => Some(NameList(bs))
    case Err(_) => None
  }

  /** `get_default_branch(remote)` on the repository. */
  function DefaultBranchOf(repo: Repo, remote: string): Option<string>
  {
    GetDefaultBranch(remote, repo.symbolicRef(remote), repo.remoteBranchList, repo.currentBranch)
  }

  /** The wizard's two queries of the repository, as `Advance` takes them. */
  function SetupScan(repo: Repo): string -> Option<seq<string>>
  {
    (remote: string) => BranchesOf(repo, remote)
  }

  function SetupDefault(repo: Repo): string -> Option<string>
  {
    (remote: string) => DefaultBranchOf(repo, remote)
  }

  /** `SettingsState::new` filled by `open_settings`: the remotes, and the branches of the configured remote. */
  function OpenedSettings(repo: Repo, remote: string): (r: SettingsState)
    ensures r == NewSettingsState().(remotes := r.remotes, branches := r.branches)
    ensures r.remotes == RemotesOf(repo) && r.branches == UnwrapOr(BranchesOf(repo, remote), [])
  {
    NewSettingsState().(remotes := RemotesOf(repo), branches := UnwrapOr(BranchesOf(repo, remote), []))
  }

  // ---- the status bar ----

  /** The status after `update_status`: the counts and the two settings it shows are read afresh. */
  function Refreshed(st: AppStatus, known: map<string, RemoteBranch>, config: Config, repo: Repo): AppStatus
    reads config
  {
    st.(remoteBranchCount := |known|,
        worktreeCount := match ListOutcome(repo.worktreeListing) case Ok(ws) => |ws| case Err(_) => 0,
        autoCreateEnabled := config.autoCreateWorktrees,
        pollInterval := config.pollIntervalSecs)
  }

  /** The wizard's bounds, kept by every key. */
  predicate SetupInBounds(s: SetupState)
  {
    Wizard.IndexInRange(s) && Wizard.PollInRange(s.pollInterval) && Wizard.CommandNotEmpty(s)
  }

  // ---- start-up ----

  /** The registry after `Watcher::init`, whatever `init` returns. */
  function Reinitialized(known: map<string, RemoteBranch>, repo: Repo, remote: string): map<string, RemoteBranch>
  {
    match RemoteBranchesOutcome(repo.remoteListing(remote), remote)
    case Err(_) => known
    case Ok(bs) =>
      match repo.localBranches
      case Err(_) => InsertAll(known, bs)
      case Ok(local) => InsertAbsent(InsertAll(known, bs), local)
  }

  /** The first view: the wizard on a first run, else an error when the configured remote is missing. */
  function StartView(firstRun: bool, remote: string, remoteFound: bool): (v: ViewMode)
    ensures firstRun ==> v == ViewMode.Setup
    ensures !firstRun && remoteFound ==> v == Main
    ensures !firstRun && !remoteFound ==> v == ViewMode.Error(RemoteNotFound(remote))
  {
    if firstRun then ViewMode.Setup
    else
      match ValidateRemote(remote, remoteFound)
      case Ok(_) => Main
      case Err(msg) => ViewMode.Error(msg)
  }

  /** The first view of `App::new` and the wizard it opens, if any. */
  method StartScreen(repo: Repo, config: Config, firstRun: bool) returns (view: ViewMode, setup: Option<SetupState>)
    ensures !view.CreateWorktree? && (setup.Some? ==> SetupInBounds(setup.value))
    ensures firstRun ==> view == ViewMode.Setup && setup == Some(InitialSetup(RemotesOf(repo)))
    ensures !firstRun ==> setup == None
    ensures !firstRun && repo.remoteExists(config.remoteName) ==> view == Main
    ensures !firstRun && !repo.remoteExists(config.remoteName) ==>
              view.Error? && StartsWith(view.message, "Remote '" + config.remoteName + "' not found.")
  {
    view := StartView(firstRun, config.remoteName, repo.remoteExists(config.remoteName));
    setup := if firstRun then Some(InitialSetup(RemotesOf(repo))) else None;
  }

  /** The configuration `finish_setup` writes from the wizard's answers. */
  method StoreAnswers(config: Config, w: SetupState)
    modifies config`remoteName, config`pollIntervalSecs, config`worktreeBaseDir, config`baseBranch
    modifies config`postCreateCommand, config`autoCreateWorktrees
    ensures config.remoteName == w.remoteName && config.pollIntervalSecs == w.pollInterval
    ensures config.worktreeBaseDir == w.worktreeBaseDir && config.baseBranch == w.baseBranch
    ensures config.postCreateCommand == w.postCreateCommand && config.autoCreateWorktrees == w.autoCreate
  {
    config.remoteName := w.remoteName;
    config.pollIntervalSecs := w.pollInterval;
    config.worktreeBaseDir := w.worktreeBaseDir;
    config.baseBranch := w.baseBranch;
    config.postCreateCommand := w.postCreateCommand;
    config.autoCreateWorktrees := w.autoCreate;
  }

  /** `watcher.init(..)` with its result ignored, as every caller does. */
  method Reinit(w: Watcher, repo: Repo, config: Config)
    requires w.Valid()
    modifies w`knownBranches
    ensures w.Valid()
    ensures w.knownBranches == Reinitialized(old(w.knownBranches), repo, config.remoteName)
  {
    var ignored := w.Init(repo, config);
  }

  /**
   * The watcher of `App::new`, initialised only when the configured remote
   * exists, its branch count, and the branch list, filled unless the wizard
   * is to be shown first.
   */
  method StartWatcher(repo: Repo, config: Config, firstRun: bool) returns (w: Watcher, count: nat, rows: BranchListState)
    ensures fresh(w) && w.Valid() && fresh(rows)
    ensures w.State() == WatcherState(w.knownBranches, map[], [], false, [], None)
    ensures w.knownBranches ==
              if repo.remoteExists(config.remoteName) then Reinitialized(map[], repo, config.remoteName) else map[]
    ensures count == |w.knownBranches|
    ensures firstRun ==> rows.items == []
    ensures !firstRun ==> ListedAs(rows.items, w.State(), config, repo)
  {
    w, count := NewWatcher(repo, config);
    rows := new BranchListState.New();
    if !firstRun {
      var sorted := Listing(w, config, repo);
      rows.UpdateItems(sorted);
    }
  }

  /** The watcher of `App::new` and the number of branches it registered. */
  method NewWatcher(repo: Repo, config: Config) returns (w: Watcher, count: nat)
    ensures fresh(w) && w.Valid()
    ensures w.State() == WatcherState(w.knownBranches, map[], [], false, [], None)
    ensures w.knownBranches ==
              if repo.remoteExists(config.remoteName) then Reinitialized(map[], repo, config.remoteName) else map[]
    ensures count == |w.knownBranches|
  {
    w := new Watcher.New();
    if repo.remoteExists(config.remoteName) {
      Reinit(w, repo, config);
    }
    var known := w.GetKnownBranches();
    KnownCount(known, w.knownBranches);
    count := |known|;
  }

  /** `get_remotes().unwrap_or_default()` */
  function RemotesOf(repo: Repo): seq<string>
  {
    match GetRemotes(repo.remotes)
    case Ok(rs) => rs
    case Err(_) => []
  }

  /**
   * The wizard of a first run: the repository's remotes are offered, with
   * "origin" preselected when it is one of them and the first one otherwise.
   */
  function InitialSetup(remotes: seq<string>): (r: SetupState)
    ensures SetupInBounds(r)
    ensures r == NewSetupState().(remotes := remotes, selectedIndex := r.selectedIndex, remoteName := r.remoteName)
    ensures "origin" in remotes ==> r.remoteName == "origin" && r.selectedIndex < |remotes| && remotes[r.selectedIndex] == "origin"
    ensures remotes != [] && "origin" !in remotes ==> r.remoteName == remotes[0] && r.selectedIndex == 0
    ensures remotes == [] ==> r.remoteName == "origin" && r.selectedIndex == 0
  {
    var s := NewSetupState().(remotes := remotes);
    if remotes == [] then s
    else
      match Position(remotes, "origin")
      case Some(i) => s.(selectedIndex := i, remoteName := "origin")
      case None => s.(remoteName := remotes[0])
  }

  class App {
    var viewMode: ViewMode
    var status: AppStatus
    /** `last_poll`, as the clock reading of the last poll. */
    var lastPoll: int
    var setupState: Option<SetupState>
    var settingsState: Option<SettingsState>
    const config: Config
    const watcher: Watcher
    const tx: EventChannel
    const branchList: BranchListState

    /** What holds between two calls: the watcher's invariant, the wizard's bounds and the dialog's invariant. */
    ghost predicate Valid()
      reads this`setupState, this`viewMode, watcher
    {
      && watcher.Valid()
      && (setupState.Some? ==> SetupInBounds(setupState.value))
      && (viewMode.CreateWorktree? ==> DialogInvariant(viewMode.dialog))
    }

    /**
     * `App::new` once the repository is found and the configuration loaded:
     * the watcher registers the branches when the configured remote exists;
     * a first run opens the setup wizard, a missing remote an error, and
     * otherwise the branch list is shown.
     */
    constructor New(repo: Repo, loaded: Config, firstRun: bool, now: int)
      ensures Valid()
      ensures config == loaded && fresh(watcher) && fresh(tx) && fresh(branchList)
      ensures tx.queue == [] && settingsState == None && lastPoll == now - 999
      ensures watcher.State() == WatcherState(watcher.knownBranches, map[], [], false, [], None)
      ensures watcher.knownBranches ==
                if repo.remoteExists(loaded.remoteName) then Reinitialized(map[], repo, loaded.remoteName) else map[]
      ensures status == AppStatus(false, loaded.lastFetch, |watcher.knownBranches|, 0, 0, None,
                                  loaded.autoCreateWorktrees, loaded.pollIntervalSecs, loaded.remoteName)
      ensures firstRun ==>
                viewMode == ViewMode.Setup && setupState == Some(InitialSetup(RemotesOf(repo))) && branchList.items == []
      ensures !firstRun ==> setupState == None && ListedAs(branchList.items, watcher.State(), config, repo)
      ensures !firstRun && repo.remoteExists(loaded.remoteName) ==> viewMode == Main
      ensures !firstRun && !repo.remoteExists(loaded.remoteName) ==>
                viewMode.Error? && StartsWith(viewMode.message, "Remote '" + loaded.remoteName + "' not found.")
    {
      var view, setup := StartScreen(repo, loaded, firstRun);
      viewMode := view;
      setupState := setup;
      tx := new EventChannel();
      var w, count, rows := StartWatcher(repo, loaded, firstRun);
      status := AppStatus(false, loaded.lastFetch, count, 0, 0, None,
                          loaded.autoCreateWorktrees, loaded.pollIntervalSecs, loaded.remoteName);
      settingsState := None;
      lastPoll := now - 999;
      config := loaded;
      watcher := w;
      branchList := rows;
      new;
      assert watcher.Valid() && !viewMode.CreateWorktree?;
    }

    /** `update_branch_list`: the rows rebuilt from the watcher's registry, keeping the selected branch. */
    method UpdateBranchList(repo: Repo)
      requires Valid()
      modifies branchList
      ensures ListedAs(branchList.items, watcher.State(), config, repo)
      ensures var prev := old(branchList.Selected());
              prev.Some? && prev.value.name in watcher.knownBranches ==>
                branchList.Selected().Some? && branchList.Selected().value.name == prev.value.name
    {
      var sorted := Listing(watcher, config, repo);
      branchList.UpdateItems(sorted);
    }

    /** `do_poll`: nothing while a fetch runs; otherwise the poll time is recorded and a fetch started. */
    method DoPoll(repo: Repo, now: int)
      requires Valid()
      modifies this`lastPoll, this`status, watcher`fetchInProgress, tx
      ensures Valid()
      ensures old(watcher.fetchInProgress) ==>
                lastPoll == old(lastPoll) && status == old(status) && tx.queue == old(tx.queue) && watcher.fetchInProgress
      ensures !old(watcher.fetchInProgress) ==>
                && lastPoll == now && watcher.fetchInProgress
                && tx.queue == old(tx.queue) + [FetchStarted]
                && status == Refreshed(old(status), watcher.knownBranches, config, repo)
    {
      if watcher.fetchInProgress {
        return;
      }
      lastPoll := now;
      watcher.StartFetch(tx);
      UpdateStatus(repo);
    }

    /**
     * `process_watcher_events`: the hooks' output is collected, then every
     * event in the channel is handled in order, including those sent while
     * handling, until the channel is empty.
     */
    method ProcessWatcherEvents(repo: Repo, feeds: map<string, HookFeed>, now: int)
      returns (ghost order: seq<string>, ghost handled: seq<WatcherEvent>)
      requires Valid()
      modifies this`status, watcher, config`lastFetch, tx, branchList
      ensures Valid()
      ensures tx.queue == []
      ensures NoDup(order) && forall b :: b in order <==> b in old(watcher.runningHooks)
      ensures old(tx.queue) + HooksStep(old(watcher.State()), feeds, order).events <= handled
    {
      order := watcher.CheckRunningHooks(feeds, tx);
      handled := DrainChannel(repo, now);
    }

    /** Every event in the channel is handled in order, including those sent while handling. */
    method DrainChannel(repo: Repo, now: int) returns (ghost handled: seq<WatcherEvent>)
      requires Valid()
      modifies this`status, watcher, config`lastFetch, tx, branchList
      ensures Valid()
      ensures tx.queue == []
      ensures old(tx.queue) <= handled
    {
      ghost var start := tx.queue;
      handled := [];
      while true
        invariant Valid()
        invariant start <= handled + tx.queue
        decreases FetchResults(tx.queue), |watcher.pendingBranches|, |tx.queue|
      {
        ghost var q := tx.queue;
        var e := DrainStep(repo, now);
        if e.None? {
          break;
        }
        DrainAdvance(start, handled, q, tx.queue);
        handled := handled + [e.value];
      }
      assert handled + tx.queue == handled;
    }

    /** One turn of the drain keeps the events seen so far a prefix of those handled and still queued. */
    static lemma DrainAdvance(start: seq<WatcherEvent>, handled: seq<WatcherEvent>, q: seq<WatcherEvent>, rest: seq<WatcherEvent>)
      requires q != [] && start <= handled + q && q[1..] <= rest
      ensures start <= (handled + [q[0]]) + rest
      ensures FetchResults(q) == (if q[0].FetchCompleted? then 1 else 0) + FetchResults(q[1..])
    {
      assert handled + q == (handled + [q[0]]) + q[1..];
      PrefixExtend(handled + [q[0]], q[1..], rest);
      PrefixTransitive(start, handled + q, (handled + [q[0]]) + rest);
    }

    /**
     * What handling one watcher event does, from the state before to the
     * state after: each event is relayed to its handler in `app.rs`, and
     * every part of the state its handler leaves alone stays as it was.
     */
    twostate predicate EventHandled(e: WatcherEvent, repo: Repo, now: int, q0: seq<WatcherEvent>)
      reads this, watcher, tx, branchList, config
    {
      if e.FetchStarted? || e.FetchCompleted? || e.FetchFailed? || e.NewBranchesFound? then FetchEventHandled(e, repo, now, q0)
      else CreationEventHandled(e, repo, q0)
    }

    /** `EventHandled` for the events of the fetch thread. */
    twostate predicate FetchEventHandled(e: WatcherEvent, repo: Repo, now: int, q0: seq<WatcherEvent>)
      reads this, watcher, tx, branchList, config
    {
      match e
      case FetchStarted =>
        && status == old(status).(isFetching := true)
        && watcher.State() == old(watcher.State()) && tx.queue == q0
        && branchList.items == old(branchList.items)
      case FetchCompleted(output) =>
        var logged := old(watcher.State()).(logs := old(watcher.State()).logs + [FetchLogFor(config.remoteName, output)]);
        && watcher.State() == FetchCompleteStep(logged, repo, config).state
        && tx.queue == q0 + FetchCompleteStep(logged, repo, config).events
        && config.lastFetch == Some(now)
        && status == Refreshed(old(status).(isFetching := false, lastFetch := Some(now), lastError := None),
                               watcher.knownBranches, config, repo)
        && ListedAs(branchList.items, watcher.State(), config, repo)
      case FetchFailed(msg) =>
        && watcher.State() == old(watcher.State()).(fetching := false,
             logs := old(watcher.State()).logs + [FetchLogRecord(config.remoteName, "Error: " + msg)])
        && status == old(status).(isFetching := false, lastError := Some(msg))
        && tx.queue == q0 && branchList.items == old(branchList.items)
      case NewBranchesFound(_) =>
        && ListedAs(branchList.items, watcher.State(), config, repo)
        && watcher.State() == old(watcher.State()) && status == old(status) && tx.queue == q0
      case _ => false
    }

    /** `EventHandled` for the events of worktree creation and of hooks. */
    twostate predicate CreationEventHandled(e: WatcherEvent, repo: Repo, q0: seq<WatcherEvent>)
      reads this, watcher, tx, branchList, config
    {
      match e
      case WorktreeCreating(branch) =>
        && branchList.items == WithStatus(old(branchList.items), branch, Creating)
        && watcher.State() == old(watcher.State()) && status == old(status) && tx.queue == q0
      case WorktreeCreated(_, _) =>
        && ListedAs(branchList.items, old(watcher.State()), config, repo)
        && status == Refreshed(old(status), old(watcher.knownBranches), config, repo)
        && (config.postCreateCommand.None? ==>
              && watcher.State() == TryProcessNextStep(old(watcher.State()), repo, config).state
              && tx.queue == q0 + TryProcessNextStep(old(watcher.State()), repo, config).events)
        && (config.postCreateCommand.Some? ==> watcher.State() == old(watcher.State()) && tx.queue == q0)
      case WorktreeCreateFailed(branch, msg) =>
        && status == old(status).(lastError := Some(branch + ": " + msg))
        && ListedAs(branchList.items, old(watcher.State()), config, repo)
        && watcher.State() == TryProcessNextStep(old(watcher.State()), repo, config).state
        && tx.queue == q0 + TryProcessNextStep(old(watcher.State()), repo, config).events
      case HookStarted(branch) =>
        && status == old(status).(runningHooks := old(status.runningHooks) + 1)
        && branchList.items == WithStatus(old(branchList.items), branch, RunningHook)
        && watcher.State() == old(watcher.State()) && tx.queue == q0
      case HookOutput(_, _) =>
        && status == old(status) && watcher.State() == old(watcher.State()) && tx.queue == q0
        && branchList.items == old(branchList.items)
      case HookCompleted(branch, code) =>
        && status == old(status).(runningHooks := SatSub(old(status.runningHooks), 1),
                                  lastError := if code != 0 then Some(HookFailure(branch, code)) else old(status.lastError))
        && ListedAs(branchList.items, old(watcher.State()), config, repo)
        && watcher.State() == TryProcessNextStep(old(watcher.State()), repo, config).state
        && tx.queue == q0 + TryProcessNextStep(old(watcher.State()), repo, config).events
      case _ => false
    }

    /** One turn of the draining loop: the next event, if any, taken off the channel and handled. */
    method ReceiveAndHandle(repo: Repo, now: int) returns (e: Option<WatcherEvent>)
      requires Valid()
      modifies this`status, watcher, config`lastFetch, tx, branchList
      ensures Valid()
      ensures e.None? <==> old(tx.queue) == []
      ensures e.None? ==> tx.queue == []
      ensures e.Some? ==> e.value == old(tx.queue)[0] && old(tx.queue)[1..] <= tx.queue
      ensures e.Some? ==> FetchResults(tx.queue) == FetchResults(old(tx.queue)[1..])
      ensures e.Some? && !e.value.FetchCompleted? ==>
                |watcher.pendingBranches| < old(|watcher.pendingBranches|) ||
                (watcher.pendingBranches == old(watcher.pendingBranches) && tx.queue == old(tx.queue)[1..])
      ensures e.Some? ==> EventHandled(e.value, repo, now, old(tx.queue)[1..])
    {
      e := tx.TryRecv();
      if e.Some? {
        HandleEvent(e.value, repo, now);
      }
    }

    /**
     * The draining loop's view of one turn: `ReceiveAndHandle`, of which the
     * loop needs only the channel and the progress it makes.
     */
    method DrainStep(repo: Repo, now: int) returns (e: Option<WatcherEvent>)
      requires Valid()
      modifies this`status, watcher, config`lastFetch, tx, branchList
      ensures Valid()
      ensures e.None? <==> old(tx.queue) == []
      ensures e.None? ==> tx.queue == []
      ensures e.Some? ==> e.value == old(tx.queue)[0] && old(tx.queue)[1..] <= tx.queue
      ensures e.Some? ==> FetchResults(tx.queue) == FetchResults(old(tx.queue)[1..])
      ensures e.Some? && !e.value.FetchCompleted? ==>
                |watcher.pendingBranches| < old(|watcher.pendingBranches|) ||
                (watcher.pendingBranches == old(watcher.pendingBranches) && tx.queue == old(tx.queue)[1..])
    {
      e := ReceiveAndHandle(repo, now);
    }

    /** One event of `process_watcher_events`. */
    method HandleEvent(e: WatcherEvent, repo: Repo, now: int)
      requires Valid()
      modifies this`status, watcher, config`lastFetch, tx, branchList
      ensures Valid()
      ensures old(tx.queue) <= tx.queue
      ensures FetchResults(tx.queue) == FetchResults(old(tx.queue))
      ensures !e.FetchCompleted? ==>
                |watcher.pendingBranches| < old(|watcher.pendingBranches|) ||
                (watcher.pendingBranches == old(watcher.pendingBranches) && tx.queue == old(tx.queue))
      ensures EventHandled(e, repo, now, old(tx.queue))
    {
      if e.FetchStarted? || e.FetchCompleted? || e.FetchFailed? || e.NewBranchesFound? {
        HandleFetchEvent(e, repo, now);
      } else {
        HandleCreationEvent(e, repo);
      }
    }

    /** The events of the fetch thread. */
    method HandleFetchEvent(e: WatcherEvent, repo: Repo, now: int)
      requires Valid() && (e.FetchStarted? || e.FetchCompleted? || e.FetchFailed? || e.NewBranchesFound?)
      modifies this`status, watcher, config`lastFetch, tx, branchList
      ensures Valid()
      ensures old(tx.queue) <= tx.queue
      ensures FetchResults(tx.queue) == FetchResults(old(tx.queue))
      ensures !e.FetchCompleted? ==>
                |watcher.pendingBranches| < old(|watcher.pendingBranches|) ||
                (watcher.pendingBranches == old(watcher.pendingBranches) && tx.queue == old(tx.queue))
      ensures FetchEventHandled(e, repo, now, old(tx.queue))
    {
      match e {
        case FetchStarted =>
          OnFetchStarted();
        case FetchCompleted(output) =>
          OnFetchCompleted(output, repo, now);
        case FetchFailed(msg) =>
          OnFetchFailed(msg);
        case NewBranchesFound(_) =>
          UpdateBranchList(repo);
      }
    }

    /** The events of worktree creation and of hooks. */
    method HandleCreationEvent(e: WatcherEvent, repo: Repo)
      requires Valid() && !(e.FetchStarted? || e.FetchCompleted? || e.FetchFailed? || e.NewBranchesFound?)
      modifies this`status, watcher, tx, branchList
      ensures Valid()
      ensures old(tx.queue) <= tx.queue
      ensures FetchResults(tx.queue) == FetchResults(old(tx.queue))
      ensures |watcher.pendingBranches| < old(|watcher.pendingBranches|) ||
              (watcher.pendingBranches == old(watcher.pendingBranches) && tx.queue == old(tx.queue))
      ensures CreationEventHandled(e, repo, old(tx.queue))
    {
      match e {
        case WorktreeCreating(branch) =>
          SetListedStatus(branch, Creating);
        case WorktreeCreated(_, _) =>
          OnWorktreeCreated(repo);
        case WorktreeCreateFailed(branch, msg) =>
          OnWorktreeCreateFailed(branch, msg, repo);
        case HookStarted(branch) =>
          OnHookStarted(branch);
        case HookOutput(_, _) =>
        case HookCompleted(branch, code) =>
          OnHookCompleted(branch, code, repo);
      }
    }

    /** A fetch has started: the status bar shows it. */
    method OnFetchStarted()
      modifies this`status
      ensures status == old(status).(isFetching := true)
    {
      status := status.(isFetching := true);
    }

    /** A hook has started: one more running hook is counted and its branch's row shows it. */
    method OnHookStarted(branch: string)
      modifies this`status, branchList`items
      ensures status == old(status).(runningHooks := old(status.runningHooks) + 1)
      ensures branchList.items == WithStatus(old(branchList.items), branch, RunningHook)
    {
      status := status.(runningHooks := status.runningHooks + 1);
      SetListedStatus(branch, RunningHook);
    }

    /**
     * A fetch result: its log, then `on_fetch_complete`; the status shows the
     * fetch as finished at `now` without error, and the list and counts are
     * refreshed from the new registry.
     */
    method OnFetchCompleted(output: Option<string>, repo: Repo, now: int)
      requires Valid()
      modifies this`status, watcher, config`lastFetch, tx, branchList
      ensures Valid()
      ensures var logged := old(watcher.State()).(logs := old(watcher.State()).logs + [FetchLogFor(config.remoteName, output)]);
              && watcher.State() == FetchCompleteStep(logged, repo, config).state
              && tx.queue == old(tx.queue) + FetchCompleteStep(logged, repo, config).events
      ensures FetchResults(tx.queue) == FetchResults(old(tx.queue))
      ensures config.lastFetch == Some(now)
      ensures status == Refreshed(old(status).(isFetching := false, lastFetch := Some(now), lastError := None),
                                  watcher.knownBranches, config, repo)
      ensures ListedAs(branchList.items, watcher.State(), config, repo)
    {
      RecordFetch(output, repo, now);
      status := status.(isFetching := false, lastFetch := config.lastFetch, lastError := None);
      UpdateBranchList(repo);
      UpdateStatus(repo);
    }

    /** The watcher's part of a fetch result: the log, then `on_fetch_complete`, which sends no fetch result. */
    method RecordFetch(output: Option<string>, repo: Repo, now: int)
      requires Valid()
      modifies watcher, config`lastFetch, tx
      ensures Valid()
      ensures var logged := old(watcher.State()).(logs := old(watcher.State()).logs + [FetchLogFor(config.remoteName, output)]);
              && watcher.State() == FetchCompleteStep(logged, repo, config).state
              && tx.queue == old(tx.queue) + FetchCompleteStep(logged, repo, config).events
      ensures FetchResults(tx.queue) == FetchResults(old(tx.queue))
      ensures config.lastFetch == Some(now)
    {
      match output {
        case Some(msg) => watcher.AddFetchLog(config.remoteName, msg);
        case None => watcher.AddFetchSuccessLog(config.remoteName);
      }
      ghost var logged := watcher.State();
      ghost var q := tx.queue;
      watcher.OnFetchComplete(repo, config, tx, now);
      FetchCompleteQuiet(logged, repo, config);
      QuietAppend(q, FetchCompleteStep(logged, repo, config).events);
    }

    /** A failed fetch: the watcher may fetch again, the error is logged and shown. */
    method OnFetchFailed(msg: string)
      requires Valid()
      modifies this`status, watcher`fetchInProgress, watcher`commandLogs
      ensures Valid()
      ensures watcher.State() == old(watcher.State()).(fetching := false,
                logs := old(watcher.State()).logs + [FetchLogRecord(config.remoteName, "Error: " + msg)])
      ensures status == old(status).(isFetching := false, lastError := Some(msg))
    {
      watcher.OnFetchFailed();
      watcher.AddFetchLog(config.remoteName, "Error: " + msg);
      status := status.(isFetching := false, lastError := Some(msg));
    }

    /**
     * A created worktree: the list and counts are refreshed, and the next
     * queued branch is started unless a post-create hook is now running.
     */
    method OnWorktreeCreated(repo: Repo)
      requires Valid()
      modifies this`status, watcher, tx, branchList
      ensures Valid()
      ensures ListedAs(branchList.items, old(watcher.State()), config, repo)
      ensures status == Refreshed(old(status), old(watcher.knownBranches), config, repo)
      ensures config.postCreateCommand.None? ==>
                && watcher.State() == TryProcessNextStep(old(watcher.State()), repo, config).state
                && tx.queue == old(tx.queue) + TryProcessNextStep(old(watcher.State()), repo, config).events
      ensures config.postCreateCommand.Some? ==> watcher.State() == old(watcher.State()) && tx.queue == old(tx.queue)
      ensures FetchResults(tx.queue) == FetchResults(old(tx.queue))
      ensures |watcher.pendingBranches| < old(|watcher.pendingBranches|) ||
              (watcher.pendingBranches == old(watcher.pendingBranches) && tx.queue == old(tx.queue))
    {
      UpdateBranchList(repo);
      UpdateStatus(repo);
      if config.postCreateCommand.None? {
        NextBranch(repo);
      }
    }

    /** A failed creation: the error is shown, the list refreshed, and the queue moves on. */
    method OnWorktreeCreateFailed(branch: string, msg: string, repo: Repo)
      requires Valid()
      modifies this`status, watcher, tx, branchList
      ensures Valid()
      ensures status == old(status).(lastError := Some(branch + ": " + msg))
      ensures ListedAs(branchList.items, old(watcher.State()), config, repo)
      ensures watcher.State() == TryProcessNextStep(old(watcher.State()), repo, config).state
      ensures tx.queue == old(tx.queue) + TryProcessNextStep(old(watcher.State()), repo, config).events
      ensures FetchResults(tx.queue) == FetchResults(old(tx.queue))
      ensures |watcher.pendingBranches| < old(|watcher.pendingBranches|) ||
              (watcher.pendingBranches == old(watcher.pendingBranches) && tx.queue == old(tx.queue))
    {
      status := status.(lastError := Some(branch + ": " + msg));
      UpdateBranchList(repo);
      NextBranch(repo);
    }

    /**
     * A finished hook: one hook fewer is counted, a non-zero exit code is
     * shown as an error, the list is refreshed and the queue moves on.
     */
    method OnHookCompleted(branch: string, code: int, repo: Repo)
      requires Valid()
      modifies this`status, watcher, tx, branchList
      ensures Valid()
      ensures status == old(status).(runningHooks := SatSub(old(status.runningHooks), 1),
                                     lastError := if code != 0 then Some(HookFailure(branch, code)) else old(status.lastError))
      ensures ListedAs(branchList.items, old(watcher.State()), config, repo)
      ensures watcher.State() == TryProcessNextStep(old(watcher.State()), repo, config).state
      ensures tx.queue == old(tx.queue) + TryProcessNextStep(old(watcher.State()), repo, config).events
      ensures FetchResults(tx.queue) == FetchResults(old(tx.queue))
      ensures |watcher.pendingBranches| < old(|watcher.pendingBranches|) ||
              (watcher.pendingBranches == old(watcher.pendingBranches) && tx.queue == old(tx.queue))
    {
      HookFinished(branch, code);
      UpdateBranchList(repo);
      NextBranch(repo);
    }

    /** The status bar once a hook has ended: one hook fewer, and the failure shown for a non-zero code. */
    method HookFinished(branch: string, code: int)
      modifies this`status
      ensures status == old(status).(runningHooks := SatSub(old(status.runningHooks), 1),
                                     lastError := if code != 0 then Some(HookFailure(branch, code)) else old(status.lastError))
    {
      status := status.(runningHooks := SatSub(status.runningHooks, 1));
      if code != 0 {
        status := status.(lastError := Some(HookFailure(branch, code)));
      }
    }

    /** `try_process_next`, which sends no fetch result and either does nothing or takes a branch off the queue. */
    method NextBranch(repo: Repo)
      requires Valid()
      modifies watcher, tx
      ensures Valid()
      ensures watcher.State() == TryProcessNextStep(old(watcher.State()), repo, config).state
      ensures tx.queue == old(tx.queue) + TryProcessNextStep(old(watcher.State()), repo, config).events
      ensures FetchResults(tx.queue) == FetchResults(old(tx.queue))
      ensures |watcher.pendingBranches| < old(|watcher.pendingBranches|) ||
              (watcher.pendingBranches == old(watcher.pendingBranches) && tx.queue == old(tx.queue))
    {
      TryProcessNextProgress(watcher.State(), repo, config);
      QuietAppend(tx.queue, TryProcessNextStep(watcher.State(), repo, config).events);
      watcher.TryProcessNext(repo, config, tx);
    }

    /** The first row named `name` shows `st` (`iter_mut().find(..)`); no row changes when none has that name. */
    method SetListedStatus(name: string, st: BranchStatus)
      modifies branchList`items
      ensures branchList.items == WithStatus(old(branchList.items), name, st)
    {
      var items := branchList.items;
      var i := 0;
      while i < |items| && items[i].name != name
        invariant 0 <= i <= |items|
        invariant forall j :: 0 <= j < i ==> items[j].name != name
      {
        i := i + 1;
      }
      if i < |items| {
        assert Position(ItemNames(items), name) == Some(i);
        branchList.items := items[i := items[i].(status := st)];
      } else {
        assert name !in ItemNames(items);
      }
    }

    /**
     * `create_selected_worktree`: the selected branch is queued, unless it
     * has a worktree already or is queued or in progress.
     */
    method CreateSelectedWorktree(repo: Repo)
      requires Valid()
      modifies watcher, tx, branchList
      ensures Valid()
      ensures var sel := old(branchList.Selected());
              sel.None? || CreationBlocked(sel.value.status) ==>
                watcher.State() == old(watcher.State()) && tx.queue == old(tx.queue) && unchanged(branchList)
      ensures var sel := old(branchList.Selected());
              sel.Some? && !CreationBlocked(sel.value.status) ==>
                && watcher.State() == QueueStep(old(watcher.State()), repo, config, sel.value.name).state
                && tx.queue == old(tx.queue) + QueueStep(old(watcher.State()), repo, config, sel.value.name).events
                && ListedAs(branchList.items, watcher.State(), config, repo)
    {
      var sel := branchList.Selected();
      if sel.None? || CreationBlocked(sel.value.status) {
        return;
      }
      watcher.QueueBranch(repo, config, sel.value.name, tx);
      UpdateBranchList(repo);
    }

    /**
     * `delete_selected_worktree`: asks for confirmation for a row with a
     * worktree, and refuses the main worktree with an error.
     */
    method DeleteSelectedWorktree(repo: Repo)
      requires Valid()
      modifies this`status, this`viewMode
      ensures Valid()
      ensures var sel := old(branchList.Selected());
              sel.None? || !IsLocal(sel.value.status) ==> viewMode == old(viewMode) && status == old(status)
      ensures var sel := old(branchList.Selected());
              sel.Some? && IsLocal(sel.value.status) && IsMainWorktree(repo, sel.value.name) ==>
                viewMode == old(viewMode) && status == old(status).(lastError := Some("Cannot delete the main worktree"))
      ensures var sel := old(branchList.Selected());
              sel.Some? && IsLocal(sel.value.status) && !IsMainWorktree(repo, sel.value.name) ==>
                viewMode == DeleteConfirm(sel.value.name, "") && status == old(status)
    {
      var sel := branchList.Selected();
      if sel.None? || !IsLocal(sel.value.status) {
        return;
      }
      var listed := List(repo.worktreeListing);
      if listed.Ok? {
        var wt := FindByBranch(listed.value, sel.value.name);
        if wt.Some? && wt.value.isMain {
          status := status.(lastError := Some("Cannot delete the main worktree"));
          return;
        }
      }
      viewMode := DeleteConfirm(sel.value.name, "");
    }

    /**
     * `do_delete_worktree`: removes the branch's listed worktree, showing a
     * failure as the error, and lists the branches of `after`, the
     * repository as it is once the removal has run.
     */
    method DoDeleteWorktree(branch: string, repo: Repo, after: Repo)
      requires Valid()
      modifies this`status, branchList
      ensures Valid()
      ensures RemovalError(repo, branch).None? ==> status == old(status)
      ensures RemovalError(repo, branch).Some? ==> status == old(status).(lastError := RemovalError(repo, branch))
      ensures ListedAs(branchList.items, watcher.State(), config, after)
    {
      var path := WorktreePathOutcome(repo.worktreeListing, branch);
      if path.Ok? && path.value.Some? {
        var removed := RemoveOutcome(repo.removal(path.value.value));
        if removed.Err? {
          status := status.(lastError := Some(removed.error));
        }
      }
      UpdateBranchList(after);
    }

    /**
     * `toggle_track_selected`: an ignored branch is tracked, any other one
     * untracked. A branch an ignore pattern matches stays ignored either way.
     */
    method ToggleTrackSelected(repo: Repo)
      requires Valid()
      modifies config`trackedBranches, config`untrackedBranches, branchList
      ensures Valid()
      ensures var sel := old(branchList.Selected());
              sel.None? ==> unchanged(config) && unchanged(branchList)
      ensures var sel := old(branchList.Selected());
              sel.Some? && old(config.ShouldIgnoreBranch(sel.value.name, repo.glob)) ==>
                && config.trackedBranches == old(config.trackedBranches) + {sel.value.name}
                && config.untrackedBranches == old(config.untrackedBranches) - {sel.value.name}
      ensures var sel := old(branchList.Selected());
              sel.Some? && !old(config.ShouldIgnoreBranch(sel.value.name, repo.glob)) ==>
                && config.trackedBranches == old(config.trackedBranches) - {sel.value.name}
                && config.untrackedBranches == old(config.untrackedBranches) + {sel.value.name}
      ensures var sel := old(branchList.Selected());
              sel.Some? ==>
                && (config.ShouldIgnoreBranch(sel.value.name, repo.glob) <==>
                      !old(config.ShouldIgnoreBranch(sel.value.name, repo.glob)) ||
                      AnyPatternMatches(config.ignorePatterns, sel.value.name, repo.glob))
                && ListedAs(branchList.items, watcher.State(), config, repo)
    {
      var sel := branchList.Selected();
      if sel.None? {
        return;
      }
      if config.ShouldIgnoreBranch(sel.value.name, repo.glob) {
        config.TrackBranch(sel.value.name);
      } else {
        config.UntrackBranch(sel.value.name);
      }
      UpdateBranchList(repo);
    }

    /** `toggle_auto_create`: the setting flips and the status bar shows the new value. */
    method ToggleAutoCreate()
      modifies config`autoCreateWorktrees, this`status
      ensures config.autoCreateWorktrees == !old(config.autoCreateWorktrees)
      ensures status == old(status).(autoCreateEnabled := config.autoCreateWorktrees)
    {
      config.autoCreateWorktrees := !config.autoCreateWorktrees;
      status := status.(autoCreateEnabled := config.autoCreateWorktrees);
    }

    // -- dialogs (handlers.rs) --

    /**
     * `handle_delete_confirm_keys`: the key as the confirmation dialog takes
     * it; a confirmed deletion runs `do_delete_worktree`.
     */
    method HandleDeleteConfirmKeys(key: KeyCode, repo: Repo, after: Repo)
      requires Valid()
      modifies this`viewMode, this`status, branchList
      ensures Valid()
      ensures !old(viewMode).DeleteConfirm? ==> viewMode == old(viewMode) && status == old(status) && unchanged(branchList)
      ensures old(viewMode).DeleteConfirm? ==>
                var o := DeleteConfirmKey(old(viewMode).branch, old(viewMode).input, key);
                && viewMode == o.view
                && (!o.delete ==> status == old(status) && unchanged(branchList))
                && (o.delete ==> ListedAs(branchList.items, watcher.State(), config, after))
                && (o.delete && RemovalError(repo, old(viewMode).branch).None? ==> status == old(status))
                && (o.delete && RemovalError(repo, old(viewMode).branch).Some? ==>
                      status == old(status).(lastError := RemovalError(repo, old(viewMode).branch)))
    {
      if !viewMode.DeleteConfirm? {
        return;
      }
      var branch := viewMode.branch;
      var o := DeleteConfirmKey(branch, viewMode.input, key);
      viewMode := o.view;
      if o.delete {
        DoDeleteWorktree(branch, repo, after);
      }
    }

    /**
     * `handle_create_worktree_keys`: the key as the dialog takes it; the
     * worktree to create, if the key asks for one, is returned to the caller.
     */
    method HandleCreateWorktreeKeys(key: KeyCode) returns (request: Option<NewWorktree>)
      requires Valid()
      modifies this`viewMode
      ensures Valid()
      ensures !old(viewMode).CreateWorktree? ==> viewMode == old(viewMode) && request.None?
      ensures old(viewMode).CreateWorktree? ==>
                var o := CreateDialogKey(old(viewMode).dialog, key);
                viewMode == o.view && request == o.request
      ensures request.Some? ==>
                && request.value.branch != []
                && (forall i :: 0 <= i < |request.value.branch| ==> IsBranchNameChar(request.value.branch[i]))
                && request.value.base in old(viewMode).dialog.baseBranches
    {
      if !viewMode.CreateWorktree? {
        return None;
      }
      var dialog := viewMode.dialog;
      var o := CreateDialogKey(dialog, key);
      DialogKeyKeepsInvariant(dialog, key);
      if o.request.Some? {
        RequestIsValid(dialog, key);
      }
      viewMode := o.view;
      request := o.request;
    }

    // -- the setup wizard (setup.rs) --

    /**
     * `handle_setup_keys`: Esc skips the wizard, Tab and Enter go forward
     * (finishing at the last step), BackTab goes back, the other keys edit
     * the current step. Nothing happens when no wizard is open.
     */
    method HandleSetupKeys(key: KeyCode, repo: Repo)
      requires Valid()
      modifies this`setupState, this`viewMode, this`status, branchList, watcher`knownBranches
      modifies config`remoteName, config`pollIntervalSecs, config`worktreeBaseDir, config`baseBranch
      modifies config`postCreateCommand, config`autoCreateWorktrees
      ensures Valid()
      ensures old(setupState).None? ==> unchanged(this, config, watcher, branchList)
      ensures old(setupState).Some? ==> SetupKeyHandled(old(setupState).value, key, repo)
    {
      if setupState.None? {
        return;
      }
      if key == Esc {
        SkipSetup(key, repo);
      } else if key == Tab || key == Enter {
        ForwardSetup(key, repo);
      } else {
        EditSetup(key, repo);
      }
    }

    /** Esc in the wizard. */
    method SkipSetup(key: KeyCode, repo: Repo)
      requires Valid() && setupState.Some? && key == Esc
      modifies this`setupState, this`viewMode, branchList, watcher`knownBranches
      ensures Valid()
      ensures SetupKeyHandled(old(setupState).value, key, repo)
    {
      FinishSetupWithDefaults(repo);
    }

    /** Tab or Enter in the wizard. */
    method ForwardSetup(key: KeyCode, repo: Repo)
      requires Valid() && setupState.Some? && (key == Tab || key == Enter)
      modifies this`setupState, this`viewMode, this`status, branchList, watcher`knownBranches
      modifies config`remoteName, config`pollIntervalSecs, config`worktreeBaseDir, config`baseBranch
      modifies config`postCreateCommand, config`autoCreateWorktrees
      ensures Valid()
      ensures SetupKeyHandled(old(setupState).value, key, repo)
    {
      SetupNextStep(repo);
    }

    /** BackTab and the editing keys in the wizard. */
    method EditSetup(key: KeyCode, repo: Repo)
      requires Valid() && setupState.Some? && key != Esc && key != Tab && key != Enter
      modifies this`setupState
      ensures Valid()
      ensures SetupKeyHandled(old(setupState).value, key, repo)
    {
      if key == BackTab {
        SetupPrevStep();
      } else {
        Wizard.SetupKeyAsWrittenKeepsBounds(setupState.value, key);
        setupState := Some(Wizard.SetupKeyAsWritten(setupState.value, key));
      }
    }

    /**
     * What a key does to the open wizard `w`: Esc closes it keeping the
     * configuration; Tab and Enter finish at the last step and otherwise go
     * forward; BackTab goes back; every other key edits the step as
     * `SetupKeyAsWritten` does. Only finishing or Esc touches anything but
     * the wizard.
     */
    twostate predicate SetupKeyHandled(w: SetupState, key: KeyCode, repo: Repo)
      requires SetupInBounds(w)
      reads this, config, watcher, branchList
    {
      if key == Esc then
        && setupState == None && viewMode == Main
        && unchanged(config) && status == old(status)
        && watcher.knownBranches ==
             (if repo.remoteExists(config.remoteName) then Reinitialized(old(watcher.knownBranches), repo, config.remoteName)
              else old(watcher.knownBranches))
        && ListedAs(branchList.items, watcher.State(), config, repo)
      else if (key == Tab || key == Enter) && w.step == SetupStep.Confirm then
        FinishedSetup(w, repo)
      else
        && viewMode == old(viewMode) && status == old(status) && unchanged(config, watcher, branchList)
        && setupState == Some(
             if key == Tab || key == Enter then Wizard.Advance(w, SetupScan(repo), SetupDefault(repo))
             else if key == BackTab then Wizard.Back(w)
             else Wizard.SetupKeyAsWritten(w, key))
    }

    /**
     * `finish_setup` on the answers `w`: they become the configuration, the
     * registry is re-initialised for the chosen remote, the status shows the
     * new settings, and the list is shown.
     */
    twostate predicate FinishedSetup(w: SetupState, repo: Repo)
      reads this, config, watcher, branchList
    {
      && setupState == None && viewMode == Main
      && config.remoteName == w.remoteName && config.pollIntervalSecs == w.pollInterval
      && config.worktreeBaseDir == w.worktreeBaseDir && config.baseBranch == w.baseBranch
      && config.postCreateCommand == w.postCreateCommand && config.autoCreateWorktrees == w.autoCreate
      && watcher.knownBranches == Reinitialized(old(watcher.knownBranches), repo, w.remoteName)
      && status == old(status).(remoteName := w.remoteName, pollInterval := w.pollInterval,
                                autoCreateEnabled := w.autoCreate)
      && ListedAs(branchList.items, watcher.State(), config, repo)
    }

    /** `setup_next_step`: the next step, or the end of the wizard at the last one. */
    method SetupNextStep(repo: Repo)
      requires Valid()
      modifies this`setupState, this`viewMode, this`status, branchList, watcher`knownBranches
      modifies config`remoteName, config`pollIntervalSecs, config`worktreeBaseDir, config`baseBranch
      modifies config`postCreateCommand, config`autoCreateWorktrees
      ensures Valid()
      ensures old(setupState).None? ==> unchanged(this, config, watcher, branchList)
      ensures old(setupState).Some? && old(setupState).value.step != SetupStep.Confirm ==>
                && setupState == Some(Wizard.Advance(old(setupState).value, SetupScan(repo), SetupDefault(repo)))
                && viewMode == old(viewMode) && status == old(status) && unchanged(config, watcher, branchList)
      ensures old(setupState).Some? && old(setupState).value.step == SetupStep.Confirm ==>
                FinishedSetup(old(setupState).value, repo)
    {
      if setupState.None? {
        return;
      }
      var s := setupState.value;
      if s.step == SetupStep.Confirm {
        FinishSetup(repo);
      } else {
        setupState := Some(Wizard.Advance(s, SetupScan(repo), SetupDefault(repo)));
      }
    }

    /** `setup_prev_step` */
    method SetupPrevStep()
      requires Valid()
      modifies this`setupState
      ensures Valid()
      ensures old(setupState).None? ==> setupState == None
      ensures old(setupState).Some? ==> setupState == Some(Wizard.Back(old(setupState).value))
    {
      if setupState.None? {
        return;
      }
      setupState := Some(Wizard.Back(setupState.value));
    }

    /**
     * `finish_setup`: the wizard's answers become the configuration, the
     * watcher is initialised for the chosen remote, and the list is shown.
     * Because every key keeps the wizard's bounds, the stored poll interval is
     * a multiple of 5 between 5 and 300 and the command is never empty.
     */
    method FinishSetup(repo: Repo)
      requires Valid()
      modifies this`setupState, this`viewMode, this`status, branchList, watcher`knownBranches
      modifies config`remoteName, config`pollIntervalSecs, config`worktreeBaseDir, config`baseBranch
      modifies config`postCreateCommand, config`autoCreateWorktrees
      ensures Valid()
      ensures old(setupState).None? ==> unchanged(this, config, watcher, branchList)
      ensures old(setupState).Some? ==> FinishedSetup(old(setupState).value, repo)
      ensures old(setupState).Some? ==>
                Wizard.PollInRange(config.pollIntervalSecs) && config.postCreateCommand != Some([])
    {
      if setupState.None? {
        return;
      }
      var w := setupState.value;
      setupState := None;
      StoreAnswers(config, w);
      Reinit(watcher, repo, config);
      status := status.(remoteName := config.remoteName, pollInterval := config.pollIntervalSecs,
                        autoCreateEnabled := config.autoCreateWorktrees);
      viewMode := Main;
      UpdateBranchList(repo);
    }

    /** `finish_setup_with_defaults`: the wizard closes, keeping the configuration as it is. */
    method FinishSetupWithDefaults(repo: Repo)
      requires Valid()
      modifies this`setupState, this`viewMode, branchList, watcher`knownBranches
      ensures Valid()
      ensures setupState == None && viewMode == Main
      ensures watcher.knownBranches ==
                if repo.remoteExists(config.remoteName) then Reinitialized(old(watcher.knownBranches), repo, config.remoteName)
                else old(watcher.knownBranches)
      ensures ListedAs(branchList.items, watcher.State(), config, repo)
    {
      setupState := None;
      if repo.remoteExists(config.remoteName) {
        Reinit(watcher, repo, config);
      }
      viewMode := Main;
      UpdateBranchList(repo);
    }

    // -- the settings screen (settings.rs) --

    /** `open_settings` */
    method OpenSettings(repo: Repo)
      requires Valid()
      modifies this`settingsState, this`viewMode
      ensures Valid()
      ensures settingsState == Some(OpenedSettings(repo, config.remoteName)) && viewMode == ViewMode.Settings
    {
      settingsState := Some(OpenedSettings(repo, config.remoteName));
      viewMode := ViewMode.Settings;
    }

    /**
     * `handle_settings_keys`: while a value is edited the keys edit it; else
     * they close the screen, move between fields, act on a field or nudge
     * the poll interval. Nothing happens when the screen is not open.
     */
    method HandleSettingsKeys(key: KeyCode, repo: Repo)
      requires Valid()
      modifies this`settingsState, this`viewMode, this`status, watcher`knownBranches
      modifies config`remoteName, config`pollIntervalSecs, config`worktreeBaseDir, config`baseBranch
      modifies config`postCreateCommand, config`autoCreateWorktrees
      ensures Valid()
      ensures old(settingsState).None? ==> unchanged(this, config, watcher)
      ensures old(settingsState).Some? && old(settingsState).value.editing ==> Edited(old(settingsState).value, key)
      ensures old(settingsState).Some? && !old(settingsState).value.editing ==> Browsed(old(settingsState).value, key, repo)
    {
      if settingsState.None? {
        return;
      }
      if settingsState.value.editing {
        EditingKey(key);
      } else {
        BrowsingKey(key, repo);
      }
    }

    /**
     * What a key does while the value `s` is edited: Esc drops the edit,
     * Enter applies it, any other key changes the text; the screen stays
     * open and the watcher is left alone.
     */
    twostate predicate Edited(s: SettingsState, key: KeyCode)
      reads this, config, watcher
    {
      && viewMode == old(viewMode) && unchanged(watcher)
      && (key == Esc ==> settingsState == Some(s.(editing := false, editValue := [])) && unchanged(config) && status == old(status))
      && (key == Enter ==> EditApplied(s))
      && (key != Esc && key != Enter ==>
            && settingsState == Some(s.(editValue := SettingsScreen.EditText(s.editValue, key)))
            && unchanged(config) && status == old(status))
    }

    /** `apply_settings_edit` on the edited value `s`: the text becomes the selected setting and editing ends. */
    twostate predicate EditApplied(s: SettingsState)
      reads this, config
    {
      && settingsState == Some(s.(editing := false, editValue := []))
      && config.pollIntervalSecs ==
           (if s.selectedField == SettingsField.PollInterval then SettingsScreen.EditedPoll(s.editValue, old(config.pollIntervalSecs))
            else old(config.pollIntervalSecs))
      && config.worktreeBaseDir ==
           (if s.selectedField == SettingsField.WorktreeBaseDir then s.editValue else old(config.worktreeBaseDir))
      && config.postCreateCommand ==
           (if s.selectedField == SettingsField.PostCreateCommand then SettingsScreen.EditedCommand(s.editValue)
            else old(config.postCreateCommand))
      && config.remoteName == old(config.remoteName) && config.baseBranch == old(config.baseBranch)
      && config.autoCreateWorktrees == old(config.autoCreateWorktrees) && config.lastFetch == old(config.lastFetch)
      && status == (if s.selectedField == SettingsField.PollInterval && ParseU64(s.editValue).Some?
                    then old(status).(pollInterval := config.pollIntervalSecs) else old(status))
    }

    /** A key while a value is edited: Esc drops the edit, Enter applies it, other keys change the text. */
    method EditingKey(key: KeyCode)
      requires Valid() && settingsState.Some? && settingsState.value.editing
      modifies this`settingsState, this`status
      modifies config`pollIntervalSecs, config`worktreeBaseDir, config`postCreateCommand
      ensures Valid()
      ensures Edited(old(settingsState).value, key)
    {
      var s := settingsState.value;
      match key {
        case Esc => settingsState := Some(s.(editing := false, editValue := []));
        case Enter => ApplySettingsEdit();
        case _ => settingsState := Some(s.(editValue := SettingsScreen.EditText(s.editValue, key)));
      }
    }

    /** `apply_settings_edit`: the edited text becomes the selected setting, and editing ends. */
    method ApplySettingsEdit()
      requires Valid()
      modifies this`settingsState, this`status
      modifies config`pollIntervalSecs, config`worktreeBaseDir, config`postCreateCommand
      ensures Valid()
      ensures old(settingsState).None? ==> unchanged(this, config)
      ensures old(settingsState).Some? ==> EditApplied(old(settingsState).value)
    {
      if settingsState.None? {
        return;
      }
      var s := settingsState.value;
      match s.selectedField {
        case PollInterval =>
          var parsed := ParseU64(s.editValue);
          if parsed.Some? {
            config.pollIntervalSecs := SettingsScreen.ClampPoll(parsed.value);
            status := status.(pollInterval := config.pollIntervalSecs);
          }
        case WorktreeBaseDir =>
          config.worktreeBaseDir := s.editValue;
        case PostCreateCommand =>
          config.postCreateCommand := SettingsScreen.EditedCommand(s.editValue);
        case _ =>
      }
      settingsState := Some(s.(editing := false, editValue := []));
    }

    /**
     * What a key does while no value is edited, `s` being the screen's state
     * before it: Esc, 'q' and 's' close the screen; 'j' and Down or 'k' and
     * Up move between fields (resetting the list row when they move); Enter
     * acts on the field; Left and Right nudge the poll interval when it is
     * selected; every other key changes nothing.
     */
    twostate predicate Browsed(s: SettingsState, key: KeyCode, repo: Repo)
      reads this, config, watcher
    {
      if key in {Esc, Char('q'), Char('s')} then
        && settingsState == None && viewMode == Main
        && unchanged(config, watcher) && status == old(status)
      else if key in {Down, Char('j')} then
        && settingsState == Some(s.(selectedField := SettingsScreen.NextField(s.selectedField),
                                    listIndex := if s.selectedField.Index() + 1 < |AllFields| then 0 else s.listIndex))
        && unchanged(config, watcher) && viewMode == old(viewMode) && status == old(status)
      else if key in {Up, Char('k')} then
        && settingsState == Some(s.(selectedField := SettingsScreen.PrevField(s.selectedField),
                                    listIndex := if s.selectedField.Index() > 0 then 0 else s.listIndex))
        && unchanged(config, watcher) && viewMode == old(viewMode) && status == old(status)
      else if key == Enter then
        EnterDone(s, repo) && viewMode == old(viewMode)
      else if key == Left || key == Right then
        && settingsState == old(settingsState) && viewMode == old(viewMode) && unchanged(watcher)
        && (s.selectedField != SettingsField.PollInterval ==> unchanged(config) && status == old(status))
        && (s.selectedField == SettingsField.PollInterval ==>
              && config.pollIntervalSecs ==
                   (if key == Left then SettingsScreen.PollLeft(old(config.pollIntervalSecs))
                    else SettingsScreen.PollRight(old(config.pollIntervalSecs)))
              && config.remoteName == old(config.remoteName) && config.baseBranch == old(config.baseBranch)
              && config.autoCreateWorktrees == old(config.autoCreateWorktrees)
              && config.worktreeBaseDir == old(config.worktreeBaseDir) && config.postCreateCommand == old(config.postCreateCommand)
              && status == if config.pollIntervalSecs != old(config.pollIntervalSecs)
                           then old(status).(pollInterval := config.pollIntervalSecs) else old(status))
      else
        unchanged(this, config, watcher)
    }

    /**
     * Enter on the field `s` selects: the auto-create setting flips; the
     * remote cycles (reloading the branches and re-initialising the
     * watcher); the base branch cycles; the three text fields start editing
     * their value.
     */
    twostate predicate EnterDone(s: SettingsState, repo: Repo)
      reads this, config, watcher
    {
      && config.pollIntervalSecs == old(config.pollIntervalSecs) && config.worktreeBaseDir == old(config.worktreeBaseDir)
      && config.postCreateCommand == old(config.postCreateCommand)
      && (s.selectedField == SettingsField.AutoCreate ==>
            && config.autoCreateWorktrees == !old(config.autoCreateWorktrees)
            && status == old(status).(autoCreateEnabled := config.autoCreateWorktrees)
            && settingsState == old(settingsState)
            && unchanged(watcher) && config.remoteName == old(config.remoteName) && config.baseBranch == old(config.baseBranch))
      && (s.selectedField == SettingsField.Remote ==>
            match SettingsScreen.CycleRemote(s.remotes, old(config.remoteName))
            case None => unchanged(config, watcher) && settingsState == old(settingsState) && status == old(status)
            case Some(r) =>
              && config.remoteName == r && status == old(status).(remoteName := r)
              && config.baseBranch == old(config.baseBranch) && config.autoCreateWorktrees == old(config.autoCreateWorktrees)
              && settingsState == Some(s.(branches := UnwrapOr(BranchesOf(repo, r), s.branches)))
              && watcher.knownBranches == Reinitialized(old(watcher.knownBranches), repo, r))
      && (s.selectedField == SettingsField.BaseBranch ==>
            && config.baseBranch == SettingsScreen.CycleBaseBranch(s.branches, old(config.baseBranch))
            && settingsState == old(settingsState) && status == old(status) && unchanged(watcher)
            && config.remoteName == old(config.remoteName) && config.autoCreateWorktrees == old(config.autoCreateWorktrees))
      && (s.selectedField.PollInterval? || s.selectedField.WorktreeBaseDir? || s.selectedField.PostCreateCommand? ==>
            && unchanged(config, watcher) && status == old(status)
            && settingsState == Some(s.(editing := true, editValue :=
                 if s.selectedField.PollInterval? then NatToString(config.pollIntervalSecs)
                 else if s.selectedField.WorktreeBaseDir? then config.worktreeBaseDir
                 else UnwrapOr(config.postCreateCommand, []))))
    }

    /**
     * A key while no value is edited: Esc, 'q' and 's' close the screen, 'j'
     * and Down or 'k' and Up move between fields (resetting the list row when
     * they move), Enter acts on the field, Left and Right nudge the poll
     * interval when it is selected.
     */
    method BrowsingKey(key: KeyCode, repo: Repo)
      requires Valid() && settingsState.Some? && !settingsState.value.editing
      modifies this`settingsState, this`viewMode, this`status, watcher`knownBranches
      modifies config`remoteName, config`pollIntervalSecs, config`baseBranch, config`autoCreateWorktrees
      ensures Valid()
      ensures Browsed(old(settingsState).value, key, repo)
    {
      var s := settingsState.value;
      var f := s.selectedField;
      match key {
        case Esc => CloseSettings();
        case Char(c) =>
          if c == 'q' || c == 's' {
            CloseSettings();
          } else if c == 'j' {
            NextSettingsField();
          } else if c == 'k' {
            PrevSettingsField();
          }
        case Down => NextSettingsField();
        case Up => PrevSettingsField();
        case Enter => SettingsEnter(repo);
        case Left => NudgePoll(key, repo);
        case Right => NudgePoll(key, repo);
        case _ =>
      }
    }

    /** Left and Right on the settings screen: the poll interval moves by 5 within its limits when selected. */
    method NudgePoll(key: KeyCode, repo: Repo)
      requires Valid() && settingsState.Some? && !settingsState.value.editing && (key == Left || key == Right)
      modifies this`status, config`pollIntervalSecs
      ensures Valid()
      ensures Browsed(old(settingsState).value, key, repo)
    {
      if settingsState.value.selectedField == SettingsField.PollInterval {
        if key == Left && config.pollIntervalSecs > 5 {
          config.pollIntervalSecs := config.pollIntervalSecs - 5;
          status := status.(pollInterval := config.pollIntervalSecs);
        } else if key == Right && config.pollIntervalSecs < 300 {
          config.pollIntervalSecs := config.pollIntervalSecs + 5;
          status := status.(pollInterval := config.pollIntervalSecs);
        }
      }
    }

    method CloseSettings()
      modifies this`settingsState, this`viewMode
      ensures settingsState == None && viewMode == Main
    {
      settingsState := None;
      viewMode := Main;
    }

    method NextSettingsField()
      requires settingsState.Some?
      modifies this`settingsState
      ensures var s := old(settingsState).value;
              settingsState == Some(s.(selectedField := SettingsScreen.NextField(s.selectedField),
                                       listIndex := if s.selectedField.Index() + 1 < |AllFields| then 0 else s.listIndex))
    {
      var s := settingsState.value;
      if s.selectedField.Index() < |AllFields| - 1 {
        settingsState := Some(s.(selectedField := FromIndex(s.selectedField.Index() + 1), listIndex := 0));
      }
    }

    method PrevSettingsField()
      requires settingsState.Some?
      modifies this`settingsState
      ensures var s := old(settingsState).value;
              settingsState == Some(s.(selectedField := SettingsScreen.PrevField(s.selectedField),
                                       listIndex := if s.selectedField.Index() > 0 then 0 else s.listIndex))
    {
      var s := settingsState.value;
      if s.selectedField.Index() > 0 {
        settingsState := Some(s.(selectedField := FromIndex(s.selectedField.Index() - 1), listIndex := 0));
      }
    }

    /**
     * Enter on a field: the auto-create setting flips; the remote cycles
     * (reloading the branches and re-initialising the watcher); the base
     * branch cycles; the three text fields start editing their value.
     */
    method SettingsEnter(repo: Repo)
      requires Valid() && settingsState.Some?
      modifies this`settingsState, this`status, watcher`knownBranches
      modifies config`remoteName, config`baseBranch, config`autoCreateWorktrees
      ensures Valid()
      ensures EnterDone(old(settingsState).value, repo)
    {
      var s := settingsState.value;
      match s.selectedField {
        case AutoCreate =>
          config.autoCreateWorktrees := !config.autoCreateWorktrees;
          status := status.(autoCreateEnabled := config.autoCreateWorktrees);
        case Remote =>
          NextRemote(repo);
        case BaseBranch =>
          config.baseBranch := SettingsScreen.CycleBaseBranch(s.branches, config.baseBranch);
        case PollInterval =>
          settingsState := Some(s.(editing := true, editValue := NatToString(config.pollIntervalSecs)));
        case WorktreeBaseDir =>
          settingsState := Some(s.(editing := true, editValue := config.worktreeBaseDir));
        case PostCreateCommand =>
          settingsState := Some(s.(editing := true, editValue := UnwrapOr(config.postCreateCommand, [])));
      }
    }

    /** Enter on the remote field: the next remote is configured, its branches offered, the watcher re-initialised. */
    method NextRemote(repo: Repo)
      requires Valid() && settingsState.Some?
      modifies this`settingsState, this`status, watcher`knownBranches, config`remoteName
      ensures Valid()
      ensures var s := old(settingsState).value;
              match SettingsScreen.CycleRemote(s.remotes, old(config.remoteName))
              case None => unchanged(config, watcher) && settingsState == old(settingsState) && status == old(status)
              case Some(r) =>
                && config.remoteName == r && status == old(status).(remoteName := r)
                && settingsState == Some(s.(branches := UnwrapOr(BranchesOf(repo, r), s.branches)))
                && watcher.knownBranches == Reinitialized(old(watcher.knownBranches), repo, r)
    {
      var s := settingsState.value;
      var next := SettingsScreen.CycleRemote(s.remotes, config.remoteName);
      if next.Some? {
        config.remoteName := next.value;
        status := status.(remoteName := config.remoteName);
        var scanned := BranchesOf(repo, config.remoteName);
        if scanned.Some? {
          settingsState := Some(s.(branches := scanned.value));
        }
        Reinit(watcher, repo, config);
      }
    }

    /** `update_status` */
    method UpdateStatus(repo: Repo)
      requires Valid()
      modifies this`status
      ensures status == Refreshed(old(status), watcher.knownBranches, config, repo)
      ensures status.remoteBranchCount == |watcher.knownBranches.Keys|
    {
      var known := watcher.GetKnownBranches();
      KnownCount(known, watcher.knownBranches);
      var listed := List(repo.worktreeListing);
      status := status.(remoteBranchCount := |known|,
                        worktreeCount := if listed.Ok? then |listed.value| else 0,
                        autoCreateEnabled := config.autoCreateWorktrees,
                        pollInterval := config.pollIntervalSecs);
    }
  }
}
