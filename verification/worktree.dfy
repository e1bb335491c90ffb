// `git worktree` listing, lookup, creation and removal (src/git/worktree.rs).
// Git runs and filesystem checks are inputs.
module GitWorktree {
  import opened Util
  import opened Text
  import opened Process

  /** One entry of `git worktree list --porcelain`. */
  datatype WorktreeInfo = WorktreeInfo(
    path: string,
    branch: Option<string>,
    head: string,
    isMain: bool,
    isLocked: bool,
    isPrunable: bool)

  function NewInfo(path: string): WorktreeInfo
  {
    WorktreeInfo(path, None, "", false, false, false)
  }

  predicate IsHeader(line: string)
  {
    StartsWith(line, "worktree ")
  }

  /** The effect of one attribute line on the entry it follows. */
  function ApplyAttribute(wt: WorktreeInfo, line: string): (r: WorktreeInfo)
    ensures r.path == wt.path
    ensures StartsWith(line, "HEAD ") ==> r == wt.(head := line[5..])
    ensures !StartsWith(line, "HEAD ") && StartsWith(line, "branch refs/heads/") ==>
              r == wt.(branch := Some(line[18..]))
    ensures !StartsWith(line, "HEAD ") && StartsWith(line, "branch ") && !StartsWith(line, "branch refs/heads/") ==>
              r == wt.(branch := Some(line[7..]))
    ensures !StartsWith(line, "HEAD ") && !StartsWith(line, "branch ") ==>
              && (line == "bare" ==> r == wt.(isMain := true))
              && (line == "locked" ==> r == wt.(isLocked := true))
              && (line == "prunable" ==> r == wt.(isPrunable := true))
              && (line != "bare" && line != "locked" && line != "prunable" ==> r == wt)
  {
    if StartsWith(line, "HEAD ") then wt.(head := line[5..])
    else if StartsWith(line, "branch ") then wt.(branch := Some(BranchRef(line)))
    else
      assert !StartsWith(line, "branch refs/heads/") by {
        StartsWithConcat(line, "branch ", "refs/heads/");
      }
      if line == "bare" then wt.(isMain := true)
      else if line == "locked" then wt.(isLocked := true)
      else if line == "prunable" then wt.(isPrunable := true)
      else wt
  }

  /** The branch of a `branch ` line: the name after "refs/heads/" when it is there, else the whole reference. */
  function BranchRef(line: string): (b: string)
    requires StartsWith(line, "branch ")
    ensures StartsWith(line, "branch refs/heads/") ==> b == line[18..]
    ensures !StartsWith(line, "branch refs/heads/") ==> b == line[7..]
  {
    var rest := line[7..];
    StartsWithConcat(line, "branch ", "refs/heads/");
    match StripPrefix(rest, "refs/heads/")
    case Some(name) =>
      assert name == rest[11..];
      name
    case None => rest
  }

  /** Applies the attribute lines that follow an entry, up to a blank line or the next entry. */
  function Fill(wt: WorktreeInfo, rest: seq<string>): (r: WorktreeInfo)
    ensures r.path == wt.path
    decreases |rest|
  {
    if rest == [] || rest[0] == "" || IsHeader(rest[0]) then wt
    else Fill(ApplyAttribute(wt, rest[0]), rest[1..])
  }

  /** The entries of a porcelain listing, one per header line, before the first is marked main. */
  function Entries(lines: seq<string>): (r: seq<WorktreeInfo>)
    decreases |lines|
  {
    if lines == [] then []
    else if IsHeader(lines[0]) then [Fill(NewInfo(lines[0][9..]), lines[1..])] + Entries(lines[1..])
    else Entries(lines[1..])
  }

  /** The paths named by the header lines, in order. */
  function HeaderPaths(lines: seq<string>): (r: seq<string>)
    decreases |lines|
  {
    if lines == [] then []
    else if IsHeader(lines[0]) then [lines[0][9..]] + HeaderPaths(lines[1..])
    else HeaderPaths(lines[1..])
  }

  /** One entry per "worktree <path>" line, in input order, with that path. */
  lemma {:induction false} EntriesFollowHeaders(lines: seq<string>)
    ensures |Entries(lines)| == |HeaderPaths(lines)|
    ensures forall k :: 0 <= k < |Entries(lines)| ==> Entries(lines)[k].path == HeaderPaths(lines)[k]
    decreases |lines|
  {
    if lines != [] { EntriesFollowHeaders(lines[1..]); }
  }

  /** The first entry, if any, is flagged as the main worktree. */
  function MarkFirstMain(ws: seq<WorktreeInfo>): (r: seq<WorktreeInfo>)
    ensures |r| == |ws|
    ensures |r| > 0 ==> r[0] == ws[0].(isMain := true)
    ensures ws != [] ==> r[1..] == ws[1..]
  {
    if ws == [] then [] else [ws[0].(isMain := true)] + ws[1..]
  }

  /** What `parse_worktree_list` returns for a listing. */
  function ParsedWorktrees(output: string): (r: seq<WorktreeInfo>)
  {
    MarkFirstMain(Entries(Lines(output)))
  }

  lemma EntriesCons(line: string, rest: seq<string>)
    ensures Entries([line] + rest) ==
              if IsHeader(line) then [Fill(NewInfo(line[9..]), rest)] + Entries(rest) else Entries(rest)
  {
    assert ([line] + rest)[1..] == rest;
  }

  lemma FillCons(wt: WorktreeInfo, line: string, rest: seq<string>)
    ensures Fill(wt, [line] + rest) ==
              if line == "" || IsHeader(line) then wt else Fill(ApplyAttribute(wt, line), rest)
  {
    assert ([line] + rest)[1..] == rest;
  }

  /** The entry still being read and the lines not read yet, as entries. */
  function Pending(current: Option<WorktreeInfo>, rest: seq<string>): seq<WorktreeInfo>
  {
    match current
    case None => Entries(rest)
    case Some(wt) => [Fill(wt, rest)] + Entries(rest)
  }

  lemma PendingBlank(current: Option<WorktreeInfo>, rest: seq<string>)
    ensures Pending(current, [""] + rest) == (if current.Some? then [current.value] else []) + Entries(rest)
  {
    EntriesCons("", rest);
    if current.Some? { FillCons(current.value, "", rest); }
  }

  lemma PendingHeader(current: Option<WorktreeInfo>, line: string, rest: seq<string>)
    requires IsHeader(line)
    ensures Pending(current, [line] + rest) ==
              (if current.Some? then [current.value] else []) + Pending(Some(NewInfo(line[9..])), rest)
  {
    EntriesCons(line, rest);
    if current.Some? { FillCons(current.value, line, rest); }
  }

  lemma PendingAttribute(current: Option<WorktreeInfo>, line: string, rest: seq<string>)
    requires line != "" && !IsHeader(line)
    ensures Pending(current, [line] + rest) ==
              Pending(if current.Some? then Some(ApplyAttribute(current.value, line)) else None, rest)
  {
    EntriesCons(line, rest);
    if current.Some? { FillCons(current.value, line, rest); }
  }

  /** `parse_worktree_list`: reads the listing line by line, keeping the entry being read. */
  method ParseWorktreeList(output: string) returns (worktrees: seq<WorktreeInfo>)
    ensures worktrees == ParsedWorktrees(output)
  {
    var lines := Lines(output);
    worktrees := [];
    var current: Option<WorktreeInfo> := None;
    var i := 0;
    assert lines[0..] == lines;
    while i < |lines|
      invariant 0 <= i <= |lines|
      invariant worktrees + Pending(current, lines[i..]) == Entries(lines)
    {
      assert lines[i..] == [lines[i]] + lines[i + 1..];
      worktrees, current := ReadLine(worktrees, current, lines[i], lines[i + 1..]);
      i := i + 1;
    }
    if current.Some? {
      worktrees := worktrees + [current.value];
    }
    worktrees := MarkFirstMain(worktrees);
  }

  /**
   * One line of the listing: a blank line ends the entry being read, a header
   * ends it and starts the next, another line is an attribute of it.
   */
  method ReadLine(done: seq<WorktreeInfo>, current: Option<WorktreeInfo>, line: string, ghost rest: seq<string>)
    returns (done': seq<WorktreeInfo>, current': Option<WorktreeInfo>)
    ensures done' + Pending(current', rest) == done + Pending(current, [line] + rest)
  {
    done', current' := done, current;
    if line == [] {
      PendingBlank(current, rest);
      if current.Some? {
        done' := done + [current.value];
        current' := None;
        assert done' + Pending(current', rest) == done + ([current.value] + Entries(rest));
      }
    } else if IsHeader(line) {
      PendingHeader(current, line, rest);
      if current.Some? {
        done' := done + [current.value];
      }
      current' := Some(NewInfo(line[9..]));
    } else {
      PendingAttribute(current, line, rest);
      if current.Some? {
        current' := Some(ApplyAttribute(current.value, line));
      }
    }
  }

  /** The three lines git prints for a worktree on a branch. */
  function EntryLines(path: string, head: string, branch: string): (r: seq<string>)
    ensures |r| == 3
  {
    ["worktree " + path, "HEAD " + head, "branch refs/heads/" + branch]
  }

  /** A worktree on a branch, as read from its three lines. */
  function BranchEntry(path: string, head: string, branch: string): (r: WorktreeInfo)
  {
    NewInfo(path).(head := head, branch := Some(branch))
  }

  /** The attribute lines of a block are read into its entry, up to the blank line or next header. */
  lemma EntryBlock(path: string, head: string, branch: string, rest: seq<string>)
    requires rest == [] || rest[0] == "" || IsHeader(rest[0])
    ensures Entries(EntryLines(path, head, branch) + rest) == [BranchEntry(path, head, branch)] + Entries(rest)
  {
    var l := EntryLines(path, head, branch);
    var l0, l1, l2 := l[0], l[1], l[2];
    HeaderLine(path);
    HeadLine(NewInfo(path), head);
    BranchLine(NewInfo(path).(head := head), branch);
    assert l + rest == [l0] + ([l1] + ([l2] + rest));
    EntriesCons(l0, [l1] + ([l2] + rest));
    EntriesCons(l1, [l2] + rest);
    EntriesCons(l2, rest);
    FillBlock(path, head, branch, rest);
  }

  /** The entry a header starts takes the HEAD and branch lines after it, and stops at what ends a block. */
  lemma FillBlock(path: string, head: string, branch: string, rest: seq<string>)
    requires rest == [] || rest[0] == "" || IsHeader(rest[0])
    ensures Fill(NewInfo(path), ["HEAD " + head] + (["branch refs/heads/" + branch] + rest)) == BranchEntry(path, head, branch)
  {
    HeadLine(NewInfo(path), head);
    var h := NewInfo(path).(head := head);
    BranchLine(h, branch);
    FillCons(NewInfo(path), "HEAD " + head, ["branch refs/heads/" + branch] + rest);
    FillCons(h, "branch refs/heads/" + branch, rest);
  }

  lemma HeaderLine(path: string)
    ensures IsHeader("worktree " + path) && ("worktree " + path)[9..] == path
  {
    assert ("worktree " + path)[..9] == "worktree ";
  }

  lemma HeadLine(wt: WorktreeInfo, head: string)
    ensures !IsHeader("HEAD " + head) && "HEAD " + head != ""
    ensures ApplyAttribute(wt, "HEAD " + head) == wt.(head := head)
  {
    var l := "HEAD " + head;
    assert l[..5] == "HEAD " && l[5..] == head;
    NotStartsWithAt(l, "worktree ", 0);
  }

  lemma BranchLine(wt: WorktreeInfo, branch: string)
    ensures !IsHeader("branch refs/heads/" + branch) && "branch refs/heads/" + branch != ""
    ensures ApplyAttribute(wt, "branch refs/heads/" + branch) == wt.(branch := Some(branch))
  {
    var l := "branch refs/heads/" + branch;
    assert l[..18] == "branch refs/heads/" && l[18..] == branch;
    NotStartsWithAt(l, "worktree ", 0);
    NotStartsWithAt(l, "HEAD ", 0);
  }

  /** A blank line between blocks contributes nothing. */
  lemma EntriesBlank(rest: seq<string>)
    ensures Entries([""] + rest) == Entries(rest)
  {
    NotStartsWithAt("", "worktree ", 0);
    EntriesCons("", rest);
  }

  /**
   * A listing of two worktrees on branches, separated by a blank line, is read
   * as those two worktrees, in order, with only the first marked main.
   */
  lemma ParseTwoWorktrees(p1: string, h1: string, b1: string, p2: string, h2: string, b2: string)
    ensures var ws := MarkFirstMain(Entries(EntryLines(p1, h1, b1) + [""] + EntryLines(p2, h2, b2)));
            ws == [BranchEntry(p1, h1, b1).(isMain := true), BranchEntry(p2, h2, b2)]
  {
    var second := EntryLines(p2, h2, b2);
    EntryBlock(p2, h2, b2, []);
    assert second + [] == second;
    EntriesBlank(second);
    assert EntryLines(p1, h1, b1) + [""] + second == EntryLines(p1, h1, b1) + ([""] + second);
    EntryBlock(p1, h1, b1, [""] + second);
  }

  /** `has_worktree_for_branch` on a listing: some entry is on `branch`. */
  predicate HasWorktreeForBranch(ws: seq<WorktreeInfo>, branch: string)
  {
    exists k :: 0 <= k < |ws| && ws[k].branch == Some(branch)
  }

  /** The first entry on `branch`, if any. */
  function FindByBranch(ws: seq<WorktreeInfo>, branch: string): (r: Option<WorktreeInfo>)
    ensures r.None? <==> !HasWorktreeForBranch(ws, branch)
    ensures r.Some? ==> r.value.branch == Some(branch)
    ensures r.Some? ==>
              exists k :: 0 <= k < |ws| && ws[k] == r.value && forall j :: 0 <= j < k ==> ws[j].branch != Some(branch)
    decreases |ws|
  {
    if ws == [] then None
    else if ws[0].branch == Some(branch) then Some(ws[0])
    else
      var r := FindByBranch(ws[1..], branch);
      assert r.Some? ==> exists k :: 0 <= k < |ws| && ws[k] == r.value && forall j :: 0 <= j < k ==> ws[j].branch != Some(branch) by {
        if r.Some? {
          var k :| 0 <= k < |ws[1..]| && ws[1..][k] == r.value && forall j :: 0 <= j < k ==> ws[1..][j].branch != Some(branch);
          assert ws[k + 1] == r.value;
          forall j | 0 <= j < k + 1 ensures ws[j].branch != Some(branch) {
            if j > 0 { assert ws[j] == ws[1..][j - 1]; }
          }
        }
      }
      assert HasWorktreeForBranch(ws, branch) ==> HasWorktreeForBranch(ws[1..], branch) by {
        if HasWorktreeForBranch(ws, branch) {
          var k :| 0 <= k < |ws| && ws[k].branch == Some(branch);
          assert k > 0 && ws[1..][k - 1] == ws[k];
        }
      }
      assert HasWorktreeForBranch(ws[1..], branch) ==> HasWorktreeForBranch(ws, branch) by {
        if HasWorktreeForBranch(ws[1..], branch) {
          var k :| 0 <= k < |ws[1..]| && ws[1..][k].branch == Some(branch);
          assert ws[k + 1] == ws[1..][k];
        }
      }
      r
  }

  /** `get_worktree_path` on a listing: the path of the first entry on `branch`. */
  function WorktreePathFor(ws: seq<WorktreeInfo>, branch: string): (r: Option<string>)
    ensures r.Some? <==> HasWorktreeForBranch(ws, branch)
    ensures r.Some? ==> FindByBranch(ws, branch).Some? && r.value == FindByBranch(ws, branch).value.path
  {
    match FindByBranch(ws, branch)
    case Some(w) => Some(w.path)
    case None => None
  }

  /** What `WorktreeManager::list` yields for the run of `git worktree list --porcelain`. */
  function ListOutcome(run: Run): (r: Result<seq<WorktreeInfo>>)
    ensures r.Ok? <==> run.Exited? && run.success
  {
    match run
    case SpawnFailed(_) => Err("Failed to run git worktree list")
    case Exited(success, _, stdout, stderr) =>
      if success then Ok(ParsedWorktrees(stdout)) else Err("git worktree list failed: " + stderr)
  }

  method List(run: Run) returns (r: Result<seq<WorktreeInfo>>)
    ensures r == ListOutcome(run)
  {
    match run
    case SpawnFailed(_) => r := Err("Failed to run git worktree list");
    case Exited(success, _, stdout, stderr) =>
      if !success {
        r := Err("git worktree list failed: " + stderr);
      } else {
        var ws := ParseWorktreeList(stdout);
        r := Ok(ws);
      }
  }

  /** `has_worktree_for_branch`: whether some listed worktree has the branch checked out. */
  function HasWorktreeOutcome(run: Run, branch: string): (r: Result<bool>)
    ensures r.Ok? <==> ListOutcome(run).Ok?
    ensures r.Ok? ==> (r.value <==> HasWorktreeForBranch(ListOutcome(run).value, branch))
  {
    match ListOutcome(run)
    case Ok(ws) => Ok(HasWorktreeForBranch(ws, branch))
    case Err(e) => Err(e)
  }

  /** `get_worktree_path`: the path of the first listed worktree of the branch. */
  function WorktreePathOutcome(run: Run, branch: string): (r: Result<Option<string>>)
    ensures r.Ok? <==> ListOutcome(run).Ok?
    ensures r.Ok? ==> (r.value.Some? <==> HasWorktreeOutcome(run, branch) == Ok(true))
  {
    match ListOutcome(run)
    case Ok(ws) => Ok(WorktreePathFor(ws, branch))
    case Err(e) => Err(e)
  }

  /** `remove(path, false)`: fails when git cannot be spawned or reports failure. */
  function RemoveOutcome(run: Run): (r: Result<()>)
    ensures r.Ok? <==> run.Exited? && run.success
    ensures run.Exited? && !run.success ==> r == Err("git worktree remove failed: " + run.stderr)
  {
    match run
    case SpawnFailed(_) => Err("Failed to run git worktree remove")
    case Exited(success, _, _, stderr) =>
      if success then Ok(()) else Err("git worktree remove failed: " + stderr)
  }

  /**
   * The outside world as `create` meets it: whether creating the parent
   * directory fails, whether the target exists before, the two possible git
   * runs, and whether the directory exists afterwards.
   */
  datatype CreateScenario = CreateScenario(
    parentDirFails: bool,
    pathExists: bool,
    firstRun: Run,
    retryRun: Run,
    dirCreated: bool)

  /** Everything before the last '/' (a simplified `Path::parent`). */
  function ParentDir(path: string): string
  {
    var k := LastSlash(path);
    if k < 0 then "" else path[..k]
  }

  function LastSlash(path: string): (k: int)
    ensures -1 <= k < |path|
    ensures k >= 0 ==> path[k] == '/'
    decreases |path|
  {
    if path == [] then -1
    else if path[|path| - 1] == '/' then |path| - 1
    else LastSlash(path[..|path| - 1])
  }

  /** Lines that are not blank after trimming, untrimmed, in order. */
  function NonBlank(lines: seq<string>): (r: seq<string>)
    ensures forall k :: 0 <= k < |r| ==> r[k] in lines && Trim(r[k]) != []
    decreases |lines|
  {
    if lines == [] then []
    else if Trim(lines[0]) == [] then NonBlank(lines[1..])
    else [lines[0]] + NonBlank(lines[1..])
  }

  /**
   * Filtering commutes with concatenation; with the one-line cases of the
   * definition this fixes the order of what is kept.
   */
  lemma {:induction false} NonBlankAppend(a: seq<string>, b: seq<string>)
    ensures NonBlank(a + b) == NonBlank(a) + NonBlank(b)
    decreases |a|
  {
    if a == [] {
      assert a + b == b;
    } else {
      assert (a + b)[0] == a[0];
      assert (a + b)[1..] == a[1..] + b;
      NonBlankAppend(a[1..], b);
    }
  }

  /** A line is kept exactly when it occurs and is not blank. */
  lemma {:induction false} NonBlankMembers(lines: seq<string>, x: string)
    ensures x in NonBlank(lines) <==> x in lines && Trim(x) != []
    decreases |lines|
  {
    if lines != [] {
      NonBlankMembers(lines[1..], x);
      assert x in lines <==> x == lines[0] || x in lines[1..] by {
        assert lines == [lines[0]] + lines[1..];
      }
    }
  }

  /** Pushes the non-blank stdout lines, then the non-blank stderr lines, onto `msgs`. */
  method PushOutputLines(msgs: seq<string>, run: Run) returns (out: seq<string>)
    requires run.Exited?
    ensures out == msgs + OutputLines(run)
  {
    out := PushNonBlank(msgs, Lines(run.stdout) + Lines(run.stderr));
  }

  /** The loop over the lines, skipping those that are blank once trimmed. */
  method PushNonBlank(msgs: seq<string>, lines: seq<string>) returns (out: seq<string>)
    ensures out == msgs + NonBlank(lines)
  {
    out := msgs;
    var i := 0;
    while i < |lines|
      invariant 0 <= i <= |lines|
      invariant out + NonBlank(lines[i..]) == msgs + NonBlank(lines)
    {
      NonBlankStep(lines, i);
      if Trim(lines[i]) != [] {
        AppendAssoc(out, [lines[i]], NonBlank(lines[i + 1..]));
        out := out + [lines[i]];
      }
      i := i + 1;
    }
    assert lines[i..] == [];
  }

  lemma NonBlankStep(lines: seq<string>, i: nat)
    requires i < |lines|
    ensures NonBlank(lines[i..]) == (if Trim(lines[i]) == [] then [] else [lines[i]]) + NonBlank(lines[i + 1..])
  {
    assert lines[i..][1..] == lines[i + 1..];
  }

  predicate FirstAttemptFailed(sc: CreateScenario)
  {
    sc.firstRun.Exited? && !sc.firstRun.success
  }

  /** The first attempt failed because the branch exists locally, which triggers the retry. */
  predicate Retries(sc: CreateScenario)
  {
    FirstAttemptFailed(sc) && Contains(sc.firstRun.stderr, "already exists")
  }

  /** Git reported success, on the first attempt or on the retry. */
  predicate GitSucceeded(sc: CreateScenario)
  {
    sc.firstRun.Exited? && (sc.firstRun.success || (Retries(sc) && sc.retryRun.Exited? && sc.retryRun.success))
  }

  /** The git argument lists `create` runs, in order. */
  function CreateCalls(branch: string, path: string, remote: string, sc: CreateScenario): (calls: seq<seq<string>>)
    ensures (sc.parentDirFails || sc.pathExists) ==> calls == []
    ensures !sc.parentDirFails && !sc.pathExists ==>
              1 <= |calls| <= 2 &&
              calls[0] == ["worktree", "add", "--track", "-b", branch, path, remote + "/" + branch]
    ensures |calls| == 2 <==> !sc.parentDirFails && !sc.pathExists && Retries(sc)
    ensures |calls| == 2 ==> calls[1] == ["worktree", "add", path, branch]
  {
    if sc.parentDirFails || sc.pathExists then []
    else
      var first := ["worktree", "add", "--track", "-b", branch, path, remote + "/" + branch];
      if Retries(sc) then
        var retry := ["worktree", "add", path, branch];
        [first, retry]
      else [first]
  }

  function CreatingLine(path: string): string { "Creating worktree at: " + path }
  function GitAddLine(branch: string, path: string, remote: string): string
  {
    "$ git worktree add --track -b " + branch + " " + path + " " + remote + "/" + branch
  }
  function RetryLine(branch: string, path: string): string
  {
    "Branch exists locally, retrying: git worktree add " + path + " " + branch
  }
  function ExitErrorLine(code: Option<int>): string
  {
    "ERROR: git worktree add failed (exit code: " + IntToString(UnwrapOr(code, -1)) + ")"
  }
  function CreatedLine(path: string): string { "\U{2713} Worktree created successfully at: " + path }

  /** The log lines `create` has gathered when it succeeds. */
  function CreateLog(branch: string, path: string, remote: string, sc: CreateScenario): seq<string>
    requires !sc.parentDirFails && !sc.pathExists && GitSucceeded(sc)
  {
    HeadLog(branch, path, remote, sc) + RetryLog(branch, path, sc) + [CreatedLine(path)]
  }

  /** The log lines of the retry, empty when the first attempt succeeded. */
  function RetryLog(branch: string, path: string, sc: CreateScenario): seq<string>
    requires sc.firstRun.Exited? && (!sc.firstRun.success ==> sc.retryRun.Exited?)
  {
    if sc.firstRun.success then [] else [RetryLine(branch, path)] + OutputLines(sc.retryRun)
  }

  /** The log lines of `create` up to the first git run's output. */
  function HeadLog(branch: string, path: string, remote: string, sc: CreateScenario): seq<string>
    requires sc.firstRun.Exited?
  {
    [CreatingLine(path), GitAddLine(branch, path, remote)] + OutputLines(sc.firstRun)
  }

  /** A git run's non-blank stdout lines followed by its non-blank stderr lines. */
  function OutputLines(run: Run): seq<string>
    requires run.Exited?
  {
    NonBlank(Lines(run.stdout) + Lines(run.stderr))
  }

  /**
   * What `create` returns: the log lines when git succeeded and the directory
   * appeared, otherwise the first error met on the way.
   */
  function CreateOutcome(branch: string, path: string, remote: string, sc: CreateScenario): Result<seq<string>>
  {
    if sc.parentDirFails then Err("Failed to create parent directory: " + ParentDir(path))
    else if sc.pathExists then Err("Worktree path already exists: " + path)
    else if sc.firstRun.SpawnFailed? then Err("Failed to run git worktree add")
    else if !sc.firstRun.success && !Retries(sc) then Err("git worktree add failed: " + sc.firstRun.stderr)
    else if !sc.firstRun.success && sc.retryRun.SpawnFailed? then Err("Failed to run git worktree add (retry)")
    else if !sc.firstRun.success && !sc.retryRun.success then Err("git worktree add failed: " + sc.retryRun.stderr)
    else if !sc.dirCreated then Err("Worktree directory was not created: " + path)
    else Ok(CreateLog(branch, path, remote, sc))
  }

  /** The outcome of `create` in each case it distinguishes. */
  lemma CreateOutcomeCases(branch: string, path: string, remote: string, sc: CreateScenario)
    ensures sc.parentDirFails ==> CreateOutcome(branch, path, remote, sc).Err?
    ensures !sc.parentDirFails && sc.pathExists ==> CreateOutcome(branch, path, remote, sc) == Err("Worktree path already exists: " + path)
    ensures CreateOutcome(branch, path, remote, sc).Ok? <==> !sc.parentDirFails && !sc.pathExists && GitSucceeded(sc) && sc.dirCreated
    ensures CreateOutcome(branch, path, remote, sc).Ok? ==> CreateOutcome(branch, path, remote, sc).value == CreateLog(branch, path, remote, sc)
    ensures !sc.parentDirFails && !sc.pathExists && FirstAttemptFailed(sc) && !Retries(sc) ==>
              CreateOutcome(branch, path, remote, sc) == Err("git worktree add failed: " + sc.firstRun.stderr)
    ensures !sc.parentDirFails && !sc.pathExists && Retries(sc) && sc.retryRun.Exited? && !sc.retryRun.success ==>
              CreateOutcome(branch, path, remote, sc) == Err("git worktree add failed: " + sc.retryRun.stderr)
    ensures !sc.parentDirFails && !sc.pathExists && GitSucceeded(sc) && !sc.dirCreated ==>
              CreateOutcome(branch, path, remote, sc) == Err("Worktree directory was not created: " + path)
  {
  }

  /** A successful creation's log starts with the target and ends with the success line. */
  lemma CreateLogShape(branch: string, path: string, remote: string, sc: CreateScenario)
    requires !sc.parentDirFails && !sc.pathExists && GitSucceeded(sc)
    ensures var log := CreateLog(branch, path, remote, sc);
            |log| >= 3 && log[0] == CreatingLine(path) &&
            log[|log| - 1] == CreatedLine(path)
  {
  }

  /**
   * `create`: makes the parent directory, refuses an existing target, runs
   * `git worktree add --track -b`, retries once without `-b` when the branch
   * already exists, and checks that the directory appeared. Returns the log
   * lines on success, and the git argument lists it ran.
   */
  method Create(branch: string, path: string, remote: string, sc: CreateScenario)
    returns (r: Result<seq<string>>, calls: seq<seq<string>>)
    ensures r == CreateOutcome(branch, path, remote, sc)
    ensures calls == CreateCalls(branch, path, remote, sc)
  {
    var msgs := [CreatingLine(path)];
    if sc.parentDirFails {
      return Err("Failed to create parent directory: " + ParentDir(path)), [];
    }
    if sc.pathExists {
      return Err("Worktree path already exists: " + path), [];
    }
    r, calls := AddWorktree(branch, path, remote, sc, msgs);
  }

  /** The git part of `create`, once the target directory is known to be free. */
  method AddWorktree(branch: string, path: string, remote: string, sc: CreateScenario, msgs0: seq<string>)
    returns (r: Result<seq<string>>, calls: seq<seq<string>>)
    requires !sc.parentDirFails && !sc.pathExists && msgs0 == [CreatingLine(path)]
    ensures r == CreateOutcome(branch, path, remote, sc)
    ensures calls == CreateCalls(branch, path, remote, sc)
  {
    var msgs := msgs0 + [GitAddLine(branch, path, remote)];
    var firstCall := ["worktree", "add", "--track", "-b", branch, path, remote + "/" + branch];
    calls := [firstCall];
    if sc.firstRun.SpawnFailed? {
      return Err("Failed to run git worktree add"), calls;
    }
    var first := sc.firstRun;
    msgs := PushOutputLines(msgs, first);
    assert msgs == HeadLog(branch, path, remote, sc);
    if !first.success {
      if !Retries(sc) {
        // this line, like the rest of msgs, is dropped with the error
        msgs := msgs + [ExitErrorLine(first.code)];
        return Err("git worktree add failed: " + first.stderr), calls;
      }
      calls := [firstCall, ["worktree", "add", path, branch]];
      r := RetryAdd(branch, path, remote, sc, msgs);
      return;
    }
    assert GitSucceeded(sc) && RetryLog(branch, path, sc) == [];
    assert CreateLog(branch, path, remote, sc) == msgs + [CreatedLine(path)];
    r := FinishCreate(path, sc, msgs);
  }

  /** The retry without `-b` after git reported that the branch already exists. */
  method RetryAdd(branch: string, path: string, remote: string, sc: CreateScenario, msgs0: seq<string>)
    returns (r: Result<seq<string>>)
    requires !sc.parentDirFails && !sc.pathExists && Retries(sc)
    requires msgs0 == HeadLog(branch, path, remote, sc)
    ensures r == CreateOutcome(branch, path, remote, sc)
  {
    if sc.retryRun.SpawnFailed? {
      return Err("Failed to run git worktree add (retry)");
    }
    var retry := sc.retryRun;
    var retried := PushOutputLines([RetryLine(branch, path)], retry);
    var msgs := msgs0 + retried;
    if !retry.success {
      msgs := msgs + [ExitErrorLine(retry.code)];
      return Err("git worktree add failed: " + retry.stderr);
    }
    assert GitSucceeded(sc) && RetryLog(branch, path, sc) == retried;
    r := FinishCreate(path, sc, msgs);
  }

  /** The last step of `create`: the directory must exist after git's success. */
  method FinishCreate(path: string, sc: CreateScenario, msgs: seq<string>) returns (r: Result<seq<string>>)
    ensures sc.dirCreated ==> r == Ok(msgs + [CreatedLine(path)])
    ensures !sc.dirCreated ==> r == Err("Worktree directory was not created: " + path)
  {
    if !sc.dirCreated {
      return Err("Worktree directory was not created: " + path);
    }
    return Ok(msgs + [CreatedLine(path)]);
  }
}
