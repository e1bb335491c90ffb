// User configuration: tracked/ignored branches, persisted worktree records and
// worktree path construction (src/config.rs).
module Configuration {
  import opened Util
  import opened Text

  /** Status of the post-create hook of a persisted worktree. */
  datatype HookStatus = NoHook | Running | Success | Failed(message: string) | Skipped

  /** A persisted worktree record; `createdAt` is a timestamp supplied by the caller. */
  datatype WorktreeState = WorktreeState(
    branch: string,
    path: string,
    createdAt: int,
    hookStatus: HookStatus,
    isActive: bool)

  /**
   * Glob matching is done by an external crate. A matcher answers whether a
   * pattern compiles AND matches a branch name (a pattern that does not
   * compile matches nothing).
   */
  type GlobMatcher = (string, string) -> bool

  /** Some pattern of `patterns` compiles and matches `branch`; checks them in order. */
  predicate AnyPatternMatches(patterns: seq<string>, branch: string, glob: GlobMatcher)
    ensures AnyPatternMatches(patterns, branch, glob) <==>
              exists k :: 0 <= k < |patterns| && glob(patterns[k], branch)
    decreases |patterns|
  {
    if patterns == [] then false
    else glob(patterns[0], branch) || AnyPatternMatches(patterns[1..], branch, glob)
  }

  /** Characters that `sanitize_branch_name` turns into '-'. */
  predicate IsPathUnsafe(c: char)
  {
    c == '/' || c == '\\' || c == ':' || c == '*' || c == '?' || c == '"' || c == '<' || c == '>' || c == '|'
  }

  /** `str::replace(c, "-")`: every occurrence of `c` becomes '-'. */
  function ReplaceWithDash(s: string, c: char): (r: string)
    ensures |r| == |s|
    ensures forall i :: 0 <= i < |s| ==> r[i] == if s[i] == c then '-' else s[i]
  {
    seq(|s|, i requires 0 <= i < |s| => if s[i] == c then '-' else s[i])
  }

  /**
   * `sanitize_branch_name`: makes a branch name usable as one directory name.
   * Each of the nine unsafe characters becomes '-' and every other character
   * stays in place.
   */
  function SanitizeBranchName(branch: string): (r: string)
    ensures |r| == |branch|
    ensures forall i :: 0 <= i < |branch| ==>
              r[i] == if IsPathUnsafe(branch[i]) then '-' else branch[i]
  {
    var s1 := ReplaceWithDash(branch, '/');
    var s2 := ReplaceWithDash(s1, '\\');
    var s3 := ReplaceWithDash(s2, ':');
    var s4 := ReplaceWithDash(s3, '*');
    var s5 := ReplaceWithDash(s4, '?');
    var s6 := ReplaceWithDash(s5, '"');
    var s7 := ReplaceWithDash(s6, '<');
    var s8 := ReplaceWithDash(s7, '>');
    ReplaceWithDash(s8, '|')
  }

  /** A sanitized name contains no unsafe character, in particular no path separator. */
  lemma SanitizedIsSafe(branch: string)
    ensures forall i :: 0 <= i < |SanitizeBranchName(branch)| ==> !IsPathUnsafe(SanitizeBranchName(branch)[i])
  {
  }

  /** Sanitizing is idempotent. */
  lemma SanitizeIdempotent(branch: string)
    ensures SanitizeBranchName(SanitizeBranchName(branch)) == SanitizeBranchName(branch)
  {
    var once := SanitizeBranchName(branch);
    var twice := SanitizeBranchName(once);
    assert forall i :: 0 <= i < |once| ==> twice[i] == once[i];
  }

  /** Names that differ only in which unsafe character they use collide. */
  lemma SanitizeNotInjective()
    ensures SanitizeBranchName("a/b") == SanitizeBranchName("a:b") == "a-b"
  {
    assert SanitizeBranchName("a/b") == "a-b";
    assert SanitizeBranchName("a:b") == "a-b";
  }

  /** The two cases of the unit test. */
  lemma SanitizeExamples()
    ensures SanitizeBranchName("feature/my-branch") == "feature-my-branch"
    ensures SanitizeBranchName("fix:bug") == "fix-bug"
  {
    assert SanitizeBranchName("feature/my-branch") == "feature-my-branch";
    assert SanitizeBranchName("fix:bug") == "fix-bug";
  }

  /**
   * `Path::join` on Unix: an absolute component replaces the path; otherwise
   * it is appended, with a '/' in between unless the path is empty or already
   * ends with one.
   */
  function PathJoin(base: string, component: string): (r: string)
    ensures StartsWith(component, "/") ==> r == component
    ensures !StartsWith(component, "/") ==> EndsWith(r, component) && StartsWith(r, base)
  {
    if |component| > 0 && component[0] == '/' then component
    else if base == [] || base[|base| - 1] == '/' then base + component
    else base + "/" + component
  }

  /** Entries of `worktrees` whose branch is not `branch`, in their original order (`Vec::retain`). */
  function WithoutBranch(worktrees: seq<WorktreeState>, branch: string): (r: seq<WorktreeState>)
    ensures |r| <= |worktrees|
    ensures forall k :: 0 <= k < |r| ==> r[k].branch != branch
    decreases |worktrees|
  {
    if worktrees == [] then []
    else
      var rest := WithoutBranch(worktrees[1..], branch);
      if worktrees[0].branch == branch then rest else [worktrees[0]] + rest
  }

  /** An entry survives the filter iff it was there and is for another branch. */
  lemma {:induction false} WithoutBranchMembers(worktrees: seq<WorktreeState>, branch: string, w: WorktreeState)
    ensures w in WithoutBranch(worktrees, branch) <==> w in worktrees && w.branch != branch
    decreases |worktrees|
  {
    if worktrees != [] { WithoutBranchMembers(worktrees[1..], branch, w); }
  }

  /** The filter distributes over concatenation, so the survivors keep their relative order. */
  lemma {:induction false} WithoutBranchAppend(a: seq<WorktreeState>, b: seq<WorktreeState>, branch: string)
    ensures WithoutBranch(a + b, branch) == WithoutBranch(a, branch) + WithoutBranch(b, branch)
    decreases |a|
  {
    if a == [] {
      assert a + b == b;
    } else {
      assert (a + b)[1..] == a[1..] + b;
      WithoutBranchAppend(a[1..], b, branch);
    }
  }

  /** After `add_worktree(w)`, `w` is the one and only entry for its branch, and it is the last. */
  lemma AddWorktreeUnique(worktrees: seq<WorktreeState>, w: WorktreeState)
    ensures var r := WithoutBranch(worktrees, w.branch) + [w];
            r[|r| - 1] == w && forall k :: 0 <= k < |r| - 1 ==> r[k].branch != w.branch
  {
  }

  /** Index of the first entry for `branch`, or |worktrees| when there is none. */
  function FirstIndexFor(worktrees: seq<WorktreeState>, branch: string): (k: nat)
    ensures k <= |worktrees|
    ensures k < |worktrees| ==> worktrees[k].branch == branch
    ensures forall j :: 0 <= j < k ==> worktrees[j].branch != branch
    decreases |worktrees|
  {
    if worktrees == [] || worktrees[0].branch == branch then 0
    else 1 + FirstIndexFor(worktrees[1..], branch)
  }

  /** The first entry for `branch`, if any (`Iterator::find`). */
  function FindWorktree(worktrees: seq<WorktreeState>, branch: string): (r: Option<WorktreeState>)
    ensures r.None? <==> forall k :: 0 <= k < |worktrees| ==> worktrees[k].branch != branch
    ensures r.Some? ==>
              exists k :: 0 <= k < |worktrees| && worktrees[k] == r.value && r.value.branch == branch &&
                          forall j :: 0 <= j < k ==> worktrees[j].branch != branch
  {
    var k := FirstIndexFor(worktrees, branch);
    if k < |worktrees| then Some(worktrees[k]) else None
  }

  class Config {
    var version: nat
    var pollIntervalSecs: nat
    var postCreateCommand: Option<string>
    var commandWorkingDir: Option<string>
    var ignorePatterns: seq<string>
    var trackedBranches: set<string>
    var untrackedBranches: set<string>
    var autoCreateWorktrees: bool
    var worktreeBaseDir: string
    var baseBranch: Option<string>
    var remoteName: string
    var worktrees: seq<WorktreeState>
    var lastFetch: Option<int>

    /** `Config::default`. */
    constructor Default()
      ensures version == 1 && pollIntervalSecs == 10
      ensures postCreateCommand == None && commandWorkingDir == None
      ensures ignorePatterns == ["dependabot/*", "renovate/*"]
      ensures trackedBranches == {} && untrackedBranches == {}
      ensures !autoCreateWorktrees && worktreeBaseDir == ".."
      ensures baseBranch == None && remoteName == "origin"
      ensures worktrees == [] && lastFetch == None
    {
      version := 1;
      pollIntervalSecs := 10;
      postCreateCommand := None;
      commandWorkingDir := None;
      ignorePatterns := ["dependabot/*", "renovate/*"];
      trackedBranches := {};
      untrackedBranches := {};
      autoCreateWorktrees := false;
      worktreeBaseDir := "..";
      baseBranch := None;
      remoteName := "origin";
      worktrees := [];
      lastFetch := None;
    }

    /** `should_ignore_branch`: explicitly untracked, or matched by some valid ignore pattern. */
    predicate ShouldIgnoreBranch(branch: string, glob: GlobMatcher)
      reads this
      ensures ShouldIgnoreBranch(branch, glob) <==>
                branch in untrackedBranches ||
                exists k :: 0 <= k < |ignorePatterns| && glob(ignorePatterns[k], branch)
    {
      branch in untrackedBranches || AnyPatternMatches(ignorePatterns, branch, glob)
    }

    predicate IsTracked(branch: string)
      reads this
    {
      branch in trackedBranches
    }

    method TrackBranch(branch: string)
      modifies this`trackedBranches, this`untrackedBranches
      ensures trackedBranches == old(trackedBranches) + {branch}
      ensures untrackedBranches == old(untrackedBranches) - {branch}
    {
      untrackedBranches := untrackedBranches - {branch};
      trackedBranches := trackedBranches + {branch};
    }

    method UntrackBranch(branch: string)
      modifies this`trackedBranches, this`untrackedBranches
      ensures trackedBranches == old(trackedBranches) - {branch}
      ensures untrackedBranches == old(untrackedBranches) + {branch}
    {
      trackedBranches := trackedBranches - {branch};
      untrackedBranches := untrackedBranches + {branch};
    }

    method AddWorktree(w: WorktreeState)
      modifies this`worktrees
      ensures worktrees == WithoutBranch(old(worktrees), w.branch) + [w]
    {
      worktrees := WithoutBranch(worktrees, w.branch) + [w];
    }

    method RemoveWorktree(branch: string)
      modifies this`worktrees
      ensures worktrees == WithoutBranch(old(worktrees), branch)
    {
      worktrees := WithoutBranch(worktrees, branch);
    }

    function GetWorktree(branch: string): (r: Option<WorktreeState>)
      reads this
      ensures r == FindWorktree(worktrees, branch)
    {
      FindWorktree(worktrees, branch)
    }

    /**
     * `get_worktree_path`: repo root, then the base directory, then the
     * sanitized branch name as one final component.
     */
    function GetWorktreePath(repoRoot: string, branch: string): (r: string)
      reads this
      ensures EndsWith(r, SanitizeBranchName(branch))
      ensures StartsWith(r, PathJoin(repoRoot, worktreeBaseDir))
      ensures SanitizeBranchName(branch) != [] ==>
                r == PathJoin(repoRoot, worktreeBaseDir) + SanitizeBranchName(branch) ||
                r == PathJoin(repoRoot, worktreeBaseDir) + "/" + SanitizeBranchName(branch)
    {
      var name := SanitizeBranchName(branch);
      assert !StartsWith(name, "/") by {
        SanitizedIsSafe(branch);
        if name != [] { assert !IsPathUnsafe(name[0]); }
      }
      PathJoin(PathJoin(repoRoot, worktreeBaseDir), name)
    }
  }

  /**
   * The unit test: the default patterns plus a "feature/" pattern, with "main"
   * untracked. Which names the glob crate matches is a premise.
   */
  lemma ShouldIgnoreExample(c: Config, glob: GlobMatcher)
    requires c.ignorePatterns == ["dependabot/*", "renovate/*", "feature/*"]
    requires c.untrackedBranches == {"main"}
    requires glob("feature/*", "feature/test")
    requires !glob("dependabot/*", "develop") && !glob("renovate/*", "develop") && !glob("feature/*", "develop")
    ensures c.ShouldIgnoreBranch("feature/test", glob)
    ensures c.ShouldIgnoreBranch("main", glob)
    ensures !c.ShouldIgnoreBranch("develop", glob)
  {
    assert c.ignorePatterns[2] == "feature/*";
    assert "develop" != "main";
  }
}
