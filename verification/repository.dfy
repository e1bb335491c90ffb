// Remote branch listing, remote listing and default-branch detection
// (src/git/repository.rs). Each git invocation is an input `Run`.
module GitRepository {
  import opened Util
  import opened Text
  import opened Process

  /** A branch known to the watcher: remote-tracking (`isLocal` false) or local only. */
  datatype RemoteBranch = RemoteBranch(
    fullRef: string,
    name: string,
    remote: string,
    commit: string,
    isLocal: bool)

  /**
   * One line of `git for-each-ref --format=%(refname:short) %(objectname:short)`:
   * at least two whitespace-separated fields, a first field that does not end
   * in "/HEAD"; the short name drops a leading "<remote>/" when present.
   */
  function ParseRefLine(line: string, remote: string): (r: Option<RemoteBranch>)
    ensures var parts := SplitWhitespace(line);
            r.Some? <==> |parts| >= 2 && !EndsWith(parts[0], "/HEAD")
    ensures var parts := SplitWhitespace(line);
            r.Some? ==> r.value.fullRef == parts[0] && r.value.commit == parts[1] &&
                        r.value.remote == remote && !r.value.isLocal
    ensures r.Some? && StartsWith(r.value.fullRef, remote + "/") ==> remote + "/" + r.value.name == r.value.fullRef
    ensures r.Some? && !StartsWith(r.value.fullRef, remote + "/") ==> r.value.name == r.value.fullRef
  {
    var parts := SplitWhitespace(line);
    if |parts| >= 2 && !EndsWith(parts[0], "/HEAD") then
      var fullRef := parts[0];
      var name := UnwrapOr(StripPrefix(fullRef, remote + "/"), fullRef);
      Some(RemoteBranch(fullRef, name, remote, parts[1], false))
    else None
  }

  /** The branches of `lines`, in line order (specification of the parsing loop). */
  function ParseRefLines(lines: seq<string>, remote: string): (r: seq<RemoteBranch>)
    ensures |r| <= |lines|
    decreases |lines|
  {
    if lines == [] then []
    else
      var init := ParseRefLines(lines[..|lines| - 1], remote);
      match ParseRefLine(lines[|lines| - 1], remote)
      case Some(b) => init + [b]
      case None => init
  }

  /** Parsing distributes over concatenation of the input: output order follows input order. */
  lemma {:induction false} ParseRefLinesAppend(a: seq<string>, b: seq<string>, remote: string)
    ensures ParseRefLines(a + b, remote) == ParseRefLines(a, remote) + ParseRefLines(b, remote)
    decreases |b|
  {
    if b == [] {
      assert a + b == a;
    } else {
      var last := b[|b| - 1];
      assert (a + b)[..|a + b| - 1] == a + b[..|b| - 1];
      assert (a + b)[|a + b| - 1] == last;
      ParseRefLinesAppend(a, b[..|b| - 1], remote);
      var p, q := ParseRefLines(a, remote), ParseRefLines(b[..|b| - 1], remote);
      match ParseRefLine(last, remote) {
        case Some(x) => assert (p + q) + [x] == p + (q + [x]);
        case None =>
      }
    }
  }

  /** Every parsed branch comes from some line, carries the requested remote and is not a HEAD alias. */
  lemma {:induction false} ParseRefLinesSound(lines: seq<string>, remote: string, b: RemoteBranch)
    requires b in ParseRefLines(lines, remote)
    ensures exists k :: 0 <= k < |lines| && ParseRefLine(lines[k], remote) == Some(b)
    ensures b.remote == remote && !EndsWith(b.fullRef, "/HEAD") && !b.isLocal
    decreases |lines|
  {
    var init := lines[..|lines| - 1];
    if b in ParseRefLines(init, remote) {
      ParseRefLinesSound(init, remote, b);
      var k :| 0 <= k < |init| && ParseRefLine(init[k], remote) == Some(b);
      assert lines[k] == init[k];
    } else {
      assert ParseRefLine(lines[|lines| - 1], remote) == Some(b);
    }
  }

  /** What `get_remote_branches` returns for a given run of `git for-each-ref`. */
  function RemoteBranchesOutcome(run: Run, remote: string): (r: Result<seq<RemoteBranch>>)
    ensures run.SpawnFailed? ==> r == Err("Failed to run git for-each-ref")
    ensures run.Exited? && !run.success ==> r == Ok([])
    ensures run.Exited? && run.success ==> r == Ok(ParseRefLines(Lines(run.stdout), remote))
  {
    match run
    case SpawnFailed(_) => Err("Failed to run git for-each-ref")
    case Exited(success, _, stdout, _) => if success then Ok(ParseRefLines(Lines(stdout), remote)) else Ok([])
  }

  /**
   * `get_remote_branches`: a spawn failure is an error, a failing listing is
   * an empty list, otherwise the branches of the stdout lines in order.
   */
  method GetRemoteBranches(run: Run, remote: string) returns (r: Result<seq<RemoteBranch>>)
    ensures r == RemoteBranchesOutcome(run, remote)
  {
    if run.SpawnFailed? {
      return Err("Failed to run git for-each-ref");
    }
    if !run.success {
      return Ok([]);
    }
    var lines := Lines(run.stdout);
    var branches: seq<RemoteBranch> := [];
    var i := 0;
    while i < |lines|
      invariant 0 <= i <= |lines|
      invariant branches == ParseRefLines(lines[..i], remote)
    {
      assert lines[..i + 1][..i] == lines[..i];
      var parsed := ParseRefLine(lines[i], remote);
      if parsed.Some? {
        branches := branches + [parsed.value];
      }
      i := i + 1;
    }
    assert lines[..i] == lines;
    return Ok(branches);
  }

  /** Trimmed lines that are not empty after trimming, in order. */
  function NonBlankTrimmed(lines: seq<string>): (r: seq<string>)
    ensures forall k :: 0 <= k < |r| ==> r[k] != [] && Trim(r[k]) == r[k]
    decreases |lines|
  {
    if lines == [] then []
    else
      var t := Trim(lines[0]);
      if t == [] then NonBlankTrimmed(lines[1..]) else
        assert Trim(t) == t by { TrimOfTrimmed(t); }
        [t] + NonBlankTrimmed(lines[1..])
  }

  lemma TrimOfTrimmed(t: string)
    requires t != [] && !IsWhitespace(t[0]) && !IsWhitespace(t[|t| - 1])
    ensures Trim(t) == t
  {
  }

  /** A name is listed iff it is the trimmed form of some non-blank line. */
  lemma NonBlankTrimmedMembers(lines: seq<string>, x: string)
    ensures x in NonBlankTrimmed(lines) <==> x != [] && exists k :: 0 <= k < |lines| && Trim(lines[k]) == x
  {
    if x in NonBlankTrimmed(lines) {
      ListedComesFromLine(lines, x);
    }
    if x != [] && exists k :: 0 <= k < |lines| && Trim(lines[k]) == x {
      var k :| 0 <= k < |lines| && Trim(lines[k]) == x;
      LineIsListed(lines, k);
    }
  }

  lemma {:induction false} ListedComesFromLine(lines: seq<string>, x: string)
    requires x in NonBlankTrimmed(lines)
    ensures x != [] && exists k :: 0 <= k < |lines| && Trim(lines[k]) == x
    decreases |lines|
  {
    if Trim(lines[0]) != x {
      assert x in NonBlankTrimmed(lines[1..]);
      ListedComesFromLine(lines[1..], x);
      var k :| 0 <= k < |lines[1..]| && Trim(lines[1..][k]) == x;
      assert lines[k + 1] == lines[1..][k];
    }
  }

  lemma {:induction false} LineIsListed(lines: seq<string>, k: nat)
    requires k < |lines| && Trim(lines[k]) != []
    ensures Trim(lines[k]) in NonBlankTrimmed(lines)
    decreases k
  {
    if k > 0 {
      assert lines[1..][k - 1] == lines[k];
      LineIsListed(lines[1..], k - 1);
    }
  }

  /** `get_remotes`: the exit status is not consulted, only a spawn failure is an error. */
  function GetRemotes(run: Run): (r: Result<seq<string>>)
    ensures r.Err? <==> run.SpawnFailed?
    ensures r.Ok? ==> r.value == NonBlankTrimmed(Lines(run.stdout))
  {
    match run
    case SpawnFailed(_) => Err("Failed to run git remote")
    case Exited(_, _, stdout, _) => Ok(NonBlankTrimmed(Lines(stdout)))
  }

  /** The message `validate_remote` gives for a missing remote. */
  function RemoteNotFound(remote: string): string
  {
    "Remote '" + remote + "' not found.\n\nPlease add the remote first:\n" + "git remote add " + remote + " <url>"
    + "\n\nOr update your configuration to use an existing remote."
  }

  /** The message names the remote first and shows the command that adds it. */
  lemma RemoteNotFoundShape(remote: string)
    ensures StartsWith(RemoteNotFound(remote), "Remote '" + remote + "' not found.")
    ensures Contains(RemoteNotFound(remote), "git remote add " + remote + " <url>")
  {
    var head := "Remote '" + remote + "' not found.\n\nPlease add the remote first:\n";
    var hint := "git remote add " + remote + " <url>";
    var msg := RemoteNotFound(remote);
    var first := "Remote '" + remote + "' not found.";
    assert msg == head + hint + "\n\nOr update your configuration to use an existing remote.";
    assert head == first + "\n\nPlease add the remote first:\n";
    assert msg[..|first|] == first;
    assert StartsWith(msg[|head|..], hint);
  }

  /** `validate_remote`: fine iff the remote exists, else a message naming it and how to add it. */
  function ValidateRemote(remote: string, remoteFound: bool): (r: Result<()>)
    ensures r.Ok? <==> remoteFound
    ensures r.Err? ==> StartsWith(r.error, "Remote '" + remote + "' not found.")
    ensures r.Err? ==> Contains(r.error, "git remote add " + remote + " <url>")
  {
    if remoteFound then Ok(())
    else
      RemoteNotFoundShape(remote);
      Err(RemoteNotFound(remote))
  }

  /** The common default names, tried in this order. */
  const CommonDefaults: seq<string> := ["main", "master", "develop", "dev"]

  /** A line of `git branch -r` names "<remote>/<candidate>" (after trimming and dropping "* "). */
  predicate ListsBranch(lines: seq<string>, pattern: string)
  {
    exists k :: 0 <= k < |lines| && TrimStartMatches(Trim(lines[k]), "* ") == pattern
  }

  /** The first candidate that `git branch -r` lists for `remote`. */
  function FirstListed(lines: seq<string>, remote: string, candidates: seq<string>): (r: Option<string>)
    ensures r.Some? ==> r.value in candidates && ListsBranch(lines, remote + "/" + r.value)
    ensures r.None? ==> forall k :: 0 <= k < |candidates| ==> !ListsBranch(lines, remote + "/" + candidates[k])
    decreases |candidates|
  {
    if candidates == [] then None
    else if ListsBranch(lines, remote + "/" + candidates[0]) then Some(candidates[0])
    else FirstListed(lines, remote, candidates[1..])
  }

  /**
   * `get_default_branch`: the remote HEAD's target without "refs/remotes/<r>/",
   * else the first of main, master, develop, dev that the remote has, else the
   * current branch when non-empty. A git that cannot be spawned ends the search
   * with None at that step.
   */
  function GetDefaultBranch(remote: string, symbolicRef: Run, remoteBranches: Run, currentBranch: Run): (r: Option<string>)
    ensures symbolicRef.SpawnFailed? ==> r.None?
    ensures var prefix := "refs/remotes/" + remote + "/";
            symbolicRef.Exited? && symbolicRef.success && StartsWith(Trim(symbolicRef.stdout), prefix) ==>
              r.Some? && prefix + r.value == Trim(symbolicRef.stdout)
    ensures var headKnown := symbolicRef.Exited? && symbolicRef.success &&
                             StartsWith(Trim(symbolicRef.stdout), "refs/remotes/" + remote + "/");
            symbolicRef.Exited? && !headKnown ==>
              && (remoteBranches.SpawnFailed? ==> r.None?)
              && (remoteBranches.Exited? && remoteBranches.success &&
                  FirstListed(Lines(remoteBranches.stdout), remote, CommonDefaults).Some? ==>
                    r == FirstListed(Lines(remoteBranches.stdout), remote, CommonDefaults))
              && (remoteBranches.Exited? &&
                  (!remoteBranches.success || FirstListed(Lines(remoteBranches.stdout), remote, CommonDefaults).None?) ==>
                    r == (if currentBranch.Exited? && currentBranch.success && Trim(currentBranch.stdout) != []
                          then Some(Trim(currentBranch.stdout)) else None))
  {
    if symbolicRef.SpawnFailed? then None
    else
      var headTarget :=
        if symbolicRef.success then StripPrefix(Trim(symbolicRef.stdout), "refs/remotes/" + remote + "/") else None;
      if headTarget.Some? then headTarget
      else if remoteBranches.SpawnFailed? then None
      else
        var listed :=
          if remoteBranches.success then FirstListed(Lines(remoteBranches.stdout), remote, CommonDefaults) else None;
        if listed.Some? then listed
        else if currentBranch.SpawnFailed? then None
        else if currentBranch.success && Trim(currentBranch.stdout) != [] then Some(Trim(currentBranch.stdout))
        else None
  }

}
