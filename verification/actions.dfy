// The pure rules of src/app/actions.rs: the status shown for a branch and the
// order of the branch list.
module Actions {
  import opened Util
  import opened Text
  import opened GitWorktree
  import opened BranchList

  /**
   * The status `update_branch_list` gives a branch: being processed comes
   * first, then queued, then ignored, then having a worktree, else remote.
   */
  function Classify(isCurrent: bool, hookRunning: bool, isPending: bool, ignored: bool,
                    worktree: Option<WorktreeInfo>): (st: BranchStatus)
    ensures st == Creating <==> isCurrent && !hookRunning
    ensures st == Queued <==> !isCurrent && isPending
    ensures st == Untracked <==> !isCurrent && !isPending && ignored
    ensures st == RunningHook <==>
              hookRunning && (isCurrent || (!isPending && !ignored && worktree.Some?))
    ensures st == LocalPrunable <==>
              !isCurrent && !isPending && !ignored && !hookRunning && worktree.Some? && worktree.value.isPrunable
    ensures st == LocalActive <==>
              !isCurrent && !isPending && !ignored && !hookRunning && worktree.Some? && !worktree.value.isPrunable
    ensures st == Remote <==> !isCurrent && !isPending && !ignored && worktree.None?
  {
    if isCurrent then
      if hookRunning then RunningHook else Creating
    else if isPending then Queued
    else if ignored then Untracked
    else if worktree.Some? then
      if hookRunning then RunningHook
      else if worktree.value.isPrunable then LocalPrunable
      else LocalActive
    else Remote
  }

  /** Has a worktree on disk (active or prunable): these rows come first. */
  predicate IsLocal(st: BranchStatus)
  {
    st == LocalActive || st == LocalPrunable
  }

  /** The comparator of the list sort: local rows first, then by name. */
  predicate Before(a: BranchItem, b: BranchItem)
  {
    (IsLocal(a.status) && !IsLocal(b.status)) ||
    (IsLocal(a.status) == IsLocal(b.status) && StrLess(a.name, b.name))
  }

  predicate Sorted(items: seq<BranchItem>)
  {
    forall i, j :: 0 <= i < j < |items| ==> !Before(items[j], items[i])
  }

  lemma BeforeTransitive(a: BranchItem, b: BranchItem, c: BranchItem)
    requires Before(a, b) && Before(b, c)
    ensures Before(a, c)
  {
    if IsLocal(a.status) == IsLocal(b.status) && IsLocal(b.status) == IsLocal(c.status) {
      StrLessTransitive(a.name, b.name, c.name);
    }
  }

  lemma BeforeAsymmetric(a: BranchItem, b: BranchItem)
    requires Before(a, b)
    ensures !Before(b, a)
  {
    if IsLocal(a.status) == IsLocal(b.status) {
      StrLessAsymmetric(a.name, b.name);
    }
  }

  /** Places `x` after every row that does not sort after it (so equal rows keep their order). */
  function Insert(x: BranchItem, s: seq<BranchItem>): (r: seq<BranchItem>)
    requires Sorted(s)
    ensures Sorted(r)
    ensures multiset(r) == multiset(s) + multiset{x}
    decreases |s|
  {
    if s == [] then [x]
    else if Before(x, s[0]) then
      FrontSorted(x, s);
      [x] + s
    else
      var rest := Insert(x, s[1..]);
      assert s == [s[0]] + s[1..];
      RestAfterHead(x, s, rest);
      ConsSorted(s[0], rest);
      [s[0]] + rest
  }

  /** No row of `s` sorts before `y`. */
  predicate NoneBefore(s: seq<BranchItem>, y: BranchItem)
  {
    forall k :: 0 <= k < |s| ==> !Before(s[k], y)
  }

  lemma ConsSorted(a: BranchItem, s: seq<BranchItem>)
    requires Sorted(s) && NoneBefore(s, a)
    ensures Sorted([a] + s)
  {
    var r := [a] + s;
    forall i, j | 0 <= i < j < |r| ensures !Before(r[j], r[i]) {
      assert r[j] == s[j - 1];
      if i > 0 { assert r[i] == s[i - 1]; }
    }
  }

  /** A row that sorts before the head of a sorted list can go in front. */
  lemma FrontSorted(x: BranchItem, s: seq<BranchItem>)
    requires Sorted(s) && s != [] && Before(x, s[0])
    ensures Sorted([x] + s)
  {
    forall j | 0 <= j < |s| ensures !Before(s[j], x) {
      if Before(s[j], x) {
        BeforeTransitive(s[j], x, s[0]);
        if j == 0 { BeforeAsymmetric(s[0], s[0]); }
      }
    }
    ConsSorted(x, s);
  }

  /** Inserting a row that does not sort before the head into the tail leaves nothing before the head. */
  lemma RestAfterHead(x: BranchItem, s: seq<BranchItem>, rest: seq<BranchItem>)
    requires Sorted(s) && s != [] && !Before(x, s[0])
    requires multiset(rest) == multiset(s[1..]) + multiset{x}
    ensures NoneBefore(rest, s[0])
  {
    forall k | 0 <= k < |rest| ensures !Before(rest[k], s[0]) {
      assert rest[k] in multiset(rest);
      if rest[k] != x {
        assert rest[k] in multiset(s[1..]);
        var j :| 0 <= j < |s[1..]| && s[1..][j] == rest[k];
        assert s[j + 1] == rest[k];
      }
    }
  }

  /** The sorted branch list: a permutation of the rows, ordered by `Before`. */
  function SortItems(items: seq<BranchItem>): (r: seq<BranchItem>)
    ensures Sorted(r)
    ensures multiset(r) == multiset(items)
    decreases |items|
  {
    if items == [] then []
    else
      assert items == items[..|items| - 1] + [items[|items| - 1]];
      Insert(items[|items| - 1], SortItems(items[..|items| - 1]))
  }

  /** In a sorted list the local rows form a prefix, and rows of the same kind are in name order. */
  lemma SortedGroups(r: seq<BranchItem>)
    requires Sorted(r)
    ensures forall i, j :: 0 <= i < j < |r| && IsLocal(r[j].status) ==> IsLocal(r[i].status)
    ensures forall i, j :: 0 <= i < j < |r| && IsLocal(r[i].status) == IsLocal(r[j].status) ==>
              !StrLess(r[j].name, r[i].name)
  {
  }

  /** Two rows neither of which sorts before the other have the same name. */
  lemma Unordered(x: BranchItem, y: BranchItem)
    requires !Before(x, y) && !Before(y, x)
    ensures x.name == y.name
  {
    StrLessTotal(x.name, y.name);
  }

  /** Rows with distinct names are distinct rows. */
  lemma DistinctRows(a: seq<BranchItem>)
    requires NoDup(ItemNames(a))
    ensures NoDup(a)
  {
    forall i, j | 0 <= i < j < |a| ensures a[i] != a[j] {
      assert ItemNames(a)[i] != ItemNames(a)[j];
    }
  }

  /** In a sorted list without repeated names the first row sorts before every later one. */
  lemma HeadBefore(s: seq<BranchItem>, j: nat)
    requires Sorted(s) && NoDup(ItemNames(s)) && 0 < j < |s|
    ensures Before(s[0], s[j])
  {
    if !Before(s[0], s[j]) {
      Unordered(s[0], s[j]);
    }
  }

  /** Two sorted lists of the same rows, names distinct, start with the same row. */
  lemma SameHead(a: seq<BranchItem>, b: seq<BranchItem>)
    requires Sorted(a) && Sorted(b) && a != []
    requires forall x :: x in a <==> x in b
    requires NoDup(ItemNames(a)) && NoDup(ItemNames(b))
    ensures b != [] && a[0] == b[0]
  {
    assert a[0] in b;
    var k :| 0 <= k < |b| && b[k] == a[0];
    assert b[0] in a;
    var m :| 0 <= m < |a| && a[m] == b[0];
    if a[0] != b[0] {
      HeadBefore(a, m);
    }
  }

  /** Dropping the same first row from two lists of the same distinct rows leaves the same rows. */
  lemma SameTail(a: seq<BranchItem>, b: seq<BranchItem>)
    requires a != [] && b != [] && a[0] == b[0] && NoDup(a) && NoDup(b)
    requires forall x :: x in a <==> x in b
    ensures forall x :: x in a[1..] <==> x in b[1..]
  {
    forall x | x in a[1..] ensures x in b[1..] {
      var i :| 0 <= i < |a[1..]| && a[1..][i] == x;
      assert a[i + 1] == x && x in b;
      var j :| 0 <= j < |b| && b[j] == x;
      assert j != 0;
      assert b[1..][j - 1] == x;
    }
    forall x | x in b[1..] ensures x in a[1..] {
      var i :| 0 <= i < |b[1..]| && b[1..][i] == x;
      assert b[i + 1] == x && x in a;
      var j :| 0 <= j < |a| && a[j] == x;
      assert j != 0;
      assert a[1..][j - 1] == x;
    }
  }

  /**
   * Rows with distinct names have only one sorted order, so the list does not
   * depend on the order the registry was read in, nor on the sort algorithm.
   */
  lemma {:induction false} SortedUnique(a: seq<BranchItem>, b: seq<BranchItem>)
    requires Sorted(a) && Sorted(b)
    requires forall x :: x in a <==> x in b
    requires NoDup(ItemNames(a)) && NoDup(ItemNames(b))
    ensures a == b
    decreases |a|
  {
    if a == [] {
      HeadIn(b);
    } else {
      SameHead(a, b);
      DistinctRows(a);
      DistinctRows(b);
      SameTail(a, b);
      assert ItemNames(a[1..]) == ItemNames(a)[1..] && ItemNames(b[1..]) == ItemNames(b)[1..];
      SortedUnique(a[1..], b[1..]);
      assert a == [a[0]] + a[1..] && b == [b[0]] + b[1..];
    }
  }
}
