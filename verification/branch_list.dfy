// The branch list widget's state: its items and the selected row (src/ui/branch_list.rs).
module BranchList {
  import opened Util

  /** `BranchStatus`, with `Untracked` for branches the configuration ignores. */
  datatype BranchStatus = Remote | LocalActive | LocalPrunable | Queued | Creating | RunningHook | Untracked

  datatype BranchItem = BranchItem(name: string, status: BranchStatus, isDefault: bool)

  function ItemNames(items: seq<BranchItem>): (r: seq<string>)
    ensures |r| == |items| && forall i :: 0 <= i < |items| ==> r[i] == items[i].name
  {
    seq(|items|, i requires 0 <= i < |items| => items[i].name)
  }

  /** The row `select_next` moves to: one down, wrapping past the end; the first row when none is selected. */
  function NextRow(selection: Option<nat>, len: nat): (i: nat)
    requires len > 0
    ensures i < len
    ensures selection.None? ==> i == 0
    ensures selection.Some? && selection.value + 1 < len ==> i == selection.value + 1
    ensures selection.Some? && selection.value + 1 >= len ==> i == 0
  {
    match selection
    case Some(i) => if i >= len - 1 then 0 else i + 1
    case None => 0
  }

  /** The row `select_previous` moves to: one up, wrapping from the first to the last; the first row when none is selected. */
  function PreviousRow(selection: Option<nat>, len: nat): (i: nat)
    requires len > 0
    ensures selection.Some? && selection.value < len ==> i < len
    ensures selection.None? ==> i == 0
    ensures selection == Some(0) ==> i == len - 1
    ensures selection.Some? && selection.value > 0 ==> i == selection.value - 1
  {
    match selection
    case Some(i) => if i == 0 then len - 1 else i - 1
    case None => 0
  }

  /** Within the list, moving up undoes moving down and moving down undoes moving up. */
  lemma NextPreviousInverse(k: nat, len: nat)
    requires k < len
    ensures PreviousRow(Some(NextRow(Some(k), len)), len) == k
    ensures NextRow(Some(PreviousRow(Some(k), len)), len) == k
  {
  }

  class BranchListState {
    var items: seq<BranchItem>
    /** The row `ListState` has selected; it may be past the end after the items shrink. */
    var selection: Option<nat>

    /** `BranchListState::new` */
    constructor New()
      ensures items == [] && selection == None
    {
      items := [];
      selection := None;
    }

    method SelectNext()
      modifies this`selection
      ensures items == [] ==> selection == old(selection)
      ensures items != [] ==> selection == Some(NextRow(old(selection), |items|))
    {
      if items == [] {
        return;
      }
      var i := match selection
        case Some(i) => if i >= |items| - 1 then 0 else i + 1
        case None => 0;
      selection := Some(i);
    }

    method SelectPrevious()
      modifies this`selection
      ensures items == [] ==> selection == old(selection)
      ensures items != [] ==> selection == Some(PreviousRow(old(selection), |items|))
    {
      if items == [] {
        return;
      }
      var i := match selection
        case Some(i) => if i == 0 then |items| - 1 else i - 1
        case None => 0;
      selection := Some(i);
    }

    /** `selected`: the item at the selected row, when that row exists. */
    function Selected(): (r: Option<BranchItem>)
      reads this
      ensures r.Some? <==> selection.Some? && selection.value < |items|
      ensures r.Some? ==> r.value == items[selection.value] && r.value in items
    {
      if selection.Some? && selection.value < |items| then Some(items[selection.value]) else None
    }

    /** `select_by_name`: the first row with that name; no change when there is none. */
    method SelectByName(name: string)
      modifies this`selection
      ensures name in ItemNames(items) ==>
                selection == Position(ItemNames(items), name) && Selected().Some? && Selected().value.name == name
      ensures name !in ItemNames(items) ==> selection == old(selection)
    {
      var idx := Position(ItemNames(items), name);
      if idx.Some? {
        selection := idx;
      }
    }

    /**
     * `update_items`: the previously selected branch stays selected, at its
     * first row in the new list; failing that, an empty selection becomes the
     * first row of a non-empty list, and any other selection is kept as it is.
     */
    method UpdateItems(newItems: seq<BranchItem>)
      modifies this
      ensures items == newItems
      ensures var prev := old(Selected());
              prev.Some? && prev.value.name in ItemNames(newItems) ==>
                selection == Position(ItemNames(newItems), prev.value.name) &&
                Selected().Some? && Selected().value.name == prev.value.name
      ensures var prev := old(Selected());
              !(prev.Some? && prev.value.name in ItemNames(newItems)) ==>
                selection == if old(selection).None? && newItems != [] then Some(0) else old(selection)
    {
      var previous := Selected();
      items := newItems;
      if previous.Some? {
        var idx := Position(ItemNames(items), previous.value.name);
        if idx.Some? {
          selection := idx;
          return;
        }
      }
      if selection.None? && items != [] {
        selection := Some(0);
      }
    }
  }
}
