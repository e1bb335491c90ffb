// Dialog and wizard state of the interactive front end (src/app/state.rs).
// These structs are values: the key handlers clone them out of the view mode,
// change the clone and store it back, so their mutators are functions here that
// return the changed value.
module AppState {
  import opened Util
  import opened Text

  // ---- the "new worktree" dialog ----

  datatype CreateWorktreeStep = SelectBaseBranch | EnterBranchName

  datatype CreateWorktreeState = CreateWorktreeState(
    step: CreateWorktreeStep,
    baseBranches: seq<string>,
    selectedBaseIndex: nat,
    baseBranchFilter: string,
    selectedBase: Option<string>,
    newBranchName: string,
    defaultBranch: Option<string>)

  /** `CreateWorktreeState::new`: first step, empty inputs, the default branch highlighted when listed. */
  function NewCreateState(baseBranches: seq<string>, defaultBranch: Option<string>): (r: CreateWorktreeState)
    ensures r.step == SelectBaseBranch && r.baseBranchFilter == [] && r.selectedBase == None
    ensures r.newBranchName == [] && r.baseBranches == baseBranches && r.defaultBranch == defaultBranch
    ensures defaultBranch.Some? && defaultBranch.value in baseBranches ==>
              r.selectedBaseIndex < |baseBranches| && baseBranches[r.selectedBaseIndex] == defaultBranch.value &&
              forall j :: 0 <= j < r.selectedBaseIndex ==> baseBranches[j] != defaultBranch.value
    ensures !(defaultBranch.Some? && defaultBranch.value in baseBranches) ==> r.selectedBaseIndex == 0
  {
    var index := if defaultBranch.Some? then UnwrapOr(Position(baseBranches, defaultBranch.value), 0) else 0;
    CreateWorktreeState(SelectBaseBranch, baseBranches, index, [], None, [], defaultBranch)
  }

  /** The filter test: the lower-cased name contains the lower-cased filter. */
  predicate MatchesFilter(branch: string, filter: string)
  {
    Contains(ToLower(branch), ToLower(filter))
  }

  /** `filtered_branches`: the base branches that match the filter, in their original order. */
  function FilteredBranches(s: CreateWorktreeState): (r: seq<string>)
    ensures s.baseBranchFilter == [] ==> r == s.baseBranches
    ensures forall b :: b in r <==> b in s.baseBranches && MatchesFilter(b, s.baseBranchFilter)
    ensures SubsequenceOf(r, s.baseBranches)
  {
    if s.baseBranchFilter == [] then
      assert forall b :: MatchesFilter(b, []) by {
        forall b: string { ContainsEmpty(ToLower(b)); }
      }
      SubsequenceOfSelf(s.baseBranches);
      s.baseBranches
    else Filter(s.baseBranches, b => MatchesFilter(b, s.baseBranchFilter))
  }

  /** `highlighted_base_branch`: the filtered branch at the selected index, if the index is in range. */
  function HighlightedBaseBranch(s: CreateWorktreeState): (r: Option<string>)
    ensures r.Some? <==> s.selectedBaseIndex < |FilteredBranches(s)|
    ensures r.Some? ==> r.value == FilteredBranches(s)[s.selectedBaseIndex]
    ensures r.Some? ==> r.value in s.baseBranches && MatchesFilter(r.value, s.baseBranchFilter)
  {
    var filtered := FilteredBranches(s);
    if s.selectedBaseIndex < |filtered| then
      assert filtered[s.selectedBaseIndex] in filtered;
      Some(filtered[s.selectedBaseIndex])
    else None
  }

  /** `on_filter_changed`: the highlight goes back to the first match, if there is one. */
  function OnFilterChanged(s: CreateWorktreeState): (r: CreateWorktreeState)
    ensures r == s.(selectedBaseIndex := 0)
    ensures FilteredBranches(r) == [] <==> HighlightedBaseBranch(r).None?
    ensures FilteredBranches(r) != [] ==> HighlightedBaseBranch(r) == Some(FilteredBranches(r)[0])
  {
    s.(selectedBaseIndex := 0)
  }

  /**
   * `next_step`: from the first step it succeeds iff a branch is highlighted,
   * which becomes the selected base; from the second step it fails. A failed
   * step changes nothing.
   */
  function NextStep(s: CreateWorktreeState): (r: (bool, CreateWorktreeState))
    ensures r.0 <==> s.step == SelectBaseBranch && HighlightedBaseBranch(s).Some?
    ensures r.0 ==> r.1 == s.(selectedBase := HighlightedBaseBranch(s), step := EnterBranchName)
    ensures r.0 ==> r.1.selectedBase.Some? && r.1.selectedBase.value in s.baseBranches
    ensures !r.0 ==> r.1 == s
  {
    match s.step
    case SelectBaseBranch =>
      var h := HighlightedBaseBranch(s);
      if h.Some? then (true, s.(selectedBase := h, step := EnterBranchName)) else (false, s)
    case EnterBranchName => (false, s)
  }

  /** `prev_step`: back to the first step; nothing to do when already there. */
  function PrevStep(s: CreateWorktreeState): (r: CreateWorktreeState)
    ensures r.step == SelectBaseBranch
    ensures s.step == SelectBaseBranch ==> r == s
  {
    match s.step
    case SelectBaseBranch => s
    case EnterBranchName => s.(step := SelectBaseBranch)
  }

  /** Going forward and back again returns to the first step, remembering the chosen base. */
  lemma NextThenPrev(s: CreateWorktreeState)
    requires NextStep(s).0
    ensures PrevStep(NextStep(s).1) == s.(selectedBase := HighlightedBaseBranch(s))
    ensures PrevStep(NextStep(s).1).selectedBase.Some?
  {
  }

  // ---- the first-run setup wizard ----

  datatype SetupStep = Remote | PollInterval | WorktreeBaseDir | BaseBranch | PostCreateCommand | AutoCreate | Confirm
  {
    /** Position of the step in the wizard, from 0 to 6. */
    function Ordinal(): (n: nat)
      ensures n <= 6
    {
      match this
      case Remote => 0
      case PollInterval => 1
      case WorktreeBaseDir => 2
      case BaseBranch => 3
      case PostCreateCommand => 4
      case AutoCreate => 5
      case Confirm => 6
    }
  }

  datatype SetupState = SetupState(
    step: SetupStep,
    remotes: seq<string>,
    branches: seq<string>,
    selectedIndex: nat,
    remoteName: string,
    pollInterval: nat,
    worktreeBaseDir: string,
    baseBranch: Option<string>,
    postCreateCommand: Option<string>,
    autoCreate: bool)

  /** `SetupState::new`: the same defaults as a fresh configuration, at the first step. */
  function NewSetupState(): (r: SetupState)
    ensures r.step == SetupStep.Remote && r.remotes == [] && r.branches == [] && r.selectedIndex == 0
    ensures r.remoteName == "origin" && r.pollInterval == 10 && r.worktreeBaseDir == ".."
    ensures r.baseBranch == None && r.postCreateCommand == None && !r.autoCreate
  {
    SetupState(SetupStep.Remote, [], [], 0, "origin", 10, "..", None, None, false)
  }

  // ---- the settings screen ----

  datatype SettingsField = Remote | PollInterval | WorktreeBaseDir | BaseBranch | PostCreateCommand | AutoCreate
  {
    /** `SettingsField::index` */
    function Index(): (n: nat)
      ensures n < |AllFields|
    {
      match this
      case Remote => 0
      case PollInterval => 1
      case WorktreeBaseDir => 2
      case BaseBranch => 3
      case PostCreateCommand => 4
      case AutoCreate => 5
    }
  }

  /** `SettingsField::all`, in display order. */
  const AllFields: seq<SettingsField> :=
    [SettingsField.Remote, SettingsField.PollInterval, SettingsField.WorktreeBaseDir,
     SettingsField.BaseBranch, SettingsField.PostCreateCommand, SettingsField.AutoCreate]

  /** `SettingsField::from_index`: the field listed at `i`, and `Remote` out of range. */
  function FromIndex(i: nat): (f: SettingsField)
    ensures i < |AllFields| ==> f == AllFields[i] && f.Index() == i
    ensures i >= |AllFields| ==> f == SettingsField.Remote
  {
    if i == 0 then SettingsField.Remote
    else if i == 1 then SettingsField.PollInterval
    else if i == 2 then SettingsField.WorktreeBaseDir
    else if i == 3 then SettingsField.BaseBranch
    else if i == 4 then SettingsField.PostCreateCommand
    else if i == 5 then SettingsField.AutoCreate
    else SettingsField.Remote
  }

  /** `from_index` undoes `index`, and every field is listed at its own index. */
  lemma IndexRoundTrip(f: SettingsField)
    ensures FromIndex(f.Index()) == f
    ensures AllFields[f.Index()] == f
  {
  }

  datatype SettingsState = SettingsState(
    selectedField: SettingsField,
    editing: bool,
    editValue: string,
    remotes: seq<string>,
    branches: seq<string>,
    listIndex: nat)

  /** `SettingsState::new` */
  function NewSettingsState(): (r: SettingsState)
    ensures r.selectedField == SettingsField.Remote && !r.editing && r.editValue == []
    ensures r.remotes == [] && r.branches == [] && r.listIndex == 0
  {
    SettingsState(SettingsField.Remote, false, [], [], [], 0)
  }

  // ---- input ----

  /** The key codes the handlers distinguish (crossterm's `KeyCode`); `Other` stands for the rest. */
  datatype KeyCode =
    | Esc | Enter | Tab | BackTab | Up | Down | Left | Right | Backspace | PageUp | PageDown
    | Char(c: char)
    | Other

  // ---- the view ----

  /** `ViewMode` */
  datatype ViewMode =
    | Main
    | Logs
    | Help
    | Error(message: string)
    | Setup
    | Settings
    | DeleteConfirm(branch: string, input: string)
    | CreateWorktree(dialog: CreateWorktreeState)
}
