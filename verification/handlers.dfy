// The two dialogs whose keys are handled in src/app/handlers.rs: confirming a
// worktree deletion by typing "yes", and the two-step "new worktree" dialog.
// Both dialogs live in the view mode as values, so a key maps the old dialog
// to the new view and, at most, one request for the application to carry out.
module Dialogs {
  import opened Util
  import opened Text
  import opened AppState

  // ---- delete confirmation ----

  /** The view after a key, and whether the worktree is to be deleted now. */
  datatype DeleteOutcome = DeleteOutcome(view: ViewMode, delete: bool)

  /**
   * A key in the delete confirmation: Esc cancels, Enter deletes only when
   * the typed text is "yes" in any case, Backspace and characters edit the
   * text; the branch stays the one being confirmed.
   */
  function DeleteConfirmKey(branch: string, input: string, key: KeyCode): (r: DeleteOutcome)
    ensures r.delete <==> key == Enter && ToLower(input) == "yes"
    ensures r.delete || key == Esc <==> r.view == Main
    ensures !r.view.Main? ==> r.view.DeleteConfirm? && r.view.branch == branch
    ensures key.Char? ==> r.view == DeleteConfirm(branch, input + [key.c])
    ensures key == Backspace ==> |r.view.input| == SatSub(|input|, 1) && input[..|r.view.input|] == r.view.input
    ensures key != Backspace && !key.Char? && !r.view.Main? ==> r.view == DeleteConfirm(branch, input)
  {
    match key
    case Esc => DeleteOutcome(Main, false)
    case Enter =>
      if ToLower(input) == "yes" then DeleteOutcome(Main, true) else DeleteOutcome(DeleteConfirm(branch, input), false)
    case Backspace => DeleteOutcome(DeleteConfirm(branch, Pop(input)), false)
    case Char(c) => DeleteOutcome(DeleteConfirm(branch, input + [c]), false)
    case _ => DeleteOutcome(DeleteConfirm(branch, input), false)
  }

  /** The texts Enter accepts: "yes" with each letter in either case, and nothing else. */
  lemma ConfirmWordIsYes(input: string)
    ensures ToLower(input) == "yes" <==>
              |input| == 3 && (input[0] == 'y' || input[0] == 'Y') &&
              (input[1] == 'e' || input[1] == 'E') && (input[2] == 's' || input[2] == 'S')
  {
    if ToLower(input) == "yes" {
      assert ToLowerChar(input[0]) == 'y' && ToLowerChar(input[1]) == 'e' && ToLowerChar(input[2]) == 's';
    }
    if |input| == 3 && (input[0] == 'y' || input[0] == 'Y') &&
       (input[1] == 'e' || input[1] == 'E') && (input[2] == 's' || input[2] == 'S') {
      assert ToLower(input) == [ToLowerChar(input[0]), ToLowerChar(input[1]), ToLowerChar(input[2])];
    }
  }

  /** Backspace takes back a typed character. */
  lemma DeleteInputUndo(branch: string, input: string, c: char)
    ensures DeleteConfirmKey(branch, DeleteConfirmKey(branch, input, Char(c)).view.input, Backspace).view
            == DeleteConfirm(branch, input)
  {
    PopPush(input, c);
  }

  // ---- new worktree dialog ----

  /** The characters accepted in a new branch name: letters, digits, '-', '_', '/' and '.'. */
  predicate IsBranchNameChar(c: char)
  {
    IsAsciiAlphanumeric(c) || c == '-' || c == '_' || c == '/' || c == '.'
  }

  /** A request to create `branch` from `base`, carried out by `do_create_new_worktree`. */
  datatype NewWorktree = NewWorktree(branch: string, base: string)

  /** The view after a key, and the worktree to create now, if any. */
  datatype DialogOutcome = DialogOutcome(view: ViewMode, request: Option<NewWorktree>)

  function Stay(s: CreateWorktreeState): DialogOutcome
  {
    DialogOutcome(CreateWorktree(s), None)
  }

  /**
   * What the dialog keeps true: the highlight is the first row or a listed
   * match, the name holds accepted characters only, a chosen base is one of
   * the offered branches, and the second step has one.
   */
  predicate DialogInvariant(s: CreateWorktreeState)
  {
    && (s.selectedBaseIndex == 0 || s.selectedBaseIndex < |FilteredBranches(s)|)
    && (forall i :: 0 <= i < |s.newBranchName| ==> IsBranchNameChar(s.newBranchName[i]))
    && (s.selectedBase.Some? ==> s.selectedBase.value in s.baseBranches)
    && (s.step == EnterBranchName ==> s.selectedBase.Some?)
  }

  /** The first step: filter and pick a base branch. */
  function SelectBaseKey(s: CreateWorktreeState, key: KeyCode): (r: DialogOutcome)
    requires s.step == SelectBaseBranch
    ensures r.request.None?
    ensures r.view == Main <==> key == Esc
    ensures key != Esc ==> r.view.CreateWorktree? && r.view.dialog.baseBranches == s.baseBranches
    ensures key.Char? ==> r.view == CreateWorktree(OnFilterChanged(s.(baseBranchFilter := s.baseBranchFilter + [key.c])))
    ensures key == Backspace ==> r.view == CreateWorktree(OnFilterChanged(s.(baseBranchFilter := Pop(s.baseBranchFilter))))
    ensures key == Enter || key == Tab ==> r.view == CreateWorktree(NextStep(s).1)
    ensures key == Up ==> r.view == CreateWorktree(s.(selectedBaseIndex := SatSub(s.selectedBaseIndex, 1)))
    ensures key == Down ==> r.view.dialog == s.(selectedBaseIndex := r.view.dialog.selectedBaseIndex)
    ensures key == Down && s.selectedBaseIndex < |FilteredBranches(s)| ==>
              r.view.dialog.selectedBaseIndex < |FilteredBranches(s)|
  {
    match key
    case Esc => DialogOutcome(Main, None)
    case Up => Stay(s.(selectedBaseIndex := SatSub(s.selectedBaseIndex, 1)))
    case Down =>
      if s.selectedBaseIndex + 1 < |FilteredBranches(s)| then Stay(s.(selectedBaseIndex := s.selectedBaseIndex + 1))
      else Stay(s)
    case Backspace => Stay(OnFilterChanged(s.(baseBranchFilter := Pop(s.baseBranchFilter))))
    case Enter => var n := NextStep(s); if n.0 then Stay(n.1) else Stay(s)
    case Tab => var n := NextStep(s); if n.0 then Stay(n.1) else Stay(s)
    case Char(c) => Stay(OnFilterChanged(s.(baseBranchFilter := s.baseBranchFilter + [c])))
    case _ => Stay(s)
  }

  /** The second step: type the new branch name and create. */
  function BranchNameKey(s: CreateWorktreeState, key: KeyCode): (r: DialogOutcome)
    requires s.step == EnterBranchName
    ensures r.request.Some? <==> key == Enter && s.newBranchName != [] && s.selectedBase.Some?
    ensures r.request.Some? ==> r.view == Main && r.request.value == NewWorktree(s.newBranchName, s.selectedBase.value)
    ensures r.request.None? ==> r.view.CreateWorktree?
    ensures key == Esc || (key == Backspace && s.newBranchName == []) ==> r.view == CreateWorktree(PrevStep(s))
    ensures key == Backspace && s.newBranchName != [] ==>
              r.view == CreateWorktree(s.(newBranchName := Pop(s.newBranchName)))
    ensures key.Char? ==>
              r.view == CreateWorktree(if IsBranchNameChar(key.c) then s.(newBranchName := s.newBranchName + [key.c]) else s)
  {
    match key
    case Esc => Stay(PrevStep(s))
    case Backspace =>
      if s.newBranchName == [] then Stay(PrevStep(s)) else Stay(s.(newBranchName := Pop(s.newBranchName)))
    case Enter =>
      if s.newBranchName != [] && s.selectedBase.Some? then
        DialogOutcome(Main, Some(NewWorktree(s.newBranchName, s.selectedBase.value)))
      else Stay(s)
    case Char(c) =>
      if IsBranchNameChar(c) then Stay(s.(newBranchName := s.newBranchName + [c])) else Stay(s)
    case _ => Stay(s)
  }

  /** `handle_create_worktree_keys`: the key handled by the dialog's current step. */
  function CreateDialogKey(s: CreateWorktreeState, key: KeyCode): (r: DialogOutcome)
    ensures r.request.Some? <==> s.step == EnterBranchName && key == Enter && s.newBranchName != [] && s.selectedBase.Some?
    ensures r.request.Some? ==> r.view == Main
    ensures r.view == Main <==> r.request.Some? || (s.step == SelectBaseBranch && key == Esc)
    ensures r.view.CreateWorktree? ==> r.view.dialog.baseBranches == s.baseBranches
  {
    match s.step
    case SelectBaseBranch => SelectBaseKey(s, key)
    case EnterBranchName => BranchNameKey(s, key)
  }

  /** A fresh dialog satisfies the invariant. */
  lemma NewDialogInvariant(baseBranches: seq<string>, defaultBranch: Option<string>)
    ensures DialogInvariant(NewCreateState(baseBranches, defaultBranch))
  {
  }

  /** Every key keeps the invariant of a dialog that stays open. */
  lemma DialogKeyKeepsInvariant(s: CreateWorktreeState, key: KeyCode)
    requires DialogInvariant(s)
    ensures CreateDialogKey(s, key).view.CreateWorktree? ==> DialogInvariant(CreateDialogKey(s, key).view.dialog)
  {
    if s.step == SelectBaseBranch {
      SelectBaseKeepsInvariant(s, key);
    } else {
      BranchNameKeepsInvariant(s, key);
    }
  }

  lemma SelectBaseKeepsInvariant(s: CreateWorktreeState, key: KeyCode)
    requires DialogInvariant(s) && s.step == SelectBaseBranch
    ensures SelectBaseKey(s, key).view.CreateWorktree? ==> DialogInvariant(SelectBaseKey(s, key).view.dialog)
  {
    var t := SelectBaseKey(s, key).view;
    if t.CreateWorktree? && (key == Enter || key == Tab) {
      var n := NextStep(s);
      assert t.dialog == n.1;
      if n.0 {
        assert n.1.baseBranchFilter == s.baseBranchFilter && n.1.baseBranches == s.baseBranches;
        assert FilteredBranches(n.1) == FilteredBranches(s);
      }
    }
  }

  lemma BranchNameKeepsInvariant(s: CreateWorktreeState, key: KeyCode)
    requires DialogInvariant(s) && s.step == EnterBranchName
    ensures BranchNameKey(s, key).view.CreateWorktree? ==> DialogInvariant(BranchNameKey(s, key).view.dialog)
  {
    var t := BranchNameKey(s, key).view;
    if t.CreateWorktree? {
      if key.Char? && IsBranchNameChar(key.c) {
        assert t.dialog.newBranchName == s.newBranchName + [key.c];
      } else if key == Backspace && s.newBranchName != [] {
        assert t.dialog.newBranchName + [s.newBranchName[|s.newBranchName| - 1]] == s.newBranchName;
        assert forall i :: 0 <= i < |t.dialog.newBranchName| ==> t.dialog.newBranchName[i] == s.newBranchName[i];
      } else if key == Esc || key == Backspace {
        assert FilteredBranches(t.dialog) == FilteredBranches(s);
      }
    }
  }

  /**
   * A creation request names a non-empty branch of accepted characters and a
   * base branch the dialog offered.
   */
  lemma RequestIsValid(s: CreateWorktreeState, key: KeyCode)
    requires DialogInvariant(s) && CreateDialogKey(s, key).request.Some?
    ensures var req := CreateDialogKey(s, key).request.value;
            && req.branch != []
            && (forall i :: 0 <= i < |req.branch| ==> IsBranchNameChar(req.branch[i]))
            && req.base in s.baseBranches
  {
  }

  /**
   * With the invariant, Enter on the first step moves on exactly when some
   * branch matches the filter, and picks the highlighted one.
   */
  lemma EnterAdvancesIffMatch(s: CreateWorktreeState)
    requires DialogInvariant(s) && s.step == SelectBaseBranch
    ensures CreateDialogKey(s, Enter).view.dialog.step == EnterBranchName <==> FilteredBranches(s) != []
    ensures FilteredBranches(s) != [] ==>
              CreateDialogKey(s, Enter).view.dialog.selectedBase == Some(FilteredBranches(s)[s.selectedBaseIndex])
  {
  }

  /** On the second step, Backspace takes back an accepted character. */
  lemma BranchNameUndo(s: CreateWorktreeState, c: char)
    requires s.step == EnterBranchName && IsBranchNameChar(c)
    ensures CreateDialogKey(CreateDialogKey(s, Char(c)).view.dialog, Backspace).view == CreateWorktree(s)
  {
    PopPush(s.newBranchName, c);
  }
}
