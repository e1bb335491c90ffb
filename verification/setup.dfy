// The first-run setup wizard (src/app/setup.rs): what each key does to the
// wizard's state. The state is a value the application holds in an Option;
// `Application.App.HandleSetupKeys` changes it in place as these functions say.
module Setup {
  import opened Util
  import opened Text
  import opened AppState

  /** The steps that take typed text. */
  predicate IsTextStep(step: SetupStep)
  {
    step == SetupStep.WorktreeBaseDir || step == SetupStep.PostCreateCommand
  }

  /**
   * The selected row stays on the list of the step that shows one: a listed
   * remote (or 0 when there is none), "(auto)" or a listed branch, and a
   * yes/no answer (the command step carries the answer on).
   */
  predicate IndexInRange(s: SetupState)
  {
    && (s.step == SetupStep.Remote ==> s.selectedIndex == 0 || s.selectedIndex < |s.remotes|)
    && (s.step == SetupStep.BaseBranch ==> s.selectedIndex <= |s.branches|)
    && (s.step == SetupStep.PostCreateCommand || s.step == SetupStep.AutoCreate ==> s.selectedIndex <= 1)
  }

  /** Poll intervals the wizard can reach from its default of 10: multiples of 5 from 5 to 300. */
  predicate PollInRange(p: nat)
  {
    p % 5 == 0 && 5 <= p <= 300
  }

  /** The command is either absent or not empty. */
  predicate CommandNotEmpty(s: SetupState)
  {
    s.postCreateCommand != Some([])
  }

  /** Up or 'k': a row up, five seconds more below 300, or the other yes/no answer. */
  function MoveUp(s: SetupState): (r: SetupState)
    ensures r == s.(selectedIndex := r.selectedIndex, pollInterval := r.pollInterval)
    ensures r.pollInterval >= s.pollInterval
  {
    match s.step
    case Remote => s.(selectedIndex := SatSub(s.selectedIndex, 1))
    case BaseBranch => s.(selectedIndex := SatSub(s.selectedIndex, 1))
    case PollInterval => if s.pollInterval < 300 then s.(pollInterval := s.pollInterval + 5) else s
    case AutoCreate => s.(selectedIndex := if s.selectedIndex == 0 then 1 else 0)
    case _ => s
  }

  /** Down or 'j': a row down within the list, five seconds less above 5, or the other yes/no answer. */
  function MoveDown(s: SetupState): (r: SetupState)
    ensures r == s.(selectedIndex := r.selectedIndex, pollInterval := r.pollInterval)
    ensures r.pollInterval <= s.pollInterval
  {
    match s.step
    case Remote =>
      if s.selectedIndex < SatSub(|s.remotes|, 1) then s.(selectedIndex := s.selectedIndex + 1) else s
    case PollInterval => if s.pollInterval > 5 then s.(pollInterval := s.pollInterval - 5) else s
    case BaseBranch =>
      if s.selectedIndex < |s.branches| then s.(selectedIndex := s.selectedIndex + 1) else s
    case AutoCreate => s.(selectedIndex := if s.selectedIndex == 0 then 1 else 0)
    case _ => s
  }

  /** A typed character: appended to the directory, or to the command (started when absent). */
  function Typed(s: SetupState, c: char): (r: SetupState)
    ensures !IsTextStep(s.step) ==> r == s
    ensures s.step == SetupStep.WorktreeBaseDir ==> r == s.(worktreeBaseDir := s.worktreeBaseDir + [c])
    ensures s.step == SetupStep.PostCreateCommand ==>
              r == s.(postCreateCommand := Some(UnwrapOr(s.postCreateCommand, []) + [c]))
  {
    match s.step
    case WorktreeBaseDir => s.(worktreeBaseDir := s.worktreeBaseDir + [c])
    case PostCreateCommand => s.(postCreateCommand := Some(UnwrapOr(s.postCreateCommand, []) + [c]))
    case _ => s
  }

  /** Backspace: drops the last character of the directory or command; an emptied command is removed. */
  function Erased(s: SetupState): (r: SetupState)
    ensures !IsTextStep(s.step) ==> r == s
    ensures s.step == SetupStep.WorktreeBaseDir ==> r == s.(worktreeBaseDir := Pop(s.worktreeBaseDir))
    ensures s.step == SetupStep.PostCreateCommand ==>
              r == s.(postCreateCommand := if s.postCreateCommand.None? || Pop(s.postCreateCommand.value) == [] then None
                                           else Some(Pop(s.postCreateCommand.value)))
  {
    match s.step
    case WorktreeBaseDir => s.(worktreeBaseDir := Pop(s.worktreeBaseDir))
    case PostCreateCommand =>
      (match s.postCreateCommand
       case None => s
       case Some(cmd) => s.(postCreateCommand := if Pop(cmd) == [] then None else Some(Pop(cmd))))
    case _ => s
  }

  /**
   * The editing keys of `handle_setup_keys` as written: Up and 'k' move up,
   * Down and 'j' move down, any other character is typed, Backspace erases.
   * Since 'j' and 'k' are taken first, they can never be typed.
   */
  function SetupKeyAsWritten(s: SetupState, key: KeyCode): (r: SetupState)
  {
    match key
    case Up => MoveUp(s)
    case Down => MoveDown(s)
    case Char(c) => if c == 'k' then MoveUp(s) else if c == 'j' then MoveDown(s) else Typed(s, c)
    case Backspace => Erased(s)
    case _ => s
  }

  /** The editing keys with every character typed at the text steps; elsewhere as written. */
  function SetupKey(s: SetupState, key: KeyCode): (r: SetupState)
    ensures !IsTextStep(s.step) ==> r == SetupKeyAsWritten(s, key)
    ensures key.Char? ==> r == if IsTextStep(s.step) then Typed(s, key.c) else SetupKeyAsWritten(s, key)
    ensures !key.Char? ==> r == SetupKeyAsWritten(s, key)
    ensures r.step == s.step && r.remotes == s.remotes && r.branches == s.branches
  {
    if key.Char? && IsTextStep(s.step) then Typed(s, key.c) else SetupKeyAsWritten(s, key)
  }

  /** Typing 'j' or 'k' at a text step is lost as written, and appended once corrected. */
  lemma TypingJOrKIsLost(s: SetupState, c: char)
    requires IsTextStep(s.step) && (c == 'j' || c == 'k')
    ensures SetupKeyAsWritten(s, Char(c)) == s
    ensures SetupKey(s, Char(c)) != s
  {
    var r := SetupKey(s, Char(c));
    if s.step == SetupStep.WorktreeBaseDir {
      assert |r.worktreeBaseDir| == |s.worktreeBaseDir| + 1;
    } else {
      assert r.postCreateCommand.Some? && |r.postCreateCommand.value| == |UnwrapOr(s.postCreateCommand, [])| + 1;
      if s.postCreateCommand.Some? {
        assert r.postCreateCommand.value != s.postCreateCommand.value;
      }
    }
  }

  /** At a text step, Backspace undoes the last typed character, whatever it is. */
  lemma EraseUndoesTyping(s: SetupState, c: char)
    requires IsTextStep(s.step) && CommandNotEmpty(s)
    ensures SetupKey(SetupKey(s, Char(c)), Backspace) == s
  {
    PopPush(s.worktreeBaseDir, c);
    PopPush(UnwrapOr(s.postCreateCommand, []), c);
  }

  /** Every editing key, as written, keeps the selected row in range, the poll interval in range and the command non-empty. */
  lemma SetupKeyAsWrittenKeepsBounds(s: SetupState, key: KeyCode)
    requires IndexInRange(s) && PollInRange(s.pollInterval) && CommandNotEmpty(s)
    ensures IndexInRange(SetupKeyAsWritten(s, key))
    ensures PollInRange(SetupKeyAsWritten(s, key).pollInterval)
    ensures CommandNotEmpty(SetupKeyAsWritten(s, key))
  {
    match key
    case Up => MovesKeepBounds(s);
    case Down => MovesKeepBounds(s);
    case Char(c) => MovesKeepBounds(s); EditsKeepBounds(s, c);
    case Backspace => EditsKeepBounds(s, ' ');
    case _ =>
  }

  lemma MovesKeepBounds(s: SetupState)
    requires IndexInRange(s) && PollInRange(s.pollInterval) && CommandNotEmpty(s)
    ensures IndexInRange(MoveUp(s)) && PollInRange(MoveUp(s).pollInterval) && CommandNotEmpty(MoveUp(s))
    ensures IndexInRange(MoveDown(s)) && PollInRange(MoveDown(s).pollInterval) && CommandNotEmpty(MoveDown(s))
  {
  }

  lemma EditsKeepBounds(s: SetupState, c: char)
    requires IndexInRange(s) && PollInRange(s.pollInterval) && CommandNotEmpty(s)
    ensures IndexInRange(Typed(s, c)) && PollInRange(Typed(s, c).pollInterval) && CommandNotEmpty(Typed(s, c))
    ensures IndexInRange(Erased(s)) && PollInRange(Erased(s).pollInterval) && CommandNotEmpty(Erased(s))
  {
  }

  /** The same for the corrected keys, which only add typing 'j' and 'k'. */
  lemma SetupKeyKeepsBounds(s: SetupState, key: KeyCode)
    requires IndexInRange(s) && PollInRange(s.pollInterval) && CommandNotEmpty(s)
    ensures IndexInRange(SetupKey(s, key))
    ensures PollInRange(SetupKey(s, key).pollInterval)
    ensures CommandNotEmpty(SetupKey(s, key))
  {
    if !(key.Char? && IsTextStep(s.step)) {
      SetupKeyAsWrittenKeepsBounds(s, key);
    }
  }

  /** The wizard starts within its bounds. */
  lemma NewSetupStateInRange()
    ensures IndexInRange(NewSetupState()) && PollInRange(NewSetupState().pollInterval)
    ensures CommandNotEmpty(NewSetupState())
  {
  }

  /** The "(auto)" row 0, else the branch listed at `index - 1` (`Vec::get`, so none past the end). */
  function BaseBranchAt(branches: seq<string>, index: nat): (r: Option<string>)
    ensures r.Some? <==> 0 < index <= |branches|
    ensures r.Some? ==> r.value == branches[index - 1]
  {
    if index == 0 || index - 1 >= |branches| then None else Some(branches[index - 1])
  }

  /** The row of a base branch: 0 for none, else one past its first position, and 0 when not listed. */
  function BaseBranchRow(branches: seq<string>, base: Option<string>): (r: nat)
    ensures r <= |branches|
    ensures r > 0 ==> base == Some(branches[r - 1])
    ensures base.Some? && base.value in branches ==> r > 0
  {
    match base
    case None => 0
    case Some(b) => match Position(branches, b) case Some(i) => i + 1 case None => 0
  }

  /**
   * `setup_next_step` before the last step: the chosen remote is stored and
   * its branches loaded (`scan` gives the names, or None when listing fails);
   * the default branch is preselected; the chosen base branch and the
   * yes/no answer are stored.
   */
  function Advance(s: SetupState, scan: string -> Option<seq<string>>, defaultOf: string -> Option<string>): (r: SetupState)
    requires s.step != SetupStep.Confirm
    requires s.step == SetupStep.Remote && s.remotes != [] ==> s.selectedIndex < |s.remotes|
    ensures r.step.Ordinal() == s.step.Ordinal() + 1
    ensures r.pollInterval == s.pollInterval && r.worktreeBaseDir == s.worktreeBaseDir
    ensures r.postCreateCommand == s.postCreateCommand && r.remotes == s.remotes
    ensures IndexInRange(s) ==> IndexInRange(r)
    ensures s.step == SetupStep.Remote ==>
              r.selectedIndex == 0 &&
              (if s.remotes == [] then r.remoteName == s.remoteName else r.remoteName == s.remotes[s.selectedIndex]) &&
              r.branches == UnwrapOr(scan(r.remoteName), s.branches)
    ensures s.step == SetupStep.WorktreeBaseDir ==>
              r.branches == s.branches &&
              (r.selectedIndex > 0 <==> defaultOf(s.remoteName).Some? && defaultOf(s.remoteName).value in s.branches) &&
              (r.selectedIndex > 0 ==> Some(s.branches[r.selectedIndex - 1]) == defaultOf(s.remoteName))
    ensures s.step == SetupStep.BaseBranch ==> r.baseBranch == BaseBranchAt(s.branches, s.selectedIndex)
    ensures s.step == SetupStep.AutoCreate ==> (r.autoCreate <==> s.selectedIndex == 0)
    ensures s.step != SetupStep.BaseBranch ==> r.baseBranch == s.baseBranch
    ensures s.step != SetupStep.AutoCreate ==> r.autoCreate == s.autoCreate
  {
    match s.step
    case Remote =>
      var name := if s.remotes != [] then s.remotes[s.selectedIndex] else s.remoteName;
      s.(remoteName := name, branches := UnwrapOr(scan(name), s.branches), selectedIndex := 0,
         step := SetupStep.PollInterval)
    case PollInterval => s.(step := SetupStep.WorktreeBaseDir)
    case WorktreeBaseDir =>
      s.(selectedIndex := BaseBranchRow(s.branches, defaultOf(s.remoteName)), step := SetupStep.BaseBranch)
    case BaseBranch =>
      s.(baseBranch := BaseBranchAt(s.branches, s.selectedIndex), selectedIndex := 1,
         step := SetupStep.PostCreateCommand)
    case PostCreateCommand => s.(step := SetupStep.AutoCreate)
    case AutoCreate => s.(autoCreate := s.selectedIndex == 0, step := SetupStep.Confirm)
  }

  /**
   * `setup_prev_step`: one step back, reselecting the stored remote, base
   * branch or answer; the first step has no predecessor.
   */
  function Back(s: SetupState): (r: SetupState)
    ensures s.step == SetupStep.Remote ==> r == s
    ensures s.step != SetupStep.Remote ==> r.step.Ordinal() + 1 == s.step.Ordinal()
    ensures r == s.(step := r.step, selectedIndex := r.selectedIndex)
    ensures IndexInRange(s) ==> IndexInRange(r)
  {
    match s.step
    case Remote => s
    case PollInterval =>
      s.(selectedIndex := UnwrapOr(Position(s.remotes, s.remoteName), 0), step := SetupStep.Remote)
    case WorktreeBaseDir => s.(step := SetupStep.PollInterval)
    case BaseBranch => s.(step := SetupStep.WorktreeBaseDir)
    case PostCreateCommand =>
      s.(selectedIndex := BaseBranchRow(s.branches, s.baseBranch), step := SetupStep.BaseBranch)
    case AutoCreate => s.(step := SetupStep.PostCreateCommand)
    case Confirm => s.(selectedIndex := if s.autoCreate then 0 else 1, step := SetupStep.AutoCreate)
  }

  /**
   * Going forward and back again returns to the same step with the same row
   * selected, at every step whose row the next step remembers (remote and
   * branch names are distinct).
   */
  lemma BackUndoesAdvance(s: SetupState, scan: string -> Option<seq<string>>, defaultOf: string -> Option<string>)
    requires s.step != SetupStep.Confirm && s.step != SetupStep.WorktreeBaseDir
    requires IndexInRange(s) && NoDup(s.remotes) && NoDup(s.branches)
    ensures Back(Advance(s, scan, defaultOf)).step == s.step
    ensures Back(Advance(s, scan, defaultOf)).selectedIndex == s.selectedIndex
  {
    var r := Advance(s, scan, defaultOf);
    if s.step == SetupStep.Remote && s.remotes != [] {
      PositionOfDistinct(s.remotes, s.selectedIndex);
    } else if s.step == SetupStep.BaseBranch && s.selectedIndex > 0 {
      PositionOfDistinct(s.branches, s.selectedIndex - 1);
    }
  }
}
