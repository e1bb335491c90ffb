// The settings screen (src/app/settings.rs): moving between fields, cycling
// the remote and base branch, nudging and editing the poll interval, and
// turning an edited text back into a setting. `Application.App` applies these
// to its configuration and the screen's state.
module Settings {
  import opened Util
  import opened Text
  import opened AppState

  /** 'j' or Down: the next field, staying on the last one. */
  function NextField(f: SettingsField): (r: SettingsField)
    ensures f.Index() + 1 < |AllFields| ==> r.Index() == f.Index() + 1
    ensures f.Index() + 1 == |AllFields| ==> r == f
  {
    if f.Index() < |AllFields| - 1 then FromIndex(f.Index() + 1) else f
  }

  /** 'k' or Up: the previous field, staying on the first one. */
  function PrevField(f: SettingsField): (r: SettingsField)
    ensures f.Index() > 0 ==> r.Index() + 1 == f.Index()
    ensures f.Index() == 0 ==> r == f
  {
    if f.Index() > 0 then FromIndex(f.Index() - 1) else f
  }

  /** Moving down then up (or up then down) returns to the field, away from the ends. */
  lemma FieldMovesUndo(f: SettingsField)
    ensures f.Index() + 1 < |AllFields| ==> PrevField(NextField(f)) == f
    ensures f.Index() > 0 ==> NextField(PrevField(f)) == f
  {
    IndexRoundTrip(f);
    IndexRoundTrip(NextField(f));
    IndexRoundTrip(PrevField(f));
    IndexRoundTrip(PrevField(NextField(f)));
    IndexRoundTrip(NextField(PrevField(f)));
  }

  /**
   * Enter on the remote field: the remote after the configured one, wrapping
   * round; when the configured one is not listed, the one after the first.
   * Nothing when there are no remotes.
   */
  function CycleRemote(remotes: seq<string>, current: string): (r: Option<string>)
    ensures r.None? <==> remotes == []
    ensures r.Some? ==> r.value in remotes
    ensures remotes != [] && current in remotes ==>
              r == Some(remotes[(Position(remotes, current).value + 1) % |remotes|])
    ensures remotes != [] && current !in remotes ==> r == Some(remotes[1 % |remotes|])
  {
    if remotes == [] then None
    else Some(remotes[(UnwrapOr(Position(remotes, current), 0) + 1) % |remotes|])
  }

  /** The remote after pressing Enter `n` times from `start` (there is at least one remote). */
  function RemoteAfter(remotes: seq<string>, start: string, n: nat): (r: string)
    requires remotes != []
  {
    if n == 0 then start else CycleRemote(remotes, RemoteAfter(remotes, start, n - 1)).value
  }

  /**
   * With distinct remotes, pressing Enter from the first remote selects each
   * remote in list order, and after as many presses as there are remotes the
   * first one again.
   */
  lemma {:induction false} RemoteCycleVisitsAll(remotes: seq<string>, n: nat)
    requires remotes != [] && NoDup(remotes) && n <= |remotes|
    ensures n < |remotes| ==> RemoteAfter(remotes, remotes[0], n) == remotes[n]
    ensures n == |remotes| ==> RemoteAfter(remotes, remotes[0], n) == remotes[0]
  {
    if n > 0 {
      RemoteCycleVisitsAll(remotes, n - 1);
      RemoteAfterStep(remotes, n);
    }
  }

  /** One more press moves from the `n - 1`-th remote to the next one. */
  lemma RemoteAfterStep(remotes: seq<string>, n: nat)
    requires NoDup(remotes) && 0 < n <= |remotes|
    requires RemoteAfter(remotes, remotes[0], n - 1) == remotes[n - 1]
    ensures RemoteAfter(remotes, remotes[0], n) == if n < |remotes| then remotes[n] else remotes[0]
  {
    CycleRemoteStep(remotes, n - 1);
  }

  /** One press from a listed remote, spelled out without the remainder. */
  lemma CycleRemoteStep(remotes: seq<string>, k: nat)
    requires NoDup(remotes) && k < |remotes|
    ensures CycleRemote(remotes, remotes[k]) == Some(if k + 1 < |remotes| then remotes[k + 1] else remotes[0])
  {
    PositionOfDistinct(remotes, k);
    if k + 1 < |remotes| {
      ModSmall(k + 1, |remotes|);
    } else {
      ModSelf(|remotes|);
    }
  }

  /**
   * Enter on the base branch field: from "(auto)" the first branch, from a
   * listed branch the next one, and "(auto)" after the last branch or from a
   * branch that is not listed.
   */
  function CycleBaseBranch(branches: seq<string>, current: Option<string>): (r: Option<string>)
    ensures current.None? ==> r == if branches == [] then None else Some(branches[0])
    ensures current.Some? && current.value in branches ==>
              var k := Position(branches, current.value).value;
              r == if k + 1 < |branches| then Some(branches[k + 1]) else None
    ensures current.Some? && current.value !in branches ==> r.None?
    ensures r.Some? ==> r.value in branches
  {
    match current
    case None => if branches == [] then None else Some(branches[0])
    case Some(b) =>
      match Position(branches, b)
      case Some(k) => if k + 1 < |branches| then Some(branches[k + 1]) else None
      case None => None
  }

  /** The base branch after pressing Enter `n` times from "(auto)". */
  function BaseBranchAfter(branches: seq<string>, n: nat): (r: Option<string>)
  {
    if n == 0 then None else CycleBaseBranch(branches, BaseBranchAfter(branches, n - 1))
  }

  /**
   * With distinct branch names, pressing Enter from "(auto)" selects each
   * branch in list order and then "(auto)" again.
   */
  lemma {:induction false} BaseBranchCycleVisitsAll(branches: seq<string>, n: nat)
    requires NoDup(branches) && n <= |branches| + 1
    ensures 0 < n <= |branches| ==> BaseBranchAfter(branches, n) == Some(branches[n - 1])
    ensures n == |branches| + 1 ==> BaseBranchAfter(branches, n) == None
  {
    if n > 1 {
      BaseBranchCycleVisitsAll(branches, n - 1);
      PositionOfDistinct(branches, n - 2);
    }
  }

  /** `val.max(1).min(3600)`: an edited poll interval between one second and an hour. */
  function ClampPoll(v: nat): (r: nat)
    ensures 1 <= r <= 3600
    ensures 1 <= v <= 3600 ==> r == v
    ensures v == 0 ==> r == 1
    ensures v > 3600 ==> r == 3600
  {
    if v < 1 then 1 else if v > 3600 then 3600 else v
  }

  /** The poll interval after editing: the clamped number when the text parses as a u64, else unchanged. */
  function EditedPoll(editValue: string, current: nat): (r: nat)
    ensures ParseU64(editValue).None? ==> r == current
    ensures ParseU64(editValue).Some? ==> 1 <= r <= 3600
  {
    match ParseU64(editValue)
    case Some(v) => ClampPoll(v)
    case None => current
  }

  /** Accepting the text the editor starts with keeps a poll interval between one second and an hour. */
  lemma EditPollRoundTrip(p: nat, current: nat)
    requires 1 <= p <= 3600
    ensures EditedPoll(NatToString(p), current) == p
  {
    ParseU64OfNatToString(p);
  }

  /** The command after editing: none for an empty text. */
  function EditedCommand(editValue: string): (r: Option<string>)
    ensures r.None? <==> editValue == []
    ensures r.Some? ==> r.value == editValue
  {
    if editValue == [] then None else Some(editValue)
  }

  /** Accepting the text the editor starts with keeps the command, unless it was empty. */
  lemma EditCommandRoundTrip(cmd: Option<string>)
    requires cmd != Some([])
    ensures EditedCommand(UnwrapOr(cmd, [])) == cmd
  {
  }

  /** Left on the poll interval: five seconds less while above 5. */
  function PollLeft(p: nat): (r: nat)
    ensures r <= p && (p > 5 ==> r + 5 == p) && (r < p ==> r > 0)
  {
    if p > 5 then p - 5 else p
  }

  /** Right on the poll interval: five seconds more while below 300. */
  function PollRight(p: nat): (r: nat)
    ensures r >= p && (p < 300 ==> r == p + 5) && (r > p ==> r < 305)
  {
    if p < 300 then p + 5 else p
  }

  /** Left and Right undo each other away from the limits. */
  lemma PollArrowsUndo(p: nat)
    ensures 0 < p < 300 ==> PollLeft(PollRight(p)) == p
    ensures 5 < p < 305 ==> PollRight(PollLeft(p)) == p
  {
  }

  /** A key while editing text: characters are appended, Backspace drops the last one. */
  function EditText(value: string, key: KeyCode): (r: string)
    ensures key.Char? ==> r == value + [key.c]
    ensures key == Backspace ==> r + (if value == [] then [] else [value[|value| - 1]]) == value
    ensures !key.Char? && key != Backspace ==> r == value
  {
    match key
    case Char(c) => value + [c]
    case Backspace => Pop(value)
    case _ => value
  }

  /** Backspace undoes a typed character. */
  lemma EditTextUndo(value: string, c: char)
    ensures EditText(EditText(value, Char(c)), Backspace) == value
  {
    PopPush(value, c);
  }
}
