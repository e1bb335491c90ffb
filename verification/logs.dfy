// The two log panels: their scroll state and which lines they show (src/ui/logs.rs).
// Styling, colours and the scrollbar are not modelled; a rendered line is
// represented by what it shows.
module Logs {
  import opened Util
  import opened Executor

  newtype u16 = x: int | 0 <= x <= 0xFFFF

  /** One rendered line of a panel. */
  datatype LogLine =
    | Header(log: LogRecord)      // status icon, branch and command of a log
    | Output(item: CommandOutput) // one recorded output of that log
    | Rule                        // a horizontal separator
    | Blank

  /** The lines of one log: its header, then one line per recorded output. */
  function LogLines(log: LogRecord): (r: seq<LogLine>)
    ensures |r| == 1 + |log.output|
    ensures r[0] == Header(log)
    ensures forall i :: 0 <= i < |log.output| ==> r[i + 1] == Output(log.output[i])
  {
    [Header(log)] + seq(|log.output|, i requires 0 <= i < |log.output| => Output(log.output[i]))
  }

  /** Number of lines of all the logs, without separators. */
  function LineTotal(logs: seq<LogRecord>): (n: nat)
    ensures n >= |logs|
    decreases |logs|
  {
    if logs == [] then 0 else LineTotal(logs[..|logs| - 1]) + 1 + |logs[|logs| - 1].output|
  }

  /** The logs' lines one after the other, with `sep` between consecutive logs. */
  function Joined(logs: seq<LogRecord>, sep: seq<LogLine>): (r: seq<LogLine>)
    ensures logs == [] <==> r == []
    ensures |r| == LineTotal(logs) + (if logs == [] then 0 else |sep| * (|logs| - 1))
    decreases |logs|
  {
    if logs == [] then []
    else
      var init := Joined(logs[..|logs| - 1], sep);
      init + (if init == [] then [] else sep) + LogLines(logs[|logs| - 1])
  }

  /** The loop of both `render` methods that collects the panel's lines. */
  method CollectLines(logs: seq<LogRecord>, sep: seq<LogLine>) returns (all: seq<LogLine>)
    ensures all == Joined(logs, sep)
  {
    all := [];
    var i := 0;
    while i < |logs|
      invariant 0 <= i <= |logs|
      invariant all == Joined(logs[..i], sep)
    {
      assert logs[..i + 1][..i] == logs[..i];
      if all != [] {
        all := all + sep;
      }
      all := all + LogLines(logs[i]);
      i := i + 1;
    }
    assert logs[..i] == logs;
  }

  /** The logs of the bottom panel: newest first, and only system logs unless all are shown. */
  function PanelLogs(logs: seq<LogRecord>, systemOnly: bool): (r: seq<LogRecord>)
    ensures forall l :: l in r <==> l in logs && (!systemOnly || l.isSystemLog)
    ensures SubsequenceOf(r, Reverse(logs))
    ensures !systemOnly ==> r == Reverse(logs)
  {
    var rev := Reverse(logs);
    assert forall l :: l in rev <==> l in logs by {
      forall l | l in logs ensures l in rev {
        var k :| 0 <= k < |logs| && logs[k] == l;
        assert rev[|logs| - 1 - k] == l;
      }
    }
    Filter(rev, (l: LogRecord) => !systemOnly || l.isSystemLog)
  }

  /** The logs of the branch panel: those of the selected branch, oldest first; none without a selection. */
  function BranchLogs(logs: seq<LogRecord>, branch: Option<string>): (r: seq<LogRecord>)
    ensures branch.None? ==> r == []
    ensures branch.Some? ==> forall l :: l in r <==> l in logs && l.branch == branch.value
    ensures SubsequenceOf(r, logs)
  {
    match branch
    case None => []
    case Some(b) => Filter(logs, (l: LogRecord) => l.branch == b)
  }

  /** The line the bottom panel puts between two logs. */
  const PanelSeparator: seq<LogLine> := [Rule]

  /** The lines the branch panel puts between two logs. */
  const BranchSeparator: seq<LogLine> := [Blank, Rule, Blank]

  /**
   * `max_scroll` after a render: the content's line count, cast to 16 bits
   * (`as u16` keeps the low 16 bits), minus the inner height, saturating at 0.
   */
  function MaxScroll(contentLines: nat, height: u16): (r: u16)
    ensures contentLines <= 0xFFFF ==> r as int == SatSub(contentLines, height as nat)
    ensures contentLines <= 0xFFFF ==> r as int + height as int >= contentLines
  {
    var content := contentLines % 0x1_0000;
    if content >= height as int then (content - height as int) as u16 else 0
  }

  /** `skip(scroll).take(height)`: the lines from `scroll` on, at most `height` of them. */
  function Window<T>(lines: seq<T>, scroll: nat, height: nat): (r: seq<T>)
    ensures |r| == if scroll >= |lines| then 0 else if |lines| - scroll < height then |lines| - scroll else height
    ensures forall i :: 0 <= i < |r| ==> r[i] == lines[scroll + i]
  {
    if scroll >= |lines| then []
    else if |lines| - scroll < height then lines[scroll..]
    else lines[scroll..scroll + height]
  }

  /** Scrolled to `max_scroll`, the window is full and ends with the last line. */
  lemma {:induction false} WindowAtBottom<T>(lines: seq<T>, height: u16)
    requires |lines| <= 0xFFFF && |lines| > 0
    ensures var w := Window(lines, MaxScroll(|lines|, height) as nat, height as nat);
            |w| == if |lines| < height as int then |lines| else height as int
    ensures var w := Window(lines, MaxScroll(|lines|, height) as nat, height as nat);
            height > 0 ==> w[|w| - 1] == lines[|lines| - 1]
  {
    var m := MaxScroll(|lines|, height) as nat;
    if |lines| >= height as int {
      assert m == |lines| - height as int;
    } else {
      assert m == 0;
    }
  }

  /** `LogsState`: how far a panel is scrolled, and how far it can be, as of its last render. */
  class LogsState {
    var scroll: u16
    var maxScroll: u16

    /** `LogsState::default` */
    constructor Default()
      ensures scroll == 0 && maxScroll == 0
    {
      scroll := 0;
      maxScroll := 0;
    }

    /** `scroll_down`: one line further, but never past `max_scroll`. */
    method ScrollDown()
      modifies this`scroll
      ensures old(scroll) < maxScroll ==> scroll == old(scroll) + 1
      ensures old(scroll) >= maxScroll ==> scroll == old(scroll)
      ensures old(scroll) <= maxScroll ==> scroll <= maxScroll
    {
      if scroll < maxScroll {
        scroll := scroll + 1;
      }
    }

    /** `scroll_up`: one line back, stopping at the top. */
    method ScrollUp()
      modifies this`scroll
      ensures old(scroll) > 0 ==> scroll == old(scroll) - 1
      ensures old(scroll) == 0 ==> scroll == 0
      ensures scroll <= old(scroll)
    {
      scroll := if scroll > 0 then scroll - 1 else 0;
    }

    /** `scroll_to_bottom` */
    method ScrollToBottom()
      modifies this`scroll
      ensures scroll == maxScroll
    {
      scroll := maxScroll;
    }

    /**
     * What both `render` methods do with the collected lines: update
     * `max_scroll`, then show the window that starts at `scroll`. The scroll
     * position itself is left alone, even when it is now past `max_scroll`.
     */
    method ShowLines(all: seq<LogLine>, height: u16) returns (visible: seq<LogLine>)
      modifies this`maxScroll
      ensures maxScroll == MaxScroll(|all|, height)
      ensures visible == Window(all, scroll as nat, height as nat)
    {
      maxScroll := MaxScroll(|all|, height);
      visible := Window(all, scroll as nat, height as nat);
    }

    /** The bottom (or full-screen) panel's `render`. */
    method RenderPanel(logs: seq<LogRecord>, systemOnly: bool, height: u16) returns (visible: seq<LogLine>)
      modifies this`maxScroll
      ensures maxScroll == MaxScroll(|Joined(PanelLogs(logs, systemOnly), PanelSeparator)|, height)
      ensures visible == Window(Joined(PanelLogs(logs, systemOnly), PanelSeparator), scroll as nat, height as nat)
    {
      var all := CollectLines(PanelLogs(logs, systemOnly), PanelSeparator);
      visible := ShowLines(all, height);
    }

    /**
     * The branch panel's `render`. With no log to show it draws a placeholder
     * message and returns before `max_scroll` is updated.
     */
    method RenderBranchPanel(logs: seq<LogRecord>, branch: Option<string>, height: u16) returns (visible: seq<LogLine>)
      modifies this`maxScroll
      ensures BranchLogs(logs, branch) == [] ==> maxScroll == old(maxScroll) && visible == []
      ensures BranchLogs(logs, branch) != [] ==>
                maxScroll == MaxScroll(|Joined(BranchLogs(logs, branch), BranchSeparator)|, height) &&
                visible == Window(Joined(BranchLogs(logs, branch), BranchSeparator), scroll as nat, height as nat)
    {
      var shown := BranchLogs(logs, branch);
      if shown == [] {
        return [];
      }
      var all := CollectLines(shown, BranchSeparator);
      visible := ShowLines(all, height);
    }
  }
}
