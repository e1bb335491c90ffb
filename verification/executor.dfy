// Command log records for hooks and system commands (src/executor.rs).
module Executor {
  import opened Util
  import opened Text

  /** One item streamed from a running command. */
  datatype CommandOutput =
    | Stdout(line: string)
    | Stderr(line: string)
    | Exit(code: int)
    | Error(message: string)
  {
    /** Exit and Error end a command; stream lines do not. */
    predicate IsTerminal() { Exit? || Error? }
  }

  /** The value of a `CommandLog` at one moment, used to state what changes. */
  datatype LogRecord = LogRecord(
    branch: string,
    command: string,
    output: seq<CommandOutput>,
    isRunning: bool,
    exitCode: Option<int>,
    isSystemLog: bool)

  /** The record after `add_output(o)`. */
  function WithOutput(r: LogRecord, o: CommandOutput): (s: LogRecord)
    ensures s.output == r.output + [o]
    ensures s.branch == r.branch && s.command == r.command && s.isSystemLog == r.isSystemLog
    ensures o.Exit? ==> !s.isRunning && s.exitCode == Some(o.code)
    ensures o.Error? ==> !s.isRunning && s.exitCode == Some(-1)
    ensures !o.IsTerminal() ==> s.isRunning == r.isRunning && s.exitCode == r.exitCode
  {
    match o
    case Exit(c) => r.(isRunning := false, exitCode := Some(c), output := r.output + [o])
    case Error(_) => r.(isRunning := false, exitCode := Some(-1), output := r.output + [o])
    case _ => r.(output := r.output + [o])
  }

  /** Exit code recorded for a terminal output. */
  function TerminalCode(o: CommandOutput): int
    requires o.IsTerminal()
  {
    if o.Exit? then o.code else -1
  }

  /** The code of the last terminal output in `outs`, if any. */
  function LastTerminalCode(outs: seq<CommandOutput>): (c: Option<int>)
    ensures c.None? <==> forall k :: 0 <= k < |outs| ==> !outs[k].IsTerminal()
  {
    if outs == [] then None
    else if outs[|outs| - 1].IsTerminal() then Some(TerminalCode(outs[|outs| - 1]))
    else LastTerminalCode(outs[..|outs| - 1])
  }

  /** The record after `add_output` of each of `outs`, in order. */
  function WithOutputs(r: LogRecord, outs: seq<CommandOutput>): (s: LogRecord)
    decreases |outs|
  {
    if outs == [] then r else WithOutput(WithOutputs(r, outs[..|outs| - 1]), outs[|outs| - 1])
  }

  /** Feeding one more output after a batch. */
  lemma WithOutputsSnoc(r: LogRecord, outs: seq<CommandOutput>, o: CommandOutput)
    ensures WithOutputs(r, outs + [o]) == WithOutput(WithOutputs(r, outs), o)
  {
    assert (outs + [o])[..|outs|] == outs;
  }

  /**
   * Feeding a batch of outputs appends them all, keeps the identity of the log,
   * and leaves it finished with the code of the last Exit/Error, or, if the
   * batch has none, as it was.
   */
  lemma {:induction false} WithOutputsEffect(r: LogRecord, outs: seq<CommandOutput>)
    ensures WithOutputs(r, outs).output == r.output + outs
    ensures WithOutputs(r, outs).branch == r.branch
    ensures WithOutputs(r, outs).command == r.command
    ensures WithOutputs(r, outs).isSystemLog == r.isSystemLog
    ensures LastTerminalCode(outs).None? ==>
              WithOutputs(r, outs).isRunning == r.isRunning && WithOutputs(r, outs).exitCode == r.exitCode
    ensures LastTerminalCode(outs).Some? ==>
              !WithOutputs(r, outs).isRunning && WithOutputs(r, outs).exitCode == LastTerminalCode(outs)
    decreases |outs|
  {
    if outs != [] {
      var init := outs[..|outs| - 1];
      WithOutputsEffect(r, init);
      assert init + [outs[|outs| - 1]] == outs;
    }
  }

  /** A log of one command: the branch (or system name) it belongs to, the command line and its output. */
  class CommandLog {
    var branch: string
    var command: string
    var output: seq<CommandOutput>
    var isRunning: bool
    var exitCode: Option<int>
    var isSystemLog: bool

    function Snapshot(): (r: LogRecord)
      reads this
      ensures r.output == output && r.isRunning == isRunning && r.exitCode == exitCode
      ensures r.branch == branch && r.command == command && r.isSystemLog == isSystemLog
    {
      LogRecord(branch, command, output, isRunning, exitCode, isSystemLog)
    }

    /** `CommandLog::new`: a running, branch-specific log with no output yet. */
    constructor New(branch: string, command: string)
      ensures Snapshot() == LogRecord(branch, command, [], true, None, false)
    {
      this.branch := branch;
      this.command := command;
      output := [];
      isRunning := true;
      exitCode := None;
      isSystemLog := false;
    }

    /** `CommandLog::new_system`: as `New`, but flagged as a system log. */
    constructor NewSystem(name: string, command: string)
      ensures Snapshot() == LogRecord(name, command, [], true, None, true)
    {
      branch := name;
      this.command := command;
      output := [];
      isRunning := true;
      exitCode := None;
      isSystemLog := true;
    }

    method AddOutput(o: CommandOutput)
      modifies this
      ensures Snapshot() == WithOutput(old(Snapshot()), o)
    {
      match o {
        case Exit(c) =>
          isRunning := false;
          exitCode := Some(c);
        case Error(_) =>
          isRunning := false;
          exitCode := Some(-1);
        case _ =>
      }
      output := output + [o];
    }

    predicate Succeeded()
      reads this
    {
      exitCode == Some(0)
    }

    /**
     * One-line summary: "Running: " and the command while it runs; once done,
     * a check mark or a cross, a space and the command, and after a failure
     * the exit code in parentheses (-1 when there was none).
     */
    function Summary(): (r: string)
      reads this
      ensures isRunning <==> StartsWith(r, "Running: ")
      ensures !isRunning && exitCode == Some(0) <==> StartsWith(r, "\U{2713} ")
      ensures !isRunning && exitCode != Some(0) <==> StartsWith(r, "\U{2717} ")
      ensures isRunning ==> r[9..] == command
      ensures !isRunning && exitCode == Some(0) ==> r[2..] == command
      ensures !isRunning && exitCode != Some(0) ==>
                r[2..] == command + " (exit code: " + IntToString(UnwrapOr(exitCode, -1)) + ")"
    {
      if isRunning then
        Prefixed("Running: ", command, 'R');
        "Running: " + command
      else if Succeeded() then
        Prefixed("\U{2713} ", command, '\U{2713}');
        "\U{2713} " + command
      else
        var tail := command + " (exit code: " + IntToString(UnwrapOr(exitCode, -1)) + ")";
        Prefixed("\U{2717} ", tail, '\U{2717}');
        "\U{2717} " + tail
    }
  }

  /**
   * `p + x` starts with `p` and continues with `x`; it starts with no other
   * summary marker when `p` begins with `c`.
   */
  lemma Prefixed(p: string, x: string, c: char)
    requires p != [] && p[0] == c
    ensures StartsWith(p + x, p) && (p + x)[|p|..] == x
    ensures c != 'R' ==> !StartsWith(p + x, "Running: ")
    ensures c != '\U{2713}' ==> !StartsWith(p + x, "\U{2713} ")
    ensures c != '\U{2717}' ==> !StartsWith(p + x, "\U{2717} ")
  {
    assert (p + x)[..|p|] == p;
    assert (p + x)[0] == c;
    if c != 'R' { NotStartsWithAt(p + x, "Running: ", 0); }
    if c != '\U{2713}' { NotStartsWithAt(p + x, "\U{2713} ", 0); }
    if c != '\U{2717}' { NotStartsWithAt(p + x, "\U{2717} ", 0); }
  }
}
