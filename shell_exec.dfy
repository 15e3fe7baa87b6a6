/** The stateful part of the shell executor (pkg/executors/shell.go): the
    go-cmd command whose environment is filled in place, the goroutine that
    drains its two output channels into the UI, and executeShell's choice of
    outcome. Which goroutine runs when is an input: a schedule for the
    pump's select and the winner of the final select. */
module Shell {
  import opened Wrappers
  import opened ShellEnv

  /** The shell executor handles an action exactly when its shell text is
      non-empty. */
  function ShellExecutor(action: ShuttleAction): (handles: bool)
    ensures handles <==> |action.shell| > 0
  {
    action.shell != ""
  }

  // ---------------------------------------------------------------------
  // The UI

  /** A line printed through the UI, by the call that printed it. */
  datatype UiLine =
    | VerboseLine(text: string)
    | OutputLine(text: string)
    | InfoLine(text: string)
    | ErrorLine(text: string)

  /** The project's UI, reduced to the lines it has printed. */
  class Ui {
    var Lines: seq<UiLine>

    constructor ()
      ensures Lines == []
    {
      Lines := [];
    }

    method Verboseln(text: string)
      modifies this
      ensures Lines == old(Lines) + [VerboseLine(text)]
    {
      Lines := Lines + [VerboseLine(text)];
    }

    method Output(text: string)
      modifies this
      ensures Lines == old(Lines) + [OutputLine(text)]
    {
      Lines := Lines + [OutputLine(text)];
    }

    method Infoln(text: string)
      modifies this
      ensures Lines == old(Lines) + [InfoLine(text)]
    {
      Lines := Lines + [InfoLine(text)];
    }

    method Errorln(text: string)
      modifies this
      ensures Lines == old(Lines) + [ErrorLine(text)]
    {
      Lines := Lines + [ErrorLine(text)];
    }
  }

  /** The texts of the Output lines, in order. */
  function OutputTexts(lines: seq<UiLine>): seq<string> {
    if lines == [] then []
    else
      var last := lines[|lines| - 1];
      OutputTexts(lines[..|lines| - 1]) + (if last.OutputLine? then [last.text] else [])
  }

  /** The texts of the Infoln lines, in order. */
  function InfoTexts(lines: seq<UiLine>): seq<string> {
    if lines == [] then []
    else
      var last := lines[|lines| - 1];
      InfoTexts(lines[..|lines| - 1]) + (if last.InfoLine? then [last.text] else [])
  }

  /** Lines that only the output pump prints. */
  predicate OnlyStreamLines(lines: seq<UiLine>) {
    forall i :: 0 <= i < |lines| ==> lines[i].OutputLine? || lines[i].InfoLine?
  }

  /** Every line the pump prints is one line of stdout or one of stderr. */
  lemma {:induction false} StreamLineCount(lines: seq<UiLine>)
    requires OnlyStreamLines(lines)
    ensures |lines| == |OutputTexts(lines)| + |InfoTexts(lines)|
    decreases |lines|
  {
    if lines != [] {
      StreamLineCount(lines[..|lines| - 1]);
    }
  }

  // ---------------------------------------------------------------------
  // The command

  /** One of go-cmd's streaming channels as the pump sees it: Nil once the
      pump has set the field to nil, otherwise the lines still to arrive
      before the channel is closed. */
  datatype Stream = Nil | Open(pending: seq<string>)

  function Pending(s: Stream): seq<string> {
    if s.Nil? then [] else s.pending
  }

  /** The lines still to drain plus one receive for the close. */
  function Receives(s: Stream): nat {
    if s.Nil? then 0 else |s.pending| + 1
  }

  /** go-cmd's Cmd: program, arguments, environment and output channels. */
  class Cmd {
    const Name: string
    const Args: seq<string>
    var Env: seq<string>
    var Stdout: Stream
    var Stderr: Stream
    /** The order in which setupCommandEnvironmentVariables visited the argument map. */
    ghost var ArgOrder: seq<string>

    /** cmd.NewCmdOptions with streaming output: no environment yet; the
        channels will carry the lines the script prints. */
    constructor (name: string, args: seq<string>, stdout: seq<string>, stderr: seq<string>)
      ensures Name == name && Args == args && Env == []
      ensures Stdout == Open(stdout) && Stderr == Open(stderr)
    {
      Name := name;
      Args := args;
      Env := [];
      Stdout := Open(stdout);
      Stderr := Open(stderr);
      ArgOrder := [];
    }
  }

  /** setupCommandEnvironmentVariables: resolve the POSIX project path,
      then build the environment in place: inherited entries, one entry per
      argument, and the fixed entries. A resolver error leaves Env as it was. */
  method SetupCommandEnvironmentVariables(execCmd: Cmd, context: ActionExecutionContext, host: Host)
    returns (err: Option<string>)
    modifies execCmd`Env, execCmd`ArgOrder
    ensures var resolved := ResolveShPathForWindows(context.scriptContext.project.projectPath, host.goos, host.cygpath);
      && (resolved.Err? ==> err == Some(resolved.error) && execCmd.Env == old(execCmd.Env))
      && (resolved.Ok? ==>
            && err == None
            && IsEnumeration(execCmd.ArgOrder, context.scriptContext.args.Keys)
            && execCmd.Env == SetupEnv(context, host, execCmd.ArgOrder).value)
  {
    var p := context.scriptContext.project;
    var shuttlePath := host.shuttlePath;
    var resolved := ResolveShPathForWindows(p.projectPath, host.goos, host.cygpath);
    if resolved.Err? {
      return Some(resolved.error);
    }
    var shPath := resolved.value;

    execCmd.Env := host.environ;
    AppendArgs(execCmd, context.scriptContext.args);
    ghost var withArgs := execCmd.Env;

    var plan := ReplaceWindowsPathSegmentIfNeeded(host.goos, p.projectPath, shPath, p.localPlanPath);
    execCmd.Env := execCmd.Env + [Entry("shuttle_plan", plan), Entry("plan", plan)];
    var tmp := ReplaceWindowsPathSegmentIfNeeded(host.goos, p.projectPath, shPath, p.tempDirectoryPath);
    execCmd.Env := execCmd.Env + [Entry("shuttle_tmp", tmp), Entry("tmp", tmp)];
    var project := ReplaceWindowsPathSegmentIfNeeded(host.goos, p.projectPath, shPath, p.projectPath);
    execCmd.Env := execCmd.Env + [Entry("project", project), Entry("shuttle_project", project)];
    execCmd.Env := execCmd.Env + [Entry("PATH", shuttlePath + [PathListSeparator(host.goos)] + host.pathEnv)];
    execCmd.Env := execCmd.Env + [Entry("SHUTTLE_PLANS_ALREADY_VALIDATED", p.localPlanPath)];
    execCmd.Env := execCmd.Env + ["SHUTTLE_INTERACTIVE=default"];
    FixedEntriesListed(context, host, shPath);
    assert execCmd.Env == withArgs + FixedEntries(context, host, shPath);
    return None;
  }

  /** The `range` loop over the argument map: one `name=value` entry per
      argument, appended in the (unspecified) order the map is visited. */
  method AppendArgs(execCmd: Cmd, args: map<string, string>)
    modifies execCmd`Env, execCmd`ArgOrder
    ensures IsEnumeration(execCmd.ArgOrder, args.Keys)
    ensures execCmd.Env == old(execCmd.Env) + ArgEntries(execCmd.ArgOrder, args)
  {
    var remaining := args.Keys;
    execCmd.ArgOrder := [];
    while remaining != {}
      invariant Visiting(execCmd.ArgOrder, args.Keys, remaining)
      invariant execCmd.Env == old(execCmd.Env) + ArgEntries(execCmd.ArgOrder, args)
      decreases remaining
    {
      var name :| name in remaining;
      ghost var order := execCmd.ArgOrder;
      VisitStep(order, args.Keys, remaining, name);
      ArgEntriesSnoc(order, name, args);
      execCmd.Env := execCmd.Env + [Entry(name, args[name])];
      execCmd.ArgOrder := order + [name];
      remaining := remaining - {name};
    }
    VisitDone(execCmd.ArgOrder, args.Keys);
  }

  /** Part way through the range loop: `order` lists, once each, the keys
      already visited, and `remaining` holds the rest. */
  ghost predicate Visiting(order: seq<string>, keys: set<string>, remaining: set<string>) {
    && remaining <= keys
    && (forall k :: k in order ==> k in keys && k !in remaining)
    && (forall k :: k in keys && k !in remaining ==> k in order)
    && (forall i, j :: 0 <= i < j < |order| ==> order[i] != order[j])
  }

  lemma VisitStep(order: seq<string>, keys: set<string>, remaining: set<string>, name: string)
    requires Visiting(order, keys, remaining) && name in remaining
    ensures Visiting(order + [name], keys, remaining - {name})
  {
    var next := order + [name];
    forall i, j | 0 <= i < j < |next| ensures next[i] != next[j] {
      if j == |order| {
        assert next[i] == order[i];
      } else {
        assert next[i] == order[i] && next[j] == order[j];
      }
    }
  }

  lemma VisitDone(order: seq<string>, keys: set<string>)
    requires Visiting(order, keys, {})
    ensures IsEnumeration(order, keys)
  {
  }

  lemma ArgEntriesSnoc(order: seq<string>, name: string, args: map<string, string>)
    requires forall k :: k in order ==> k in args
    requires name in args
    ensures ArgEntries(order + [name], args) == ArgEntries(order, args) + [Entry(name, args[name])]
  {
    assert (order + [name])[..|order|] == order;
  }

  /** What the pump has printed so far, and what the channels still hold,
      together make up the two streams: nothing lost, nothing reordered. */
  ghost predicate PumpState(printed: seq<UiLine>, stdout: Stream, stderr: Stream,
                            out0: seq<string>, err0: seq<string>) {
    && OnlyStreamLines(printed)
    && OutputTexts(printed) + Pending(stdout) == out0
    && InfoTexts(printed) + Pending(stderr) == err0
  }

  /** The output pump: until both channels are nil, receive from whichever
      the schedule picks among those still open; a closed channel is set to
      nil, a stdout line goes to Output and a stderr line to Infoln. Each
      stream's lines reach the UI complete and in order. `budget` is how many
      receives the pump makes before executeShell stops waiting for it: with
      enough budget both channels are drained, otherwise what was printed is
      a prefix of each stream and the rest is still pending. */
  method PumpOutput(execCmd: Cmd, ui: Ui, schedule: nat -> bool, budget: nat)
    modifies execCmd`Stdout, execCmd`Stderr, ui
    ensures budget >= Receives(old(execCmd.Stdout)) + Receives(old(execCmd.Stderr)) ==>
      execCmd.Stdout == Nil && execCmd.Stderr == Nil
    ensures |ui.Lines| >= |old(ui.Lines)| && ui.Lines[..|old(ui.Lines)|] == old(ui.Lines)
    ensures var printed := ui.Lines[|old(ui.Lines)|..];
      && OnlyStreamLines(printed)
      && |printed| == |OutputTexts(printed)| + |InfoTexts(printed)| <= budget
      && OutputTexts(printed) + Pending(execCmd.Stdout) == Pending(old(execCmd.Stdout))
      && InfoTexts(printed) + Pending(execCmd.Stderr) == Pending(old(execCmd.Stderr))
  {
    ghost var start := |ui.Lines|;
    ghost var out0, err0 := Pending(execCmd.Stdout), Pending(execCmd.Stderr);
    ghost var total := Receives(execCmd.Stdout) + Receives(execCmd.Stderr);
    assert ui.Lines[start..] == [];
    var step: nat := 0;
    while (execCmd.Stdout != Nil || execCmd.Stderr != Nil) && step < budget
      invariant |ui.Lines| >= start && ui.Lines[..start] == old(ui.Lines)
      invariant PumpState(ui.Lines[start..], execCmd.Stdout, execCmd.Stderr, out0, err0)
      invariant |ui.Lines| - start <= step <= budget
      invariant Receives(execCmd.Stdout) + Receives(execCmd.Stderr) + step == total
      decreases Receives(execCmd.Stdout) + Receives(execCmd.Stderr)
    {
    ghost var before := ui.Lines;
      if execCmd.Stdout.Open? && (execCmd.Stderr.Nil? || schedule(step)) {
        var pending := execCmd.Stdout.pending;
        if pending == [] {
          execCmd.Stdout := Nil;
        } else {
          ui.Output(pending[0]);
          execCmd.Stdout := Open(pending[1..]);
          AppendPrinted(before, start, OutputLine(pending[0]));
          ReceiveStdoutLine(before[start..], pending, execCmd.Stderr, out0, err0);
        }
      } else {
        var pending := execCmd.Stderr.pending;
        if pending == [] {
          execCmd.Stderr := Nil;
        } else {
          ui.Infoln(pending[0]);
          execCmd.Stderr := Open(pending[1..]);
          AppendPrinted(before, start, InfoLine(pending[0]));
          ReceiveStderrLine(before[start..], execCmd.Stdout, pending, out0, err0);
        }
      }
      step := step + 1;
    }
    StreamLineCount(ui.Lines[start..]);
  }

  /** Printing one more line extends what the pump has printed by that line. */
  lemma AppendPrinted(lines: seq<UiLine>, start: nat, line: UiLine)
    requires start <= |lines|
    ensures (lines + [line])[start..] == lines[start..] + [line]
    ensures (lines + [line])[..start] == lines[..start]
  {
  }

  /** Receiving a stdout line and printing it keeps the pump's state. */
  lemma ReceiveStdoutLine(printed: seq<UiLine>, pending: seq<string>, stderr: Stream,
                          out0: seq<string>, err0: seq<string>)
    requires pending != []
    requires PumpState(printed, Open(pending), stderr, out0, err0)
    ensures PumpState(printed + [OutputLine(pending[0])], Open(pending[1..]), stderr, out0, err0)
  {
    OutputSnoc(printed, pending[0]);
    ShiftFirst(OutputTexts(printed), pending);
  }

  /** Receiving a stderr line and printing it keeps the pump's state. */
  lemma ReceiveStderrLine(printed: seq<UiLine>, stdout: Stream, pending: seq<string>,
                          out0: seq<string>, err0: seq<string>)
    requires pending != []
    requires PumpState(printed, stdout, Open(pending), out0, err0)
    ensures PumpState(printed + [InfoLine(pending[0])], stdout, Open(pending[1..]), out0, err0)
  {
    InfoSnoc(printed, pending[0]);
    ShiftFirst(InfoTexts(printed), pending);
  }

  /** Moving the first pending line over to the received ones. */
  lemma ShiftFirst(received: seq<string>, pending: seq<string>)
    requires pending != []
    ensures (received + [pending[0]]) + pending[1..] == received + pending
  {
    assert pending == [pending[0]] + pending[1..];
  }

  /** One more Output line adds its text to the stdout texts only. */
  lemma OutputSnoc(printed: seq<UiLine>, text: string)
    ensures OutputTexts(printed + [OutputLine(text)]) == OutputTexts(printed) + [text]
    ensures InfoTexts(printed + [OutputLine(text)]) == InfoTexts(printed)
    ensures OnlyStreamLines(printed) ==> OnlyStreamLines(printed + [OutputLine(text)])
  {
    var next := printed + [OutputLine(text)];
    assert next[..|printed|] == printed;
    assert InfoTexts(printed) + [] == InfoTexts(printed);
  }

  /** One more Infoln line adds its text to the stderr texts only. */
  lemma InfoSnoc(printed: seq<UiLine>, text: string)
    ensures InfoTexts(printed + [InfoLine(text)]) == InfoTexts(printed) + [text]
    ensures OutputTexts(printed + [InfoLine(text)]) == OutputTexts(printed)
    ensures OnlyStreamLines(printed) ==> OnlyStreamLines(printed + [InfoLine(text)])
  {
    var next := printed + [InfoLine(text)];
    assert next[..|printed|] == printed;
    assert OutputTexts(printed) + [] == OutputTexts(printed);
  }

  // ---------------------------------------------------------------------
  // executeShell

  /** The error executeShell returns. */
  datatype ExecError =
    | SetupFailed(message: string)
    | ScriptFailed(failure: ExitCodeError)
    | ContextFailed(message: string)

  /** Which case of the final select fires first: the process finishes
      with an exit status, or the context is done (with the context's error,
      the error, if any, of stopping the process, and how many receives the
      output pump had made by the time executeShell returned). */
  datatype Race =
    | ProcessExited(exit: int)
    | ContextDone(ctxErr: string, stopError: Option<string>, received: nat)

  const SetupErrorPrefix := "failed setting up cmd env variables: "

  /** The verbose line logged before the environment is set up. */
  function StartMessage(args: seq<string>): string
    requires |args| == 2
  {
    "Starting shell command: " + "sh" + " " + args[0] + " " + args[1]
  }

  /** The error line logged when stopping a cancelled script fails. */
  function StopFailedMessage(shell: string, err: string): string {
    "Failed to stop script '" + shell + "': " + err
  }

  /** What the stopping goroutine logs once the context is done. */
  function StopLines(shell: string, stopError: Option<string>): seq<UiLine> {
    if stopError.Some? then [ErrorLine(StopFailedMessage(shell, stopError.value))] else []
  }

  /** What a cancelled run leaves in the UI after the start line: lines the
      pump printed, at most one per receive and each a stdout line or a
      stderr line, then the stopping goroutine's lines. The printed lines are
      a prefix of each stream, and the whole of both streams when the pump
      had receives enough to drain them. */
  predicate CancelledOutput(lines: seq<UiLine>, stop: seq<UiLine>, received: nat,
                            stdout: seq<string>, stderr: seq<string>) {
    && |lines| >= |stop|
    && lines[|lines| - |stop|..] == stop
    && var printed := lines[..|lines| - |stop|];
       && OnlyStreamLines(printed) && |printed| <= received
       && OutputTexts(printed) <= stdout && InfoTexts(printed) <= stderr
       && (received >= |stdout| + |stderr| + 2 ==>
             OutputTexts(printed) == stdout && InfoTexts(printed) == stderr)
  }

  /** The cancelled run: the pump has made `received` receives when the
      context is done, and the stopping goroutine then logs a failure to stop
      the process, if there was one. What the pump printed is a prefix of
      each stream, and all of it once the budget covers every receive. */
  method PumpUntilCancelled(execCmd: Cmd, ui: Ui, schedule: nat -> bool,
                            shell: string, stopError: Option<string>, received: nat)
    modifies execCmd`Stdout, execCmd`Stderr, ui
    ensures |ui.Lines| >= |old(ui.Lines)| && ui.Lines[..|old(ui.Lines)|] == old(ui.Lines)
    ensures CancelledOutput(ui.Lines[|old(ui.Lines)|..], StopLines(shell, stopError), received,
                            Pending(old(execCmd.Stdout)), Pending(old(execCmd.Stderr)))
  {
    ghost var out0, err0 := Pending(execCmd.Stdout), Pending(execCmd.Stderr);
    PumpOutput(execCmd, ui, schedule, received);
    ghost var pumped := ui.Lines;
    ghost var printed := pumped[|old(ui.Lines)|..];
    PrefixOfConcat(OutputTexts(printed), Pending(execCmd.Stdout), out0);
    PrefixOfConcat(InfoTexts(printed), Pending(execCmd.Stderr), err0);
    if stopError.Some? {
      ui.Errorln(StopFailedMessage(shell, stopError.value));
    }
    assert ui.Lines == pumped + StopLines(shell, stopError);
    assert ui.Lines[|old(ui.Lines)|..][..|printed|] == printed;
  }

  /** A sequence that is followed by a rest to make up a whole is its prefix. */
  lemma PrefixOfConcat<T>(a: seq<T>, rest: seq<T>, whole: seq<T>)
    requires a + rest == whole
    ensures a <= whole
  {
    assert whole[..|a|] == a;
  }

  /** The outcome of a finished script. */
  function ExitOutcome(scriptName: string, shell: string, exit: int): Option<ExecError> {
    match ClassifyExit(scriptName, shell, exit)
    case None => None
    case Some(e) => Some(ScriptFailed(e))
  }

  /** executeShell: build `sh -c "cd '<project>'; <shell>"`, set up its
      environment and append the context id, pump its output into the UI,
      and report the outcome of whichever of process exit and context
      cancellation comes first. */
  method ExecuteShell(context: ActionExecutionContext, host: Host, contextId: string, ui: Ui,
                      stdout: seq<string>, stderr: seq<string>, race: Race, schedule: nat -> bool)
    returns (err: Option<ExecError>, execCmd: Cmd)
    modifies ui
    ensures fresh(execCmd)
    ensures execCmd.Name == "sh"
    ensures execCmd.Args == CmdArgs(context.scriptContext.project.projectPath, context.action.shell)
    ensures |ui.Lines| > |old(ui.Lines)|
    ensures ui.Lines[..|old(ui.Lines)| + 1] == old(ui.Lines) + [VerboseLine(StartMessage(execCmd.Args))]
    ensures var resolved := ResolveShPathForWindows(context.scriptContext.project.projectPath, host.goos, host.cygpath);
      && (resolved.Err? ==>
            && err == Some(SetupFailed(SetupErrorPrefix + resolved.error))
            && ui.Lines == old(ui.Lines) + [VerboseLine(StartMessage(execCmd.Args))])
      && (resolved.Ok? ==>
            && IsEnumeration(execCmd.ArgOrder, context.scriptContext.args.Keys)
            && execCmd.Env == SetupEnv(context, host, execCmd.ArgOrder).value + [ContextIdEntry(contextId)])
      && (resolved.Ok? && race.ProcessExited? ==>
            && execCmd.Stdout == Nil && execCmd.Stderr == Nil
            && (var printed := ui.Lines[|old(ui.Lines)| + 1..];
                OnlyStreamLines(printed) && OutputTexts(printed) == stdout && InfoTexts(printed) == stderr)
            && err == ExitOutcome(context.scriptContext.scriptName, context.action.shell, race.exit))
      && (resolved.Ok? && race.ContextDone? ==>
            && err == Some(ContextFailed(race.ctxErr))
            && CancelledOutput(ui.Lines[|old(ui.Lines)| + 1..], StopLines(context.action.shell, race.stopError),
                               race.received, stdout, stderr))
  {
    var cmdArgs := CmdArgs(context.scriptContext.project.projectPath, context.action.shell);
    execCmd := new Cmd("sh", cmdArgs, stdout, stderr);
    ui.Verboseln(StartMessage(cmdArgs));
    ghost var logged := ui.Lines;

    var setupErr := SetupCommandEnvironmentVariables(execCmd, context, host);
    if setupErr.Some? {
      return Some(SetupFailed(SetupErrorPrefix + setupErr.value)), execCmd;
    }
    execCmd.Env := execCmd.Env + [ContextIdEntry(contextId)];

    match race {
      case ProcessExited(exit) =>
        PumpOutput(execCmd, ui, schedule, |stdout| + |stderr| + 2);
        assert ui.Lines[..|logged|] == logged;
        assert ui.Lines[..|old(ui.Lines)| + 1] == logged[..|old(ui.Lines)| + 1];
        err := ExitOutcome(context.scriptContext.scriptName, context.action.shell, exit);
      case ContextDone(ctxErr, stopError, received) =>
        PumpUntilCancelled(execCmd, ui, schedule, context.action.shell, stopError, received);
        assert ui.Lines[..|logged|] == logged;
        assert ui.Lines[..|old(ui.Lines)| + 1] == logged[..|old(ui.Lines)| + 1];
        err := Some(ContextFailed(ctxErr));
    }
  }
}
