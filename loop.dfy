/** The prompt loop of `PromptToolkitCmd`: `_run_single_command` and
    `_run_prompt_forever`.

    The terminal is replaced by a list of inputs. Each input is what one
    call of `prompt_async` produced (a line, or end of input), the words
    `shlex.split` cuts that line into (or the error it raises), and the
    outcome the command's handler would have if it were called: handlers are
    user code, so their behaviour is a parameter of the model. */
module Loop {
  import opened Text
  import opened Commands
  import opened Usage
  import opened Help

  /** What one prompt produced: `EOFError`, or a line together with the
      result of `shlex.split` on it. */
  datatype Event = Eof | Line(text: string, split: Result<seq<string>>)

  /** One turn of the prompt and how the handler would run on it. */
  datatype Input = Input(event: Event, handler: Outcome)

  /** The coroutine stored in `_currently_running_task`: a command and its
      arguments. */
  datatype Invocation = Invocation(command: string, args: seq<string>)

  /** Why the loop ended: `EOFError`, `ExitPromptException`, or an
      exception nothing catches (`IndexError` from `args[0]` on a line
      without words, or any other). */
  datatype LoopError = IndexError | Uncaught(error: Error)
  datatype LoopEnd = EndOfInput | Exited | Crashed(error: LoopError)

  /** Whether the loop goes on after one turn. */
  datatype Next = Continue | Stop(end: LoopEnd)

  /** One turn: what it printed, the command it started (if any), what
      next. */
  datatype TurnResult = TurnResult(printed: seq<string>, started: Option<Invocation>, next: Next)

  /** A run over a list of inputs: everything printed, why the loop ended
      (`None` if the inputs ran out while it was still waiting for a line),
      how many inputs it took, and the running task at the end. */
  datatype RunResult = RunResult(printed: seq<string>, stopped: Option<LoopEnd>, consumed: nat, task: Option<Invocation>)

  const BadArgsPrefix := "Bad command args. Usage: "
  const FailedPrefix := "Command failed: "

  /** `str(ex)` of an exception. */
  function ErrorText(e: Error): string
  {
    match e
    case NoSuchAttribute(attr) => "object has no attribute '" + attr + "'"
    case Failure(message) => message
  }

  /** The arity check: at least every required argument, and no more than
      the required and optional ones together. */
  predicate ArgCountFits(sig: Signature, n: nat)
  {
    |sig.required| <= n <= |sig.required| + |sig.optional|
  }

  /** `_run_single_command(command, args)` with a handler that would end
      as `handler`. Looking up the signature is outside the `try`, so a
      missing method propagates; an argument count out of range prints the
      usage and returns; otherwise the handler runs, exit and cancellation
      pass through, and any other exception is printed as a failure (with
      the two spaces `print` puts between its two arguments). */
  function SingleCommand(reg: Registry, aliases: AliasTable, command: string, args: seq<string>, handler: Outcome): Outcome
  {
    match GetCommandArgs(reg, aliases, command)
    case Err(e) => Outcome([], Raised(e))
    case Ok(sig) =>
      if !ArgCountFits(sig, |args|) then
        Outcome([BadArgsPrefix + UsageOf(aliases, command, sig.required, sig.optional)], Returned)
      else
        match handler.ending
        case Returned => handler
        case RaisedExit => handler
        case Cancelled => handler
        case Raised(e) => Outcome(handler.printed + [FailedPrefix + " " + ErrorText(e)], Returned)
  }

  /** One pass of the `while True` body of `_run_prompt_forever`. */
  function Turn(reg: Registry, aliases: AliasTable, input: Input): TurnResult
  {
    match input.event
    case Eof => TurnResult([], None, Stop(EndOfInput))
    case Line(text, split) =>
      if text == [] then TurnResult([], None, Continue)
      else
        match split
        case Err(e) => TurnResult([], None, Stop(Crashed(Uncaught(e))))
        case Ok(words) =>
          if words == [] then TurnResult([], None, Stop(Crashed(IndexError)))
          else if words[0] !in CommandList(reg, aliases) then
            TurnResult(["Command " + words[0] + " not found!"], None, Continue)
          else
            Awaited(SingleCommand(reg, aliases, words[0], words[1..], input.handler), Invocation(words[0], words[1..]))
  }

  /** What `await self._currently_running_task` leads to once `started`
      runs and ends as `r`: cancellation prints an empty line and goes on,
      exit ends the loop, and any other exception escapes it. */
  function Awaited(r: Outcome, started: Invocation): TurnResult
  {
    match r.ending
    case Returned => TurnResult(r.printed, Some(started), Continue)
    case Cancelled => TurnResult(r.printed + [""], Some(started), Continue)
    case RaisedExit => TurnResult(r.printed, Some(started), Stop(Exited))
    case Raised(e) => TurnResult(r.printed, Some(started), Stop(Crashed(Uncaught(e))))
  }

  /** The running task after a turn: the command it started, or the one
      before, since nothing resets `_currently_running_task`. */
  function TaskAfter(task: Option<Invocation>, t: TurnResult): Option<Invocation>
  {
    if t.started.Some? then t.started else task
  }

  /** `_run_prompt_forever` over `inputs`, starting with running task `task`. */
  function Run(reg: Registry, aliases: AliasTable, task: Option<Invocation>, inputs: seq<Input>): RunResult
    decreases |inputs|
  {
    if inputs == [] then RunResult([], None, 0, task)
    else
      var t := Turn(reg, aliases, inputs[0]);
      match t.next
      case Stop(end) => RunResult(t.printed, Some(end), 1, TaskAfter(task, t))
      case Continue =>
        var rest := Run(reg, aliases, TaskAfter(task, t), inputs[1..]);
        RunResult(t.printed + rest.printed, rest.stopped, 1 + rest.consumed, rest.task)
  }

  /** Whether the turn on `input` ends the loop. */
  predicate Stops(reg: Registry, aliases: AliasTable, input: Input)
  {
    Turn(reg, aliases, input).next.Stop?
  }

  /** The lines the turns on `inputs` print, one turn after another. */
  function Printed(reg: Registry, aliases: AliasTable, inputs: seq<Input>): seq<string>
    decreases |inputs|
  {
    if inputs == [] then [] else Turn(reg, aliases, inputs[0]).printed + Printed(reg, aliases, inputs[1..])
  }

  /** The command started last by the turns on `inputs`, or `task` if none
      started one. */
  function LastStarted(reg: Registry, aliases: AliasTable, task: Option<Invocation>, inputs: seq<Input>): Option<Invocation>
    decreases |inputs|
  {
    if inputs == [] then task
    else LastStarted(reg, aliases, TaskAfter(task, Turn(reg, aliases, inputs[0])), inputs[1..])
  }

  // ---------------------------------------------------------------------
  // The single command

  /** The handler is called exactly when the argument count fits: then an
      `ExitPromptException` it raises leaves `_run_single_command`,
      otherwise the call returns without touching the handler. */
  lemma ArgCountGatesHandler(reg: Registry, aliases: AliasTable, command: string, args: seq<string>)
    requires GetCommandArgs(reg, aliases, command).Ok?
    ensures ArgCountFits(GetCommandArgs(reg, aliases, command).value, |args|)
        <==> SingleCommand(reg, aliases, command, args, Outcome([], RaisedExit)).ending == RaisedExit
  {
  }

  /** An argument count out of range prints one line, the usage, whatever
      the handler would have done. */
  lemma BadArgsPrintsUsage(reg: Registry, aliases: AliasTable, command: string, args: seq<string>, handler: Outcome)
    requires GetCommandArgs(reg, aliases, command).Ok?
    requires !ArgCountFits(GetCommandArgs(reg, aliases, command).value, |args|)
    ensures var sig := GetCommandArgs(reg, aliases, command).value;
      SingleCommand(reg, aliases, command, args, handler)
        == Outcome([BadArgsPrefix + UsageOf(aliases, command, sig.required, sig.optional)], Returned)
  {
  }

  /** When the handler runs, what it printed comes first; exit and
      cancellation pass through, any other exception becomes one more
      line and a normal return. */
  lemma HandlerOutcome(reg: Registry, aliases: AliasTable, command: string, args: seq<string>, handler: Outcome)
    requires GetCommandArgs(reg, aliases, command).Ok?
    requires ArgCountFits(GetCommandArgs(reg, aliases, command).value, |args|)
    ensures var r := SingleCommand(reg, aliases, command, args, handler);
      && r.printed[..|handler.printed|] == handler.printed
      && (handler.ending.Raised? <==> |r.printed| == |handler.printed| + 1)
      && (handler.ending.Raised? ==>
            r.ending == Returned && r.printed[|handler.printed|] == FailedPrefix + " " + ErrorText(handler.ending.error))
      && (!handler.ending.Raised? ==> r == handler)
  {
    var r := SingleCommand(reg, aliases, command, args, handler);
    assert r.printed[..|handler.printed|] == handler.printed;
  }

  /** A name whose method is missing fails before any argument check. */
  lemma MissingMethodRaises(reg: Registry, aliases: AliasTable, command: string, args: seq<string>, handler: Outcome)
    requires GetCommand(reg, aliases, command).Err?
    ensures SingleCommand(reg, aliases, command, args, handler)
         == Outcome([], Raised(NoSuchAttribute(AttrStart + Resolve(aliases, command))))
  {
  }

  // ---------------------------------------------------------------------
  // One turn of the loop

  /** A line that is empty is skipped, printing nothing and starting
      nothing. */
  lemma EmptyLineContinues(reg: Registry, aliases: AliasTable, split: Result<seq<string>>, handler: Outcome)
    ensures Turn(reg, aliases, Input(Line("", split), handler)) == TurnResult([], None, Continue)
  {
  }

  /** A non-empty line that `shlex.split` turns into no words (blank
      characters only) makes `args[0]` fail: the loop ends with
      `IndexError`. */
  lemma BlankLineCrashes(reg: Registry, aliases: AliasTable, text: string, handler: Outcome)
    requires text != []
    ensures Turn(reg, aliases, Input(Line(text, Ok([])), handler)).next == Stop(Crashed(IndexError))
  {
  }

  /** An unlisted first word prints `Command <word> not found!`, starts
      nothing, and the loop goes on. */
  lemma UnknownCommand(reg: Registry, aliases: AliasTable, text: string, words: seq<string>, handler: Outcome)
    requires text != [] && words != [] && !(words[0] in Names(reg) || IsAlias(aliases, words[0]))
    ensures Turn(reg, aliases, Input(Line(text, Ok(words)), handler))
         == TurnResult(["Command " + words[0] + " not found!"], None, Continue)
  {
  }

  /** A line whose first word is listed starts that command with the
      remaining words as arguments. */
  lemma TurnDispatches(reg: Registry, aliases: AliasTable, text: string, words: seq<string>, handler: Outcome)
    requires text != [] && words != [] && words[0] in CommandList(reg, aliases)
    ensures Turn(reg, aliases, Input(Line(text, Ok(words)), handler))
         == Awaited(SingleCommand(reg, aliases, words[0], words[1..], handler), Invocation(words[0], words[1..]))
  {
  }

  /** Only a line whose first word is listed starts a task. */
  lemma TurnStarts(reg: Registry, aliases: AliasTable, input: Input)
    ensures var t := Turn(reg, aliases, input);
      t.started.Some? <==>
        && input.event.Line? && input.event.text != [] && input.event.split.Ok?
        && input.event.split.value != [] && input.event.split.value[0] in CommandList(reg, aliases)
    ensures var t := Turn(reg, aliases, input);
      t.started.Some? ==>
        t.started.value == Invocation(input.event.split.value[0], input.event.split.value[1..])
  {
    match input.event
    case Eof =>
    case Line(text, split) =>
      if text != [] && split.Ok? && split.value != [] && split.value[0] in CommandList(reg, aliases) {
        var words := split.value;
        TurnDispatches(reg, aliases, text, words, input.handler);
        AwaitedStarts(SingleCommand(reg, aliases, words[0], words[1..], input.handler), Invocation(words[0], words[1..]));
      }
  }

  /** Awaiting a started command records it, however it ends. */
  lemma AwaitedStarts(r: Outcome, started: Invocation)
    ensures Awaited(r, started).started == Some(started)
  {
  }

  /** A listed alias whose target has no method ends the whole loop with
      that `AttributeError`: the signature lookup sits outside the `try` of
      `_run_single_command`, and the loop's `except` clauses do not catch it. */
  lemma DanglingAliasCrashes(reg: Registry, aliases: AliasTable, text: string, words: seq<string>, handler: Outcome)
    requires text != [] && words != []
    requires IsAlias(aliases, words[0]) && Resolve(aliases, words[0]) !in Names(reg)
    ensures Turn(reg, aliases, Input(Line(text, Ok(words)), handler)).next
         == Stop(Crashed(Uncaught(NoSuchAttribute(AttrStart + Resolve(aliases, words[0])))))
  {
    DanglingAliasListed(reg, aliases, words[0]);
    MissingMethodRaises(reg, aliases, words[0], words[1..], handler);
    TurnDispatches(reg, aliases, text, words, handler);
    AwaitedRaises(SingleCommand(reg, aliases, words[0], words[1..], handler), Invocation(words[0], words[1..]));
  }

  /** An exception that leaves the awaited command ends the loop. */
  lemma AwaitedRaises(r: Outcome, started: Invocation)
    requires r.ending.Raised?
    ensures Awaited(r, started).next == Stop(Crashed(Uncaught(r.ending.error)))
  {
  }

  /** A dangling alias is listed, yet its lookup fails. */
  lemma DanglingAliasListed(reg: Registry, aliases: AliasTable, name: string)
    requires IsAlias(aliases, name) && Resolve(aliases, name) !in Names(reg)
    ensures name in CommandList(reg, aliases) && GetCommand(reg, aliases, name).Err?
  {
  }

  /** A cancelled command (Ctrl-C) prints an empty line after its output
      and the loop goes on. */
  lemma CancelContinues(reg: Registry, aliases: AliasTable, text: string, words: seq<string>, printed: seq<string>)
    requires text != [] && words != [] && words[0] in CommandList(reg, aliases)
    requires GetCommandArgs(reg, aliases, words[0]).Ok?
    requires ArgCountFits(GetCommandArgs(reg, aliases, words[0]).value, |words| - 1)
    ensures Turn(reg, aliases, Input(Line(text, Ok(words)), Outcome(printed, Cancelled)))
         == TurnResult(printed + [""], Some(Invocation(words[0], words[1..])), Continue)
  {
    TurnDispatches(reg, aliases, text, words, Outcome(printed, Cancelled));
  }

  /** With every alias pointing at a registered command and every
      non-empty line splitting into at least one word, a turn ends the loop
      exactly on end of input, or when a command whose argument count fits
      raises `ExitPromptException`; a handler's other exceptions never end
      it. */
  lemma StopsOnlyOnEofOrExit(reg: Registry, aliases: AliasTable, input: Input)
    requires WellFormed(reg, aliases)
    requires input.event.Line? && input.event.text != [] ==>
      input.event.split.Ok? && input.event.split.value != []
    ensures var t := Turn(reg, aliases, input);
      t.next.Stop? <==>
        || input.event.Eof?
        || (&& input.event.text != []
            && var words := input.event.split.value;
            && words[0] in CommandList(reg, aliases)
            && ArgCountFits(GetCommandArgs(reg, aliases, words[0]).value, |words| - 1)
            && input.handler.ending == RaisedExit)
    ensures Turn(reg, aliases, input).next.Stop? ==>
      Turn(reg, aliases, input).next.end in {EndOfInput, Exited}
  {
    if input.event.Line? && input.event.text != [] {
      var words := input.event.split.value;
      if words[0] in CommandList(reg, aliases) {
        Dispatchable(reg, aliases, words[0]);
        TurnDispatches(reg, aliases, input.event.text, words, input.handler);
      }
    }
  }

  /** Typing an alias does what typing its target does: the same lines and
      the same next move, as long as the target is not itself an alias
      (resolution is applied once). Only the started task keeps the name
      as typed. */
  lemma AliasDispatchSame(reg: Registry, aliases: AliasTable, al: Alias, text: string, rest: seq<string>, handler: Outcome)
    requires al in aliases && !IsAlias(aliases, al.target) && al.target in Names(reg)
    ensures var viaAlias := Turn(reg, aliases, Input(Line(text, Ok([al.name] + rest)), handler));
      var direct := Turn(reg, aliases, Input(Line(text, Ok([al.target] + rest)), handler));
      && viaAlias.printed == direct.printed
      && viaAlias.next == direct.next
  {
    assert IsAlias(aliases, al.name);
    assert al.name in CommandList(reg, aliases) && al.target in CommandList(reg, aliases);
    assert ([al.name] + rest)[1..] == rest && ([al.target] + rest)[1..] == rest;
    SingleCommandAlias(reg, aliases, al, rest, handler);
    if text != [] {
      TurnDispatches(reg, aliases, text, [al.name] + rest, handler);
      TurnDispatches(reg, aliases, text, [al.target] + rest, handler);
    }
  }

  /** `_run_single_command` on an alias behaves as on its target. */
  lemma SingleCommandAlias(reg: Registry, aliases: AliasTable, al: Alias, args: seq<string>, handler: Outcome)
    requires al in aliases && !IsAlias(aliases, al.target)
    ensures SingleCommand(reg, aliases, al.name, args, handler) == SingleCommand(reg, aliases, al.target, args, handler)
  {
    assert Resolve(aliases, al.name) == al.target == Resolve(aliases, al.target);
    assert GetCommand(reg, aliases, al.name) == GetCommand(reg, aliases, al.target);
    match GetCommandArgs(reg, aliases, al.name)
    case Err(_) =>
    case Ok(sig) =>
      UsageOfAlias(aliases, al, sig.required, sig.optional);
  }

  /** With the base commands, `quit` and its alias `exit` end the loop:
      `do_quit` raises `ExitPromptException` and nothing catches it before
      the loop returns. */
  lemma QuitExits(text: string, word: string)
    requires text != [] && (word == "quit" || word == "exit")
    ensures Turn(BaseRegistry, BaseAliases, Input(Line(text, Ok([word])), DoQuit()))
         == TurnResult([], Some(Invocation(word, [])), Stop(Exited))
  {
    QuitListed(word);
    ExitWithoutArguments(BaseRegistry, BaseAliases, text, word, DoQuit());
  }

  /** A listed command that takes no arguments, typed alone, and whose
      handler raises `ExitPromptException` ends the loop. */
  lemma ExitWithoutArguments(reg: Registry, aliases: AliasTable, text: string, word: string, handler: Outcome)
    requires text != [] && word in CommandList(reg, aliases)
    requires GetCommandArgs(reg, aliases, word) == Ok(Signature([], []))
    requires handler.ending == RaisedExit
    ensures Turn(reg, aliases, Input(Line(text, Ok([word])), handler))
         == TurnResult(handler.printed, Some(Invocation(word, [])), Stop(Exited))
  {
    assert [word][1..] == [];
    assert SingleCommand(reg, aliases, word, [], handler) == handler;
    TurnDispatches(reg, aliases, text, [word], handler);
  }

  /** `quit` and `exit` are listed and reach `do_quit`, which takes no
      arguments. */
  lemma QuitListed(word: string)
    requires word == "quit" || word == "exit"
    ensures word in CommandList(BaseRegistry, BaseAliases)
    ensures Resolve(BaseAliases, word) == "quit"
    ensures GetCommand(BaseRegistry, BaseAliases, word).Ok?
         && GetCommand(BaseRegistry, BaseAliases, word).value.name == "quit"
    ensures GetCommandArgs(BaseRegistry, BaseAliases, word) == Ok(Signature([], []))
  {
    assert Resolve(BaseAliases, word) == "quit";
    assert Names(BaseRegistry)[1] == "quit";
    var decl := GetCommand(BaseRegistry, BaseAliases, word).value;
    assert decl in BaseRegistry && decl.name == "quit";
    assert decl.params == [];
  }

  // ---------------------------------------------------------------------
  // The whole loop

  /** A run takes at most all its inputs, and when it stops, it stops at
      the last input it took. */
  lemma {:induction false} RunStopsAtLast(reg: Registry, aliases: AliasTable, task: Option<Invocation>, inputs: seq<Input>)
    ensures var r := Run(reg, aliases, task, inputs);
      && r.consumed <= |inputs|
      && (r.stopped.None? ==> r.consumed == |inputs|)
      && (r.stopped.Some? ==> 0 < r.consumed && Turn(reg, aliases, inputs[r.consumed - 1]).next == Stop(r.stopped.value))
    decreases |inputs|
  {
    if inputs != [] {
      var t := Turn(reg, aliases, inputs[0]);
      if t.next.Continue? {
        var tail := inputs[1..];
        RunStopsAtLast(reg, aliases, TaskAfter(task, t), tail);
        var rest := Run(reg, aliases, TaskAfter(task, t), tail);
        var r := Run(reg, aliases, task, inputs);
        assert r == RunResult(t.printed + rest.printed, rest.stopped, 1 + rest.consumed, rest.task);
        if r.stopped.Some? {
          assert inputs[r.consumed - 1] == tail[rest.consumed - 1];
        }
      }
    }
  }

  /** Every turn a run took before its last one went on. */
  lemma {:induction false} RunContinuesBefore(reg: Registry, aliases: AliasTable, task: Option<Invocation>, inputs: seq<Input>)
    ensures var r := Run(reg, aliases, task, inputs);
      forall k :: 0 <= k < r.consumed - 1 && k < |inputs| ==> !Stops(reg, aliases, inputs[k])
    decreases |inputs|
  {
    if inputs != [] {
      var t := Turn(reg, aliases, inputs[0]);
      if t.next.Continue? {
        var tail := inputs[1..];
        RunContinuesBefore(reg, aliases, TaskAfter(task, t), tail);
        var rest := Run(reg, aliases, TaskAfter(task, t), tail);
        var r := Run(reg, aliases, task, inputs);
        assert r.consumed == 1 + rest.consumed;
        assert !Stops(reg, aliases, inputs[0]);
        forall k | 1 <= k < r.consumed - 1 && k < |inputs| ensures !Stops(reg, aliases, inputs[k]) {
          assert inputs[k] == tail[k - 1];
        }
      }
    }
  }

  /** A run uses up its inputs without stopping exactly when no input's
      turn stops the loop. */
  lemma {:induction false} RunExhausts(reg: Registry, aliases: AliasTable, task: Option<Invocation>, inputs: seq<Input>)
    ensures Run(reg, aliases, task, inputs).stopped.None? <==>
      forall k :: 0 <= k < |inputs| ==> !Stops(reg, aliases, inputs[k])
    decreases |inputs|
  {
    if inputs != [] {
      var t := Turn(reg, aliases, inputs[0]);
      var tail := inputs[1..];
      RunExhausts(reg, aliases, TaskAfter(task, t), tail);
      assert forall k :: 0 < k < |inputs| ==> inputs[k] == tail[k - 1];
      if (forall k :: 0 <= k < |tail| ==> !Stops(reg, aliases, tail[k])) && !Stops(reg, aliases, inputs[0]) {
        forall k | 0 <= k < |inputs| ensures !Stops(reg, aliases, inputs[k]) {
          if k > 0 {
            assert inputs[k] == tail[k - 1];
          }
        }
      }
    }
  }

  /** A run prints what the turns it took print, in order, and ends with
      the task the last of them that started a command started. */
  lemma {:induction false} RunTrace(reg: Registry, aliases: AliasTable, task: Option<Invocation>, inputs: seq<Input>)
    ensures var r := Run(reg, aliases, task, inputs);
      && r.consumed <= |inputs|
      && r.printed == Printed(reg, aliases, inputs[..r.consumed])
      && r.task == LastStarted(reg, aliases, task, inputs[..r.consumed])
    decreases |inputs|
  {
    if inputs != [] {
      var t := Turn(reg, aliases, inputs[0]);
      var r := Run(reg, aliases, task, inputs);
      if t.next.Continue? {
        var tail := inputs[1..];
        RunTrace(reg, aliases, TaskAfter(task, t), tail);
        var rest := Run(reg, aliases, TaskAfter(task, t), tail);
        assert r == RunResult(t.printed + rest.printed, rest.stopped, 1 + rest.consumed, rest.task);
        var taken := inputs[..r.consumed];
        assert taken[0] == inputs[0] && taken[1..] == tail[..rest.consumed];
      } else {
        assert r == RunResult(t.printed, Some(t.next.end), 1, TaskAfter(task, t));
        var taken := inputs[..1];
        assert taken[0] == inputs[0] && taken[1..] == [];
      }
    }
  }

  /** The loop ends only on end of input or on `quit` (or another command
      raising `ExitPromptException`) when every alias points at a
      registered command and every non-empty line splits into words. */
  lemma {:induction false} RunEndsOnlyByEofOrExit(reg: Registry, aliases: AliasTable, task: Option<Invocation>, inputs: seq<Input>)
    requires WellFormed(reg, aliases)
    requires forall k :: 0 <= k < |inputs| ==>
      (inputs[k].event.Line? && inputs[k].event.text != [] ==>
         inputs[k].event.split.Ok? && inputs[k].event.split.value != [])
    ensures Run(reg, aliases, task, inputs).stopped.Some? ==>
      Run(reg, aliases, task, inputs).stopped.value in {EndOfInput, Exited}
    decreases |inputs|
  {
    if inputs != [] {
      StopsOnlyOnEofOrExit(reg, aliases, inputs[0]);
      var t := Turn(reg, aliases, inputs[0]);
      if t.next.Continue? {
        assert forall k :: 0 <= k < |inputs| - 1 ==> inputs[1..][k] == inputs[k + 1];
        RunEndsOnlyByEofOrExit(reg, aliases, TaskAfter(task, t), inputs[1..]);
      }
    }
  }

  /** Once set, the running task is never cleared again. */
  lemma {:induction false} TaskNeverCleared(reg: Registry, aliases: AliasTable, t: Invocation, inputs: seq<Input>)
    ensures LastStarted(reg, aliases, Some(t), inputs).Some?
    decreases |inputs|
  {
    if inputs != [] {
      var next := TaskAfter(Some(t), Turn(reg, aliases, inputs[0]));
      TaskNeverCleared(reg, aliases, next.value, inputs[1..]);
    }
  }

  /** A run from position `i` is the turn on `inputs[i]` followed, if that
      turn continues, by the run from `i + 1`. */
  lemma RunUnfold(reg: Registry, aliases: AliasTable, task: Option<Invocation>, inputs: seq<Input>, i: nat)
    requires i < |inputs|
    ensures var t := Turn(reg, aliases, inputs[i]);
      Run(reg, aliases, task, inputs[i..])
        == if t.next.Stop? then RunResult(t.printed, Some(t.next.end), 1, TaskAfter(task, t))
           else
             var rest := Run(reg, aliases, TaskAfter(task, t), inputs[i + 1..]);
             RunResult(t.printed + rest.printed, rest.stopped, 1 + rest.consumed, rest.task)
  {
    assert inputs[i..][0] == inputs[i] && inputs[i..][1..] == inputs[i + 1..];
  }

  /** The bookkeeping of a loop that has done `i` turns and printed
      `printed`: one more turn that continues moves the run one input on. */
  lemma AdvanceRun(reg: Registry, aliases: AliasTable, total: RunResult, printed: seq<string>, inputs: seq<Input>,
                   i: nat, task: Option<Invocation>)
    requires i < |inputs| && Turn(reg, aliases, inputs[i]).next == Continue
    requires var rest := Run(reg, aliases, task, inputs[i..]);
      total == RunResult(printed + rest.printed, rest.stopped, i + rest.consumed, rest.task)
    ensures var t := Turn(reg, aliases, inputs[i]);
      var rest := Run(reg, aliases, TaskAfter(task, t), inputs[i + 1..]);
      total == RunResult(printed + t.printed + rest.printed, rest.stopped, i + 1 + rest.consumed, rest.task)
  {
    RunUnfold(reg, aliases, task, inputs, i);
    var t := Turn(reg, aliases, inputs[i]);
    var rest := Run(reg, aliases, TaskAfter(task, t), inputs[i + 1..]);
    assert printed + (t.printed + rest.printed) == printed + t.printed + rest.printed;
  }

  // ---------------------------------------------------------------------
  // The object

  /** A `PromptToolkitCmd` with its registry of `do_` methods, its alias
      table, the completer built at construction, and the task started
      last. */
  class PromptToolkitCmd {
    const registry: Registry
    const aliases: AliasTable
    const completer: map<string, Completer>
    var currentTask: Option<Invocation>

    /** `__init__`: builds the completer from the command list and the
        `_<name>_completions` providers; no task runs yet. */
    constructor (registry: Registry, aliases: AliasTable, providers: map<string, Completer>)
      ensures this.registry == registry && this.aliases == aliases
      ensures completer == MakeCompleter(registry, aliases, providers)
      ensures currentTask == None
    {
      this.registry := registry;
      this.aliases := aliases;
      completer := MakeCompleter(registry, aliases, providers);
      currentTask := None;
    }

    /** `_run_single_command`. */
    method RunSingleCommand(command: string, args: seq<string>, handler: Outcome) returns (out: Outcome)
      ensures out == SingleCommand(registry, aliases, command, args, handler)
    {
      var sig := GetCommandArgs(registry, aliases, command);
      if sig.Err? {
        return Outcome([], Raised(sig.error));
      }
      var required, optional := sig.value.required, sig.value.optional;
      if |args| < |required| || |args| > |required| + |optional| {
        var usage := GetCommandUsage(aliases, command, required, optional);
        return Outcome([BadArgsPrefix + usage], Returned);
      }
      if handler.ending.Raised? {
        return Outcome(handler.printed + [FailedPrefix + " " + ErrorText(handler.ending.error)], Returned);
      }
      out := handler;
    }

    /** One pass of the `while True` body of `_run_prompt_forever` on
        `input`: the lines it prints and whether the loop goes on. A line
        whose first word is listed starts that command as the running task. */
    method TakeTurn(input: Input) returns (lines: seq<string>, next: Next)
      modifies this
      ensures var t := Turn(registry, aliases, input);
        lines == t.printed && next == t.next && currentTask == TaskAfter(old(currentTask), t)
    {
      if input.event.Eof? {
        return [], Stop(EndOfInput);
      }
      var text := input.event.text;
      if text == [] {
        return [], Continue;
      }
      if input.event.split.Err? {
        return [], Stop(Crashed(Uncaught(input.event.split.error)));
      }
      var words := input.event.split.value;
      if words == [] {
        return [], Stop(Crashed(IndexError));
      }
      if words[0] !in CommandList(registry, aliases) {
        return ["Command " + words[0] + " not found!"], Continue;
      }
      currentTask := Some(Invocation(words[0], words[1..]));
      var r := RunSingleCommand(words[0], words[1..], input.handler);
      match r.ending
      case Returned =>
        return r.printed, Continue;
      case Cancelled =>
        return r.printed + [""], Continue;
      case RaisedExit =>
        return r.printed, Stop(Exited);
      case Raised(e) =>
        return r.printed, Stop(Crashed(Uncaught(e)));
    }

    /** `_run_prompt_forever`: reads inputs until one ends the loop or
        there are none left, recording each started command as the running
        task. */
    method RunPromptForever(inputs: seq<Input>) returns (printed: seq<string>, stopped: Option<LoopEnd>, consumed: nat)
      modifies this
      ensures Run(registry, aliases, old(currentTask), inputs) == RunResult(printed, stopped, consumed, currentTask)
    {
      printed := [];
      var i := 0;
      while i < |inputs|
        invariant 0 <= i <= |inputs|
        invariant var rest := Run(registry, aliases, currentTask, inputs[i..]);
          Run(registry, aliases, old(currentTask), inputs)
            == RunResult(printed + rest.printed, rest.stopped, i + rest.consumed, rest.task)
      {
        RunUnfold(registry, aliases, currentTask, inputs, i);
        ghost var task := currentTask;
        var lines, next := TakeTurn(inputs[i]);
        if next.Stop? {
          return printed + lines, Some(next.end), i + 1;
        }
        AdvanceRun(registry, aliases, Run(registry, aliases, old(currentTask), inputs), printed, inputs, i, task);
        printed := printed + lines;
        i := i + 1;
      }
      assert inputs[i..] == [];
      consumed := i;
      stopped := None;
    }
  }
}
