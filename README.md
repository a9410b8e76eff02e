# aiocmd command layer, modelled in Dafny

This project models the command-dispatch core of `PromptToolkitCmd`, the REPL
base class of `aiocmd`. A subclass defines `do_<name>` methods and an
`aliases` dictionary. The base class turns each prompt line into a call of
one of those methods. The model covers:

- alias resolution and the two command lists;
- the split of a method's parameters into required and optional ones;
- the usage string of a command;
- the `help` screen and the `quit` command;
- `_run_single_command`, with its argument-count check and its handling of
  the handler's exceptions;
- the prompt loop `_run_prompt_forever`, as a method on an object whose
  `currentTask` field plays `_currently_running_task`.

Files:

- `text.dfy` (module `Text`) holds the few Python `str` and `list`
  builtins the layer uses: `isspace`, `strip`, `join`, `"c" * n`,
  `"%-Ns"` padding, the `str` order and `sorted`.
- `commands.dfy` (module `Commands`) holds the registry, the aliases,
  `_get_command`, `_get_command_args`, `command_list`,
  `actual_command_list` and the completer map of `_make_completer`.
- `usage.dfy` (module `Usage`) holds `_get_command_usage`. It is a method
  that builds the list of names step by step, proved equal to a specification
  function `UsageOf`.
- `help.dfy` (module `Help`) holds `do_help` and `do_quit`. `DoHelp` is a
  method with the same two loops as the source, proved equal to the
  function `HelpOutcome`.
- `loop.dfy` (module `Loop`) holds `_run_single_command`, one turn of the
  prompt loop (`Turn`), the whole loop over a list of inputs (`Run`), and
  the class `PromptToolkitCmd`. Its `RunPromptForever` is a `while` loop
  proved equal to `Run`.

Reflection is replaced by an explicit registry. Each `CommandDecl` holds:

- the command name, without `do_`;
- the parameters, as `inspect.signature` reports them without `self`;
- the docstring.

The terminal is replaced by a list of `Input` values. Each one holds:

- what one prompt produced: a line, or end of input;
- the result of `shlex.split` on that line;
- the `Outcome` the command's handler would have if it ran: the lines it
  prints, then whether it returns, raises `ExitPromptException`, is
  cancelled, or raises another exception.

## Behaviour of the code worth knowing

The model keeps each of these behaviours of the code.

- **The running task is never cleared.** Nothing ever resets
  `_currently_running_task`: the code only assigns it when a command starts
  (`aiocmd/aiocmd.py:80-81`), not when the command completes, fails or is
  cancelled. The model's `currentTask` therefore keeps the last started
  command (`TaskNeverCleared`).
- **A line of only blanks ends the loop.** `shlex.split` returns no words
  for it, and `args[0]` raises `IndexError`, which nothing catches. The
  model ends the run with `Crashed(IndexError)` (`BlankLineCrashes`) rather
  than excluding such lines. `RunEndsOnlyByEofOrExit` assumes every
  non-empty line has at least one word.
- **`shlex.split` can fail.** An unbalanced quote raises `ValueError`,
  which also ends the loop.
- **A dangling alias ends the loop.** An alias whose target has no
  `do_` method is listed, so it passes the `command_list` test. Its
  signature lookup (`aiocmd/aiocmd.py:101`) then raises `AttributeError`
  outside the `try` of `_run_single_command`. The loop's `except` clauses
  (`aiocmd/aiocmd.py:83-87`) do not catch it, so it ends the loop
  (`DanglingAliasCrashes`).
  The same alias makes `help` fail after printing its header
  (`HelpDanglingAlias`). "Only end of input and `quit` end the loop" holds
  only when every alias has a target (`WellFormed`).
- **Optional parameters print with their default.** Usage strings format
  `str(param)`, so an optional parameter `b=1` prints as `[b=1]`, not `[b]`.
- **Resolution is not transitive.** An alias is looked up once. An alias
  to another alias therefore resolves to that second alias's name and
  finds no method.
- **An alias has no completer of its own.** The completer map is keyed by
  the name as listed. An alias without a `_<alias>_completions` method
  offers no suggestions, even when its target has a completer
  (`AliasCompleterNotInherited`).
- **`help` fails on an empty command list.** `max` of an empty list raises
  `ValueError`. A real object always has `do_help`, so this cannot occur
  there, but the model keeps the branch.

## Model

| member | source | states |
|---|---|---|
| Text.StripLeftSpec | aiocmd/aiocmd.py:152-156 | `strip` drops leading characters only while they are whitespace: the rest is a suffix starting with a non-space |
| Text.StripRightSpec | aiocmd/aiocmd.py:152-156 | `strip` drops trailing characters only while they are whitespace: the rest is a prefix ending with a non-space |
| Text.StripTrailingSpace | aiocmd/aiocmd.py:152-156 | a string with no whitespace at either end, followed only by whitespace, strips back to itself |
| Text.PadRight | aiocmd/aiocmd.py:179 | `"%-Ns"` keeps the usage as a prefix, adds only `' '` characters, and reaches width N without ever truncating |
| Text.SortStrings | aiocmd/aiocmd.py:150 | `sort`/`sorted` return the same strings in non-decreasing `str` order (a sorted permutation) |
| Text.SortSorted | aiocmd/aiocmd.py:177 | sorting the already sorted `actual_command_list` changes nothing |
| Text.LessEqTotal | aiocmd/aiocmd.py:150 | any two strings are comparable in `str` order |
| Text.LessEqAntisymmetric | aiocmd/aiocmd.py:150 | two strings each `<=` the other are equal |
| Text.LessEqTransitive | aiocmd/aiocmd.py:150 | `str` order is transitive, so sorting is well defined |
| Commands.Find | aiocmd/aiocmd.py:134 | `getattr(self, "do_" + name)` finds a method exactly when `name` is registered, and it finds that one |
| Commands.AliasTarget | aiocmd/aiocmd.py:132-133 | `aliases[name]` exists exactly for alias keys and is that entry's target |
| Commands.Resolve | aiocmd/aiocmd.py:131-133 | a name that is not an alias resolves to itself; an alias resolves to its target after one lookup, even if that target is itself an alias |
| Commands.GetCommand | aiocmd/aiocmd.py:131-134 | succeeds exactly when the resolved name is registered; otherwise fails with `AttributeError` for `do_<resolved name>` |
| Commands.SplitMembers | aiocmd/aiocmd.py:136-141 | the required parameters are exactly those without a default, the optional ones exactly those with one |
| Commands.SplitAppend | aiocmd/aiocmd.py:136-141 | appending a parameter appends it to exactly one of the two lists, at its end, so both keep declaration order |
| Commands.SplitPartitions | aiocmd/aiocmd.py:136-141 | the two lists together hold every parameter exactly as often as the signature does |
| Commands.GetCommandArgs | aiocmd/aiocmd.py:136-141 | fails exactly as `_get_command` does; otherwise returns the split of the resolved method's parameters |
| Commands.ActualCommandList | aiocmd/aiocmd.py:162-165 | the registered names, each once, in sorted order |
| Commands.CommandList | aiocmd/aiocmd.py:158-160 | a name is listed exactly when it is a registered command or an alias key |
| Commands.Dispatchable | aiocmd/aiocmd.py:131-134 | when no alias dangles, a name finds its method exactly when it is listed |
| Commands.WellFormedResolvable | aiocmd/aiocmd.py:131-134 | no alias dangles exactly when every listed name finds its method |
| Commands.MakeCompleter | aiocmd/aiocmd.py:123-129 | one completer entry per listed name; the provider's completer when `_<name>_completions` exists, an empty word list otherwise |
| Commands.AliasCompleterNotInherited | aiocmd/aiocmd.py:123-129 | an alias without a provider of its own gets the empty word list |
| Usage.AliasesTo | aiocmd/aiocmd.py:146-149 | the collected names are exactly the keys of the aliases whose target is the command, each once |
| Usage.UsageNames | aiocmd/aiocmd.py:144-151 | the canonical name comes first, followed by exactly the aliases pointing at it, each once, sorted |
| Usage.Bracketed | aiocmd/aiocmd.py:154-155 | one part per parameter, each its rendering between the brackets |
| Usage.GetCommandUsage | aiocmd/aiocmd.py:143-156 | the loop that builds the names step by step returns exactly the usage string `UsageOf` |
| Usage.UsageOfAlias | aiocmd/aiocmd.py:144-145 | an alias of a non-alias target has exactly its target's usage string |
| Usage.BracketedEnds | aiocmd/aiocmd.py:154-155 | the joined parts are empty exactly when there are no parameters, otherwise start with the opening and end with the closing bracket |
| Usage.UsageLayout | aiocmd/aiocmd.py:152-156 | for a non-empty canonical name and names without whitespace, usage is names, a space, the `<...>` parts, a space, the `[...]` parts; stripping removes only what empty trailing parts leave, so optional without required parameters keeps a double space |
| Usage.StripLayout | aiocmd/aiocmd.py:152-156 | stripping the three joined parts removes exactly the spaces an empty part leaves at the end |
| Help.Header | aiocmd/aiocmd.py:169-171 | the help screen starts with a blank line, the header, and a line of `=` exactly as long as the header |
| Help.UsageFor | aiocmd/aiocmd.py:173-174 | `get_usage` succeeds exactly when the name finds its method, and fails with the same error |
| Help.FirstFailureSpec | aiocmd/aiocmd.py:176 | the list of usages fails exactly when some name finds no method, and then with that name's error |
| Help.FirstFailurePrefix | aiocmd/aiocmd.py:176 | once a name has failed, the names after it are never looked at |
| Help.MaxUsageBound | aiocmd/aiocmd.py:176 | no usage of a listed name is longer than the computed maximum |
| Help.MaxUsageAttained | aiocmd/aiocmd.py:176 | some usage of a non-empty list is exactly as long as the computed maximum |
| Help.MaxUsageLength | aiocmd/aiocmd.py:176 | the loop over the names fails with the first lookup error, or with `max`'s error on an empty list, and otherwise returns the maximum usage length |
| Help.DoHelp | aiocmd/aiocmd.py:167-179 | the method prints exactly what `HelpOutcome` describes: the header, then either the error or the sorted help lines |
| Help.HelpOutcomeLines | aiocmd/aiocmd.py:176-179 | when no listed name fails and the command list is not empty, `help` returns normally after the header and the help lines of the sorted commands at the docstring column |
| Help.PrintHelpLines | aiocmd/aiocmd.py:177-179 | the `for` loop prints one help line per command, in order |
| Help.FormatHelpLine | aiocmd/aiocmd.py:178-179 | one printed line is the usage padded to the column, then the docstring or `""` |
| Help.PaddedRow | aiocmd/aiocmd.py:179 | a usage padded to a column at least two past its end is aligned there: usage, only `' '` characters, then the docstring from that column |
| Help.HelpLinesAt | aiocmd/aiocmd.py:177-179 | there is one help line per command, and line i is the help line of command i |
| Help.HelpColumnSpec | aiocmd/aiocmd.py:176-179 | the docstring column is two past the longest usage of any listed name, aliases included, and that longest usage exists |
| Help.ColumnBound | aiocmd/aiocmd.py:176-179 | every listed name's usage ends at least two columns before the docstring column |
| Help.SortedCommandsResolvable | aiocmd/aiocmd.py:176-177 | if every listed name finds its method, so does every sorted actual command |
| Help.WellFormedHelp | aiocmd/aiocmd.py:176 | when no alias dangles, listing the usages does not fail |
| Help.HelpLayout | aiocmd/aiocmd.py:167-179 | when at least one command is registered and every listed name finds its method, help returns normally and prints the header, then one line per actual command in sorted order (aliases get none), each aligned on the shared docstring column: the usage, then only `' '` characters up to that column, then the docstring |
| Help.HelpRow | aiocmd/aiocmd.py:177-179 | the help line of the i-th actual command is aligned on the docstring column |
| Help.RowAligned | aiocmd/aiocmd.py:179 | the i-th help line is aligned on any column at least two past its usage |
| Help.HelpDanglingAlias | aiocmd/aiocmd.py:173-176 | with a name that finds no method, help prints only the header and raises `AttributeError` |
| Help.BaseHelp | aiocmd/aiocmd.py:167-185 | the help screen of an object with only `help`, `quit` and `history` returns normally with six printed entries, starting with a blank line, `Commands:` and nine `=` |
| Loop.ArgCountGatesHandler | aiocmd/aiocmd.py:102-113 | the handler runs (its `ExitPromptException` escapes) exactly when required <= number of arguments <= required + optional |
| Loop.BadArgsPrintsUsage | aiocmd/aiocmd.py:102-106 | a count out of range prints exactly `Bad command args. Usage: <usage>` and returns, whatever the handler would do |
| Loop.HandlerOutcome | aiocmd/aiocmd.py:108-118 | the handler's output comes first; exit and cancellation pass through unchanged; any other exception adds one `Command failed:  <message>` line and returns normally |
| Loop.MissingMethodRaises | aiocmd/aiocmd.py:101 | a name that finds no method raises its `AttributeError` before any argument check and prints nothing |
| Loop.EmptyLineContinues | aiocmd/aiocmd.py:75-76 | an empty line prints nothing, starts nothing, and the loop goes on, whatever `shlex.split` would have made of it (it is never called) |
| Loop.BlankLineCrashes | aiocmd/aiocmd.py:77-78 | a non-empty line without words ends the loop with `IndexError` |
| Loop.UnknownCommand | aiocmd/aiocmd.py:88-89 | an unlisted first word prints `Command <word> not found!`, starts nothing, and the loop goes on |
| Loop.TurnDispatches | aiocmd/aiocmd.py:78-87 | a listed first word runs `_run_single_command` on it with the remaining words, and the loop reacts to how that ends |
| Loop.TurnStarts | aiocmd/aiocmd.py:78-81 | a turn starts a task exactly when the line is non-empty, splits into words, and its first word is listed; the task is that word with the remaining words |
| Loop.DanglingAliasCrashes | aiocmd/aiocmd.py:79-87 | a listed alias without a method ends the loop with its `AttributeError` |
| Loop.CancelContinues | aiocmd/aiocmd.py:83-85 | a cancelled command prints a blank line after its output and the loop goes on |
| Loop.StopsOnlyOnEofOrExit | aiocmd/aiocmd.py:72-89 | when no alias dangles and every line has words, a turn ends the loop exactly on end of input or on a handler's `ExitPromptException` after a fitting argument count |
| Loop.AliasDispatchSame | aiocmd/aiocmd.py:78-87 | typing an alias of a non-alias target prints the same and goes on or stops the same as typing the target |
| Loop.SingleCommandAlias | aiocmd/aiocmd.py:100-118 | `_run_single_command` on an alias of a non-alias target behaves exactly as on the target |
| Loop.QuitExits | aiocmd/aiocmd.py:181-183 | with the base commands, `quit` and its alias `exit` end the loop without printing |
| Loop.ExitWithoutArguments | aiocmd/aiocmd.py:86-87 | a listed command without parameters, typed alone, whose handler raises `ExitPromptException`, ends the loop |
| Loop.QuitListed | aiocmd/aiocmd.py:41 | `quit` and `exit` are listed, resolve to `quit` and find the `do_quit` declaration, which takes no arguments |
| Loop.RunStopsAtLast | aiocmd/aiocmd.py:61-89 | a run takes at most all its inputs, and when it stops it stops at the last input it took |
| Loop.RunContinuesBefore | aiocmd/aiocmd.py:61-89 | every turn before the last one taken lets the loop go on |
| Loop.RunExhausts | aiocmd/aiocmd.py:61-89 | a run uses up its inputs without stopping exactly when no input's turn stops the loop |
| Loop.RunTrace | aiocmd/aiocmd.py:61-89 | a run prints what the turns it took print, in order, and ends with the task the last dispatching turn started |
| Loop.RunEndsOnlyByEofOrExit | aiocmd/aiocmd.py:61-89 | when no alias dangles and every line has words, the loop ends only on end of input or `ExitPromptException` |
| Loop.TaskNeverCleared | aiocmd/aiocmd.py:80-81 | once set, the running task stays set for the rest of the run |
| Loop.PromptToolkitCmd.constructor | aiocmd/aiocmd.py:43-47 | a new object has the completer of its command list and no running task |
| Loop.PromptToolkitCmd.RunSingleCommand | aiocmd/aiocmd.py:100-118 | the method returns exactly the outcome `SingleCommand` describes |
| Loop.PromptToolkitCmd.TakeTurn | aiocmd/aiocmd.py:63-89 | one pass of the loop body prints what `Turn` prints, decides the same, and records a started command as the running task |
| Loop.PromptToolkitCmd.RunPromptForever | aiocmd/aiocmd.py:61-89 | the `while` loop prints, stops and consumes inputs exactly as `Run` does, and leaves the running task `Run` ends with |

## Left out

- The prompt-toolkit session is left out: `PromptSession`, `prompt_async`/`prompt`, `patch_stdout`, the version check and `run`/`_on_close`. It is terminal I/O. Each prompt's result is an input of the model.
- `shlex.split` is left out. It is a library tokenizer. Its result, a list of words or an error, is part of each input.
- SIGINT handling, `_sigint_handler`, `asyncio.ensure_future` and task cancellation are left out. They are concurrency and signal plumbing. Cancellation appears only as one possible handler outcome.
- The key binding (`_get_bindings`, `_interrupt_handler`) is left out. It only edits the input buffer.
- `do_history` is left out. It reads the session's persisted history. It is still listed in `BaseRegistry`, so it counts as a command.
- `dir`, `getattr`, `hasattr` and `inspect.signature` are replaced by the explicit registry and the provider map.
- The `NestedCompleter`/`WordCompleter` objects are not modelled. The model keeps only which names have an entry and whether the entry is the default empty word list.
- Handler bodies are user code. How a handler ends is an input, not something the model computes.
- Exceptions that are not `Exception` subclasses (such as `KeyboardInterrupt` inside a handler) are not modelled.
- ErrorText: `str(AttributeError)` is modelled as `object has no attribute '<name>'`, without the class name Python puts in front.
- Help.HelpOutcome: the message of `max()` on an empty list is fixed to one Python version's wording.
- `print` is modelled as a list holding the text of each `print` call, not as writes to stdout. A docstring that contains newlines is one element but spans several terminal lines.
