/** The built-in commands `do_help` and `do_quit`. */
module Help {
  import opened Text
  import opened Commands
  import opened Usage

  /** The class attribute `doc_header`. */
  const DocHeader := "Commands:"

  /** `max` of an empty list raises `ValueError` with this text. */
  const EmptyMaxMessage := "max() arg is an empty sequence"

  /** The three lines printed first: a blank line, the header, and a line of
      `=` as long as the header. */
  function Header(header: string): (r: seq<string>)
    ensures |r| == 3 && r[0] == "" && r[1] == header
    ensures |r[2]| == |header| && forall k :: 0 <= k < |r[2]| ==> r[2][k] == '='
  {
    ["", header, Repeat('=', |header|)]
  }

  /** `get_usage(c)`: the usage of `c` with its own parameters. */
  function UsageFor(reg: Registry, aliases: AliasTable, name: string): (r: Result<string>)
    ensures r.Ok? <==> GetCommand(reg, aliases, name).Ok?
    ensures r.Err? ==> r.error == GetCommand(reg, aliases, name).error
  {
    match GetCommandArgs(reg, aliases, name)
    case Ok(sig) => Ok(UsageOf(aliases, name, sig.required, sig.optional))
    case Err(e) => Err(e)
  }

  /** The exception `[len(get_usage(c)) for c in names]` stops at: that of
      the first name without a method, if there is one. */
  function FirstFailure(reg: Registry, aliases: AliasTable, names: seq<string>): Option<Error>
  {
    if names == [] then None
    else
      match FirstFailure(reg, aliases, names[..|names| - 1])
      case Some(e) => Some(e)
      case None =>
        match GetCommand(reg, aliases, names[|names| - 1])
        case Ok(_) => None
        case Err(e) => Some(e)
  }

  /** The list of usages fails exactly when some name finds no method, and
      then with the error of one of those names. */
  lemma {:induction false} FirstFailureSpec(reg: Registry, aliases: AliasTable, names: seq<string>)
    ensures FirstFailure(reg, aliases, names).None? <==> Resolvable(reg, aliases, names)
    ensures FirstFailure(reg, aliases, names).Some? ==>
      exists n :: n in names && GetCommand(reg, aliases, n) == Err(FirstFailure(reg, aliases, names).value)
  {
    if names != [] {
      var init := names[..|names| - 1];
      assert names == init + [names[|names| - 1]];
      FirstFailureSpec(reg, aliases, init);
    }
  }

  lemma FirstFailureStep(reg: Registry, aliases: AliasTable, names: seq<string>, i: nat)
    requires i < |names|
    requires FirstFailure(reg, aliases, names[..i]).None?
    ensures FirstFailure(reg, aliases, names[..i + 1]) ==
      match GetCommand(reg, aliases, names[i]) case Ok(_) => None case Err(e) => Some(e)
  {
    assert names[..i + 1][..i] == names[..i];
  }

  /** Once a prefix of the names has failed, the rest is never looked at. */
  lemma {:induction false} FirstFailurePrefix(reg: Registry, aliases: AliasTable, names: seq<string>, k: nat)
    requires k <= |names|
    requires FirstFailure(reg, aliases, names[..k]).Some?
    ensures FirstFailure(reg, aliases, names) == FirstFailure(reg, aliases, names[..k])
    decreases |names| - k
  {
    if k < |names| {
      var init := names[..|names| - 1];
      assert init[..k] == names[..k];
      FirstFailurePrefix(reg, aliases, init, k);
    } else {
      assert names[..k] == names;
    }
  }

  /** The largest usage length over `names` (0 for none). */
  function MaxUsage(reg: Registry, aliases: AliasTable, names: seq<string>): nat
    requires FirstFailure(reg, aliases, names).None?
  {
    if names == [] then 0
    else
      var m := MaxUsage(reg, aliases, names[..|names| - 1]);
      var u := |UsageFor(reg, aliases, names[|names| - 1]).value|;
      if m < u then u else m
  }

  /** No usage over `names` is longer than `MaxUsage`. */
  lemma {:induction false} MaxUsageBound(reg: Registry, aliases: AliasTable, names: seq<string>)
    requires FirstFailure(reg, aliases, names).None?
    ensures forall n :: n in names ==> UsageFor(reg, aliases, n).Ok?
    ensures forall n :: n in names ==> |UsageFor(reg, aliases, n).value| <= MaxUsage(reg, aliases, names)
  {
    if names != [] {
      var init := names[..|names| - 1];
      var last := names[|names| - 1];
      assert names == init + [last];
      MaxUsageBound(reg, aliases, init);
      forall n | n in names
        ensures UsageFor(reg, aliases, n).Ok? && |UsageFor(reg, aliases, n).value| <= MaxUsage(reg, aliases, names)
      {
        if n != last {
          assert n in init;
        }
      }
    }
  }

  /** Some usage over a non-empty `names` is exactly `MaxUsage` long. */
  lemma {:induction false} MaxUsageAttained(reg: Registry, aliases: AliasTable, names: seq<string>)
    requires FirstFailure(reg, aliases, names).None?
    requires names != []
    ensures exists n :: n in names && UsageFor(reg, aliases, n).Ok? && |UsageFor(reg, aliases, n).value| == MaxUsage(reg, aliases, names)
  {
    var init := names[..|names| - 1];
    var last := names[|names| - 1];
    assert names == init + [last];
    var m := MaxUsage(reg, aliases, names);
    if init == [] || |UsageFor(reg, aliases, last).value| >= MaxUsage(reg, aliases, init) {
      assert last in names && |UsageFor(reg, aliases, last).value| == m;
    } else {
      MaxUsageAttained(reg, aliases, init);
      var w :| w in init && UsageFor(reg, aliases, w).Ok? && |UsageFor(reg, aliases, w).value| == MaxUsage(reg, aliases, init);
      assert w in names && |UsageFor(reg, aliases, w).value| == m;
    }
  }

  /** `max([len(get_usage(c)) for c in names])`: the first name without a
      method stops the list with its error, and an empty list fails in
      `max`. */
  function MaxUsageResult(reg: Registry, aliases: AliasTable, names: seq<string>): Result<nat>
  {
    match FirstFailure(reg, aliases, names)
    case Some(e) => Err(e)
    case None => if names == [] then Err(Failure(EmptyMaxMessage)) else Ok(MaxUsage(reg, aliases, names))
  }

  /** A step of the loop computing the maximum: one more name whose method
      is found, with usage `usage`. */
  lemma MaxUsageAdvance(reg: Registry, aliases: AliasTable, names: seq<string>, i: nat, sig: Signature, usage: string)
    requires i < |names|
    requires FirstFailure(reg, aliases, names[..i]).None?
    requires GetCommandArgs(reg, aliases, names[i]) == Ok(sig)
    requires usage == UsageOf(aliases, names[i], sig.required, sig.optional)
    ensures FirstFailure(reg, aliases, names[..i + 1]).None?
    ensures MaxUsage(reg, aliases, names[..i + 1]) ==
      if MaxUsage(reg, aliases, names[..i]) < |usage| then |usage| else MaxUsage(reg, aliases, names[..i])
  {
    FirstFailureStep(reg, aliases, names, i);
    UsageForOk(reg, aliases, names[i], sig);
    MaxUsageStep(reg, aliases, names, i, usage);
  }

  lemma MaxUsageStep(reg: Registry, aliases: AliasTable, names: seq<string>, i: nat, usage: string)
    requires i < |names|
    requires FirstFailure(reg, aliases, names[..i + 1]).None?
    requires UsageFor(reg, aliases, names[i]) == Ok(usage)
    ensures FirstFailure(reg, aliases, names[..i]).None?
    ensures MaxUsage(reg, aliases, names[..i + 1]) ==
      if MaxUsage(reg, aliases, names[..i]) < |usage| then |usage| else MaxUsage(reg, aliases, names[..i])
  {
    assert names[..i + 1][..i] == names[..i];
  }

  lemma UsageForOk(reg: Registry, aliases: AliasTable, name: string, sig: Signature)
    requires GetCommandArgs(reg, aliases, name) == Ok(sig)
    ensures UsageFor(reg, aliases, name) == Ok(UsageOf(aliases, name, sig.required, sig.optional))
  {
  }

  /** `command_doc or ""`. */
  function DocText(doc: Option<string>): string
  {
    if doc.Some? then doc.value else ""
  }

  /** One line of the help screen: the usage left-justified to `width`,
      then the docstring. */
  function HelpLine(reg: Registry, aliases: AliasTable, name: string, width: nat): string
    requires GetCommand(reg, aliases, name).Ok?
  {
    PadRight(UsageFor(reg, aliases, name).value, width) + DocText(GetCommand(reg, aliases, name).value.doc)
  }

  /** The help lines of `names`, in order. */
  function HelpLines(reg: Registry, aliases: AliasTable, names: seq<string>, width: nat): seq<string>
    requires FirstFailure(reg, aliases, names).None?
  {
    if names == [] then []
    else
      HelpLines(reg, aliases, names[..|names| - 1], width) + [HelpLine(reg, aliases, names[|names| - 1], width)]
  }

  /** Every prefix of a list that does not fail does not fail either. */
  lemma FirstFailureNonePrefix(reg: Registry, aliases: AliasTable, names: seq<string>, k: nat)
    requires k <= |names|
    requires FirstFailure(reg, aliases, names).None?
    ensures FirstFailure(reg, aliases, names[..k]).None?
  {
    if FirstFailure(reg, aliases, names[..k]).Some? {
      FirstFailurePrefix(reg, aliases, names, k);
    }
  }

  lemma HelpLinesStep(reg: Registry, aliases: AliasTable, names: seq<string>, j: nat, width: nat)
    requires j < |names| && FirstFailure(reg, aliases, names).None?
    ensures FirstFailure(reg, aliases, names[..j]).None? && FirstFailure(reg, aliases, names[..j + 1]).None?
    ensures GetCommand(reg, aliases, names[j]).Ok?
    ensures HelpLines(reg, aliases, names[..j + 1], width)
         == HelpLines(reg, aliases, names[..j], width) + [HelpLine(reg, aliases, names[j], width)]
  {
    FirstFailureNonePrefix(reg, aliases, names, j);
    FirstFailureNonePrefix(reg, aliases, names, j + 1);
    FirstFailureStep(reg, aliases, names, j);
    assert names[..j + 1][..j] == names[..j];
  }

  lemma HelpLineOk(reg: Registry, aliases: AliasTable, name: string, width: nat, decl: CommandDecl, sig: Signature)
    requires GetCommand(reg, aliases, name) == Ok(decl)
    requires GetCommandArgs(reg, aliases, name) == Ok(sig)
    ensures HelpLine(reg, aliases, name, width)
         == PadRight(UsageOf(aliases, name, sig.required, sig.optional), width) + DocText(decl.doc)
  {
  }

  /** The column at which every docstring starts: two past the longest
      usage over all listed names, aliases included. */
  function HelpColumn(reg: Registry, aliases: AliasTable): nat
    requires FirstFailure(reg, aliases, CommandList(reg, aliases)).None?
  {
    MaxUsage(reg, aliases, CommandList(reg, aliases)) + 2
  }

  /** The sorted actual commands all find their methods when every listed
      name does. */
  lemma SortedCommandsResolvable(reg: Registry, aliases: AliasTable)
    requires FirstFailure(reg, aliases, CommandList(reg, aliases)).None?
    ensures FirstFailure(reg, aliases, SortStrings(ActualCommandList(reg))).None?
  {
    FirstFailureSpec(reg, aliases, CommandList(reg, aliases));
    var commands := SortStrings(ActualCommandList(reg));
    forall n | n in commands ensures GetCommand(reg, aliases, n).Ok? {
      assert n in multiset(commands);
      assert n in ActualCommandList(reg);
      assert n in CommandList(reg, aliases);
    }
    FirstFailureSpec(reg, aliases, commands);
  }

  /** What `do_help` prints and how it ends. */
  function HelpOutcome(reg: Registry, aliases: AliasTable, header: string): Outcome
  {
    var r := MaxUsageResult(reg, aliases, CommandList(reg, aliases));
    if r.Err? then Outcome(Header(header), Raised(r.error))
    else
      SortedCommandsResolvable(reg, aliases);
      Outcome(Header(header) + HelpLines(reg, aliases, SortStrings(ActualCommandList(reg)), HelpColumn(reg, aliases)), Returned)
  }

  lemma HelpOutcomeLines(reg: Registry, aliases: AliasTable, header: string)
    requires FirstFailure(reg, aliases, CommandList(reg, aliases)).None?
    requires CommandList(reg, aliases) != []
    ensures FirstFailure(reg, aliases, SortStrings(ActualCommandList(reg))).None?
    ensures HelpOutcome(reg, aliases, header)
         == Outcome(Header(header) + HelpLines(reg, aliases, SortStrings(ActualCommandList(reg)), HelpColumn(reg, aliases)),
                    Returned)
  {
    var names := CommandList(reg, aliases);
    assert MaxUsageResult(reg, aliases, names).Ok?;
    SortedCommandsResolvable(reg, aliases);
  }

  /** The list comprehension and `max` of `do_help`, as a loop over the
      names. */
  method MaxUsageLength(reg: Registry, aliases: AliasTable, names: seq<string>) returns (r: Result<nat>)
    ensures r == MaxUsageResult(reg, aliases, names)
  {
    var maxLen := 0;
    var i := 0;
    while i < |names|
      invariant 0 <= i <= |names|
      invariant FirstFailure(reg, aliases, names[..i]).None?
      invariant maxLen == MaxUsage(reg, aliases, names[..i])
    {
      var sig := GetCommandArgs(reg, aliases, names[i]);
      if sig.Err? {
        FirstFailureStep(reg, aliases, names, i);
        FirstFailurePrefix(reg, aliases, names, i + 1);
        return Err(sig.error);
      }
      var usage := GetCommandUsage(aliases, names[i], sig.value.required, sig.value.optional);
      MaxUsageAdvance(reg, aliases, names, i, sig.value, usage);
      if |usage| > maxLen {
        maxLen := |usage|;
      }
      i := i + 1;
    }
    assert names[..i] == names;
    if names == [] {
      return Err(Failure(EmptyMaxMessage));
    }
    r := Ok(maxLen);
  }

  /** `do_help`, printing line by line. */
  method DoHelp(reg: Registry, aliases: AliasTable, header: string) returns (out: Outcome)
    ensures out == HelpOutcome(reg, aliases, header)
  {
    var printed := Header(header);
    var maxLen := MaxUsageLength(reg, aliases, CommandList(reg, aliases));
    if maxLen.Err? {
      return Outcome(printed, Raised(maxLen.error));
    }
    var commands := SortStrings(ActualCommandList(reg));
    SortedCommandsResolvable(reg, aliases);
    assert maxLen.value + 2 == HelpColumn(reg, aliases);
    var lines := PrintHelpLines(reg, aliases, commands, maxLen.value + 2);
    out := Outcome(printed + lines, Returned);
  }

  /** The `for` loop of `do_help`: one line per command, in order. */
  method PrintHelpLines(reg: Registry, aliases: AliasTable, commands: seq<string>, width: nat)
    returns (printed: seq<string>)
    requires FirstFailure(reg, aliases, commands).None?
    ensures printed == HelpLines(reg, aliases, commands, width)
  {
    printed := [];
    var j := 0;
    assert commands[..0] == [];
    while j < |commands|
      invariant 0 <= j <= |commands|
      invariant FirstFailure(reg, aliases, commands[..j]).None?
      invariant printed == HelpLines(reg, aliases, commands[..j], width)
    {
      HelpLinesStep(reg, aliases, commands, j, width);
      var line := FormatHelpLine(reg, aliases, commands[j], width);
      printed := printed + [line];
      j := j + 1;
    }
    assert commands[..j] == commands;
  }

  /** The `print` of one command in the loop of `do_help`. */
  method FormatHelpLine(reg: Registry, aliases: AliasTable, name: string, width: nat) returns (line: string)
    requires GetCommand(reg, aliases, name).Ok?
    ensures line == HelpLine(reg, aliases, name, width)
  {
    var decl := GetCommand(reg, aliases, name).value;
    var sig := GetCommandArgs(reg, aliases, name).value;
    var usage := GetCommandUsage(aliases, name, sig.required, sig.optional);
    HelpLineOk(reg, aliases, name, width, decl, sig);
    line := PadRight(usage, width) + DocText(decl.doc);
  }

  /** One help line: the usage, spaces up to column `width`, the docstring. */
  predicate AlignedRow(line: string, usage: string, width: nat, doc: string)
  {
    && |usage| < width
    && |line| == width + |doc|
    && line[..|usage|] == usage
    && (forall k :: |usage| <= k < width ==> line[k] == ' ')
    && line[width..] == doc
  }

  lemma PaddedRow(usage: string, width: nat, doc: string)
    requires |usage| + 2 <= width
    ensures AlignedRow(PadRight(usage, width) + doc, usage, width, doc)
  {
    var padded := PadRight(usage, width);
    var line := padded + doc;
    assert line[..|usage|] == padded[..|usage|];
    assert line[|usage|..width] == padded[|usage|..];
    assert line[width..] == doc;
  }

  /** There is one help line per name. */
  lemma {:induction false} HelpLinesLength(reg: Registry, aliases: AliasTable, names: seq<string>, width: nat)
    requires FirstFailure(reg, aliases, names).None?
    ensures |HelpLines(reg, aliases, names, width)| == |names|
  {
    if names != [] {
      HelpLinesLength(reg, aliases, names[..|names| - 1], width);
    }
  }

  /** Line `i` of the help lines is the help line of the `i`-th name. */
  lemma {:induction false} HelpLinesAt(reg: Registry, aliases: AliasTable, names: seq<string>, width: nat, i: nat)
    requires FirstFailure(reg, aliases, names).None?
    requires i < |names|
    ensures GetCommand(reg, aliases, names[i]).Ok?
    ensures |HelpLines(reg, aliases, names, width)| == |names|
    ensures HelpLines(reg, aliases, names, width)[i] == HelpLine(reg, aliases, names[i], width)
  {
    var init := names[..|names| - 1];
    HelpLinesLength(reg, aliases, init, width);
    if i < |names| - 1 {
      HelpLinesAt(reg, aliases, init, width, i);
    }
  }

  /** The docstring column is two past the longest usage of any listed
      name, aliases included. */
  lemma HelpColumnSpec(reg: Registry, aliases: AliasTable)
    requires FirstFailure(reg, aliases, CommandList(reg, aliases)).None?
    ensures Resolvable(reg, aliases, CommandList(reg, aliases))
    ensures forall n :: n in CommandList(reg, aliases) ==> |UsageFor(reg, aliases, n).value| + 2 <= HelpColumn(reg, aliases)
    ensures CommandList(reg, aliases) != [] ==>
      exists n :: n in CommandList(reg, aliases) && |UsageFor(reg, aliases, n).value| + 2 == HelpColumn(reg, aliases)
  {
    FirstFailureSpec(reg, aliases, CommandList(reg, aliases));
    MaxUsageBound(reg, aliases, CommandList(reg, aliases));
    if CommandList(reg, aliases) != [] {
      MaxUsageAttained(reg, aliases, CommandList(reg, aliases));
    }
  }

  /** The usage of one listed name ends at least two columns before the
      docstring column. */
  lemma ColumnBound(reg: Registry, aliases: AliasTable, name: string)
    requires FirstFailure(reg, aliases, CommandList(reg, aliases)).None?
    requires name in CommandList(reg, aliases)
    ensures UsageFor(reg, aliases, name).Ok? && |UsageFor(reg, aliases, name).value| + 2 <= HelpColumn(reg, aliases)
  {
    MaxUsageBound(reg, aliases, CommandList(reg, aliases));
  }

  /** When every alias points at a registered command, listing the usages
      does not fail. */
  lemma WellFormedHelp(reg: Registry, aliases: AliasTable)
    requires WellFormed(reg, aliases)
    ensures FirstFailure(reg, aliases, CommandList(reg, aliases)).None?
  {
    WellFormedResolvable(reg, aliases);
    FirstFailureSpec(reg, aliases, CommandList(reg, aliases));
  }

  /** The layout of the help screen when every listed name finds its
      method: the header block, then one line per actual command in sorted
      order (aliases get no line of their own), each one's usage padded
      with spaces up to the docstring column of `HelpColumnSpec`, then its
      docstring. */
  lemma HelpLayout(reg: Registry, aliases: AliasTable, header: string)
    requires reg != []
    requires FirstFailure(reg, aliases, CommandList(reg, aliases)).None?
    ensures var out := HelpOutcome(reg, aliases, header);
      var commands := ActualCommandList(reg);
      && out.ending == Returned
      && |out.printed| == 3 + |reg|
      && out.printed[..3] == Header(header)
      && forall i :: 0 <= i < |commands| ==>
           GetCommand(reg, aliases, commands[i]).Ok? &&
           AlignedRow(out.printed[3 + i], UsageFor(reg, aliases, commands[i]).value, HelpColumn(reg, aliases),
                      DocText(GetCommand(reg, aliases, commands[i]).value.doc))
  {
    var commands := ActualCommandList(reg);
    SortSorted(commands);
    HelpOutcomeLines(reg, aliases, header);
    var w := HelpColumn(reg, aliases);
    var lines := HelpLines(reg, aliases, commands, w);
    var printed := Header(header) + lines;
    assert HelpOutcome(reg, aliases, header) == Outcome(printed, Returned);
    HelpLinesLength(reg, aliases, commands, w);
    assert |commands| == |reg| by {
      assert |multiset(commands)| == |multiset(Names(reg))|;
    }
    forall i | 0 <= i < |commands|
      ensures GetCommand(reg, aliases, commands[i]).Ok?
      ensures AlignedRow(printed[3 + i], UsageFor(reg, aliases, commands[i]).value, w,
                         DocText(GetCommand(reg, aliases, commands[i]).value.doc))
    {
      HelpRow(reg, aliases, i);
      assert printed[3 + i] == lines[i];
    }
  }

  /** The help line of the `i`-th actual command is aligned on the
      docstring column. */
  lemma HelpRow(reg: Registry, aliases: AliasTable, i: nat)
    requires FirstFailure(reg, aliases, CommandList(reg, aliases)).None?
    requires i < |ActualCommandList(reg)|
    ensures FirstFailure(reg, aliases, ActualCommandList(reg)).None?
    ensures var commands := ActualCommandList(reg);
      var w := HelpColumn(reg, aliases);
      && GetCommand(reg, aliases, commands[i]).Ok?
      && |HelpLines(reg, aliases, commands, w)| == |commands|
      && AlignedRow(HelpLines(reg, aliases, commands, w)[i], UsageFor(reg, aliases, commands[i]).value, w,
                    DocText(GetCommand(reg, aliases, commands[i]).value.doc))
  {
    var commands := ActualCommandList(reg);
    SortSorted(commands);
    SortedCommandsResolvable(reg, aliases);
    var w := HelpColumn(reg, aliases);
    assert commands[i] in CommandList(reg, aliases);
    ColumnBound(reg, aliases, commands[i]);
    RowAligned(reg, aliases, commands, w, i);
  }

  /** The `i`-th help line is aligned on any column past its usage. */
  lemma RowAligned(reg: Registry, aliases: AliasTable, names: seq<string>, width: nat, i: nat)
    requires FirstFailure(reg, aliases, names).None?
    requires i < |names|
    requires UsageFor(reg, aliases, names[i]).Ok? && |UsageFor(reg, aliases, names[i]).value| + 2 <= width
    ensures GetCommand(reg, aliases, names[i]).Ok?
    ensures |HelpLines(reg, aliases, names, width)| == |names|
    ensures AlignedRow(HelpLines(reg, aliases, names, width)[i], UsageFor(reg, aliases, names[i]).value, width,
                       DocText(GetCommand(reg, aliases, names[i]).value.doc))
  {
    HelpLinesAt(reg, aliases, names, width, i);
    PaddedRow(UsageFor(reg, aliases, names[i]).value, width, DocText(GetCommand(reg, aliases, names[i]).value.doc));
  }

  /** With a name that finds no method (a dangling alias), `do_help` prints
      only the header block and fails with that name's `AttributeError`. */
  lemma HelpDanglingAlias(reg: Registry, aliases: AliasTable, header: string)
    requires !Resolvable(reg, aliases, CommandList(reg, aliases))
    ensures HelpOutcome(reg, aliases, header).printed == Header(header)
    ensures HelpOutcome(reg, aliases, header).ending.Raised?
    ensures HelpOutcome(reg, aliases, header).ending.error.NoSuchAttribute?
  {
    var names := CommandList(reg, aliases);
    FirstFailureSpec(reg, aliases, names);
    var e := FirstFailure(reg, aliases, names).value;
    var n :| n in names && GetCommand(reg, aliases, n) == Err(e);
  }

  /** `do_quit`: raises `ExitPromptException` without printing. */
  function DoQuit(): Outcome
  {
    Outcome([], RaisedExit)
  }

  /** The help screen of an object with only the built-in commands: it
      returns normally, under the `Commands:` header, with one line for
      each of `help`, `history` and `quit`. */
  lemma BaseHelp(reg: Registry, aliases: AliasTable, header: string)
    requires reg == BaseRegistry && aliases == BaseAliases && header == DocHeader
    ensures var out := HelpOutcome(reg, aliases, header);
      && out.ending == Returned
      && |out.printed| == 6
      && out.printed[..3] == ["", "Commands:", "========="]
  {
    BaseWellFormed();
    WellFormedHelp(reg, aliases);
    var out := HelpOutcome(reg, aliases, header);
    HelpLayout(reg, aliases, header);
    assert |out.printed| == 3 + |reg|;
    BaseHeader();
  }

  lemma BaseWellFormed()
    ensures WellFormed(BaseRegistry, BaseAliases)
    ensures |BaseRegistry| == 3
  {
    assert Names(BaseRegistry)[0] == "help" && Names(BaseRegistry)[1] == "quit";
  }

  lemma BaseHeader()
    ensures Header(DocHeader) == ["", "Commands:", "========="]
  {
    var rule := Repeat('=', |DocHeader|);
    assert |rule| == 9 && forall k :: 0 <= k < 9 ==> rule[k] == '=';
    assert rule == "=========";
  }
}
