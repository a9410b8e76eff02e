/** The command registry of `PromptToolkitCmd`: the `do_<name>` methods found
    by reflection, the alias table, alias resolution (`_get_command`), the
    required/optional split of a signature (`_get_command_args`), the two
    command lists and the per-command completer map (`_make_completer`).

    Reflection is replaced by an explicit registry: one declaration per
    `do_<name>` method, holding its parameters as `inspect.signature`
    reports them (without `self`) and its docstring. */
module Commands {
  import opened Text

  datatype Option<T> = None | Some(value: T)

  /** The exceptions the command layer raises or passes through. */
  datatype Error =
    | NoSuchAttribute(attr: string)   // `getattr(self, "do_" + name)` found nothing
    | Failure(message: string)        // any other exception, by its `str(...)`

  datatype Result<T> = Ok(value: T) | Err(error: Error)

  /** How a command handler ended: it returned, raised `ExitPromptException`,
      was cancelled (`asyncio.CancelledError`), or raised another exception. */
  datatype Ending = Returned | RaisedExit | Cancelled | Raised(error: Error)

  /** What running a handler did: the lines it printed, then how it ended. */
  datatype Outcome = Outcome(printed: seq<string>, ending: Ending)

  /** A parameter of a command method. A default value is kept as the text
      `repr` gives it, an annotation as the text `inspect` prints for it. */
  datatype Param =
    | Named(name: string, annotation: Option<string>, default: Option<string>)
    | VarPositional(name: string, annotation: Option<string>)   // *name
    | VarKeyword(name: string, annotation: Option<string>)      // **name

  /** `param.default != param.empty`: only an ordinary parameter can carry a
      default; `*args` and `**kwargs` never do. */
  predicate HasDefault(p: Param)
  {
    p.Named? && p.default.Some?
  }

  /** `str(param)`, which is what `"<{arg}>"` and `"[{kwarg}]"` format. */
  function Render(p: Param): string
  {
    var annotated := p.name + (if p.annotation.Some? then ": " + p.annotation.value else "");
    match p
    case Named(_, annotation, default) =>
      annotated + (if default.None? then ""
                   else if annotation.Some? then " = " + default.value
                   else "=" + default.value)
    case VarPositional(_, _) => "*" + annotated
    case VarKeyword(_, _) => "**" + annotated
  }

  /** One `do_<name>` method: the command name, its parameters in
      declaration order and its docstring (`__doc__`, possibly `None`). */
  datatype CommandDecl = CommandDecl(name: string, params: seq<Param>, doc: Option<string>)

  predicate DistinctNames(decls: seq<CommandDecl>)
  {
    forall i, j :: 0 <= i < j < |decls| ==> decls[i].name != decls[j].name
  }

  /** The commands of one object; attribute names are unique. */
  type Registry = decls: seq<CommandDecl> | DistinctNames(decls) witness []

  /** One entry `name: target` of the `aliases` dictionary. */
  datatype Alias = Alias(name: string, target: string)

  predicate DistinctKeys(aliases: seq<Alias>)
  {
    forall i, j :: 0 <= i < j < |aliases| ==> aliases[i].name != aliases[j].name
  }

  /** The `aliases` dictionary, in insertion order; keys are unique. */
  type AliasTable = aliases: seq<Alias> | DistinctKeys(aliases) witness []

  /** The prefix that marks a command method. */
  const AttrStart := "do_"

  /** The commands every `PromptToolkitCmd` has. */
  const BaseRegistry: Registry := [
    CommandDecl("help", [], Some("Print commands usage")),
    CommandDecl("quit", [], Some("Exit the prompt")),
    CommandDecl("history", [], Some("Print commands history"))
  ]

  /** The class attribute `aliases = {"?": "help", "exit": "quit"}`. */
  const BaseAliases: AliasTable := [Alias("?", "help"), Alias("exit", "quit")]

  function Names(decls: seq<CommandDecl>): seq<string>
  {
    seq(|decls|, i requires 0 <= i < |decls| => decls[i].name)
  }

  function AliasKeys(aliases: seq<Alias>): seq<string>
  {
    seq(|aliases|, i requires 0 <= i < |aliases| => aliases[i].name)
  }

  predicate IsAlias(aliases: seq<Alias>, name: string)
  {
    exists al :: al in aliases && al.name == name
  }

  /** `getattr(self, "do_" + name)` on the registry. */
  function Find(decls: seq<CommandDecl>, name: string): (r: Option<CommandDecl>)
    ensures r.Some? <==> name in Names(decls)
    ensures r.Some? ==> r.value in decls && r.value.name == name
  {
    if decls == [] then None
    else
      assert Names(decls) == [decls[0].name] + Names(decls[1..]);
      if decls[0].name == name then Some(decls[0]) else Find(decls[1..], name)
  }

  /** `aliases[name]` when `name in aliases`. */
  function AliasTarget(aliases: seq<Alias>, name: string): (r: Option<string>)
    ensures r.Some? <==> IsAlias(aliases, name)
    ensures r.Some? ==> Alias(name, r.value) in aliases
  {
    if aliases == [] then None
    else if aliases[0].name == name then Some(aliases[0].target)
    else
      assert forall al :: al in aliases[1..] ==> al in aliases;
      assert forall al :: al in aliases && al != aliases[0] ==> al in aliases[1..];
      AliasTarget(aliases[1..], name)
  }

  /** Alias resolution as `_get_command` does it: one lookup, never
      repeated, so an alias whose target is itself an alias resolves to that
      second alias's name, and a name that is no alias stays as it is. */
  function Resolve(aliases: AliasTable, name: string): (r: string)
    ensures !IsAlias(aliases, name) ==> r == name
    ensures forall al :: al in aliases && al.name == name ==> r == al.target
  {
    match AliasTarget(aliases, name)
    case Some(target) => target
    case None => name
  }

  /** `_get_command`: resolve the alias, then look up the method. */
  function GetCommand(reg: Registry, aliases: AliasTable, name: string): (r: Result<CommandDecl>)
    ensures r.Ok? <==> Resolve(aliases, name) in Names(reg)
    ensures r.Ok? ==> r.value in reg && r.value.name == Resolve(aliases, name)
    ensures r.Err? ==> r.error == NoSuchAttribute(AttrStart + Resolve(aliases, name))
  {
    var command := Resolve(aliases, name);
    match Find(reg, command)
    case Some(decl) => Ok(decl)
    case None => Err(NoSuchAttribute(AttrStart + command))
  }

  /** The parameters without a default, in declaration order. */
  function Required(params: seq<Param>): seq<Param>
  {
    if params == [] then []
    else (if HasDefault(params[0]) then [] else [params[0]]) + Required(params[1..])
  }

  /** The parameters with a default, in declaration order. */
  function Optional(params: seq<Param>): seq<Param>
  {
    if params == [] then []
    else (if HasDefault(params[0]) then [params[0]] else []) + Optional(params[1..])
  }

  /** The required parameters are those without a default, the optional
      ones those with one. */
  lemma {:induction false} SplitMembers(params: seq<Param>)
    ensures forall p :: p in Required(params) <==> p in params && !HasDefault(p)
    ensures forall p :: p in Optional(params) <==> p in params && HasDefault(p)
  {
    if params != [] {
      SplitMembers(params[1..]);
      assert params == [params[0]] + params[1..];
    }
  }

  /** Appending a parameter to a signature appends it to exactly one of the
      two lists, at its end. With `Required([]) == Optional([]) == []` this
      determines both lists: they partition the signature and each keeps
      declaration order. */
  lemma SplitAppend(params: seq<Param>, p: Param)
    ensures Required(params + [p]) == Required(params) + (if HasDefault(p) then [] else [p])
    ensures Optional(params + [p]) == Optional(params) + (if HasDefault(p) then [p] else [])
  {
    RequiredAppend(params, p);
    OptionalAppend(params, p);
  }

  lemma {:induction false} RequiredAppend(params: seq<Param>, p: Param)
    ensures Required(params + [p]) == Required(params) + (if HasDefault(p) then [] else [p])
  {
    if params == [] {
      assert params + [p] == [p];
    } else {
      var q := params + [p];
      assert q[0] == params[0] && q[1..] == params[1..] + [p];
      RequiredAppend(params[1..], p);
      var head := if HasDefault(params[0]) then [] else [params[0]];
      var tail := if HasDefault(p) then [] else [p];
      assert Required(q) == head + (Required(params[1..]) + tail);
      assert head + (Required(params[1..]) + tail) == (head + Required(params[1..])) + tail;
    }
  }

  lemma {:induction false} OptionalAppend(params: seq<Param>, p: Param)
    ensures Optional(params + [p]) == Optional(params) + (if HasDefault(p) then [p] else [])
  {
    if params == [] {
      assert params + [p] == [p];
    } else {
      var q := params + [p];
      assert q[0] == params[0] && q[1..] == params[1..] + [p];
      OptionalAppend(params[1..], p);
      var head := if HasDefault(params[0]) then [params[0]] else [];
      var tail := if HasDefault(p) then [p] else [];
      assert Optional(q) == head + (Optional(params[1..]) + tail);
      assert head + (Optional(params[1..]) + tail) == (head + Optional(params[1..])) + tail;
    }
  }

  /** The two lists together hold every parameter exactly as often as the
      signature does. */
  lemma {:induction false} SplitPartitions(params: seq<Param>)
    ensures |Required(params)| + |Optional(params)| == |params|
    ensures multiset(Required(params)) + multiset(Optional(params)) == multiset(params)
  {
    if params != [] {
      SplitPartitions(params[1..]);
      assert params == [params[0]] + params[1..];
    }
  }

  /** The result of `_get_command_args`: `(args, kwargs)`. */
  datatype Signature = Signature(required: seq<Param>, optional: seq<Param>)

  /** `_get_command_args`: the resolved command's required and optional
      parameters; fails as `_get_command` does. */
  function GetCommandArgs(reg: Registry, aliases: AliasTable, name: string): (r: Result<Signature>)
    ensures r.Ok? <==> GetCommand(reg, aliases, name).Ok?
    ensures r.Err? ==> r.error == GetCommand(reg, aliases, name).error
    ensures r.Ok? ==> r.value == Signature(Required(GetCommand(reg, aliases, name).value.params),
                                           Optional(GetCommand(reg, aliases, name).value.params))
  {
    match GetCommand(reg, aliases, name)
    case Ok(decl) => Ok(Signature(Required(decl.params), Optional(decl.params)))
    case Err(e) => Err(e)
  }

  /** `actual_command_list`: the names of the `do_` methods, in the sorted
      order `dir` lists them. */
  function ActualCommandList(reg: Registry): (r: seq<string>)
    ensures Sorted(r) && Distinct(r)
    ensures multiset(r) == multiset(Names(reg))
    ensures forall x :: x in r <==> x in Names(reg)
  {
    var r := SortStrings(Names(reg));
    assert Distinct(Names(reg));
    forall x ensures multiset(r)[x] <= 1 {
      DistinctCount(Names(reg), x);
    }
    CountDistinct(r);
    assert forall x :: x in r <==> x in multiset(r);
    r
  }

  /** `command_list`: the actual commands followed by the alias keys. */
  function CommandList(reg: Registry, aliases: AliasTable): (r: seq<string>)
    ensures forall x :: x in r <==> x in Names(reg) || IsAlias(aliases, x)
  {
    assert forall x :: x in AliasKeys(aliases) <==> IsAlias(aliases, x) by {
      forall x ensures x in AliasKeys(aliases) <==> IsAlias(aliases, x) {
        if IsAlias(aliases, x) {
          var al :| al in aliases && al.name == x;
          var i :| 0 <= i < |aliases| && aliases[i] == al;
          assert AliasKeys(aliases)[i] == x;
        }
      }
    }
    ActualCommandList(reg) + AliasKeys(aliases)
  }

  /** Every alias names a registered command. The source does not check
      this; a dangling alias only fails when it is used. */
  predicate WellFormed(reg: Registry, aliases: AliasTable)
  {
    forall al :: al in aliases ==> al.target in Names(reg)
  }

  /** A name passes the `args[0] in self.command_list` test and then finds
      its method exactly when it is listed, provided no alias dangles. */
  lemma Dispatchable(reg: Registry, aliases: AliasTable, name: string)
    requires WellFormed(reg, aliases)
    ensures name in CommandList(reg, aliases) <==> GetCommand(reg, aliases, name).Ok?
  {
    if IsAlias(aliases, name) {
      var al :| al in aliases && al.name == name;
      assert Resolve(aliases, name) == al.target;
    }
  }

  /** Whether every listed name finds its method. */
  predicate Resolvable(reg: Registry, aliases: AliasTable, names: seq<string>)
  {
    forall n :: n in names ==> GetCommand(reg, aliases, n).Ok?
  }

  /** Well-formedness is exactly "every listed name finds its method". */
  lemma WellFormedResolvable(reg: Registry, aliases: AliasTable)
    ensures WellFormed(reg, aliases) <==> Resolvable(reg, aliases, CommandList(reg, aliases))
  {
    if WellFormed(reg, aliases) {
      forall n | n in CommandList(reg, aliases) ensures GetCommand(reg, aliases, n).Ok? {
        Dispatchable(reg, aliases, n);
      }
    }
    if Resolvable(reg, aliases, CommandList(reg, aliases)) {
      forall al | al in aliases ensures al.target in Names(reg) {
        assert al.name in CommandList(reg, aliases);
        assert Resolve(aliases, al.name) == al.target;
      }
    }
  }

  /** A completer for one command: `WordCompleter(words)`, or whatever a
      `_<name>_completions` method returns, known by a tag. */
  datatype Completer = WordCompleter(words: seq<string>) | Provided(tag: string)

  /** `_make_completer` with `_completer_for_command`: one entry per listed
      name. `providers` holds the result of each `_<name>_completions`
      method there is, keyed by `<name>`. */
  function MakeCompleter(reg: Registry, aliases: AliasTable, providers: map<string, Completer>): (m: map<string, Completer>)
    ensures m.Keys == set x | x in CommandList(reg, aliases)
    ensures forall x :: x in m && x in providers ==> m[x] == providers[x]
    ensures forall x :: x in m && x !in providers ==> m[x] == WordCompleter([])
  {
    map x | x in CommandList(reg, aliases) :: if x in providers then providers[x] else WordCompleter([])
  }

  /** The provider is looked up by the name as listed, so an alias does not
      share its target's completer: without a provider of its own it offers
      no suggestions. */
  lemma AliasCompleterNotInherited(reg: Registry, aliases: AliasTable, providers: map<string, Completer>, al: Alias)
    requires al in aliases && al.name !in providers
    ensures al.name in MakeCompleter(reg, aliases, providers)
    ensures MakeCompleter(reg, aliases, providers)[al.name] == WordCompleter([])
  {
    assert al.name in CommandList(reg, aliases);
  }
}
