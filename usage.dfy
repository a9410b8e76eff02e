/** `_get_command_usage`: the one-line usage of a command, such as
    `help|?` or `add <a> [b=1]`. */
module Usage {
  import opened Text
  import opened Commands

  /** The keys of the aliases whose target is `command`, in table order
      (the `for alias in self.aliases` loop). */
  function AliasesTo(aliases: seq<Alias>, command: string): (r: seq<string>)
    requires DistinctKeys(aliases)
    ensures forall x :: x in r <==> Alias(x, command) in aliases
    ensures Distinct(r)
  {
    if aliases == [] then []
    else
      var init := aliases[..|aliases| - 1];
      var last := aliases[|aliases| - 1];
      assert aliases == init + [last];
      assert Alias(last.name, command) !in init by {
        forall a | a in init ensures a.name != last.name {
          var i :| 0 <= i < |init| && init[i] == a;
          assert aliases[i] == a;
        }
      }
      AliasesTo(init, command) + (if last.target == command then [last.name] else [])
  }

  /** The names shown before the parameters: the canonical name first, then
      every alias that points at it, sorted. */
  function UsageNames(aliases: AliasTable, command: string): (r: seq<string>)
    ensures r != [] && r[0] == Resolve(aliases, command)
    ensures Sorted(r[1..]) && Distinct(r[1..])
    ensures forall x :: x in r[1..] <==> Alias(x, Resolve(aliases, command)) in aliases
  {
    var canonical := Resolve(aliases, command);
    var aliasNames := AliasesTo(aliases, canonical);
    var sorted := SortStrings(aliasNames);
    assert forall x :: x in sorted <==> x in multiset(sorted);
    assert Distinct(sorted) by {
      forall x ensures multiset(sorted)[x] <= 1 {
        DistinctCount(aliasNames, x);
      }
      CountDistinct(sorted);
    }
    assert ([canonical] + sorted)[1..] == sorted;
    [canonical] + sorted
  }

  /** `" ".join(f"{open}{param}{close}" for param in params)`. */
  function Bracketed(open: char, close: char, params: seq<Param>): (r: seq<string>)
    ensures |r| == |params|
    ensures forall i :: 0 <= i < |r| ==> r[i] == [open] + Render(params[i]) + [close]
  {
    seq(|params|, i requires 0 <= i < |params| => [open] + Render(params[i]) + [close])
  }

  /** The usage string of `command` with required parameters `args` and
      optional parameters `kwargs`: names, `<required>` parts and
      `[optional]` parts, joined by single spaces and stripped at the ends. */
  function UsageOf(aliases: AliasTable, command: string, args: seq<Param>, kwargs: seq<Param>): string
  {
    Strip(Join("|", UsageNames(aliases, command)) + " "
          + Join(" ", Bracketed('<', '>', args)) + " "
          + Join(" ", Bracketed('[', ']', kwargs)))
  }

  /** `_get_command_usage`, building the list of names step by step. */
  method GetCommandUsage(aliases: AliasTable, command: string, args: seq<Param>, kwargs: seq<Param>)
    returns (usage: string)
    ensures usage == UsageOf(aliases, command, args, kwargs)
  {
    var canonical := command;
    if IsAlias(aliases, command) {
      canonical := AliasTarget(aliases, command).value;
    }
    var names: seq<string> := [];
    var i := 0;
    while i < |aliases|
      invariant 0 <= i <= |aliases|
      invariant names == AliasesTo(aliases[..i], canonical)
    {
      assert aliases[..i + 1][..i] == aliases[..i];
      if aliases[i].target == canonical {
        names := names + [aliases[i].name];
      }
      i := i + 1;
    }
    assert aliases[..i] == aliases;
    names := SortStrings(names);
    names := [canonical] + names;
    usage := Strip(Join("|", names) + " "
                   + Join(" ", Bracketed('<', '>', args)) + " "
                   + Join(" ", Bracketed('[', ']', kwargs)));
  }

  /** An alias yields exactly the usage of its target, as long as that
      target is not itself an alias (resolution is applied once). */
  lemma UsageOfAlias(aliases: AliasTable, al: Alias, args: seq<Param>, kwargs: seq<Param>)
    requires al in aliases && !IsAlias(aliases, al.target)
    ensures UsageOf(aliases, al.name, args, kwargs) == UsageOf(aliases, al.target, args, kwargs)
  {
    assert Resolve(aliases, al.name) == al.target == Resolve(aliases, al.target);
  }

  /** The joined `<...>` or `[...]` parts: empty exactly when there are no
      parameters, otherwise opening with `open` and closing with `close`. */
  lemma BracketedEnds(open: char, close: char, params: seq<Param>)
    ensures var s := Join(" ", Bracketed(open, close, params));
      (params == [] <==> s == []) && (s != [] ==> s[0] == open && s[|s| - 1] == close)
  {
    var parts := Bracketed(open, close, params);
    if parts != [] {
      JoinEnds(" ", parts);
      var s := Join(" ", parts);
      assert s[..|parts[0]|][0] == open;
      var last := parts[|parts| - 1];
      assert s[|s| - |last|..][|last| - 1] == close;
    }
  }

  /** The layout of a usage string whose names contain no whitespace (as
      Python identifiers do): names, then one space, the `<...>` parts, one
      space, the `[...]` parts, where stripping removes only what an empty
      trailing part leaves behind. In particular a command with optional but
      no required parameters keeps a double space. */
  lemma UsageLayout(aliases: AliasTable, command: string, args: seq<Param>, kwargs: seq<Param>)
    requires Resolve(aliases, command) != []
    requires forall x :: x in UsageNames(aliases, command) ==> SpaceFree(x)
    ensures var names := Join("|", UsageNames(aliases, command));
      var req := Join(" ", Bracketed('<', '>', args));
      var opt := Join(" ", Bracketed('[', ']', kwargs));
      var usage := UsageOf(aliases, command, args, kwargs);
      && (kwargs != [] ==> usage == names + " " + req + " " + opt)
      && (args == [] && kwargs != [] ==> usage == names + "  " + opt)
      && (args != [] && kwargs == [] ==> usage == names + " " + req)
      && (args == [] && kwargs == [] ==> usage == names)
  {
    var names := Join("|", UsageNames(aliases, command));
    NamesEnds(aliases, command);
    var req := Join(" ", Bracketed('<', '>', args));
    var opt := Join(" ", Bracketed('[', ']', kwargs));
    BracketedEnds('<', '>', args);
    BracketedEnds('[', ']', kwargs);
    StripLayout(names, req, opt);
  }

  /** The `|`-joined names start and end with a non-space. */
  lemma NamesEnds(aliases: AliasTable, command: string)
    requires Resolve(aliases, command) != []
    requires forall x :: x in UsageNames(aliases, command) ==> SpaceFree(x)
    ensures var names := Join("|", UsageNames(aliases, command));
      names != [] && !IsSpace(names[0]) && !IsSpace(names[|names| - 1])
  {
    var parts := UsageNames(aliases, command);
    JoinSpaceFree("|", parts);
    JoinEnds("|", parts);
    var names := Join("|", parts);
    assert names[..|parts[0]|][0] == parts[0][0];
  }

  lemma StripLayout(names: string, req: string, opt: string)
    requires names != [] && !IsSpace(names[0]) && !IsSpace(names[|names| - 1])
    requires req != [] ==> req[|req| - 1] == '>'
    requires opt != [] ==> opt[|opt| - 1] == ']'
    ensures var usage := Strip(names + " " + req + " " + opt);
      && (opt != [] ==> usage == names + " " + req + " " + opt)
      && (req == [] && opt != [] ==> usage == names + "  " + opt)
      && (req != [] && opt == [] ==> usage == names + " " + req)
      && (req == [] && opt == [] ==> usage == names)
  {
    var whole := names + " " + req + " " + opt;
    if opt != [] {
      assert whole[0] == names[0] && whole[|whole| - 1] == opt[|opt| - 1];
      assert whole + "" == whole;
      StripTrailingSpace(whole, "");
      if req == [] {
        assert whole == names + "  " + opt;
      }
    } else if req != [] {
      var t := names + " " + req;
      assert t[0] == names[0] && t[|t| - 1] == req[|req| - 1];
      assert whole == t + " ";
      StripTrailingSpace(t, " ");
    } else {
      assert whole == names + "  ";
      StripTrailingSpace(names, "  ");
    }
  }
}
