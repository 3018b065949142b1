/** What each pass does with an argument on its own: help and version, values that are options themselves,
    options given twice, values not wanted or missing, and spellings nobody knows. */
module CliMisuse {
  import opened Options
  import opened CliParser
  import opened CliRoundTrip

  // ------------------------------------------------------------------------------------------
  // Help and version.

  const HELP := {"--help", "-h"}

  const VERSION := {"--version", "-V"}

  /** The first pass records help and version by either spelling, refuses a value for them, and leaves every
      other spelling it does not know where it stands. */
  lemma HelpAndVersion(globals: Table, spelling: string, rest: seq<string>, values: map<string, Value>)
    requires Find(globals, spelling).None? && Spelling(spelling) == spelling && Inline(spelling).None? && spelling != "--"
    ensures var r := ParseGlobals(globals, [spelling] + rest, values);
            && (spelling in HELP ==>
                  r == if "--help" in values then Err(Twice("--help"))
                       else ParseGlobals(globals, rest, values["--help" := Present]))
            && (spelling in VERSION ==>
                  r == if "--version" in values then Err(Twice("--version"))
                       else ParseGlobals(globals, rest, values["--version" := Present]))
            && (spelling !in HELP && spelling !in VERSION ==>
                  r == Prepend([spelling], ParseGlobals(globals, rest, values)))
  {
    hide ParseGlobals, Spelling, Inline;
    var args := [spelling] + rest;
    GlobalStep(globals, args, values);
    assert args[1..] == rest;
  }

  lemma HelpTakesNoValue(globals: Table, spelling: string, value: string, rest: seq<string>, values: map<string, Value>)
    requires spelling in {"--help", "--version"} && Find(globals, spelling).None? && spelling !in values
    ensures ParseGlobals(globals, [spelling + "=" + value] + rest, values) == Err(NoValueAccepted(spelling))
  {
    hide ParseGlobals;
    var d := Definition(spelling, None, Flag);
    assert WellSpelled(d);
    InlineReads(d, value);
    hide Spelling, Inline;
    GlobalStep(globals, [spelling + "=" + value] + rest, values);
  }

  // ------------------------------------------------------------------------------------------
  // Global options.

  /** A value by itself that a global option does not take. */
  predicate NoValue(value: string) {
    value == "" || (|value| >= 2 && value[0] == '-' && value[1] == '-') || value == "-h" || value == "-V"
  }

  /** A global option with a value takes the next argument, unless that is empty or looks like an option of
      its own, or there is none. */
  lemma GlobalTakesNext(globals: Table, d: Definition, rest: seq<string>, values: map<string, Value>)
    requires ReadAsGlobal(globals, d) && !d.kind.Flag? && d.name !in values
    ensures var r := ParseGlobals(globals, [d.name] + rest, values);
            && (rest == [] || NoValue(rest[0]) ==> r == Err(RequiresValue(d.name)))
            && (rest != [] && !NoValue(rest[0]) ==>
                  r == ParseGlobals(globals, rest[1..], values[d.name := Given(rest[0])]))
  {
    hide ParseGlobals, FindGlobal;
    WrittenReads(Entry(true, d, SeparateForm, ""));
    hide Spelling, Inline, WellSpelled;
    var args := [d.name] + rest;
    GlobalStep(globals, args, values);
    if rest != [] { assert args[2..] == rest[1..]; }
  }

  /** After an equals sign it takes anything but nothing; a flag takes nothing at all. */
  lemma GlobalTakesInline(globals: Table, d: Definition, value: string, rest: seq<string>, values: map<string, Value>)
    requires ReadAsGlobal(globals, d) && d.name !in values
    ensures ParseGlobals(globals, [d.name + "=" + value] + rest, values) ==
            if d.kind.Flag? then Err(NoValueAccepted(d.name))
            else if value == "" then Err(RequiresValue(d.name))
            else ParseGlobals(globals, rest, values[d.name := Given(value)])
  {
    hide ParseGlobals, FindGlobal;
    InlineReads(d, value);
    hide Spelling, Inline, WellSpelled;
    var args := [d.name + "=" + value] + rest;
    GlobalStep(globals, args, values);
    assert args[1..] == rest;
  }

  /** No global option may be given twice, in any form. */
  lemma GlobalOnce(globals: Table, e: Entry, rest: seq<string>, values: map<string, Value>)
    requires ReadAsGlobal(globals, e.definition) && e.definition.name in values
    requires e.form.ShortForm? ==> e.definition.short.Some?
    ensures ParseGlobals(globals, Print(e) + rest, values) == Err(Twice(e.definition.name))
  {
    hide ParseGlobals, FindGlobal;
    WrittenReads(e);
    InlineReads(e.definition, e.value);
    hide Spelling, Inline, WellSpelled;
    GlobalStep(globals, Print(e) + rest, values);
  }

  // ------------------------------------------------------------------------------------------
  // Options of the command.

  /** A value by itself that an option of the command does not take, once the first pass has let it through. */
  predicate NoCommandValue(value: string) {
    value == "" || (|value| >= 2 && value[0] == '-' && value[1] == '-')
  }

  lemma CommandTakesNext(
    table: Table, d: Definition, rest: seq<string>, positionals: seq<string>, values: map<string, seq<Value>>)
    requires WellSpelled(d) && Find(table, d.name) == Some(d) && !d.kind.Flag?
    requires d.name in values ==> d.kind.Repeatable?
    ensures var r := ParseCommand(table, [d.name] + rest, positionals, values);
            && (rest == [] || NoCommandValue(rest[0]) ==> r == Err(RequiresValue(d.name)))
            && (rest != [] && !NoCommandValue(rest[0]) ==>
                  r == ParseCommand(table, rest[1..], positionals,
                                    values[d.name := (if d.name in values then values[d.name] else []) + [Given(rest[0])]]))
  {
    hide ParseCommand, Find;
    WrittenReads(Entry(false, d, SeparateForm, ""));
    hide Spelling, Inline, WellSpelled, IsPositional;
    var args := [d.name] + rest;
    CommandStep(table, args, positionals, values);
    if rest != [] { assert args[2..] == rest[1..]; }
  }

  lemma CommandTakesInline(
    table: Table, d: Definition, value: string, rest: seq<string>, positionals: seq<string>,
    values: map<string, seq<Value>>)
    requires WellSpelled(d) && Find(table, d.name) == Some(d) && (d.name in values ==> d.kind.Repeatable?)
    ensures ParseCommand(table, [d.name + "=" + value] + rest, positionals, values) ==
            if d.kind.Flag? then Err(NoValueAccepted(d.name))
            else if value == "" then Err(RequiresValue(d.name))
            else ParseCommand(table, rest, positionals,
                              values[d.name := (if d.name in values then values[d.name] else []) + [Given(value)]])
  {
    hide ParseCommand, Find;
    InlineReads(d, value);
    hide Spelling, Inline, WellSpelled, IsPositional;
    var args := [d.name + "=" + value] + rest;
    CommandStep(table, args, positionals, values);
    assert args[1..] == rest;
  }

  /** An option of the command may be given twice only if it is repeatable. */
  lemma CommandOnce(
    table: Table, e: Entry, rest: seq<string>, positionals: seq<string>, values: map<string, seq<Value>>)
    requires WellSpelled(e.definition) && Find(table, e.definition.name) == Some(e.definition)
    requires e.definition.short.Some? ==> Find(table, e.definition.short.value) == Some(e.definition)
    requires e.definition.name in values && !e.definition.kind.Repeatable?
    ensures ParseCommand(table, Print(e) + rest, positionals, values) == Err(Twice(e.definition.name))
  {
    hide ParseCommand, Find;
    WrittenReads(e);
    InlineReads(e.definition, e.value);
    hide Spelling, Inline, WellSpelled, IsPositional;
    CommandStep(table, Print(e) + rest, positionals, values);
  }

  /** What starts with a dash and has more to it is an option, known or refused; a dash alone and everything
      else is positional, and so is all that follows `--`. */
  lemma UnknownIsRefused(
    table: Table, argument: string, rest: seq<string>, positionals: seq<string>, values: map<string, seq<Value>>)
    ensures argument != "--" && |argument| >= 2 && argument[0] == '-' && Find(table, Spelling(argument)).None? ==>
              ParseCommand(table, [argument] + rest, positionals, values) == Err(UnknownOption(Spelling(argument)))
    ensures argument == "-" || argument == "" || argument[0] != '-' ==>
              ParseCommand(table, [argument] + rest, positionals, values) ==
              ParseCommand(table, rest, positionals + [argument], values)
    ensures argument == "--" ==>
              ParseCommand(table, [argument] + rest, positionals, values) == Ok(Arguments(positionals + rest, values))
  {
    hide ParseCommand, Find, Spelling, Inline;
    var args := [argument] + rest;
    assert args[1..] == rest;
    if argument == "--" {
      TerminatorReads(table, rest, positionals, values);
    } else {
      CommandStep(table, args, positionals, values);
    }
  }

  lemma TerminatorReads(table: Table, rest: seq<string>, positionals: seq<string>, values: map<string, seq<Value>>)
    ensures ParseCommand(table, ["--"] + rest, positionals, values) == Ok(Arguments(positionals + rest, values))
  {
    assert (["--"] + rest)[1..] == rest;
  }

  /** The spelling of an argument is what comes before the first equals sign of a long option, else all of it. */
  lemma SpellingExactly(argument: string, name: string, value: string)
    ensures |argument| < 2 || argument[..2] != "--" ==> Spelling(argument) == argument && Inline(argument).None?
    ensures '=' !in argument ==> Spelling(argument) == argument && Inline(argument).None?
    ensures argument == name + "=" + value && '=' !in name && |name| >= 2 && name[..2] == "--" ==>
              Spelling(argument) == name && Inline(argument) == Some(value)
  {
    if '=' !in argument && |argument| >= 2 { EqualsAfter(argument, ""); }
    if argument == name + "=" + value && '=' !in name && |name| >= 2 && name[..2] == "--" {
      EqualsAfter(name, value);
      assert argument[..2] == name[..2] && argument[..|name|] == name && argument[|name| + 1..] == value;
    }
  }
}
