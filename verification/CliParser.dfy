/** Command-line parsing in two passes: global options are taken out wherever they stand before `--`, then
    the command reads what remains. */
module CliParser {
  import opened Options

  datatype Kind = Flag | Single | Repeatable

  datatype Definition = Definition(name: string, short: Option<string>, kind: Kind)

  type Table = seq<Definition>

  datatype Value = Given(value: string) | Present

  datatype UsageError =
    | Twice(name: string)
    | NoValueAccepted(name: string)
    | RequiresValue(name: string)
    | UnknownOption(spelling: string)

  datatype Result<+T> = Ok(value: T) | Err(error: UsageError)

  /** What the first pass leaves for the command, and the global options it took. */
  datatype Globals = Globals(remaining: seq<string>, values: map<string, Value>)

  datatype Arguments = Arguments(positionals: seq<string>, values: map<string, seq<Value>>)

  // ------------------------------------------------------------------------------------------
  // Spellings.

  predicate StartsWith(s: string, prefix: string) {
    |prefix| <= |s| && s[..|prefix|] == prefix
  }

  /** Offset of the first equals sign, or the length. */
  function Equals(s: string): (i: nat)
    ensures i <= |s| && (i < |s| ==> s[i] == '=') && forall j :: 0 <= j < i ==> s[j] != '='
  {
    if s == [] || s[0] == '=' then 0 else 1 + Equals(s[1..])
  }

  function Spelling(argument: string): string {
    if StartsWith(argument, "--") then argument[..Equals(argument)] else argument
  }

  function Inline(argument: string): Option<string> {
    if StartsWith(argument, "--") && Equals(argument) < |argument|
    then Some(argument[Equals(argument) + 1..]) else None
  }

  predicate Spelled(d: Definition, spelling: string) {
    d.name == spelling || d.short == Some(spelling)
  }

  function Find(table: Table, spelling: string): Option<Definition> {
    if table == [] then None
    else if Spelled(table[0], spelling) then Some(table[0])
    else Find(table[1..], spelling)
  }

  function Special(spelling: string): Option<Definition> {
    if spelling == "--help" || spelling == "-h" then Some(Definition("--help", Some("-h"), Flag))
    else if spelling == "--version" || spelling == "-V" then Some(Definition("--version", Some("-V"), Flag))
    else None
  }

  /** What the first pass recognises. */
  function FindGlobal(globals: Table, spelling: string): Option<Definition> {
    if Find(globals, spelling).Some? then Find(globals, spelling) else Special(spelling)
  }

  predicate LooksLikeOption(value: string) {
    StartsWith(value, "--") || value == "-h" || value == "-V"
  }

  // ------------------------------------------------------------------------------------------
  // The passes.

  function ValueAt(args: seq<string>): Option<string>
    requires args != []
  {
    if Inline(args[0]).Some? then Inline(args[0]) else if |args| > 1 then Some(args[1]) else None
  }

  /** Arguments an option with a value takes up. */
  function Width(argument: string): nat {
    if Inline(argument).Some? then 1 else 2
  }

  predicate GlobalValueMissing(args: seq<string>)
    requires args != []
  {
    var value := ValueAt(args);
    value.None? || value.value == "" || (Inline(args[0]).None? && LooksLikeOption(value.value))
  }

  function ParseGlobals(globals: Table, args: seq<string>, values: map<string, Value>): Result<Globals>
    decreases |args|
  {
    if args == [] || args[0] == "--" then Ok(Globals(args, values))
    else
      var definition := FindGlobal(globals, Spelling(args[0]));
      if definition.None? then Keep(args[0], ParseGlobals(globals, args[1..], values))
      else
        var name := definition.value.name;
        if name in values then Err(Twice(name))
        else if definition.value.kind.Flag? then
          if Inline(args[0]).Some? then Err(NoValueAccepted(name))
          else ParseGlobals(globals, args[1..], values[name := Present])
        else if GlobalValueMissing(args) then Err(RequiresValue(name))
        else ParseGlobals(globals, args[Width(args[0])..], values[name := Given(ValueAt(args).value)])
  }

  function Keep(argument: string, rest: Result<Globals>): Result<Globals> {
    if rest.Err? then rest else Ok(rest.value.(remaining := [argument] + rest.value.remaining))
  }

  function Existing(values: map<string, seq<Value>>, name: string): seq<Value> {
    if name in values then values[name] else []
  }

  predicate ValueMissing(args: seq<string>)
    requires args != []
  {
    var value := ValueAt(args);
    value.None? || value.value == "" || (Inline(args[0]).None? && StartsWith(value.value, "--"))
  }

  predicate IsPositional(argument: string) {
    !StartsWith(argument, "-") || argument == "-"
  }

  function ParseCommand(
    table: Table, args: seq<string>, positionals: seq<string>, values: map<string, seq<Value>>): Result<Arguments>
    decreases |args|
  {
    if args == [] then Ok(Arguments(positionals, values))
    else if args[0] == "--" then Ok(Arguments(positionals + args[1..], values))
    else if IsPositional(args[0]) then ParseCommand(table, args[1..], positionals + [args[0]], values)
    else
      var definition := Find(table, Spelling(args[0]));
      if definition.None? then Err(UnknownOption(Spelling(args[0])))
      else
        var d := definition.value;
        if d.name in values && !d.kind.Repeatable? then Err(Twice(d.name))
        else if d.kind.Flag? then
          if Inline(args[0]).Some? then Err(NoValueAccepted(d.name))
          else ParseCommand(table, args[1..], positionals, values[d.name := [Present]])
        else if ValueMissing(args) then Err(RequiresValue(d.name))
        else
          ParseCommand(table, args[Width(args[0])..], positionals,
                       values[d.name := Existing(values, d.name) + [Given(ValueAt(args).value)]])
  }

  datatype Parsed = Parsed(globals: map<string, Value>, arguments: Arguments)

  /** Both passes. */
  function Parse(globals: Table, command: Table, args: seq<string>): Result<Parsed> {
    var first := ParseGlobals(globals, args, map[]);
    if first.Err? then Err(first.error)
    else
      var second := ParseCommand(command + globals, first.value.remaining, [], map[]);
      if second.Err? then Err(second.error) else Ok(Parsed(first.value.values, second.value))
  }

  // ------------------------------------------------------------------------------------------
  // The loops of the source.

  /** Where the loop is: `remaining` and `values` are taken, `argv[index..]` is still to be read. */
  ghost predicate Reached(
    globals: Table, argv: seq<string>, index: nat, terminated: bool, remaining: seq<string>, values: map<string, Value>)
  {
    index <= |argv| &&
      ParseGlobals(globals, argv, map[]) ==
      if terminated then Ok(Globals(remaining + argv[index..], values))
      else Prepend(remaining, ParseGlobals(globals, argv[index..], values))
  }

  function Prepend(front: seq<string>, r: Result<Globals>): Result<Globals> {
    if r.Err? then r else Ok(r.value.(remaining := front + r.value.remaining))
  }

  lemma ReachStart(globals: Table, argv: seq<string>)
    ensures Reached(globals, argv, 0, false, [], map[])
  {
    assert argv[0..] == argv;
    var r := ParseGlobals(globals, argv, map[]);
    if r.Ok? { assert [] + r.value.remaining == r.value.remaining; }
  }

  lemma ReachTerminated(
    globals: Table, argv: seq<string>, index: nat, terminated: bool, remaining: seq<string>, values: map<string, Value>)
    requires Reached(globals, argv, index, terminated, remaining, values) && index < |argv|
    requires terminated || argv[index] == "--"
    ensures Reached(globals, argv, index + 1, true, remaining + [argv[index]], values)
  {
    assert remaining + argv[index..] == remaining + [argv[index]] + argv[index + 1..];
  }

  lemma ReachOther(
    globals: Table, argv: seq<string>, index: nat, remaining: seq<string>, values: map<string, Value>)
    requires Reached(globals, argv, index, false, remaining, values) && index < |argv| && argv[index] != "--"
    requires FindGlobal(globals, Spelling(argv[index])).None?
    ensures Reached(globals, argv, index + 1, false, remaining + [argv[index]], values)
  {
    var args := argv[index..];
    GlobalStep(globals, args, values);
    hide ParseGlobals, FindGlobal, Spelling;
    assert args[1..] == argv[index + 1..];
    var r := ParseGlobals(globals, args[1..], values);
    if r.Ok? {
      assert remaining + ([argv[index]] + r.value.remaining) == remaining + [argv[index]] + r.value.remaining;
    }
  }

  /** The outcome of a global option: an error, or a value and the arguments it takes up. */
  function TakeGlobal(d: Definition, args: seq<string>, values: map<string, Value>): Result<(Value, nat)>
    requires args != []
  {
    if d.name in values then Err(Twice(d.name))
    else if d.kind.Flag? then if Inline(args[0]).Some? then Err(NoValueAccepted(d.name)) else Ok((Present, 1))
    else if GlobalValueMissing(args) then Err(RequiresValue(d.name))
    else Ok((Given(ValueAt(args).value), Width(args[0])))
  }

  lemma ReachGlobal(
    globals: Table, argv: seq<string>, index: nat, remaining: seq<string>, values: map<string, Value>)
    requires Reached(globals, argv, index, false, remaining, values) && index < |argv| && argv[index] != "--"
    requires FindGlobal(globals, Spelling(argv[index])).Some?
    ensures var d := FindGlobal(globals, Spelling(argv[index])).value;
            var taken := TakeGlobal(d, argv[index..], values);
            if taken.Err? then ParseGlobals(globals, argv, map[]) == Err(taken.error)
            else Reached(globals, argv, index + taken.value.1, false, remaining, values[d.name := taken.value.0])
  {
    var args := argv[index..];
    GlobalStep(globals, args, values);
    hide ParseGlobals, FindGlobal, Spelling, Inline, GlobalValueMissing;
    assert args[1..] == argv[index + 1..];
    if |args| > 1 { assert args[2..] == argv[index + 2..]; }
    assert !GlobalValueMissing(args) ==> Width(args[0]) <= |args| by { ValueTakesUp(args); }
  }

  lemma ValueTakesUp(args: seq<string>)
    requires args != []
    ensures ValueAt(args).Some? ==> Width(args[0]) <= |args|
    ensures !GlobalValueMissing(args) || !ValueMissing(args) ==> ValueAt(args).Some?
  {
  }

  lemma ReachEnd(
    globals: Table, argv: seq<string>, terminated: bool, remaining: seq<string>, values: map<string, Value>)
    requires Reached(globals, argv, |argv|, terminated, remaining, values)
    ensures ParseGlobals(globals, argv, map[]) == Ok(Globals(remaining, values))
  {
    assert remaining + argv[|argv|..] == remaining;
  }

  lemma AtIndex(argv: seq<string>, index: nat)
    requires index < |argv|
    ensures argv[index..] != [] && argv[index..][0] == argv[index]
    ensures ValueAt(argv[index..]) ==
            if Inline(argv[index]).Some? then Inline(argv[index])
            else if index + 1 < |argv| then Some(argv[index + 1]) else None
  {
  }

  method ParseGlobalOptions(globals: Table, argv: seq<string>) returns (r: Result<Globals>)
    ensures r == ParseGlobals(globals, argv, map[])
  {
    hide ParseGlobals, FindGlobal, Inline, Spelling, LooksLikeOption, Reached, ValueAt;
    var remaining: seq<string> := [];
    var values: map<string, Value> := map[];
    var terminated := false;
    var index := 0;
    ReachStart(globals, argv);
    while index < |argv|
      invariant index <= |argv| && Reached(globals, argv, index, terminated, remaining, values)
      decreases |argv| - index
    {
      var argument := argv[index];
      AtIndex(argv, index);
      if terminated || argument == "--" {
        ReachTerminated(globals, argv, index, terminated, remaining, values);
        terminated := true;
        remaining := remaining + [argument];
        index := index + 1;
        continue;
      }
      var definition := FindGlobal(globals, Spelling(argument));
      if definition.None? {
        ReachOther(globals, argv, index, remaining, values);
        remaining := remaining + [argument];
        index := index + 1;
        continue;
      }
      ReachGlobal(globals, argv, index, remaining, values);
      var name := definition.value.name;
      if name in values {
        return Err(Twice(name));
      }
      var inline := Inline(argument);
      if definition.value.kind.Flag? {
        if inline.Some? {
          return Err(NoValueAccepted(name));
        }
        values := values[name := Present];
        index := index + 1;
        continue;
      }
      var value := if inline.Some? then inline else if index + 1 < |argv| then Some(argv[index + 1]) else None;
      if value.None? || value.value == "" || (inline.None? && LooksLikeOption(value.value)) {
        return Err(RequiresValue(name));
      }
      values := values[name := Given(value.value)];
      index := index + if inline.None? then 2 else 1;
    }
    ReachEnd(globals, argv, terminated, remaining, values);
    r := Ok(Globals(remaining, values));
  }

  lemma GlobalStep(globals: Table, args: seq<string>, values: map<string, Value>)
    requires args != [] && args[0] != "--"
    ensures var definition := FindGlobal(globals, Spelling(args[0]));
            ParseGlobals(globals, args, values) ==
            if definition.None? then Keep(args[0], ParseGlobals(globals, args[1..], values))
            else if definition.value.name in values then Err(Twice(definition.value.name))
            else if definition.value.kind.Flag? then
              if Inline(args[0]).Some? then Err(NoValueAccepted(definition.value.name))
              else ParseGlobals(globals, args[1..], values[definition.value.name := Present])
            else if GlobalValueMissing(args) then Err(RequiresValue(definition.value.name))
            else ParseGlobals(globals, args[Width(args[0])..],
                              values[definition.value.name := Given(ValueAt(args).value)])
  {
  }

  method ParseCommandArguments(table: Table, args: seq<string>) returns (r: Result<Arguments>)
    ensures r == ParseCommand(table, args, [], map[])
  {
    hide Find, Spelling, Inline, StartsWith, IsPositional;
    var positionals: seq<string> := [];
    var values: map<string, seq<Value>> := map[];
    var terminated := false;
    var index := 0;
    assert args[0..] == args;
    while index < |args|
      invariant index <= |args|
      invariant !terminated ==>
        ParseCommand(table, args, [], map[]) == ParseCommand(table, args[index..], positionals, values)
      invariant terminated ==>
        ParseCommand(table, args, [], map[]) == Ok(Arguments(positionals + args[index..], values))
      decreases |args| - index
    {
      var argument := args[index];
      ghost var rest := args[index..];
      assert rest[1..] == args[index + 1..];
      if terminated {
        assert positionals + rest == positionals + [argument] + args[index + 1..];
        positionals := positionals + [argument];
        index := index + 1;
        continue;
      }
      CommandStep(table, rest, positionals, values);
      hide ParseCommand;
      if argument == "--" {
        terminated := true;
        index := index + 1;
        continue;
      }
      if IsPositional(argument) {
        positionals := positionals + [argument];
        index := index + 1;
        continue;
      }
      var definition := Find(table, Spelling(argument));
      if definition.None? {
        return Err(UnknownOption(Spelling(argument)));
      }
      var d := definition.value;
      if d.name in values && !d.kind.Repeatable? {
        return Err(Twice(d.name));
      }
      var inline := Inline(argument);
      if d.kind.Flag? {
        if inline.Some? {
          return Err(NoValueAccepted(d.name));
        }
        values := values[d.name := [Present]];
        index := index + 1;
        continue;
      }
      var value := if inline.Some? then inline else if index + 1 < |args| then Some(args[index + 1]) else None;
      assert value == ValueAt(rest);
      if value.None? || value.value == "" || (inline.None? && StartsWith(value.value, "--")) {
        return Err(RequiresValue(d.name));
      }
      values := values[d.name := Existing(values, d.name) + [Given(value.value)]];
      if inline.None? {
        assert rest[2..] == args[index + 2..];
        index := index + 1;
      }
      index := index + 1;
    }
    assert positionals + args[index..] == positionals;
    r := Ok(Arguments(positionals, values));
  }

  lemma CommandStep(table: Table, args: seq<string>, positionals: seq<string>, values: map<string, seq<Value>>)
    requires args != []
    ensures ParseCommand(table, args, positionals, values) ==
            if args[0] == "--" then Ok(Arguments(positionals + args[1..], values))
            else if IsPositional(args[0]) then ParseCommand(table, args[1..], positionals + [args[0]], values)
            else
              var definition := Find(table, Spelling(args[0]));
              if definition.None? then Err(UnknownOption(Spelling(args[0])))
              else if definition.value.name in values && !definition.value.kind.Repeatable? then
                Err(Twice(definition.value.name))
              else if definition.value.kind.Flag? then
                if Inline(args[0]).Some? then Err(NoValueAccepted(definition.value.name))
                else ParseCommand(table, args[1..], positionals, values[definition.value.name := [Present]])
              else if ValueMissing(args) then Err(RequiresValue(definition.value.name))
              else
                ParseCommand(table, args[Width(args[0])..], positionals,
                             values[definition.value.name :=
                               Existing(values, definition.value.name) + [Given(ValueAt(args).value)]])
  {
  }
}
