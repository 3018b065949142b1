/** What the two passes promise: printed options are read back, and a global option may stand anywhere. */
module CliRoundTrip {
  import opened Options
  import opened CliParser

  /** How an option with a value is written. */
  datatype Form = InlineForm | SeparateForm | ShortForm

  datatype Entry = Entry(global: bool, definition: Definition, form: Form, value: string)

  function Written(e: Entry): string {
    if e.form.ShortForm? && e.definition.short.Some? then e.definition.short.value else e.definition.name
  }

  function Print(e: Entry): (args: seq<string>)
    ensures args != []
  {
    if e.definition.kind.Flag? then [Written(e)]
    else if e.form.InlineForm? then [e.definition.name + "=" + e.value]
    else [Written(e), e.value]
  }

  function ValueOf(e: Entry): Value {
    if e.definition.kind.Flag? then Present else Given(e.value)
  }

  function PrintAll(entries: seq<Entry>): seq<string> {
    if entries == [] then [] else Print(entries[0]) + PrintAll(entries[1..])
  }

  function CommandEntries(entries: seq<Entry>): seq<Entry> {
    if entries == [] then []
    else (if entries[0].global then [] else [entries[0]]) + CommandEntries(entries[1..])
  }

  /** The values given for one option, in order. */
  function ValuesOf(entries: seq<Entry>, global: bool, name: string): seq<Value> {
    if entries == [] then []
    else
      (if entries[0].global == global && entries[0].definition.name == name then [ValueOf(entries[0])] else [])
      + ValuesOf(entries[1..], global, name)
  }

  // ------------------------------------------------------------------------------------------
  // Tables and entries the parser accepts.

  predicate WellSpelled(d: Definition) {
    && StartsWith(d.name, "--") && |d.name| > 2 && '=' !in d.name
    && (d.short.Some? ==> |d.short.value| >= 2 && d.short.value[0] == '-' && !StartsWith(d.short.value, "--"))
  }

  /** The first pass takes exactly this definition for its spellings. */
  predicate ReadAsGlobal(globals: Table, d: Definition) {
    && WellSpelled(d) && FindGlobal(globals, d.name) == Some(d)
    && (d.short.Some? ==> FindGlobal(globals, d.short.value) == Some(d))
  }

  predicate ReadByCommand(globals: Table, command: Table, d: Definition) {
    && WellSpelled(d)
    && FindGlobal(globals, d.name).None? && Find(command + globals, d.name) == Some(d)
    && (d.short.Some? ==>
          FindGlobal(globals, d.short.value).None? && Find(command + globals, d.short.value) == Some(d))
  }

  /** A value standing by itself that the first pass leaves to the option before it. */
  predicate Safe(globals: Table, value: string) {
    !StartsWith(value, "--") && FindGlobal(globals, value).None?
  }

  predicate Accepted(globals: Table, command: Table, e: Entry) {
    && (if e.global then ReadAsGlobal(globals, e.definition) else ReadByCommand(globals, command, e.definition))
    && (e.form.ShortForm? ==> e.definition.short.Some?)
    && (!e.definition.kind.Flag? ==> e.value != "")
    && (!e.definition.kind.Flag? && !e.form.InlineForm? ==>
          if e.global then !LooksLikeOption(e.value) else Safe(globals, e.value))
  }

  /** Only a repeatable option of the command may be given again. */
  predicate MayFollow(e: Entry, f: Entry) {
    e.global == f.global && e.definition.name == f.definition.name ==> !f.global && f.definition.kind.Repeatable?
  }

  ghost predicate AllAccepted(globals: Table, command: Table, entries: seq<Entry>) {
    && (forall i :: 0 <= i < |entries| ==> Accepted(globals, command, entries[i]))
    && (forall i, j :: 0 <= i < j < |entries| ==> MayFollow(entries[i], entries[j]))
  }

  // ------------------------------------------------------------------------------------------
  // Spellings read back.

  lemma {:induction false} EqualsAfter(name: string, value: string)
    requires '=' !in name
    ensures Equals(name + "=" + value) == |name| && Equals(name) == |name|
  {
    if name == [] {
      assert (name + "=" + value)[0] == '=';
    } else {
      EqualsAfter(name[1..], value);
      assert (name + "=" + value)[1..] == name[1..] + "=" + value;
    }
  }

  lemma InlineReads(d: Definition, value: string)
    requires WellSpelled(d)
    ensures var argument := d.name + "=" + value;
            Spelling(argument) == d.name && Inline(argument) == Some(value) && argument != "--" && !IsPositional(argument)
  {
    var argument := d.name + "=" + value;
    EqualsAfter(d.name, value);
    assert argument[..|d.name|] == d.name && argument[|d.name| + 1..] == value;
    assert argument[..2] == d.name[..2];
    assert argument[..1] == "-" by { assert argument[0] == d.name[0] == "--"[0]; }
  }

  lemma WrittenReads(e: Entry)
    requires WellSpelled(e.definition)
    ensures Spelling(Written(e)) == Written(e) && Inline(Written(e)) == None
    ensures Written(e) != "--" && !IsPositional(Written(e))
  {
    var s := Written(e);
    EqualsAfter(e.definition.name, "");
    assert s[..1] == "-" by { if s == e.definition.name { assert s[0] == "--"[0]; } }
  }

  lemma SafeReads(globals: Table, value: string)
    requires Safe(globals, value)
    ensures Spelling(value) == value && value != "--" && !LooksLikeOption(value)
  {
  }

  // ------------------------------------------------------------------------------------------
  // One entry through each pass.

  lemma TakenGlobal(globals: Table, command: Table, e: Entry, rest: seq<string>, values: map<string, Value>)
    requires Accepted(globals, command, e) && e.global && e.definition.name !in values
    ensures ParseGlobals(globals, Print(e) + rest, values) ==
            ParseGlobals(globals, rest, values[e.definition.name := ValueOf(e)])
  {
    hide FindGlobal, Spelling, Inline, LooksLikeOption, WellSpelled, ParseGlobals;
    var args := Print(e) + rest;
    WrittenReads(e);
    if !e.definition.kind.Flag? && e.form.InlineForm? {
      InlineReads(e.definition, e.value);
    }
    GlobalStep(globals, args, values);
    assert args[|Print(e)|..] == rest;
  }

  lemma LeftForCommand(globals: Table, command: Table, e: Entry, rest: seq<string>, values: map<string, Value>)
    requires Accepted(globals, command, e) && !e.global
    ensures ParseGlobals(globals, Print(e) + rest, values) == Prepend(Print(e), ParseGlobals(globals, rest, values))
  {
    hide FindGlobal, Spelling, Inline, WellSpelled, ParseGlobals;
    var args := Print(e) + rest;
    WrittenReads(e);
    InlineReads(e.definition, e.value);
    GlobalStep(globals, args, values);
    if |Print(e)| == 1 {
      assert args[1..] == rest;
    } else {
      SafeReads(globals, e.value);
      GlobalStep(globals, args[1..], values);
      assert args[1..][1..] == rest;
      var r := ParseGlobals(globals, rest, values);
      if r.Ok? { assert [args[0]] + ([args[1]] + r.value.remaining) == Print(e) + r.value.remaining; }
    }
  }

  lemma ReadByItsCommand(
    globals: Table, command: Table, e: Entry, rest: seq<string>, positionals: seq<string>, values: map<string, seq<Value>>)
    requires Accepted(globals, command, e) && !e.global
    requires e.definition.name in values ==> e.definition.kind.Repeatable?
    ensures ParseCommand(command + globals, Print(e) + rest, positionals, values) ==
            ParseCommand(command + globals, rest, positionals,
                         values[e.definition.name := Existing(values, e.definition.name) + [ValueOf(e)]])
  {
    hide FindGlobal, Find, Spelling, Inline, WellSpelled, ParseCommand, IsPositional;
    var args := Print(e) + rest;
    WrittenReads(e);
    InlineReads(e.definition, e.value);
    CommandStep(command + globals, args, positionals, values);
    assert args[|Print(e)|..] == rest;
    if e.definition.kind.Flag? { assert [] + [Present] == [Present]; }
  }

  // ------------------------------------------------------------------------------------------
  // All entries.

  function GlobalValues(entries: seq<Entry>, values: map<string, Value>): map<string, Value> {
    if entries == [] then values
    else GlobalValues(entries[1..], if entries[0].global
                                    then values[entries[0].definition.name := ValueOf(entries[0])] else values)
  }

  function CommandValues(entries: seq<Entry>, values: map<string, seq<Value>>): map<string, seq<Value>> {
    if entries == [] then values
    else
      var name := entries[0].definition.name;
      CommandValues(entries[1..], if entries[0].global then values
                                  else values[name := Existing(values, name) + [ValueOf(entries[0])]])
  }

  lemma AcceptedTail(globals: Table, command: Table, entries: seq<Entry>)
    requires AllAccepted(globals, command, entries) && entries != []
    ensures AllAccepted(globals, command, entries[1..])
    ensures forall i :: 0 <= i < |entries| - 1 ==> MayFollow(entries[0], entries[1..][i])
  {
    hide Accepted, MayFollow;
    assert forall i :: 0 <= i < |entries| - 1 ==> entries[1..][i] == entries[i + 1];
  }

  ghost predicate NotTaken(entries: seq<Entry>, names: set<string>) {
    forall i :: 0 <= i < |entries| && entries[i].global ==> entries[i].definition.name !in names
  }

  lemma {:induction false} FirstPass(
    globals: Table, command: Table, entries: seq<Entry>, positionals: seq<string>, values: map<string, Value>)
    requires AllAccepted(globals, command, entries) && NotTaken(entries, values.Keys)
    ensures ParseGlobals(globals, PrintAll(entries) + (["--"] + positionals), values) ==
            Ok(Globals(PrintAll(CommandEntries(entries)) + (["--"] + positionals), GlobalValues(entries, values)))
    decreases |entries|
  {
    hide Accepted, Print;
    var tail := ["--"] + positionals;
    if entries == [] {
      assert [] + tail == tail;
    } else {
      hide ParseGlobals;
      var e := entries[0];
      AcceptedTail(globals, command, entries);
      assert Print(e) + PrintAll(entries[1..]) + tail == Print(e) + (PrintAll(entries[1..]) + tail);
      if e.global {
        TakenGlobal(globals, command, e, PrintAll(entries[1..]) + tail, values);
        FirstPass(globals, command, entries[1..], positionals, values[e.definition.name := ValueOf(e)]);
        assert [] + CommandEntries(entries[1..]) == CommandEntries(entries[1..]);
      } else {
        LeftForCommand(globals, command, e, PrintAll(entries[1..]) + tail, values);
        FirstPass(globals, command, entries[1..], positionals, values);
        PrintCons(e, CommandEntries(entries[1..]), tail);
      }
    }
  }

  lemma PrintCons(e: Entry, entries: seq<Entry>, tail: seq<string>)
    ensures PrintAll([e] + entries) + tail == Print(e) + (PrintAll(entries) + tail)
  {
    assert ([e] + entries)[1..] == entries;
  }

  lemma {:induction false} SecondPass(
    globals: Table, command: Table, entries: seq<Entry>, positionals: seq<string>, values: map<string, seq<Value>>)
    requires AllAccepted(globals, command, entries) && forall i :: 0 <= i < |entries| ==> !entries[i].global
    requires forall i :: 0 <= i < |entries| && entries[i].definition.name in values ==> entries[i].definition.kind.Repeatable?
    ensures ParseCommand(command + globals, PrintAll(entries) + (["--"] + positionals), [], values) ==
            Ok(Arguments(positionals, CommandValues(entries, values)))
    decreases |entries|
  {
    hide Accepted, Print;
    var tail := ["--"] + positionals;
    if entries == [] {
      assert [] + tail == tail && tail[1..] == positionals && [] + positionals == positionals;
    } else {
      hide ParseCommand;
      var e := entries[0];
      AcceptedTail(globals, command, entries);
      assert Print(e) + PrintAll(entries[1..]) + tail == Print(e) + (PrintAll(entries[1..]) + tail);
      ReadByItsCommand(globals, command, e, PrintAll(entries[1..]) + tail, [], values);
      SecondPass(globals, command, entries[1..], positionals,
                 values[e.definition.name := Existing(values, e.definition.name) + [ValueOf(e)]]);
    }
  }

  lemma {:induction false} CommandEntriesAccepted(globals: Table, command: Table, entries: seq<Entry>, e: Entry)
    requires AllAccepted(globals, command, entries)
    ensures AllAccepted(globals, command, CommandEntries(entries))
    ensures forall i :: 0 <= i < |CommandEntries(entries)| ==> !CommandEntries(entries)[i].global
    ensures (forall i :: 0 <= i < |entries| ==> MayFollow(e, entries[i])) ==>
              forall i :: 0 <= i < |CommandEntries(entries)| ==> MayFollow(e, CommandEntries(entries)[i])
    decreases |entries|
  {
    hide Accepted, MayFollow;
    if entries != [] {
      AcceptedTail(globals, command, entries);
      CommandEntriesAccepted(globals, command, entries[1..], e);
      CommandEntriesAccepted(globals, command, entries[1..], entries[0]);
    }
  }

  lemma {:induction false} GlobalValuesExactly(entries: seq<Entry>, values: map<string, Value>, name: string)
    requires NotTaken(entries, values.Keys)
    requires forall i, j :: 0 <= i < j < |entries| ==> MayFollow(entries[i], entries[j])
    ensures var given := ValuesOf(entries, true, name);
            && |given| <= 1
            && (given == [] ==> (name in GlobalValues(entries, values) <==> name in values))
            && (given == [] && name in values ==> GlobalValues(entries, values)[name] == values[name])
            && (given != [] ==> name in GlobalValues(entries, values) && GlobalValues(entries, values)[name] == given[0])
    decreases |entries|
  {
    if entries != [] {
      var e := entries[0];
      var next := if e.global then values[e.definition.name := ValueOf(e)] else values;
      forall i | 0 <= i < |entries| - 1 && entries[1..][i].global ensures entries[1..][i].definition.name !in next.Keys {
        assert MayFollow(e, entries[i + 1]);
      }
      assert forall i, j :: 0 <= i < j < |entries| - 1 ==> MayFollow(entries[1..][i], entries[1..][j]);
      GlobalValuesExactly(entries[1..], next, name);
      if e.global && e.definition.name == name { NoneGiven(entries, name); }
    }
  }

  lemma {:induction false} NoneGiven(entries: seq<Entry>, name: string)
    requires entries != [] && entries[0].global && entries[0].definition.name == name
    requires forall i, j :: 0 <= i < j < |entries| ==> MayFollow(entries[i], entries[j])
    ensures ValuesOf(entries[1..], true, name) == []
  {
    forall i | 0 <= i < |entries[1..]| ensures !(entries[1..][i].global && entries[1..][i].definition.name == name) {
      assert MayFollow(entries[0], entries[i + 1]);
    }
    NoValues(entries[1..], name);
  }

  lemma {:induction false} NoValues(entries: seq<Entry>, name: string)
    requires forall i :: 0 <= i < |entries| ==> !(entries[i].global && entries[i].definition.name == name)
    ensures ValuesOf(entries, true, name) == []
  {
    if entries != [] { NoValues(entries[1..], name); }
  }

  function Next(e: Entry, values: map<string, seq<Value>>): map<string, seq<Value>> {
    var name := e.definition.name;
    if e.global then values else values[name := Existing(values, name) + [ValueOf(e)]]
  }

  lemma OneEntry(entries: seq<Entry>, values: map<string, seq<Value>>, name: string)
    requires entries != []
    ensures CommandValues(CommandEntries(entries), values) ==
            CommandValues(CommandEntries(entries[1..]), Next(entries[0], values))
    ensures var own := if !entries[0].global && entries[0].definition.name == name then [ValueOf(entries[0])] else [];
            && Existing(Next(entries[0], values), name) == Existing(values, name) + own
            && (name in Next(entries[0], values) <==> name in values || own != [])
            && ValuesOf(entries, false, name) == own + ValuesOf(entries[1..], false, name)
  {
    hide ValueOf;
    var rest := CommandEntries(entries[1..]);
    assert [] + rest == rest && ([entries[0]] + rest)[1..] == rest;
    assert Existing(values, name) + [] == Existing(values, name);
  }

  lemma {:induction false} CommandValuesExactly(entries: seq<Entry>, values: map<string, seq<Value>>, name: string)
    ensures var all := Existing(values, name) + ValuesOf(entries, false, name);
            var r := CommandValues(CommandEntries(entries), values);
            && Existing(r, name) == all
            && (name in r <==> name in values || ValuesOf(entries, false, name) != [])
    decreases |entries|
  {
    if entries == [] {
      assert Existing(values, name) + [] == Existing(values, name);
    } else {
      hide CommandValues, CommandEntries, ValuesOf, ValueOf, Next, Existing;
      OneEntry(entries, values, name);
      CommandValuesExactly(entries[1..], Next(entries[0], values), name);
      var own := if !entries[0].global && entries[0].definition.name == name then [ValueOf(entries[0])] else [];
      assert Existing(values, name) + (own + ValuesOf(entries[1..], false, name))
          == Existing(values, name) + own + ValuesOf(entries[1..], false, name);
    }
  }

  /** Options and global options in any order and any accepted form, then `--` and any arguments: both passes
      give back every option with its values in order, and the arguments. */
  lemma {:induction false} PrintedIsReadBack(
    globals: Table, command: Table, entries: seq<Entry>, positionals: seq<string>, name: string)
    requires AllAccepted(globals, command, entries)
    ensures var r := Parse(globals, command, PrintAll(entries) + (["--"] + positionals));
            && r.Ok? && r.value.arguments.positionals == positionals
            && Existing(r.value.arguments.values, name) == ValuesOf(entries, false, name)
            && (name in r.value.arguments.values <==> ValuesOf(entries, false, name) != [])
            && (name in r.value.globals <==> ValuesOf(entries, true, name) != [])
            && (name in r.value.globals ==> ValuesOf(entries, true, name) == [r.value.globals[name]])
  {
    hide ParseGlobals, ParseCommand, Accepted, MayFollow, Print, PrintAll, ValuesOf;
    FirstPass(globals, command, entries, positionals, map[]);
    CommandEntriesAccepted(globals, command, entries, Entry(true, Definition("", None, Flag), InlineForm, ""));
    SecondPass(globals, command, CommandEntries(entries), positionals, map[]);
    GlobalValuesExactly(entries, map[], name);
    CommandValuesExactly(entries, map[], name);
    assert [] + ValuesOf(entries, false, name) == ValuesOf(entries, false, name);
  }

  // ------------------------------------------------------------------------------------------
  // Inserting a global option.

  /** Arguments the first pass reads at once. */
  function Step(globals: Table, argument: string): nat {
    var d := FindGlobal(globals, Spelling(argument));
    if d.Some? && !d.value.kind.Flag? then Width(argument) else 1
  }

  /** `k` is before the terminator and not between a global option and the value it awaits. */
  predicate AtGap(globals: Table, args: seq<string>, k: nat)
    decreases |args|
  {
    k == 0 ||
      (args != [] && args[0] != "--" &&
        var n := Step(globals, args[0]);
        n <= k && n <= |args| && AtGap(globals, args[n..], k - n))
  }

  lemma {:induction false} GapInRange(globals: Table, args: seq<string>, k: nat)
    requires AtGap(globals, args, k)
    ensures k <= |args|
    decreases |args|
  {
    if k > 0 { GapInRange(globals, args[Step(globals, args[0])..], k - Step(globals, args[0])); }
  }

  /** One more value known beforehand comes out again, if the option is not given. */
  lemma {:induction false} OneMoreValue(
    globals: Table, args: seq<string>, values: map<string, Value>, name: string, value: Value)
    requires var r := ParseGlobals(globals, args, values); r.Ok? && name !in r.value.values
    ensures var r := ParseGlobals(globals, args, values).value;
            ParseGlobals(globals, args, values[name := value]) == Ok(Globals(r.remaining, r.values[name := value]))
    decreases |args|
  {
    hide FindGlobal, Spelling, Inline, GlobalValueMissing;
    if args != [] && args[0] != "--" {
      var d := FindGlobal(globals, Spelling(args[0]));
      if d.None? {
        OneMoreValue(globals, args[1..], values, name, value);
      } else if d.value.kind.Flag? {
        TakenStays(globals, args[1..], values[d.value.name := Present], d.value.name);
        OneMoreValue(globals, args[1..], values[d.value.name := Present], name, value);
        assert values[name := value][d.value.name := Present] == values[d.value.name := Present][name := value];
      } else {
        ValueTakesUp(args);
        var given := Given(ValueAt(args).value);
        var rest := args[Width(args[0])..];
        TakenStays(globals, rest, values[d.value.name := given], d.value.name);
        OneMoreValue(globals, rest, values[d.value.name := given], name, value);
        assert values[name := value][d.value.name := given] == values[d.value.name := given][name := value];
      }
    }
  }

  lemma {:induction false} TakenStays(globals: Table, args: seq<string>, values: map<string, Value>, name: string)
    requires name in values && ParseGlobals(globals, args, values).Ok?
    ensures name in ParseGlobals(globals, args, values).value.values
    decreases |args|
  {
    hide FindGlobal, Spelling, Inline, GlobalValueMissing;
    if args != [] && args[0] != "--" {
      var d := FindGlobal(globals, Spelling(args[0]));
      if d.None? {
        TakenStays(globals, args[1..], values, name);
      } else if d.value.kind.Flag? {
        TakenStays(globals, args[1..], values[d.value.name := Present], name);
      } else {
        ValueTakesUp(args);
        TakenStays(globals, args[Width(args[0])..], values[d.value.name := Given(ValueAt(args).value)], name);
      }
    }
  }

  function Inserted(args: seq<string>, k: nat, more: seq<string>): seq<string>
    requires k <= |args|
  {
    args[..k] + more + args[k..]
  }

  lemma InsertedAfter(args: seq<string>, n: nat, k: nat, more: seq<string>)
    requires 0 < n <= k <= |args|
    ensures Inserted(args, k, more) != [] && Inserted(args, k, more)[0] == args[0]
    ensures Inserted(args, k, more)[n..] == Inserted(args[n..], k - n, more)
    ensures n > 1 ==> |args| > 1 && |Inserted(args, k, more)| > 1 && Inserted(args, k, more)[1] == args[1]
  {
    assert args[..k][n..] == args[n..][..k - n];
    assert args[k..] == args[n..][k - n..];
  }

  lemma {:induction false} InsertedFirstPass(
    globals: Table, command: Table, args: seq<string>, k: nat, e: Entry, values: map<string, Value>)
    requires AtGap(globals, args, k) && k <= |args| && Accepted(globals, command, e) && e.global
    requires e.definition.name !in values
    requires var r := ParseGlobals(globals, args, values); r.Ok? && e.definition.name !in r.value.values
    ensures var r := ParseGlobals(globals, args, values).value;
            ParseGlobals(globals, Inserted(args, k, Print(e)), values) ==
            Ok(Globals(r.remaining, r.values[e.definition.name := ValueOf(e)]))
    decreases |args|
  {
    hide FindGlobal, Spelling, Inline, LooksLikeOption, Accepted, Print, ParseGlobals;
    var name := e.definition.name;
    if k == 0 {
      assert args[..0] + Print(e) + args[0..] == Print(e) + args;
      TakenGlobal(globals, command, e, args, values);
      OneMoreValue(globals, args, values, name, ValueOf(e));
    } else {
      var n := Step(globals, args[0]);
      var longer := Inserted(args, k, Print(e));
      InsertedAfter(args, n, k, Print(e));
      GlobalStep(globals, args, values);
      GlobalStep(globals, longer, values);
      GapInRange(globals, args[n..], k - n);
      var d := FindGlobal(globals, Spelling(args[0]));
      if d.None? {
        InsertedFirstPass(globals, command, args[1..], k - 1, e, values);
      } else if d.value.kind.Flag? {
        var next := values[d.value.name := Present];
        TakenStays(globals, args[1..], next, d.value.name);
        InsertedFirstPass(globals, command, args[1..], k - 1, e, next);
      } else {
        ValueTakesUp(args);
        assert ValueAt(longer) == ValueAt(args);
        var next := values[d.value.name := Given(ValueAt(args).value)];
        TakenStays(globals, args[n..], next, d.value.name);
        InsertedFirstPass(globals, command, args[n..], k - n, e, next);
      }
    }
  }

  /** A global option not given so far may be put at any such gap: it is recorded, and everything else that
      either pass reads stays what it was. */
  lemma InsertionChangesNothingElse(globals: Table, command: Table, args: seq<string>, k: nat, e: Entry)
    requires AtGap(globals, args, k) && k <= |args| && Accepted(globals, command, e) && e.global
    requires var r := Parse(globals, command, args); r.Ok? && e.definition.name !in r.value.globals
    ensures var r := Parse(globals, command, args).value;
            Parse(globals, command, Inserted(args, k, Print(e))) ==
            Ok(r.(globals := r.globals[e.definition.name := ValueOf(e)]))
  {
    hide ParseGlobals, ParseCommand, Accepted, AtGap;
    InsertedFirstPass(globals, command, args, k, e, map[]);
  }

  // ------------------------------------------------------------------------------------------
  // Values that do not survive by themselves.

  lemma {:induction false} UnsafeFirstPass(globals: Table, name: string, value: string)
    requires !Safe(globals, value) && Spelling(name) == name && name != "--" && FindGlobal(globals, name).None?
    ensures var r := ParseGlobals(globals, [name, value], map[]);
            r.Err? || r.value.remaining == [name] || (r.value.remaining == [name, value] && StartsWith(value, "--"))
  {
    hide FindGlobal, ParseGlobals;
    var args := [name, value];
    GlobalStep(globals, args, map[]);
    assert args[1..] == [value];
    assert [name] + [value] == args && [name] + [] == [name];
    if value == "--" {
      Stops(globals, [value]);
    } else {
      GlobalStep(globals, [value], map[]);
      ValueTakesUp([value]);
      NothingLeft(globals);
      assert [value][1..] == [];
    }
  }

  lemma Stops(globals: Table, args: seq<string>)
    requires args != [] && args[0] == "--"
    ensures ParseGlobals(globals, args, map[]) == Ok(Globals(args, map[]))
  {
  }

  lemma NothingLeft(globals: Table)
    ensures forall values :: ParseGlobals(globals, [], values) == Ok(Globals([], values))
  {
  }

  lemma NameAlone(globals: Table, command: Table, d: Definition, args: seq<string>)
    requires ReadByCommand(globals, command, d) && !d.kind.Flag?
    requires args == [d.name] || (|args| == 2 && args[0] == d.name && (args[1] == "" || StartsWith(args[1], "--")))
    ensures ParseCommand(command + globals, args, [], map[]) == Err(RequiresValue(d.name))
  {
    WrittenReads(Entry(false, d, SeparateForm, ""));
    hide FindGlobal, Find, Spelling, Inline, WellSpelled, IsPositional;
    CommandStep(command + globals, args, [], map[]);
  }

  /** Written apart from its option, a value comes back exactly when it is not empty and neither looks like
      an option nor is a spelling the first pass takes out, such as `-h`. */
  lemma {:induction false} SeparateValueExactly(globals: Table, command: Table, d: Definition, value: string)
    requires ReadByCommand(globals, command, d) && !d.kind.Flag?
    ensures Parse(globals, command, [d.name, value]) ==
              Ok(Parsed(map[], Arguments([], map[d.name := [Given(value)]])))
            <==> value != "" && Safe(globals, value)
  {
    hide FindGlobal, Find, ParseGlobals, ParseCommand, Safe, ReadByCommand, StartsWith;
    var e := Entry(false, d, SeparateForm, value);
    var args := [d.name, value];
    if Safe(globals, value) {
      SafeFirstPass(globals, command, d, value);
      if value == "" { NameAlone(globals, command, d, args); }
      else { SafeSecondPass(globals, command, d, value); }
    } else {
      NameUnread(globals, command, d);
      UnsafeFirstPass(globals, d.name, value);
      var r := ParseGlobals(globals, args, map[]);
      if r.Ok? { NameAlone(globals, command, d, r.value.remaining); }
    }
  }

  lemma NameUnread(globals: Table, command: Table, d: Definition)
    requires ReadByCommand(globals, command, d)
    ensures Spelling(d.name) == d.name && d.name != "--" && FindGlobal(globals, d.name).None?
  {
    WrittenReads(Entry(false, d, SeparateForm, ""));
  }

  lemma SafeFirstPass(globals: Table, command: Table, d: Definition, value: string)
    requires ReadByCommand(globals, command, d) && Safe(globals, value)
    ensures ParseGlobals(globals, [d.name, value], map[]) == Ok(Globals([d.name, value], map[]))
  {
    NameUnread(globals, command, d);
    SafeReads(globals, value);
    hide FindGlobal, ParseGlobals, Spelling;
    var args := [d.name, value];
    GlobalStep(globals, args, map[]);
    assert args[1..] == [value];
    GlobalStep(globals, [value], map[]);
    assert [value][1..] == [];
    NothingLeft(globals);
    assert [value] + [] == [value] && [d.name] + [value] == args;
  }

  lemma SafeSecondPass(globals: Table, command: Table, d: Definition, value: string)
    requires ReadByCommand(globals, command, d) && !d.kind.Flag? && Safe(globals, value) && value != ""
    ensures ParseCommand(command + globals, [d.name, value], [], map[]) ==
            Ok(Arguments([], map[d.name := [Given(value)]]))
  {
    var e := Entry(false, d, SeparateForm, value);
    assert Accepted(globals, command, e);
    ReadByItsCommand(globals, command, e, [], [], map[]);
    assert Print(e) + [] == [d.name, value];
    assert [] + [Given(value)] == [Given(value)];
  }

  // ------------------------------------------------------------------------------------------
  // Tables without shared spellings.

  lemma {:induction false} FindFirst(table: Table, i: nat, spelling: string)
    requires i < |table| && Spelled(table[i], spelling)
    requires forall j :: 0 <= j < i ==> !Spelled(table[j], spelling)
    ensures Find(table, spelling) == Some(table[i])
  {
    if i > 0 { FindFirst(table[1..], i - 1, spelling); }
  }

  lemma {:induction false} FindNone(table: Table, spelling: string)
    requires forall j :: 0 <= j < |table| ==> !Spelled(table[j], spelling)
    ensures Find(table, spelling).None?
  {
    if table != [] { FindNone(table[1..], spelling); }
  }

  /** The spellings of one definition are those of no other, nor of `--help` and `--version`. */
  predicate OwnSpellings(table: Table, i: nat)
    requires i < |table|
  {
    && WellSpelled(table[i])
    && Special(table[i].name).None? && (table[i].short.Some? ==> Special(table[i].short.value).None?)
    && forall j :: 0 <= j < |table| && j != i ==>
         && !Spelled(table[j], table[i].name)
         && (table[i].short.Some? ==> !Spelled(table[j], table[i].short.value))
  }

  /** Tables in which every definition has its own spellings are read as they should be. */
  lemma {:induction false} OwnSpellingsAreRead(globals: Table, command: Table, i: nat)
    requires i < |command| + |globals| && OwnSpellings(command + globals, i)
    ensures i < |command| ==> ReadByCommand(globals, command, command[i])
    ensures i >= |command| ==> ReadAsGlobal(globals, globals[i - |command|])
  {
    var table := command + globals;
    hide WellSpelled, Special, Find, StartsWith;
    var d := table[i];
    assert forall j :: 0 <= j < |globals| ==> globals[j] == table[|command| + j];
    FindFirst(table, i, d.name);
    if d.short.Some? { FindFirst(table, i, d.short.value); }
    if i < |command| {
      FindNone(globals, d.name);
      if d.short.Some? { FindNone(globals, d.short.value); }
    } else {
      FindFirst(globals, i - |command|, d.name);
      if d.short.Some? { FindFirst(globals, i - |command|, d.short.value); }
    }
  }
}
