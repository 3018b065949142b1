/** Users of the DDL scanner: matching parentheses, splitting at top-level commas, identifiers. */
module SqliteDdlScanner {
  import opened Options
  import opened SqliteDdlText

  /** The ASCII letters in lower case. */
  function Lower(s: string): (r: string)
    ensures |r| == |s|
  {
    seq(|s|, i requires 0 <= i < |s| => if 'A' <= s[i] <= 'Z' then ((s[i] as int) + 32) as char else s[i])
  }

  // ------------------------------------------------------------------------------------------
  // Parentheses.

  function Delta(c: char): int {
    if c == '(' then 1 else if c == ')' then -1 else 0
  }

  /** Parentheses opened less closed in `code[from..to]`. */
  function Depth(code: string, from: nat, to: nat): int
    requires from <= to <= |code|
  {
    if from == to then 0 else Depth(code, from, to - 1) + Delta(code[to - 1])
  }

  /** The depth counts parentheses. */
  lemma {:induction false} DepthCounts(code: string, from: nat, to: nat)
    requires from <= to <= |code|
    ensures Depth(code, from, to) + multiset(code[from..to])[')'] == multiset(code[from..to])['(']
  {
    if from < to {
      DepthCounts(code, from, to - 1);
      assert code[from..to] == code[from..to - 1] + [code[to - 1]];
    }
  }

  /** The parenthesis at `open` stays open through `code[..to]`. */
  ghost predicate StaysOpen(code: string, open: nat, to: nat)
    requires to <= |code|
  {
    forall j :: open < j <= to ==> Depth(code, open, j) > 0
  }

  /** Where the parenthesis at `open` is balanced: no earlier closing parenthesis does it. */
  ghost predicate LeastBalance(code: string, open: nat, i: nat) {
    && open < i < |code| && code[open] == '(' && code[i] == ')'
    && Depth(code, open, i + 1) == 0
    && StaysOpen(code, open, i)
  }

  method MatchingParen(sql: string, open: int) returns (close: int)
    ensures close == -1 || (0 <= open && 0 <= close && LeastBalance(Code(sql), open, close))
    ensures close == -1 <==>
      open < 0 || open >= |sql| || Code(sql)[open] != '(' || StaysOpen(Code(sql), open, |sql|)
  {
    hide Code, Text, Token;
    var text, codes := Scan(sql);
    var code := codes[..];
    if open < 0 || open >= |code| || code[open] != '(' {
      return -1;
    }
    var depth := 0;
    for index := open to |code|
      invariant depth == Depth(code, open, index) && StaysOpen(code, open, index)
    {
      assert Depth(code, open, index + 1) == depth + Delta(code[index]);
      if code[index] == '(' {
        depth := depth + 1;
      } else if code[index] == ')' {
        depth := depth - 1;
        if depth == 0 {
          return index;
        }
      }
    }
    return -1;
  }

  lemma LeastBalanceUnique(code: string, open: nat, i: nat, j: nat)
    requires LeastBalance(code, open, i) && LeastBalance(code, open, j)
    ensures i == j
  {
    assert !(i < j) && !(j < i);
  }

  // ------------------------------------------------------------------------------------------
  // White space.

  /** The characters `String.prototype.trim` and `\s` treat as white space. */
  predicate IsBlank(c: char) {
    || '\U{9}' <= c <= '\U{d}' || c == ' ' || c == '\U{a0}' || c == '\U{1680}'
    || '\U{2000}' <= c <= '\U{200a}' || c == '\U{2028}' || c == '\U{2029}' || c == '\U{202f}'
    || c == '\U{205f}' || c == '\U{3000}' || c == '\U{feff}'
  }

  /** ECMAScript's white space and line terminators, one by one. */
  const WHITE_SPACE := {
    '\t', '\n', '\U{B}', '\U{C}', '\r', ' ', '\U{A0}', '\U{1680}',
    '\U{2000}', '\U{2001}', '\U{2002}', '\U{2003}', '\U{2004}', '\U{2005}', '\U{2006}', '\U{2007}', '\U{2008}',
    '\U{2009}', '\U{200A}', '\U{2028}', '\U{2029}', '\U{202F}', '\U{205F}', '\U{3000}', '\U{FEFF}'
  }

  lemma BlankExactly(c: char)
    ensures IsBlank(c) <==> c in WHITE_SPACE
  {
  }

  function TrimStart(s: string): string {
    if s != [] && IsBlank(s[0]) then TrimStart(s[1..]) else s
  }

  function TrimEnd(s: string): string {
    if s != [] && IsBlank(s[|s| - 1]) then TrimEnd(s[..|s| - 1]) else s
  }

  function Trim(s: string): string {
    TrimEnd(TrimStart(s))
  }

  // ------------------------------------------------------------------------------------------
  // Splitting at top-level commas.

  function Prepend(part: string, parts: seq<string>): seq<string>
    requires parts != []
  {
    [part + parts[0]] + parts[1..]
  }

  /** The parts of `text` between the commas that `code` shows outside all parentheses. */
  function Split(text: string, code: string, depth: int): (parts: seq<string>)
    requires |text| == |code|
    ensures parts != []
  {
    if code == [] then [[]]
    else if code[0] == ',' && depth == 0 then [[]] + Split(text[1..], code[1..], depth)
    else Prepend([text[0]], Split(text[1..], code[1..], depth + Delta(code[0])))
  }

  function Trimmed(parts: seq<string>): (r: seq<string>)
    ensures |r| == |parts|
  {
    seq(|parts|, i requires 0 <= i < |parts| => Trim(parts[i]))
  }

  function NonEmpty(parts: seq<string>): seq<string> {
    if parts == [] then []
    else (if parts[0] == [] then [] else [parts[0]]) + NonEmpty(parts[1..])
  }

  function SplitTopLevel(sql: string): seq<string> {
    NonEmpty(Trimmed(Split(Text(sql), Code(sql), 0)))
  }

  function Join(parts: seq<string>): string
    requires parts != []
  {
    if |parts| == 1 then parts[0] else parts[0] + "," + Join(parts[1..])
  }

  /** The offset of the comma after part `k`. */
  function CutAfter(parts: seq<string>, k: nat): nat
    requires k < |parts|
  {
    if k == 0 then |parts[0]| else |parts[0]| + 1 + CutAfter(parts[1..], k - 1)
  }

  ghost predicate IsCut(parts: seq<string>, j: nat) {
    exists k :: 0 <= k < |parts| - 1 && CutAfter(parts, k) == j
  }

  /** The text is cut exactly at the top-level commas: those of the code at depth zero. */
  lemma {:induction false} CutsAreTopLevelCommas(text: string, code: string, depth: int, j: nat)
    requires |text| == |code|
    ensures IsCut(Split(text, code, depth), j) <==>
              j < |code| && code[j] == ',' && depth + Depth(code, 0, j) == 0
    decreases |code|
  {
    var parts := Split(text, code, depth);
    if code != [] {
      if code[0] == ',' && depth == 0 {
        var rest := Split(text[1..], code[1..], depth);
        if j > 0 {
          CutsAreTopLevelCommas(text[1..], code[1..], depth, j - 1);
          if j <= |code| { DepthShift(code, j); }
          forall k | 0 <= k < |rest| - 1 && CutAfter(rest, k) == j - 1 ensures IsCut(parts, j) {
            assert CutAfter(parts, k + 1) == j;
          }
          forall k | 0 <= k < |parts| - 1 && CutAfter(parts, k) == j ensures IsCut(rest, j - 1) {
            assert CutAfter(rest, k - 1) == j - 1;
          }
        } else {
          assert CutAfter(parts, 0) == 0;
        }
      } else {
        var rest := Split(text[1..], code[1..], depth + Delta(code[0]));
        if j > 0 {
          CutsAreTopLevelCommas(text[1..], code[1..], depth + Delta(code[0]), j - 1);
          if j <= |code| { DepthShift(code, j); }
          forall k | 0 <= k < |rest| - 1 && CutAfter(rest, k) == j - 1 ensures IsCut(parts, j) {
            CutPrepended([text[0]], rest, k);
          }
          forall k | 0 <= k < |parts| - 1 && CutAfter(parts, k) == j ensures IsCut(rest, j - 1) {
            CutPrepended([text[0]], rest, k);
          }
        } else {
          forall k | 0 <= k < |parts| - 1 ensures CutAfter(parts, k) != 0 {
            CutPrepended([text[0]], rest, k);
          }
        }
      }
    }
  }

  lemma CutPrepended(part: string, parts: seq<string>, k: nat)
    requires k < |parts|
    ensures CutAfter(Prepend(part, parts), k) == |part| + CutAfter(parts, k)
  {
    assert Prepend(part, parts)[1..] == parts[1..];
  }

  lemma {:induction false} DepthShift(code: string, j: nat)
    requires 0 < j <= |code|
    ensures Depth(code, 0, j) == Delta(code[0]) + Depth(code[1..], 0, j - 1)
  {
    if j > 1 { DepthShift(code, j - 1); }
  }

  /** Nothing is lost: the parts joined with commas are the text. */
  lemma {:induction false} SplitJoins(text: string, code: string, depth: int)
    requires |text| == |code|
    requires forall i :: 0 <= i < |code| && code[i] == ',' ==> text[i] == ','
    ensures Join(Split(text, code, depth)) == text
    decreases |code|
  {
    if code != [] {
      if code[0] == ',' && depth == 0 {
        SplitJoins(text[1..], code[1..], depth);
        assert text == "," + text[1..];
      } else {
        var rest := Split(text[1..], code[1..], depth + Delta(code[0]));
        SplitJoins(text[1..], code[1..], depth + Delta(code[0]));
        assert text == [text[0]] + text[1..];
      }
    }
  }

  // The loop of the source.

  lemma TrimmedPrepend(part: string, parts: seq<string>)
    ensures Trimmed([part] + parts) == [Trim(part)] + Trimmed(parts)
  {
  }

  lemma {:induction false} NonEmptyConcat(a: seq<string>, b: seq<string>)
    ensures NonEmpty(a + b) == NonEmpty(a) + NonEmpty(b)
  {
    if a != [] {
      NonEmptyConcat(a[1..], b);
      assert (a + b)[1..] == a[1..] + b;
    } else {
      assert a + b == b;
    }
  }

  lemma PrependTwice(a: string, b: string, parts: seq<string>)
    requires parts != []
    ensures Prepend(a, Prepend(b, parts)) == Prepend(a + b, parts)
  {
    assert a + (b + parts[0]) == a + b + parts[0];
  }

  /** What remains to be split when the loop is at `index` with the current part from `start`. */
  function Remaining(text: string, code: string, start: nat, index: nat, depth: int): seq<string>
    requires start <= index <= |text| == |code|
  {
    Prepend(text[start..index], Split(text[index..], code[index..], depth))
  }

  lemma RemainingStep(text: string, code: string, start: nat, index: nat, depth: int)
    requires start <= index < |text| == |code|
    ensures code[index] == ',' && depth == 0 ==>
      Remaining(text, code, start, index, depth) ==
      [text[start..index]] + Remaining(text, code, index + 1, index + 1, depth)
    ensures !(code[index] == ',' && depth == 0) ==>
      Remaining(text, code, start, index, depth) ==
      Remaining(text, code, start, index + 1, depth + Delta(code[index]))
  {
    assert text[index..][1..] == text[index + 1..] && code[index..][1..] == code[index + 1..];
    var rest := Split(text[index + 1..], code[index + 1..], depth + Delta(code[index]));
    if code[index] == ',' && depth == 0 {
      assert Delta(code[index]) == 0;
      assert text[index + 1..index + 1] == [];
      assert Prepend([], rest) == rest by { assert [] + rest[0] == rest[0]; }
      assert Prepend(text[start..index], [[]] + rest) == [text[start..index]] + rest by {
        assert text[start..index] + [] == text[start..index];
      }
    } else {
      PrependTwice(text[start..index], [text[index]], rest);
      assert text[start..index + 1] == text[start..index] + [text[index]];
    }
  }

  lemma FirstPart(text: string, code: string)
    requires |text| == |code|
    ensures Remaining(text, code, 0, 0, 0) == Split(text, code, 0)
  {
    hide Split;
    var all := Split(text, code, 0);
    assert text[0..] == text && code[0..] == code && [] + all[0] == all[0];
  }

  lemma LastPart(text: string, code: string, start: nat, depth: int)
    requires start <= |text| == |code|
    ensures Trimmed(Remaining(text, code, start, |text|, depth)) == [Trim(text[start..])]
  {
    hide Trim;
    assert text[start..|text|] + [] == text[start..];
    assert Remaining(text, code, start, |text|, depth) == [text[start..]];
  }

  method SplitTopLevelLoop(sql: string) returns (parts: seq<string>)
    ensures parts == SplitTopLevel(sql)
  {
    hide Text, Code, Split, Prepend, Trim, Trimmed, Remaining, NonEmpty, Token;
    var texts, codes := Scan(sql);
    var text, code := texts[..], codes[..];
    ghost var all := Split(text, code, 0);
    var pushed: seq<string> := [];
    var start, depth := 0, 0;
    FirstPart(text, code);
    for index := 0 to |code|
      invariant start <= index
      invariant Trimmed(all) == pushed + Trimmed(Remaining(text, code, start, index, depth))
    {
      RemainingStep(text, code, start, index, depth);
      if code[index] == '(' {
        depth := depth + 1;
      } else if code[index] == ')' {
        depth := depth - 1;
      } else if code[index] == ',' && depth == 0 {
        TrimmedPrepend(text[start..index], Remaining(text, code, index + 1, index + 1, depth));
        ghost var rest := Trimmed(Remaining(text, code, index + 1, index + 1, depth));
        assert pushed + ([Trim(text[start..index])] + rest) == pushed + [Trim(text[start..index])] + rest;
        pushed := pushed + [Trim(text[start..index])];
        start := index + 1;
      }
    }
    LastPart(text, code, start, depth);
    pushed := pushed + [Trim(text[start..])];
    assert pushed == Trimmed(all);
    parts := NonEmpty(pushed);
  }

  // ------------------------------------------------------------------------------------------
  // Identifiers.

  predicate DigitLetter(c: char) {
    'A' <= c <= 'Z' || 'a' <= c <= 'z' || '0' <= c <= '9' || c == '_'
  }

  /** Where a value delimited by doubled quotes ends: as far as the quotes allow, `some` telling
      whether anything was read. */
  function DelimitedEnd(s: string, quote: char, i: nat, some: bool): (end: Option<nat>)
    ensures end.Some? ==> i < end.value <= |s|
    decreases if i < |s| then |s| - i else 0
  {
    if i >= |s| then None
    else if s[i] != quote then DelimitedEnd(s, quote, i + 1, true)
    else
      var further := if i + 1 < |s| && s[i + 1] == quote then DelimitedEnd(s, quote, i + 2, true) else None;
      if further.Some? then further else if some then Some(i + 1) else None
  }

  function BracketEnd(s: string, i: nat): (end: Option<nat>)
    ensures end.Some? ==> i < end.value <= |s|
    decreases if i < |s| then |s| - i else 0
  {
    if i >= |s| then None else if s[i] == ']' then Some(i + 1) else BracketEnd(s, i + 1)
  }

  function WordEnd(s: string, i: nat): (end: nat)
    requires i <= |s|
    ensures i <= end <= |s|
    decreases |s| - i
  {
    if i < |s| && (DigitLetter(s[i]) || s[i] == '$') then WordEnd(s, i + 1) else i
  }

  function ReadIdentifier(s: string): Option<string> {
    if s == [] then None
    else if s[0] == '"' || s[0] == '`' then
      var end := DelimitedEnd(s, s[0], 1, false);
      if end.Some? then Some(s[..end.value]) else None
    else if s[0] == '[' then
      if |s| > 1 && s[1] == ']' then None
      else
        var end := BracketEnd(s, 1);
        if end.Some? then Some(s[..end.value]) else None
    else if DigitLetter(s[0]) && !('0' <= s[0] <= '9') then Some(s[..WordEnd(s, 1)])
    else None
  }

  function Undoubled(s: string, quote: char): string {
    if |s| >= 2 && s[0] == quote && s[1] == quote then [quote] + Undoubled(s[2..], quote)
    else if s != [] then [s[0]] + Undoubled(s[1..], quote)
    else []
  }

  function UnquoteIdentifier(value: string): string
    requires value != []
  {
    var first, last := value[0], value[|value| - 1];
    var inner := if |value| >= 2 then value[1..|value| - 1] else [];
    if first == last && (first == '"' || first == '`') then Undoubled(inner, first)
    else if first == '[' && last == ']' then inner
    else value
  }

  /** The printer: None is the error for a blank name. */
  function QuoteIdentifier(name: string): Option<string> {
    if Trim(name) == [] then None else Some(Quoted(name))
  }

  function Doubled(s: string, quote: char): string {
    if s == [] then [] else (if s[0] == quote then [quote, quote] else [s[0]]) + Doubled(s[1..], quote)
  }

  function Enclosed(name: string, quote: char): string {
    [quote] + Doubled(name, quote) + [quote]
  }

  function Quoted(name: string): string {
    Enclosed(name, '"')
  }

  /** The ways to write a name. */
  datatype Spelling = Quotes | Backticks | Brackets | Bare

  function Spell(spelling: Spelling, name: string): string {
    match spelling
    case Quotes => Quoted(name)
    case Backticks => Enclosed(name, '`')
    case Brackets => "[" + name + "]"
    case Bare => name
  }

  predicate WordChar(c: char) {
    DigitLetter(c) || c == '$'
  }

  predicate Spellable(spelling: Spelling, name: string) {
    && name != []
    && (spelling.Brackets? ==> ']' !in name)
    && (spelling.Bare? ==> !('0' <= name[0] <= '9') && name[0] != '$' && forall i :: 0 <= i < |name| ==> WordChar(name[i]))
  }

  /** Text after the name that does not continue it. */
  predicate EndsName(spelling: Spelling, u: string) {
    u != [] ==>
      match spelling
      case Quotes => u[0] != '"'
      case Backticks => u[0] != '`'
      case Brackets => true
      case Bare => !WordChar(u[0])
  }

  lemma {:induction false} UndoubledDoubled(name: string, quote: char)
    ensures Undoubled(Doubled(name, quote), quote) == name
  {
    if name != [] {
      UndoubledDoubled(name[1..], quote);
      var d := Doubled(name, quote);
      if name[0] == quote {
        assert d[2..] == Doubled(name[1..], quote);
      } else {
        assert d[1..] == Doubled(name[1..], quote);
      }
      assert name == [name[0]] + name[1..];
    }
  }

  lemma {:induction false} DelimitedThroughDoubled(p: string, name: string, quote: char, u: string, some: bool)
    requires name != [] || some
    requires u != [] ==> u[0] != quote
    ensures var end := |p| + |Doubled(name, quote)| + 1;
            DelimitedEnd(p + Doubled(name, quote) + [quote] + u, quote, |p|, some) == Some(end)
    decreases |name|
  {
    var s := p + Doubled(name, quote) + [quote] + u;
    var i := |p|;
    if name == [] {
      assert s[i] == quote;
      assert i + 1 < |s| ==> s[i + 1] == u[0];
    } else if name[0] == quote {
      DelimitedThroughDoubled(p + [quote, quote], name[1..], quote, u, true);
      assert p + [quote, quote] + Doubled(name[1..], quote) == p + Doubled(name, quote);
    } else {
      DelimitedThroughDoubled(p + [name[0]], name[1..], quote, u, true);
      assert p + [name[0]] + Doubled(name[1..], quote) == p + Doubled(name, quote);
    }
  }

  lemma {:induction false} EnclosedReads(name: string, quote: char, u: string)
    requires name != [] && (quote == '"' || quote == '`') && (u != [] ==> u[0] != quote)
    ensures ReadIdentifier(Enclosed(name, quote) + u) == Some(Enclosed(name, quote))
    ensures UnquoteIdentifier(Enclosed(name, quote)) == name
  {
    DelimitedThroughDoubled([quote], name, quote, u, false);
    UndoubledDoubled(name, quote);
    var q := Enclosed(name, quote);
    assert (q + u)[..|q|] == q;
    assert q[1..|q| - 1] == Doubled(name, quote);
  }

  lemma {:induction false} BracketThrough(p: string, name: string, u: string)
    requires ']' !in name
    ensures BracketEnd(p + name + "]" + u, |p|) == Some(|p| + |name| + 1)
    decreases |name|
  {
    var s := p + name + "]" + u;
    if name == [] {
      assert s[|p|] == ']';
    } else {
      assert s[|p|] == name[0];
      BracketThrough(p + [name[0]], name[1..], u);
      assert p + [name[0]] + name[1..] == p + name;
    }
  }

  lemma {:induction false} WordThrough(p: string, name: string, u: string)
    requires (forall i :: 0 <= i < |name| ==> WordChar(name[i])) && (u != [] ==> !WordChar(u[0]))
    ensures WordEnd(p + name + u, |p|) == |p| + |name|
    decreases |name|
  {
    var s := p + name + u;
    if name == [] {
      assert |p| < |s| ==> s[|p|] == u[0];
    } else {
      assert s[|p|] == name[0];
      WordThrough(p + [name[0]], name[1..], u);
      assert p + [name[0]] + name[1..] == p + name;
    }
  }

  /** Reading a name back, however it is spelled and whatever follows that does not continue it. */
  lemma {:induction false} SpelledNameReads(spelling: Spelling, name: string, u: string)
    requires Spellable(spelling, name) && EndsName(spelling, u)
    ensures ReadIdentifier(Spell(spelling, name) + u) == Some(Spell(spelling, name))
    ensures UnquoteIdentifier(Spell(spelling, name)) == name
  {
    var q := Spell(spelling, name);
    match spelling
    case Quotes => EnclosedReads(name, '"', u);
    case Backticks => EnclosedReads(name, '`', u);
    case Brackets =>
      BracketThrough("[", name, u);
      assert q + u == "[" + name + "]" + u && (q + u)[..|q|] == q && q[1..|q| - 1] == name;
      assert (q + u)[1] == name[0];
    case Bare =>
      WordThrough([name[0]], name[1..], u);
      assert [name[0]] + name[1..] == name && (q + u)[..|q|] == q && (q + u)[0] == name[0];
      assert WordChar(name[0]);
  }

  /** The printer's names are read back; only a blank name has none. */
  lemma QuotedNameReads(name: string, u: string)
    requires EndsName(Quotes, u)
    ensures QuoteIdentifier(name).None? <==> forall i :: 0 <= i < |name| ==> IsBlank(name[i])
    ensures var q := QuoteIdentifier(name);
            q.Some? ==> ReadIdentifier(q.value + u) == q && q.value != [] && UnquoteIdentifier(q.value) == name
  {
    TrimEmptyExactly(name);
    if name != [] { SpelledNameReads(Quotes, name, u); }
  }

  lemma {:induction false} TrimEmptyExactly(s: string)
    ensures Trim(s) == [] <==> forall i :: 0 <= i < |s| ==> IsBlank(s[i])
    decreases |s|
  {
    if s != [] && IsBlank(s[0]) {
      TrimEmptyExactly(s[1..]);
      assert forall i :: 0 < i < |s| ==> s[i] == s[1..][i - 1];
    } else if s != [] {
      TrimEndKeepsFirst(s);
    }
  }

  lemma {:induction false} TrimEndKeepsFirst(s: string)
    requires s != [] && !IsBlank(s[0])
    ensures TrimEnd(s) != [] && TrimEnd(s)[0] == s[0]
    decreases |s|
  {
    if IsBlank(s[|s| - 1]) { TrimEndKeepsFirst(s[..|s| - 1]); }
  }

  lemma {:induction false} NeverClosed(s: string, quote: char, i: nat, some: bool)
    requires forall j :: i <= j < |s| ==> s[j] != quote
    ensures DelimitedEnd(s, quote, i, some).None?
    decreases if i < |s| then |s| - i else 0
  {
    if i < |s| { NeverClosed(s, quote, i + 1, true); }
  }

  lemma {:induction false} BracketNeverClosed(s: string, i: nat)
    requires forall j :: i <= j < |s| ==> s[j] != ']'
    ensures BracketEnd(s, i).None?
    decreases if i < |s| then |s| - i else 0
  {
    if i < |s| { BracketNeverClosed(s, i + 1); }
  }

  /** Delimiters around nothing are no name, nor is what is never closed. */
  lemma EmptyNameReads(quote: char, u: string)
    requires quote in "\"`" && quote !in u
    ensures ReadIdentifier([quote] + u).None? && ReadIdentifier([quote, quote] + u).None?
  {
    NeverClosed([quote] + u, quote, 1, false);
    NeverClosed([quote, quote] + u, quote, 3, true);
  }

  lemma EmptyBracketsRead(u: string)
    ensures ReadIdentifier("[]" + u).None?
    ensures ']' !in u ==> ReadIdentifier("[" + u).None?
  {
    if ']' !in u { BracketNeverClosed("[" + u, 1); }
  }

  const CAPITALS := {
    'A', 'B', 'C', 'D', 'E', 'F', 'G', 'H', 'I', 'J', 'K', 'L', 'M', 'N', 'O', 'P', 'Q', 'R', 'S', 'T', 'U', 'V',
    'W', 'X', 'Y', 'Z'
  }

  const DIGITS := {'0', '1', '2', '3', '4', '5', '6', '7', '8', '9', '_'}

  lemma CapitalExactly(c: char)
    ensures c in CAPITALS <==> 'A' <= c <= 'Z'
  {
  }

  /** What words are made of: letters in either case, digits and the underscore. */
  lemma WordExactly(c: char)
    ensures DigitLetter(c) <==> Upper(c) in CAPITALS || c in DIGITS
  {
    CapitalExactly(Upper(c));
  }

  function Upper(c: char): char {
    if 'a' <= c <= 'z' then (c as int - 32) as char else c
  }

  /** Nothing else starts a name. */
  lemma NoNameReads(s: string)
    requires s == [] || !(DigitLetter(s[0]) || s[0] in "\"`[") || '0' <= s[0] <= '9'
    ensures ReadIdentifier(s).None?
  {
  }

  /** A name that is read is a beginning of the text, and never empty. */
  lemma ReadsAhead(s: string)
    ensures var r := ReadIdentifier(s); r.Some? ==> r.value != [] && r.value <= s
  {
  }
}
