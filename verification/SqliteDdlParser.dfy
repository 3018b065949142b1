/** Column names out of a CREATE TABLE statement, and why printing columns and parsing them back gives
    the same names. */
module SqliteDdlParser {
  import opened Options
  import opened SqliteDdlText
  import opened SqliteDdlScanner

  // ------------------------------------------------------------------------------------------
  // The parser.

  function FirstParen(code: string, i: nat): (r: int)
    requires i <= |code|
    ensures -1 <= r < |code|
    decreases |code| - i
  {
    if i == |code| then -1 else if code[i] == '(' then i else FirstParen(code, i + 1)
  }

  /** `^word\b`, ignoring case. */
  predicate StartsWord(s: string, word: string) {
    |word| <= |s| && Lower(s[..|word|]) == word && (|s| == |word| || !DigitLetter(s[|word|]))
  }

  /** `^check\s*\(...\)$`, ignoring case. */
  predicate IsTableCheck(s: string) {
    |s| > 5 && Lower(s[..5]) == "check" &&
    var rest := TrimStart(s[5..]);
    |rest| >= 2 && rest[0] == '(' && rest[|rest| - 1] == ')'
  }

  /** Table constraints, which define no column. */
  predicate IsConstraint(definition: string) {
    || IsTableCheck(definition)
    || StartsWord(definition, "primary") || StartsWord(definition, "unique")
    || StartsWord(definition, "foreign") || StartsWord(definition, "constraint")
  }

  /** The keys of an insertion-ordered map after setting one. */
  function SetKey(keys: seq<string>, key: string): seq<string> {
    if key in keys then keys else keys + [key]
  }

  function ColumnOf(definition: string): Option<string> {
    if IsConstraint(definition) then None
    else
      var identifier := ReadIdentifier(definition);
      if identifier.None? || identifier.value == [] then None else Some(UnquoteIdentifier(identifier.value))
  }

  function ColumnsOf(definitions: seq<string>): seq<string> {
    if definitions == [] then []
    else
      var keys := ColumnsOf(definitions[..|definitions| - 1]);
      var column := ColumnOf(definitions[|definitions| - 1]);
      if column.Some? then SetKey(keys, column.value) else keys
  }

  /** The comment-free text between the first parenthesis and the one that balances it. */
  ghost predicate IsBody(sql: string, body: string) {
    var open := FirstParen(Code(sql), 0);
    open >= 0 && exists close: nat :: LeastBalance(Code(sql), open, close) && body == Text(sql)[open + 1..close]
  }

  ghost predicate HasNoBody(sql: string) {
    var open := FirstParen(Code(sql), 0);
    open < 0 || StaysOpen(Code(sql), open, |sql|)
  }

  lemma {:induction false} FirstParenIs(code: string, i: nat)
    requires i <= |code|
    ensures var r := FirstParen(code, i);
            && (r >= 0 ==> i <= r && code[r] == '(')
            && (forall j :: i <= j < (if r >= 0 then r else |code|) ==> code[j] != '(')
    decreases |code| - i
  {
    if i < |code| && code[i] != '(' { FirstParenIs(code, i + 1); }
  }

  lemma NothingOpens()
    ensures HasNoBody("")
  {
  }

  lemma BodyIsNotOpen(code: string, open: nat, close: nat)
    requires LeastBalance(code, open, close)
    ensures !StaysOpen(code, open, |code|)
  {
    assert Depth(code, open, close + 1) == 0;
  }

  /** What the matching parenthesis in the code of a text says of its body. */
  lemma {:induction false} BodyDecided(sql: string, open: int, close: int)
    requires open == FirstParen(Code(sql), 0)
    requires close == -1 || (0 <= open < close && LeastBalance(Code(sql), open, close))
    requires close == -1 <==> open < 0 || Code(sql)[open] != '(' || StaysOpen(Code(sql), open, |sql|)
    ensures close == -1 ==> HasNoBody(sql)
    ensures close != -1 ==> close <= |sql| && !HasNoBody(sql) && IsBody(sql, Text(sql)[open + 1..close])
  {
    hide Text, Code, Depth, FirstParen;
    FirstParenIs(Code(sql), 0);
    if close != -1 { BodyIsNotOpen(Code(sql), open, close); }
  }

  method ParenthesizedBody(sql: string) returns (body: Option<string>)
    ensures body.Some? ==> IsBody(sql, body.value)
    ensures body.None? <==> HasNoBody(sql)
  {
    hide Text, Code, Depth, FirstParen, IsBody, HasNoBody, StaysOpen;
    var texts, codes := Scan(sql);
    var text, code := texts[..], codes[..];
    if sql == [] {
      NothingOpens();
      return None;
    }
    var open := FirstParen(code, 0);
    MaskingIsIdempotent(sql);
    var close := MatchingParen(code, open);
    BodyDecided(sql, open, close);
    if open >= 0 && close > open {
      body := Some(text[open + 1..close]);
    } else {
      body := None;
    }
  }

  /** The column names `parseSqliteTableSql` collects. */
  function ColumnsOfBody(body: Option<string>): seq<string> {
    if body.None? || body.value == [] then [] else ColumnsOf(SplitTopLevel(body.value))
  }

  lemma BodyUnique(sql: string, a: string, b: string)
    requires IsBody(sql, a) && IsBody(sql, b)
    ensures a == b && !HasNoBody(sql)
  {
    hide Text, Code, Depth, FirstParen;
    var open := FirstParen(Code(sql), 0);
    var i: nat :| LeastBalance(Code(sql), open, i) && a == Text(sql)[open + 1..i];
    var j: nat :| LeastBalance(Code(sql), open, j) && b == Text(sql)[open + 1..j];
    LeastBalanceUnique(Code(sql), open, i, j);
    BodyIsNotOpen(Code(sql), open, i);
  }

  method ParseTable(sql: string) returns (columns: seq<string>)
    ensures HasNoBody(sql) ==> columns == []
    ensures forall body :: IsBody(sql, body) ==> columns == ColumnsOfBody(Some(body))
  {
    hide IsBody, HasNoBody, ColumnsOf, SplitTopLevel;
    columns := [];
    var inside := ParenthesizedBody(sql);
    forall body | IsBody(sql, body) ensures inside == Some(body) {
      BodyUnique(sql, body, if inside.Some? then inside.value else body);
    }
    if inside.None? || inside.value == [] {
      return;
    }
    var definitions := SplitTopLevelLoop(inside.value);
    columns := CollectColumns(definitions);
  }

  method CollectColumns(definitions: seq<string>) returns (columns: seq<string>)
    ensures columns == ColumnsOf(definitions)
  {
    columns := [];
    for k := 0 to |definitions|
      invariant columns == ColumnsOf(definitions[..k])
    {
      assert definitions[..k + 1][..k] == definitions[..k];
      hide IsConstraint, ReadIdentifier, UnquoteIdentifier;
      if IsConstraint(definitions[k]) {
        continue;
      }
      var identifier := ReadIdentifier(definitions[k]);
      if identifier.None? || identifier.value == [] {
        continue;
      }
      columns := SetKey(columns, UnquoteIdentifier(identifier.value));
    }
    assert definitions[..|definitions|] == definitions;
  }

  // ------------------------------------------------------------------------------------------
  // Strings that can be put together without their tokens running into each other.

  /** Every token is complete: quotes and block comments are closed, a line comment has its newline. */
  predicate Closed(s: string)
    decreases |s|
  {
    s == [] || (CompleteToken(s) && Closed(s[Token(s)..]))
  }

  predicate CompleteToken(s: string)
    requires s != []
  {
    if IsQuote(s[0]) then QuoteClosed(s[..Token(s)], Closing(s[0]), 1)
    else if LineStart(s) then Token(s) < |s|
    else if BlockStart(s) then Token(s) >= 4 && s[Token(s) - 2] == '*' && s[Token(s) - 1] == '/'
    else true
  }

  /** What may follow: nothing, or a character that neither starts nor continues a token. */
  predicate Separates(u: string) {
    u != [] ==> !IsQuote(u[0]) && u[0] != '-' && u[0] != '*'
  }

  lemma {:induction false} LineEndAppend(s: string, i: nat, u: string)
    requires i <= |s| && LineEnd(s, i) < |s|
    ensures LineEnd(s + u, i) == LineEnd(s, i)
    decreases |s| - i
  {
    if s[i] != '\n' { LineEndAppend(s, i + 1, u); }
  }

  lemma {:induction false} BlockEndAppend(s: string, i: nat, u: string)
    requires i <= |s| && BlockEnd(s, i) >= i + 2
    requires s[BlockEnd(s, i) - 2] == '*' && s[BlockEnd(s, i) - 1] == '/'
    ensures BlockEnd(s + u, i) == BlockEnd(s, i)
    decreases |s| - i
  {
    if i < |s| && !(s[i] == '*' && i + 1 < |s| && s[i + 1] == '/') {
      assert BlockEnd(s, i + 1) != i + 2;
      BlockEndAppend(s, i + 1, u);
    }
  }

  lemma TokenAppend(s: string, u: string)
    requires s != [] && CompleteToken(s) && Separates(u)
    ensures Token(s + u) == Token(s)
    ensures TextHead(s + u) == TextHead(s) && CodeHead(s + u) == CodeHead(s)
  {
    var n := Token(s);
    var all := s + u;
    if IsQuote(s[0]) {
      var rest := s[n..] + u;
      if n < |s| { QuoteStops(s, Closing(s[0]), 1); }
      QuoteEndAppend(s[..n], Closing(s[0]), 1, rest);
      assert s[..n] + rest == all;
    } else if LineStart(s) {
      LineEndAppend(s, 2, u);
    } else if BlockStart(s) {
      BlockEndAppend(s, 2, u);
    }
    assert all[..n] == s[..n];
  }

  lemma {:induction false} ScanConcat(s: string, u: string)
    requires Closed(s) && Separates(u)
    ensures Text(s + u) == Text(s) + Text(u) && Code(s + u) == Code(s) + Code(u)
    ensures Closed(u) ==> Closed(s + u)
    decreases |s|
  {
    if s == [] {
      assert s + u == u && Text(s) + Text(u) == Text(u) && Code(s) + Code(u) == Code(u);
    } else {
      hide Token, TextHead, CodeHead, CompleteToken, Text, Code;
      var n := Token(s);
      HeadStep(s, u);
      ScanConcat(s[n..], u);
      Associate(TextHead(s), Text(s[n..]), Text(u));
      Associate(CodeHead(s), Code(s[n..]), Code(u));
    }
  }

  lemma HeadStep(s: string, u: string)
    requires s != [] && Closed(s) && Separates(u)
    ensures var rest := s[Token(s)..];
            && Text(s) == TextHead(s) + Text(rest) && Code(s) == CodeHead(s) + Code(rest)
            && Text(s + u) == TextHead(s) + Text(rest + u) && Code(s + u) == CodeHead(s) + Code(rest + u)
            && (Closed(rest + u) ==> Closed(s + u))
  {
    TokenAppend(s, u);
    CompleteAppend(s, u);
    assert (s + u)[Token(s)..] == s[Token(s)..] + u;
    hide Token, TextHead, CodeHead, CompleteToken;
  }

  lemma Associate(a: string, b: string, c: string)
    ensures (a + b) + c == a + (b + c)
  {
  }

  lemma CompleteAppend(s: string, u: string)
    requires s != [] && CompleteToken(s) && Separates(u)
    ensures CompleteToken(s + u)
  {
    TokenAppend(s, u);
    assert (s + u)[..Token(s)] == s[..Token(s)];
  }

  // ------------------------------------------------------------------------------------------
  // Words that start a table constraint.

  /** Equal up to upper case, `word` being in lower case. */
  predicate Alike(s: string, word: string) {
    |s| == |word| && forall i :: 0 <= i < |s| ==> s[i] == word[i] || s[i] as int + 32 == word[i] as int
  }

  predicate LowerCase(word: string) {
    forall i :: 0 <= i < |word| ==> 'a' <= word[i] <= 'z'
  }

  const TABLE_WORDS := {"primary", "unique", "foreign", "constraint"}

  lemma TableWords(word: string)
    requires word in TABLE_WORDS
    ensures LowerCase(word) && 6 <= |word|
  {
  }

  lemma AlikeLowers(s: string, word: string)
    requires LowerCase(word)
    ensures Alike(s, word) <==> Lower(s) == word
  {
    if Alike(s, word) {
      forall i | 0 <= i < |s| ensures Lower(s)[i] == word[i] { assert s[i] == word[i] || s[i] as int + 32 == word[i] as int; }
      assert Lower(s) == word;
    }
    if Lower(s) == word {
      forall i | 0 <= i < |s| ensures s[i] == word[i] || s[i] as int + 32 == word[i] as int { assert Lower(s)[i] == word[i]; }
    }
  }

  /** The word, or the word continued with a dollar sign. */
  predicate Continues(name: string, word: string) {
    |word| <= |name| && Alike(name[..|word|], word) && (|word| < |name| ==> name[|word|] == '$')
  }

  /** A bare name that the parser takes for the beginning of a table constraint. */
  predicate Reserved(name: string) {
    exists word :: word in TABLE_WORDS && Continues(name, word)
  }

  predicate Parenthesized(s: string) {
    |s| >= 2 && s[0] == '(' && s[|s| - 1] == ')'
  }

  lemma StartsWordExactly(s: string, word: string)
    requires word in TABLE_WORDS
    ensures StartsWord(s, word) <==>
              |word| <= |s| && Alike(s[..|word|], word) && (|word| < |s| ==> !DigitLetter(s[|word|]))
  {
    TableWords(word);
    if |word| <= |s| { AlikeLowers(s[..|word|], word); }
  }

  /** A bare name followed by nothing or a blank starts with a table word exactly if it continues it. */
  lemma {:induction false} WordStarts(name: string, u: string, word: string)
    requires Spellable(Bare, name) && (u != [] ==> u[0] == ' ') && word in TABLE_WORDS
    ensures StartsWord(name + u, word) <==> Continues(name, word)
  {
    hide StartsWord;
    var s := name + u;
    StartsWordExactly(s, word);
    TableWords(word);
    if |word| <= |name| {
      assert s[..|word|] == name[..|word|];
      if |word| < |name| { assert s[|word|] == name[|word|] && WordChar(name[|word|]); }
      else if |word| < |s| { assert s[|word|] == u[0]; }
    } else if |word| <= |s| {
      assert s[|name|] == u[0] && s[..|word|][|name|] == ' ';
    }
  }

  lemma {:induction false} TrimsSwap(s: string)
    ensures TrimStart(TrimEnd(s)) == TrimEnd(TrimStart(s))
    decreases |s|
  {
    if s != [] && IsBlank(s[0]) {
      TrimsSwap(s[1..]);
      TrimEndBlankAhead(s[0], s[1..]);
      assert s == [s[0]] + s[1..];
    } else if s != [] {
      TrimEndKeepsFirst(s);
    }
  }

  lemma {:induction false} TrimEndBlankAhead(c: char, s: string)
    requires IsBlank(c)
    ensures TrimStart(TrimEnd([c] + s)) == TrimStart(TrimEnd(s))
    decreases |s|
  {
    var t := [c] + s;
    if s == [] {
      assert t[..0] == [];
    } else if IsBlank(s[|s| - 1]) {
      TrimEndBlankAhead(c, s[..|s| - 1]);
      assert t[..|t| - 1] == [c] + s[..|s| - 1];
    } else {
      assert t[1..] == s;
    }
  }

  /** A column with a bare name is read as such exactly if the name is not reserved, and is not `check` before
      a parenthesis. */
  lemma {:induction false} BareColumnExactly(name: string, text: string)
    requires Spellable(Bare, name)
    ensures var t := Trim(name + (" " + text));
            && t != []
            && (ColumnOf(t) == Some(name) <==> !Reserved(name) && !(Alike(name, "check") && Parenthesized(Trim(text))))
            && (ColumnOf(t) != Some(name) ==> ColumnOf(t).None?)
  {
    var u := TrimEnd(" " + text);
    var t := Trim(name + (" " + text));
    assert WordChar(name[|name| - 1]) && WordChar(name[0]);
    TrimEndKeeps(name, " " + text);
    assert t == name + u;
    TrimEndStartsAlike(" " + text);
    forall word | word in TABLE_WORDS ensures StartsWord(t, word) <==> Continues(name, word) { WordStarts(name, u, word); }
    CheckExactly(name, text);
    SpelledNameReads(Bare, name, u);
  }

  /** So a column called `primary$id`, unquoted, is lost: the word boundary of the pattern comes before the
      dollar sign. */
  lemma DollarNameLost(word: string, suffix: string, text: string)
    requires word in TABLE_WORDS && forall i :: 0 <= i < |suffix| ==> WordChar(suffix[i])
    ensures ColumnOf(Trim(word + "$" + suffix + (" " + text))).None?
  {
    var name := word + "$" + suffix;
    TableWords(word);
    assert name[..|word|] == word && Alike(word, word);
    assert Continues(name, word);
    assert forall i :: 0 <= i < |name| ==>
      name[i] == if i < |word| then word[i] else if i == |word| then '$' else suffix[i - |word| - 1];
    BareColumnExactly(name, text);
  }

  lemma {:induction false} CheckExactly(name: string, text: string)
    requires Spellable(Bare, name)
    ensures IsTableCheck(name + TrimEnd(" " + text)) <==> Alike(name, "check") && Parenthesized(Trim(text))
  {
    var u := TrimEnd(" " + text);
    var s := name + u;
    TrimEndStartsAlike(" " + text);
    assert LowerCase("check");
    if |s| > 5 {
      AlikeLowers(s[..5], "check");
      if |name| < 5 {
        assert s[..5][|name|] == u[0] == ' ';
      } else if |name| == 5 {
        assert s[..5] == name && s[5..] == u;
        TrimsSwap(" " + text);
        assert (" " + text)[1..] == text;
      } else {
        assert s[5..][0] == name[5] && WordChar(name[5]);
      }
    }
    if |name| == 5 {
      TrimsSwap(" " + text);
      assert (" " + text)[1..] == text;
    }
  }

  lemma {:induction false} TrimEndKeeps(a: string, b: string)
    requires a != [] && !IsBlank(a[|a| - 1])
    ensures TrimEnd(a + b) == a + TrimEnd(b)
    decreases |b|
  {
    if b == [] {
      assert a + b == a;
    } else if IsBlank(b[|b| - 1]) {
      TrimEndKeeps(a, b[..|b| - 1]);
      assert (a + b)[..|a + b| - 1] == a + b[..|b| - 1];
    }
  }

  lemma {:induction false} TrimEndStartsAlike(b: string)
    ensures TrimEnd(b) != [] ==> TrimEnd(b)[0] == b[0]
    decreases |b|
  {
    if b != [] && IsBlank(b[|b| - 1]) { TrimEndStartsAlike(b[..|b| - 1]); }
  }

  // ------------------------------------------------------------------------------------------
  // The printer.

  /** What stands between the commas: a column with its name and the rest of its definition; a table
      constraint, that is a word in any case and the rest; or a check without a name. */
  datatype Item =
    | Column(spelling: Spelling, name: string, rest: string)
    | Constraint(word: string, rest: string)
    | Check(word: string, gap: string, inner: string)

  function Definition(item: Item): string {
    match item
    case Column(spelling, name, rest) => Spell(spelling, name) + (" " + rest)
    case Constraint(word, rest) => word + rest
    case Check(word, gap, inner) => word + (gap + ("(" + (inner + ")")))
  }

  /** The definition without its comments. */
  function Shown(item: Item): string {
    match item
    case Column(spelling, name, rest) => Spell(spelling, name) + (" " + Text(rest))
    case Constraint(word, rest) => word + Text(rest)
    case Check(word, gap, inner) => word + (gap + ("(" + (Text(inner) + ")")))
  }

  function Definitions(items: seq<Item>): (r: seq<string>)
    ensures |r| == |items|
  {
    if items == [] then [] else [Definition(items[0])] + Definitions(items[1..])
  }

  function Body(items: seq<Item>): string {
    if items == [] then "" else Join(Definitions(items))
  }

  function PrintTable(head: string, items: seq<Item>, tail: string): string {
    head + ("(" + (Body(items) + (")" + tail)))
  }

  /** The columns, in order; the place of a repeated name is its first one. */
  function Names(items: seq<Item>): seq<string> {
    if items == [] then []
    else
      var last := items[|items| - 1];
      if last.Column? then SetKey(Names(items[..|items| - 1]), last.name) else Names(items[..|items| - 1])
  }

  /** Code in which parentheses are balanced and every comma is inside some. */
  predicate Nested(code: string, depth: nat) {
    if code == [] then depth == 0
    else if code[0] == '(' then Nested(code[1..], depth + 1)
    else if code[0] == ')' then depth > 0 && Nested(code[1..], depth - 1)
    else if code[0] == ',' then depth > 0 && Nested(code[1..], depth)
    else Nested(code[1..], depth)
  }

  predicate Balanced(code: string, depth: nat) {
    if code == [] then depth == 0
    else if code[0] == '(' then Balanced(code[1..], depth + 1)
    else if code[0] == ')' then depth > 0 && Balanced(code[1..], depth - 1)
    else Balanced(code[1..], depth)
  }

  /** Every name in any spelling that reads as one, every constraint and check; what follows is closed, with
      balanced parentheses and its commas inside them. */
  ghost predicate Printable(item: Item) {
    match item
    case Column(spelling, name, rest) =>
      && Spellable(spelling, name) && Closed(rest) && Nested(Code(rest), 0)
      && (spelling.Bare? ==> !Reserved(name) && !(Alike(name, "check") && Parenthesized(Trim(Text(rest)))))
    case Constraint(word, rest) =>
      && (exists w :: w in TABLE_WORDS && Alike(word, w)) && (rest != [] ==> !DigitLetter(rest[0]))
      && Closed(rest) && Nested(Code(rest), 0)
    case Check(word, gap, inner) =>
      && Alike(word, "check") && (forall i :: 0 <= i < |gap| ==> IsBlank(gap[i]))
      && Closed(inner) && Balanced(Code(inner), 0)
  }

  // What scanning a definition shows.

  /** Characters that start no quoted value and no comment. */
  predicate Solid(s: string) {
    forall i :: 0 <= i < |s| ==> !IsQuote(s[i]) && s[i] != '-' && s[i] != '/'
  }

  lemma SolidStep(c: char, u: string)
    requires !IsQuote(c) && c != '-' && c != '/'
    ensures Text([c] + u) == [c] + Text(u) && Code([c] + u) == [c] + Code(u) && (Closed(u) ==> Closed([c] + u))
  {
    var s := [c] + u;
    assert Token(s) == 1 && s[..1] == [c] && s[1..] == u;
  }

  lemma {:induction false} SolidAhead(p: string, u: string)
    requires Solid(p)
    ensures Text(p + u) == p + Text(u) && Code(p + u) == p + Code(u) && (Closed(u) ==> Closed(p + u))
    decreases |p|
  {
    hide Text, Code, Closed;
    if p == [] {
      assert p + u == u && p + Text(u) == Text(u) && p + Code(u) == Code(u);
    } else {
      SolidAhead(p[1..], u);
      SolidStep(p[0], p[1..] + u);
      assert p + u == [p[0]] + (p[1..] + u);
      assert [p[0]] + (p[1..] + Text(u)) == p + Text(u) && [p[0]] + (p[1..] + Code(u)) == p + Code(u);
    }
  }

  /** No parenthesis and no comma. */
  predicate Flat(s: string) {
    forall i :: 0 <= i < |s| ==> s[i] != '(' && s[i] != ')' && s[i] != ','
  }

  lemma {:induction false} NestedFlat(p: string, code: string)
    requires Flat(p) && Nested(code, 0)
    ensures Nested(p + code, 0)
    decreases |p|
  {
    if p == [] {
      assert p + code == code;
    } else {
      NestedFlat(p[1..], code);
      assert (p + code)[1..] == p[1..] + code;
    }
  }

  lemma {:induction false} NestedInside(code: string, depth: nat)
    requires Balanced(code, depth)
    ensures Nested(code + ")", depth + 1)
    decreases |code|
  {
    if code == [] {
      assert (code + ")")[1..] == [];
    } else {
      assert (code + ")")[1..] == code[1..] + ")";
      NestedInside(code[1..], depth + Delta(code[0]));
    }
  }

  lemma {:induction false} QuoteClosedDoubled(p: string, name: string, quote: char)
    requires quote != ']'
    ensures QuoteClosed(p + Doubled(name, quote) + [quote], quote, |p|)
    decreases |name|
  {
    var s := p + Doubled(name, quote) + [quote];
    if name == [] {
    } else if name[0] == quote {
      QuoteClosedDoubled(p + [quote, quote], name[1..], quote);
      assert p + [quote, quote] + Doubled(name[1..], quote) == p + Doubled(name, quote);
    } else {
      QuoteClosedDoubled(p + [name[0]], name[1..], quote);
      assert p + [name[0]] + Doubled(name[1..], quote) == p + Doubled(name, quote);
    }
  }

  lemma {:induction false} QuoteClosedBracket(p: string, name: string)
    requires ']' !in name
    ensures QuoteClosed(p + name + "]", ']', |p|)
    decreases |name|
  {
    var s := p + name + "]";
    if name != [] {
      assert s[|p|] == name[0];
      QuoteClosedBracket(p + [name[0]], name[1..]);
      assert p + [name[0]] + name[1..] == p + name;
    }
  }

  lemma {:induction false} ClosedQuoteEnds(s: string, quote: char, i: nat)
    requires i <= |s| && QuoteClosed(s, quote, i)
    ensures QuoteEnd(s, quote, i) == |s|
    decreases |s| - i
  {
    if s[i] != quote { ClosedQuoteEnds(s, quote, i + 1); }
    else if quote != ']' && i + 1 < |s| && s[i + 1] == quote { ClosedQuoteEnds(s, quote, i + 2); }
  }

  lemma ScanOfEnclosed(q: string)
    requires q != [] && IsQuote(q[0]) && QuoteClosed(q, Closing(q[0]), 1)
    ensures Closed(q) && Text(q) == q && Code(q) == Spaces(|q|)
  {
    ClosedQuoteEnds(q, Closing(q[0]), 1);
    assert q[..|q|] == q && q[|q|..] == [];
  }

  lemma ScanOfQuotedName(spelling: Spelling, name: string)
    requires Spellable(spelling, name) && !spelling.Bare?
    ensures var q := Spell(spelling, name); Closed(q) && Text(q) == q && Code(q) == Spaces(|q|)
  {
    hide Text, Code, Closed;
    match spelling {
      case Quotes => QuoteClosedDoubled("\"", name, '"');
      case Backticks => QuoteClosedDoubled("`", name, '`');
      case Brackets => QuoteClosedBracket("[", name);
      case Bare =>
    }
    ScanOfEnclosed(Spell(spelling, name));
  }

  lemma ScanOfSpelled(spelling: Spelling, name: string, rest: string)
    requires Spellable(spelling, name) && Closed(rest) && Nested(Code(rest), 0)
    ensures var d, q := Spell(spelling, name) + (" " + rest), Spell(spelling, name);
            Closed(d) && Text(d) == q + (" " + Text(rest)) && Nested(Code(d), 0)
  {
    hide Text, Code, Closed, Nested;
    var q, u := Spell(spelling, name), " " + rest;
    SolidAhead(" ", rest);
    NestedFlat(" ", Code(rest));
    if spelling.Bare? {
      BareIsFlat(name);
      SolidAhead(q, u);
      NestedFlat(q, Code(u));
    } else {
      ScanOfQuotedName(spelling, name);
      hide Spell, Spellable;
      ScanConcat(q, u);
      NestedSpaces(|q|, Code(u));
    }
  }

  lemma BareIsFlat(name: string)
    requires Spellable(Bare, name)
    ensures Solid(name) && Flat(name)
  {
  }

  lemma {:induction false} NestedSpaces(n: nat, code: string)
    requires Nested(code, 0)
    ensures Nested(Spaces(n) + code, 0)
  {
    if n == 0 {
      assert Spaces(0) + code == code;
    } else {
      NestedSpaces(n - 1, code);
      assert (Spaces(n) + code)[1..] == Spaces(n - 1) + code;
    }
  }

  lemma AlikeIsWord(word: string, w: string)
    requires Alike(word, w) && LowerCase(w)
    ensures forall i :: 0 <= i < |word| ==> 'A' <= word[i] <= 'Z' || 'a' <= word[i] <= 'z'
    ensures Solid(word) && Flat(word)
  {
  }

  lemma ScanOfCheck(word: string, gap: string, inner: string)
    requires Printable(Check(word, gap, inner))
    ensures var d := Definition(Check(word, gap, inner));
            Closed(d) && Text(d) == Shown(Check(word, gap, inner)) && Nested(Code(d), 0)
  {
    AlikeIsWord(word, "check");
    assert Solid(gap) && Flat(gap);
    hide Text, Code, Closed, Nested, Balanced, Solid, Flat;
    ScanOfParens(inner);
    var end, code := "(" + (inner + ")"), "(" + (Code(inner) + ")");
    SolidAhead(gap, end);
    SolidAhead(word, gap + end);
    NestedFlat(gap, code);
    NestedFlat(word, gap + code);
  }

  lemma ScanOfParens(inner: string)
    requires Closed(inner) && Balanced(Code(inner), 0)
    ensures var s, code := "(" + (inner + ")"), "(" + (Code(inner) + ")");
            Closed(s) && Text(s) == "(" + (Text(inner) + ")") && Code(s) == code && Nested(code, 0)
  {
    NestedInside(Code(inner), 0);
    assert ("(" + (Code(inner) + ")"))[1..] == Code(inner) + ")";
    hide Text, Code, Closed, Balanced;
    ParenAhead(')', "");
    ClosedEmpty();
    assert ")" + "" == ")";
    ScanConcat(inner, ")");
    SolidAhead("(", inner + ")");
  }

  lemma ClosedEmpty()
    ensures Closed("") && Text("") == "" && Code("") == "" && Closed(")")
  {
    assert Token(")") == 1 && ")"[1..] == "";
  }

  lemma ScanOfDefinition(item: Item)
    requires Printable(item)
    ensures var d := Definition(item); Closed(d) && Text(d) == Shown(item) && Nested(Code(d), 0)
  {
    match item
    case Column(spelling, name, rest) => ScanOfSpelled(spelling, name, rest);
    case Constraint(word, rest) =>
      var w :| w in TABLE_WORDS && Alike(word, w);
      TableWords(w);
      AlikeIsWord(word, w);
      SolidAhead(word, rest);
      NestedFlat(word, Code(rest));
    case Check(word, gap, inner) => ScanOfCheck(word, gap, inner);
  }

  lemma ParenAhead(c: char, u: string)
    requires c == '(' || c == ')'
    ensures Text([c] + u) == [c] + Text(u) && Code([c] + u) == [c] + Code(u)
  {
    var s := [c] + u;
    assert Token(s) == 1 && s[..1] == [c] && s[1..] == u;
  }

  // What splitting a body shows.

  lemma {:induction false} SplitNested(text: string, code: string, depth: nat, moreText: string, moreCode: string)
    requires |text| == |code| && |moreText| == |moreCode| && Nested(code, depth)
    ensures Split(text + moreText, code + moreCode, depth) == Prepend(text, Split(moreText, moreCode, 0))
    decreases |code|
  {
    var parts := Split(moreText, moreCode, 0);
    if code == [] {
      assert text + moreText == moreText && code + moreCode == moreCode;
      assert [] + parts[0] == parts[0];
    } else {
      var next := depth + Delta(code[0]);
      SplitNested(text[1..], code[1..], next, moreText, moreCode);
      assert (text + moreText)[1..] == text[1..] + moreText && (code + moreCode)[1..] == code[1..] + moreCode;
      PrependTwice([text[0]], text[1..], parts);
      assert [text[0]] + text[1..] == text;
    }
  }

  function Texts(items: seq<Item>): (r: seq<string>)
    ensures |r| == |items|
  {
    if items == [] then [] else [Shown(items[0])] + Texts(items[1..])
  }

  ghost predicate AllPrintable(items: seq<Item>) {
    forall i :: 0 <= i < |items| ==> Printable(items[i])
  }

  lemma CommaAhead(u: string)
    ensures Text("," + u) == "," + Text(u) && Code("," + u) == "," + Code(u) && (Closed(u) ==> Closed("," + u))
  {
    var s := "," + u;
    assert Token(s) == 1 && s[..1] == "," && s[1..] == u;
  }

  /** A printed body is closed, and splits into exactly the texts of its definitions. */
  lemma {:induction false} ScanOfBody(items: seq<Item>)
    requires AllPrintable(items) && items != []
    ensures var b := Body(items); Closed(b) && Split(Text(b), Code(b), 0) == Texts(items)
  {
    hide Text, Code, Closed, Definition, Printable, Shown, Split;
    var d := Definition(items[0]);
    ScanOfDefinition(items[0]);
    if |items| == 1 {
      assert items[1..] == [] && Body(items) == d;
      LastPart(Text(d), Code(d));
    } else {
      var rest := items[1..];
      var b := Body(rest);
      ScanOfBody(rest);
      assert Definitions(items)[1..] == Definitions(rest);
      assert Body(items) == d + ("," + b);
      CommaAhead(b);
      ScanConcat(d, "," + b);
      PartBeforeComma(Text(d), Code(d), Text(b), Code(b));
    }
  }

  lemma LastPart(text: string, code: string)
    requires |text| == |code| && Nested(code, 0)
    ensures Split(text, code, 0) == [text]
  {
    SplitNested(text, code, 0, [], []);
    assert text + [] == text && code + [] == code;
  }

  lemma PartBeforeComma(text: string, code: string, moreText: string, moreCode: string)
    requires |text| == |code| && |moreText| == |moreCode| && Nested(code, 0)
    ensures Split(text + ("," + moreText), code + ("," + moreCode), 0) == [text] + Split(moreText, moreCode, 0)
  {
    SplitNested(text, code, 0, "," + moreText, "," + moreCode);
    assert ("," + moreText)[1..] == moreText && ("," + moreCode)[1..] == moreCode;
    assert text + [] == text;
  }

  // What reading a definition shows.

  lemma ColumnReads(spelling: Spelling, name: string, text: string)
    requires Spellable(spelling, name)
    requires spelling.Bare? ==> !Reserved(name) && !(Alike(name, "check") && Parenthesized(Trim(text)))
    ensures var t := Trim(Spell(spelling, name) + (" " + text)); t != [] && ColumnOf(t) == Some(name)
  {
    if spelling.Bare? {
      BareColumnExactly(name, text);
    } else {
      var q, u := Spell(spelling, name), " " + text;
      TrimEndKeeps(q, u);
      TrimEndStartsAlike(u);
      var t := Trim(q + u);
      assert t == q + TrimEnd(u);
      SpelledNameReads(spelling, name, TrimEnd(u));
      NoWordStarts(t);
    }
  }

  lemma NoWord(t: string, word: string)
    requires t != [] && !DigitLetter(t[0]) && LowerCase(word) && 0 < |word| <= |t|
    ensures Lower(t[..|word|]) != word
  {
    AlikeLowers(t[..|word|], word);
    assert t[..|word|][0] == t[0];
  }

  /** A definition that starts with no letter starts with no word. */
  lemma NoWordStarts(t: string)
    requires t != [] && !DigitLetter(t[0])
    ensures !IsConstraint(t)
  {
    hide Lower, TrimStart;
    if |t| >= 5 { NoWord(t, "check"); }
    if |t| >= 7 { NoWord(t, "primary"); NoWord(t, "foreign"); }
    if |t| >= 6 { NoWord(t, "unique"); }
    if |t| >= 10 { NoWord(t, "constraint"); }
  }

  lemma ConstraintReads(word: string, rest: string)
    requires Printable(Constraint(word, rest))
    ensures var t := Trim(Shown(Constraint(word, rest))); t != [] && ColumnOf(t).None?
  {
    hide Text, Code, Closed, Nested;
    var w :| w in TABLE_WORDS && Alike(word, w);
    if rest != [] { MaskOnlyBlanks(rest, 0); }
    WordReads(word, w, Text(rest));
  }

  lemma WordReads(word: string, w: string, u: string)
    requires w in TABLE_WORDS && Alike(word, w) && (u != [] ==> !DigitLetter(u[0]))
    ensures var t := Trim(word + u); t != [] && ColumnOf(t).None?
  {
    TableWords(w);
    AlikeIsWord(word, w);
    assert !IsBlank(word[0]) && !IsBlank(word[|word| - 1]);
    TrimEndKeeps(word, u);
    TrimEndStartsAlike(u);
    hide TrimEnd, Lower, ReadIdentifier, UnquoteIdentifier, StartsWord, Alike;
    var t := Trim(word + u);
    assert t == word + TrimEnd(u);
    assert t[..|word|] == word;
    WordLength(word, w);
    StartsWordExactly(t, w);
  }

  lemma WordLength(word: string, w: string)
    requires Alike(word, w)
    ensures |word| == |w|
  {
  }

  lemma CheckReads(word: string, gap: string, inner: string)
    requires Printable(Check(word, gap, inner))
    ensures var t := Trim(Shown(Check(word, gap, inner))); t != [] && ColumnOf(t).None?
  {
    var t := Shown(Check(word, gap, inner));
    var end := "(" + (Text(inner) + ")");
    AlikeIsWord(word, "check");
    assert !IsBlank(word[0]) && t[|t| - 1] == ')';
    assert Trim(t) == t;
    assert LowerCase("check");
    AlikeLowers(word, "check");
    assert t[..5] == word && t[5..] == gap + end;
    TrimGap(gap, end);
  }

  lemma {:induction false} TrimGap(gap: string, end: string)
    requires (forall i :: 0 <= i < |gap| ==> IsBlank(gap[i])) && end != [] && !IsBlank(end[0])
    ensures TrimStart(gap + end) == end
    decreases |gap|
  {
    if gap == [] {
      assert gap + end == end;
    } else {
      TrimGap(gap[1..], end);
      assert (gap + end)[1..] == gap[1..] + end;
    }
  }

  /** A column is read as such, and a constraint defines none. */
  lemma ItemReads(item: Item)
    requires Printable(item)
    ensures var t := Trim(Shown(item)); t != [] && ColumnOf(t) == if item.Column? then Some(item.name) else None
  {
    match item
    case Column(spelling, name, rest) => ColumnReads(spelling, name, Text(rest));
    case Constraint(word, rest) => ConstraintReads(word, rest);
    case Check(word, gap, inner) => CheckReads(word, gap, inner);
  }

  lemma {:induction false} TextsReadBack(items: seq<Item>)
    requires AllPrintable(items)
    ensures NonEmpty(Trimmed(Texts(items))) == Trimmed(Texts(items))
    ensures ColumnsOf(Trimmed(Texts(items))) == Names(items)
  {
    if items != [] {
      var n := |items| - 1;
      var init, last := items[..n], items[n];
      TextsReadBack(init);
      TextsSnoc(items);
      assert Printable(last);
      ItemReads(last);
      hide Trim, ColumnOf, Shown, Text, Printable;
      var part := Trim(Shown(last));
      TrimmedSnoc(Texts(init), Shown(last));
      NonEmptyConcat(Trimmed(Texts(init)), [part]);
      assert NonEmpty([part]) == [part];
      assert (Trimmed(Texts(init)) + [part])[..n] == Trimmed(Texts(init));
    }
  }

  lemma TrimmedSnoc(parts: seq<string>, part: string)
    ensures Trimmed(parts + [part]) == Trimmed(parts) + [Trim(part)]
  {
  }

  lemma {:induction false} TextsSnoc(items: seq<Item>)
    requires items != []
    ensures Texts(items) == Texts(items[..|items| - 1]) + [Shown(items[|items| - 1])]
  {
    if |items| > 1 {
      TextsSnoc(items[1..]);
      assert items[1..][..|items| - 2] == items[..|items| - 1][1..];
    }
  }

  // ------------------------------------------------------------------------------------------
  // The round trip.

  lemma {:induction false} NestedIsBalanced(code: string, depth: nat)
    requires Nested(code, depth)
    ensures Balanced(code, depth)
    decreases |code|
  {
    if code != [] { NestedIsBalanced(code[1..], depth + Delta(code[0])); }
  }

  lemma {:induction false} BalancedConcat(a: string, b: string, depth: nat)
    requires Balanced(a, depth) && Balanced(b, 0)
    ensures Balanced(a + b, depth)
    decreases |a|
  {
    if a == [] {
      assert a + b == b;
    } else {
      BalancedConcat(a[1..], b, depth + Delta(a[0]));
      assert (a + b)[1..] == a[1..] + b;
    }
  }

  lemma BodyUnfolds(items: seq<Item>)
    requires |items| > 1
    ensures Body(items) == Definition(items[0]) + ("," + Body(items[1..]))
  {
    assert Definitions(items)[1..] == Definitions(items[1..]);
  }

  lemma CommaBalanced(d: string, b: string)
    requires Closed(d) && Balanced(Code(d), 0) && Balanced(Code(b), 0)
    ensures Balanced(Code(d + ("," + b)), 0)
  {
    hide Text, Code, Closed;
    CommaAhead(b);
    ScanConcat(d, "," + b);
    assert ("," + Code(b))[1..] == Code(b);
    BalancedConcat(Code(d), "," + Code(b), 0);
  }

  lemma {:induction false} BodyBalanced(items: seq<Item>)
    requires AllPrintable(items)
    ensures Balanced(Code(Body(items)), 0) && Closed(Body(items))
  {
    if items != [] {
      ScanOfBody(items);
      ScanOfDefinition(items[0]);
      hide Text, Code, Closed, Printable, Definition;
      NestedIsBalanced(Code(Definition(items[0])), 0);
      if |items| > 1 {
        BodyBalanced(items[1..]);
        BodyUnfolds(items);
        CommaBalanced(Definition(items[0]), Body(items[1..]));
      } else {
        assert Body(items) == Definition(items[0]);
      }
    }
  }

  /** Inside an open parenthesis, balanced code never closes it. */
  lemma {:induction false} DepthThrough(code: string, open: nat, from: nat, inner: string, depth: nat)
    requires open < from && from + |inner| <= |code| && code[from..from + |inner|] == inner
    requires Balanced(inner, depth) && Depth(code, open, from) == depth + 1
    ensures Depth(code, open, from + |inner|) == 1
    ensures forall j :: from <= j <= from + |inner| ==> Depth(code, open, j) > 0
    decreases |inner|
  {
    if inner != [] {
      assert code[from] == inner[0];
      assert code[from + 1..from + |inner|] == inner[1..];
      DepthThrough(code, open, from + 1, inner[1..], depth + Delta(inner[0]));
    }
  }

  /** A statement head that is closed and shows no parenthesis. */
  ghost predicate IsHead(head: string) {
    Closed(head) && forall i :: 0 <= i < |head| ==> Code(head)[i] != '('
  }

  lemma ScanOfTable(head: string, items: seq<Item>, tail: string)
    requires IsHead(head) && AllPrintable(items)
    ensures var sql, b := PrintTable(head, items, tail), Body(items);
            && Text(sql) == Text(head) + ("(" + (Text(b) + (")" + Text(tail))))
            && Code(sql) == Code(head) + ("(" + (Code(b) + (")" + Code(tail))))
  {
    var b := Body(items);
    BodyBalanced(items);
    hide Text, Code, Closed, Body;
    ParenAhead(')', tail);
    ScanConcat(b, ")" + tail);
    ParenAhead('(', b + (")" + tail));
    ScanConcat(head, "(" + (b + (")" + tail)));
  }

  /** `b` stands in parentheses after `h`. */
  ghost predicate InParens(all: string, h: string, b: string) {
    && |h| + 1 + |b| < |all| && all[..|h|] == h
    && all[|h|] == '(' && all[|h| + 1..|h| + 1 + |b|] == b && all[|h| + 1 + |b|] == ')'
  }

  lemma Around(h: string, b: string, t: string)
    ensures InParens(h + ("(" + (b + (")" + t))), h, b)
  {
  }

  /** The parenthesis after the head is the first, and the one after the body balances it. */
  lemma BodyBetween(code: string, h: string, b: string)
    requires InParens(code, h, b) && (forall i :: 0 <= i < |h| ==> h[i] != '(') && Balanced(b, 0)
    ensures FirstParen(code, 0) == |h| && LeastBalance(code, |h|, |h| + 1 + |b|)
  {
    BalancesAt(code, |h|, b);
    FirstParenAfter(code, h);
  }

  lemma FirstParenAfter(code: string, h: string)
    requires |h| < |code| && code[..|h|] == h && code[|h|] == '('
    requires forall i :: 0 <= i < |h| ==> h[i] != '('
    ensures FirstParen(code, 0) == |h|
  {
    FirstParenIs(code, 0);
    forall i | 0 <= i < |h| ensures code[i] != '(' { assert code[i] == code[..|h|][i]; }
  }

  lemma BalancesAt(code: string, open: nat, b: string)
    requires open + 1 + |b| < |code| && code[open] == '(' && code[open + 1 + |b|] == ')'
    requires code[open + 1..open + 1 + |b|] == b && Balanced(b, 0)
    ensures LeastBalance(code, open, open + 1 + |b|)
  {
    assert Depth(code, open, open + 1) == 1;
    DepthThrough(code, open, open + 1, b, 0);
    assert Depth(code, open, open + 1 + |b| + 1) == 0;
  }

  lemma TableInParens(head: string, items: seq<Item>, tail: string)
    requires IsHead(head) && AllPrintable(items)
    ensures var sql, b := PrintTable(head, items, tail), Body(items);
            InParens(Text(sql), Text(head), Text(b)) && InParens(Code(sql), Code(head), Code(b))
  {
    var b := Body(items);
    ScanOfTable(head, items, tail);
    hide Text, Code, InParens, Body;
    Around(Code(head), Code(b), Code(tail));
    Around(Text(head), Text(b), Text(tail));
  }

  lemma BodyInParens(sql: string, head: string, b: string, body: string)
    requires IsHead(head) && Balanced(Code(b), 0)
    requires InParens(Text(sql), Text(head), Text(b)) && InParens(Code(sql), Code(head), Code(b))
    ensures !HasNoBody(sql) && (IsBody(sql, body) <==> body == Text(b))
  {
    hide Text, Code, Closed;
    BodyBetween(Code(sql), Code(head), Code(b));
  }

  lemma PrintedBody(head: string, items: seq<Item>, tail: string, body: string)
    requires IsHead(head) && AllPrintable(items)
    ensures var sql := PrintTable(head, items, tail);
            !HasNoBody(sql) && (IsBody(sql, body) <==> body == Text(Body(items)))
  {
    TableInParens(head, items, tail);
    BodyBalanced(items);
    hide PrintTable, Body, Text, Code, Closed, Printable, InParens, Balanced, IsBody, HasNoBody;
    BodyInParens(PrintTable(head, items, tail), head, Body(items), body);
  }

  /** Whatever body the parser extracts from a printed table, its columns are the printed ones. */
  lemma PrintedColumnsParseBack(head: string, items: seq<Item>, tail: string, body: Option<string>)
    requires IsHead(head) && AllPrintable(items)
    requires var sql := PrintTable(head, items, tail);
             (body.Some? ==> IsBody(sql, body.value)) && (body.None? <==> HasNoBody(sql))
    ensures ColumnsOfBody(body) == Names(items)
  {
    PrintedBody(head, items, tail, if body.Some? then body.value else "");
    var b := Body(items);
    if items != [] {
      ScanOfBody(items);
      TextsReadBack(items);
      MaskingIsIdempotent(b);
    }
  }

  /** The printer and the parser together, for every list of columns. */
  method RoundTrip(head: string, items: seq<Item>, tail: string) returns (parsed: seq<string>)
    requires IsHead(head) && AllPrintable(items)
    ensures parsed == Names(items)
  {
    hide IsBody, HasNoBody, ColumnsOfBody;
    parsed := ParseTable(PrintTable(head, items, tail));
    ghost var body := Text(Body(items));
    PrintedBody(head, items, tail, body);
    PrintedColumnsParseBack(head, items, tail, Some(body));
  }

  /** The columns among the items, in order. */
  function ColumnNames(items: seq<Item>): seq<string> {
    if items == [] then []
    else
      var last := items[|items| - 1];
      ColumnNames(items[..|items| - 1]) + if last.Column? then [last.name] else []
  }

  ghost predicate Distinct(names: seq<string>) {
    forall i, j :: 0 <= i < j < |names| ==> names[i] != names[j]
  }

  lemma NotAmong(names: seq<string>, name: string)
    requires Distinct(names + [name])
    ensures name !in names
  {
    var all := names + [name];
    assert all[|names|] == name;
    forall i | 0 <= i < |names| ensures names[i] != name { assert all[i] == names[i]; }
  }

  /** With distinct names nothing is merged: the parsed names are the printed ones in order. */
  lemma {:induction false} DistinctNames(items: seq<Item>)
    requires Distinct(ColumnNames(items))
    ensures Names(items) == ColumnNames(items)
  {
    if items != [] {
      var init, last := items[..|items| - 1], items[|items| - 1];
      var names := ColumnNames(init);
      assert ColumnNames(items) == names + if last.Column? then [last.name] else [];
      forall i, j | 0 <= i < j < |names| ensures names[i] != names[j] {
        assert ColumnNames(items)[i] == names[i] && ColumnNames(items)[j] == names[j];
      }
      DistinctNames(init);
      if last.Column? { NotAmong(names, last.name); }
    }
  }
}
