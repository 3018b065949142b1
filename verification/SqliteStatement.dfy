/** Telling a script of several statements from a single one, and a plain statement from one that may
    change the session. */
module SqliteStatement {
  import opened SqliteDdlText
  import opened SqliteDdlScanner

  /** Length of the piece at the head of a non-empty text: a literal, a quoted name, a comment, or one
      character.  Brackets and backticks do not quote here. */
  function Piece(s: string): (n: nat)
    requires s != []
    ensures 1 <= n <= |s|
  {
    if s[0] == '\'' || s[0] == '"' then QuoteEnd(s, s[0], 1)
    else if LineStart(s) then LineEnd(s, 2)
    else if BlockStart(s) then BlockEnd(s, 2)
    else 1
  }

  /** Offsets outside literals, quoted names and comments. */
  predicate PieceStart(s: string, j: nat)
    requires j <= |s|
    decreases |s|
  {
    j == 0 || (s != [] && Piece(s) <= j && PieceStart(s[Piece(s)..], j - Piece(s)))
  }

  predicate AllBlank(s: string) {
    forall i :: 0 <= i < |s| ==> IsBlank(s[i])
  }

  /** A semicolon that separates two statements. */
  predicate Separates(s: string, i: nat) {
    i < |s| && PieceStart(s, i) && s[i] == ';' && !AllBlank(s[i + 1..])
  }

  predicate Multiple(s: string)
    decreases |s|
  {
    s != [] && ((s[0] == ';' && !AllBlank(s[1..])) || Multiple(s[Piece(s)..]))
  }

  lemma SeparatesTail(s: string, i: nat)
    requires s != [] && Piece(s) <= i < |s|
    ensures Separates(s, i) <==> Separates(s[Piece(s)..], i - Piece(s))
  {
    var n := Piece(s);
    assert s[n..][i - n + 1..] == s[i + 1..];
  }

  lemma {:induction false} MultipleExactly(s: string)
    ensures Multiple(s) <==> exists i: nat :: Separates(s, i)
    decreases |s|
  {
    if s != [] {
      var n := Piece(s);
      var tail := s[n..];
      MultipleExactly(tail);
      if s[0] == ';' && !AllBlank(s[1..]) { assert Separates(s, 0); }
      if Multiple(tail) {
        var j: nat :| Separates(tail, j);
        SeparatesTail(s, j + n);
      }
      if i: nat :| Separates(s, i) && i > 0 {
        SeparatesTail(s, i);
      }
    }
  }

  lemma {:induction false} NoSemicolonNoScript(s: string)
    requires ';' !in s
    ensures !Multiple(s)
    decreases |s|
  {
    if s != [] { NoSemicolonNoScript(s[Piece(s)..]); }
  }

  /** Where the loop of the source is: outside everything, or inside one of four things. */
  predicate Rest(sql: string, index: nat, single: bool, double: bool, line: bool, block: bool)
    requires index <= |sql|
  {
    if line then Multiple(sql[LineEnd(sql, index)..])
    else if block then Multiple(sql[BlockEnd(sql, index)..])
    else if single then Multiple(sql[QuoteEnd(sql, '\'', index)..])
    else if double then Multiple(sql[QuoteEnd(sql, '"', index)..])
    else Multiple(sql[index..])
  }

  lemma {:induction false} LineEndShift(s: string, k: nat, i: nat)
    requires k + i <= |s|
    ensures k + LineEnd(s[k..], i) == LineEnd(s, k + i)
    decreases |s| - i
  {
    if k + i < |s| && s[k + i] != '\n' { LineEndShift(s, k, i + 1); }
  }

  lemma {:induction false} BlockEndShift(s: string, k: nat, i: nat)
    requires k + i <= |s|
    ensures k + BlockEnd(s[k..], i) == BlockEnd(s, k + i)
    decreases |s| - i
  {
    if k + i < |s| && !(s[k + i] == '*' && k + i + 1 < |s| && s[k + i + 1] == '/') { BlockEndShift(s, k, i + 1); }
  }

  /** Outside everything, the next piece is skipped. */
  lemma PieceAt(sql: string, index: nat)
    requires index < |sql|
    ensures var n := index + Piece(sql[index..]);
            && n <= |sql|
            && n == (if sql[index] == '\'' || sql[index] == '"' then QuoteEnd(sql, sql[index], index + 1)
                     else if LineStart(sql[index..]) then LineEnd(sql, index + 2)
                     else if BlockStart(sql[index..]) then BlockEnd(sql, index + 2)
                     else index + 1)
            && (Multiple(sql[index..]) <==>
                  (sql[index] == ';' && !AllBlank(sql[index + 1..])) || Multiple(sql[n..]))
  {
    var s := sql[index..];
    QuoteEndShift(sql, sql[index], index, 1);
    if |s| >= 2 {
      LineEndShift(sql, index, 2);
      BlockEndShift(sql, index, 2);
    }
    assert s[1..] == sql[index + 1..] && s[Piece(s)..] == sql[index + Piece(s)..];
  }

  predicate BlockCloses(sql: string, index: nat)
    requires index < |sql|
  {
    sql[index] == '*' && index + 1 < |sql| && sql[index + 1] == '/'
  }

  predicate Doubled(sql: string, quote: char, index: nat)
    requires index < |sql|
  {
    index + 1 < |sql| && sql[index + 1] == quote
  }

  lemma LineStep(sql: string, index: nat)
    requires index < |sql|
    ensures Rest(sql, index, false, false, true, false) ==
            Rest(sql, index + 1, false, false, sql[index] != '\n', false)
  {
    if sql[index] == '\n' { PieceAt(sql, index); }
  }

  lemma BlockStep(sql: string, index: nat)
    requires index < |sql|
    ensures var closes := BlockCloses(sql, index);
            Rest(sql, index, false, false, false, true) ==
            Rest(sql, if closes then index + 2 else index + 1, false, false, false, !closes)
  {
    hide Multiple;
  }

  lemma QuoteStep(sql: string, index: nat, single: bool)
    requires index < |sql|
    ensures var quote := if single then '\'' else '"';
            Rest(sql, index, single, !single, false, false) ==
            if sql[index] != quote then Rest(sql, index + 1, single, !single, false, false)
            else if Doubled(sql, quote, index) then Rest(sql, index + 2, single, !single, false, false)
            else Rest(sql, index + 1, false, false, false, false)
  {
    hide Multiple;
  }

  lemma OutsideStep(sql: string, index: nat)
    requires index < |sql|
    ensures Rest(sql, index, false, false, false, false) ==
            if sql[index] == '\'' || sql[index] == '"'
            then Rest(sql, index + 1, sql[index] == '\'', sql[index] == '"', false, false)
            else if LineStart(sql[index..]) then Rest(sql, index + 2, false, false, true, false)
            else if BlockStart(sql[index..]) then Rest(sql, index + 2, false, false, false, true)
            else (sql[index] == ';' && !AllBlank(sql[index + 1..])) || Rest(sql, index + 1, false, false, false, false)
  {
    hide Multiple, AllBlank;
    PieceAt(sql, index);
  }

  lemma RestEnds(sql: string, single: bool, double: bool, line: bool, block: bool)
    ensures !Rest(sql, |sql|, single, double, line, block)
  {
  }

  method HasMultipleStatements(sql: string) returns (several: bool)
    ensures several <==> exists i: nat :: Separates(sql, i)
  {
    hide *;
    MultipleExactly(sql);
    if ';' !in sql {
      NoSemicolonNoScript(sql);
      return false;
    }
    var single, double, line, block := false, false, false, false;
    var index := 0;
    Start(sql);
    while index < |sql|
      invariant index <= |sql|
      invariant !(single && double) && !(line && (block || single || double)) && !(block && (single || double))
      invariant Multiple(sql) == Rest(sql, index, single, double, line, block)
    {
      var character := sql[index];
      if line {
        LineStep(sql, index);
        if character == '\n' {
          line := false;
        }
      } else if block {
        BlockStep(sql, index);
        if BlockCloses(sql, index) {
          BlockHasNext(sql, index);
          block := false;
          index := index + 1;
        }
      } else if single || double {
        QuoteStep(sql, index, single);
        var quote := if single then '\'' else '"';
        if character == quote {
          if Doubled(sql, quote, index) {
            DoubledHasNext(sql, quote, index);
            index := index + 1;
          } else if single {
            single := false;
          } else {
            double := false;
          }
        }
      } else {
        OutsideStep(sql, index);
        if character == '\'' {
          single := true;
        } else if character == '"' {
          double := true;
        } else if LineStart(sql[index..]) {
          TwoCharacters(sql, index);
          line := true;
          index := index + 1;
        } else if BlockStart(sql[index..]) {
          TwoCharacters(sql, index);
          block := true;
          index := index + 1;
        } else if character == ';' && !AllBlank(sql[index + 1..]) {
          return true;
        }
      }
      index := index + 1;
    }
    RestEnds(sql, single, double, line, block);
    several := false;
  }

  lemma Start(sql: string)
    ensures Multiple(sql) == Rest(sql, 0, false, false, false, false)
  {
    assert sql[0..] == sql;
  }

  lemma BlockHasNext(sql: string, index: nat)
    requires index < |sql| && BlockCloses(sql, index)
    ensures index + 1 < |sql|
  {
  }

  lemma DoubledHasNext(sql: string, quote: char, index: nat)
    requires index < |sql| && Doubled(sql, quote, index)
    ensures index + 1 < |sql|
  {
  }

  lemma TwoCharacters(sql: string, index: nat)
    requires index < |sql| && (LineStart(sql[index..]) || BlockStart(sql[index..]))
    ensures index + 1 < |sql|
  {
  }

  // ------------------------------------------------------------------------------------------
  // Which statements leave the session as it was.

  function Word(s: string): string {
    if s != [] && DigitLetter(s[0]) then [s[0]] + Word(s[1..]) else []
  }

  const DATA_KEYWORDS := {"select", "insert", "update", "delete", "replace", "with", "values"}

  /** A single statement that starts with one of the words that only read or write rows. */
  predicate Plain(text: string) {
    Lower(Word(TrimStart(text))) in DATA_KEYWORDS && !Multiple(text)
  }

  /** After `n` blanks stands the word, in any case, and the next character continues no word. */
  ghost predicate StartsWith(text: string, n: nat, word: string) {
    && n + |word| <= |text| && AllBlank(text[..n]) && Lower(text[n..n + |word|]) == word
    && (n + |word| < |text| ==> !DigitLetter(text[n + |word|]))
  }

  lemma {:induction false} AllBlankExactly(s: string)
    ensures AllBlank(s) <==> TrimStart(s) == []
  {
    if s != [] && IsBlank(s[0]) {
      AllBlankExactly(s[1..]);
      assert forall i :: 0 < i < |s| ==> s[i] == s[1..][i - 1];
    }
  }

  lemma {:induction false} WordIs(s: string, n: nat)
    requires n <= |s| && (forall i :: 0 <= i < n ==> DigitLetter(s[i])) && (n < |s| ==> !DigitLetter(s[n]))
    ensures Word(s) == s[..n]
    decreases n
  {
    if n > 0 {
      WordIs(s[1..], n - 1);
      assert s[..n] == [s[0]] + s[1..][..n - 1];
      assert forall i :: 0 <= i < n - 1 ==> s[1..][i] == s[i + 1];
    }
  }

  lemma {:induction false} WordEnds(s: string)
    ensures |Word(s)| <= |s| && Word(s) == s[..|Word(s)|]
    ensures |Word(s)| < |s| ==> !DigitLetter(s[|Word(s)|])
  {
    if s != [] && DigitLetter(s[0]) {
      WordEnds(s[1..]);
      assert s[..|Word(s)|] == [s[0]] + s[1..][..|Word(s)| - 1];
    }
  }

  lemma {:induction false} TrimsBlanks(s: string) returns (n: nat)
    ensures n <= |s| && AllBlank(s[..n]) && TrimStart(s) == s[n..] && (n < |s| ==> !IsBlank(s[n]))
  {
    if s != [] && IsBlank(s[0]) {
      n := TrimsBlanks(s[1..]);
      n := n + 1;
      assert s[..n] == [s[0]] + s[1..][..n - 1];
      assert s[n..] == s[1..][n - 1..];
    } else {
      n := 0;
    }
  }

  lemma {:induction false} TrimStops(s: string, n: nat)
    requires n < |s| && AllBlank(s[..n]) && !IsBlank(s[n])
    ensures TrimStart(s) == s[n..]
    decreases n
  {
    if n > 0 {
      assert s[..n][0] == s[0];
      assert s[1..][..n - 1] == s[..n][1..];
      TrimStops(s[1..], n - 1);
      assert s[n..] == s[1..][n - 1..];
    }
  }

  lemma KeywordLetters(word: string, s: string)
    requires word in DATA_KEYWORDS && Lower(s) == word
    ensures word != [] && forall i :: 0 <= i < |s| ==> DigitLetter(s[i]) && !IsBlank(s[i])
  {
    forall i | 0 <= i < |s| ensures DigitLetter(s[i]) && !IsBlank(s[i]) {
      assert Lower(s)[i] == word[i];
      assert 'a' <= word[i] <= 'z';
    }
  }

  lemma KeywordRead(text: string, n: nat, word: string)
    requires word in DATA_KEYWORDS && StartsWith(text, n, word)
    ensures Lower(Word(TrimStart(text))) == word
  {
    hide Lower, DigitLetter, IsBlank, Word, TrimStart;
    var found, rest := text[n..n + |word|], text[n..];
    KeywordLetters(word, found);
    assert text[n] == found[0];
    TrimStops(text, n);
    assert rest[..|word|] == found;
    assert forall i :: 0 <= i < |word| ==> rest[i] == found[i];
    assert |word| < |rest| ==> rest[|word|] == text[n + |word|];
    WordIs(rest, |word|);
  }

  /** A statement is plain exactly if one of the words stands at its start, after blanks, and no semicolon
      separates it from another. */
  lemma PlainExactly(text: string)
    ensures Plain(text) <==>
              && (exists n: nat, word :: word in DATA_KEYWORDS && StartsWith(text, n, word))
              && !exists i: nat :: Separates(text, i)
  {
    hide Multiple, Separates, Lower;
    MultipleExactly(text);
    if Lower(Word(TrimStart(text))) in DATA_KEYWORDS {
      var n := TrimsBlanks(text);
      var word := Word(text[n..]);
      WordEnds(text[n..]);
      assert text[n..n + |word|] == word;
      assert StartsWith(text, n, Lower(word));
    }
    if n: nat, word :| word in DATA_KEYWORDS && StartsWith(text, n, word) {
      KeywordRead(text, n, word);
    }
  }
}
