/** The offset-preserving scanner of SQLite DDL: comments are blanked in the text, comments and quoted
    values in the code.  Strings are sequences of UTF-16 code units in the source; a `char` stands for
    one here. */
module SqliteDdlText {

  predicate IsQuote(c: char) {
    c == '\'' || c == '"' || c == '`' || c == '['
  }

  function Closing(c: char): char {
    if c == '[' then ']' else c
  }

  /** Where a quoted value ends whose scan has reached `i`: doubled quotes continue it, brackets do
      not double, and an unclosed value extends to the end. */
  function QuoteEnd(s: string, quote: char, i: nat): (end: nat)
    requires i <= |s|
    ensures i <= end <= |s| && (i < |s| ==> i < end)
    decreases |s| - i
  {
    if i == |s| then i
    else if s[i] != quote then QuoteEnd(s, quote, i + 1)
    else if quote != ']' && i + 1 < |s| && s[i + 1] == quote then QuoteEnd(s, quote, i + 2)
    else i + 1
  }

  function LineEnd(s: string, i: nat): (end: nat)
    requires i <= |s|
    ensures i <= end <= |s|
    decreases |s| - i
  {
    if i == |s| || s[i] == '\n' then i else LineEnd(s, i + 1)
  }

  function BlockEnd(s: string, i: nat): (end: nat)
    requires i <= |s|
    ensures i <= end <= |s|
    decreases |s| - i
  {
    if i == |s| then i
    else if s[i] == '*' && i + 1 < |s| && s[i + 1] == '/' then i + 2
    else BlockEnd(s, i + 1)
  }

  predicate LineStart(s: string) {
    |s| >= 2 && s[0] == '-' && s[1] == '-'
  }

  predicate BlockStart(s: string) {
    |s| >= 2 && s[0] == '/' && s[1] == '*'
  }

  /** Length of the token at the head of a non-empty string. */
  function Token(s: string): (n: nat)
    requires s != []
    ensures 1 <= n <= |s|
  {
    if IsQuote(s[0]) then QuoteEnd(s, Closing(s[0]), 1)
    else if LineStart(s) then LineEnd(s, 2)
    else if BlockStart(s) then BlockEnd(s, 2)
    else 1
  }

  function Spaces(n: nat): (r: string)
    ensures |r| == n && forall i :: 0 <= i < n ==> r[i] == ' '
  {
    if n == 0 then "" else " " + Spaces(n - 1)
  }

  predicate IsComment(s: string)
    requires s != []
  {
    !IsQuote(s[0]) && (LineStart(s) || BlockStart(s))
  }

  predicate IsPlain(s: string)
    requires s != []
  {
    !IsQuote(s[0]) && !IsComment(s)
  }

  /** What the head token leaves in the text and in the code. */
  function TextHead(s: string): (r: string)
    requires s != []
    ensures |r| == Token(s)
  {
    if IsComment(s) then Spaces(Token(s)) else s[..Token(s)]
  }

  function CodeHead(s: string): (r: string)
    requires s != []
    ensures |r| == Token(s)
  {
    if IsPlain(s) then s[..Token(s)] else Spaces(Token(s))
  }

  /** The comment-free text. */
  function Text(s: string): (r: string)
    ensures |r| == |s|
    decreases |s|
  {
    if s == [] then [] else TextHead(s) + Text(s[Token(s)..])
  }

  /** The code mask. */
  function Code(s: string): (r: string)
    ensures |r| == |s|
    decreases |s|
  {
    if s == [] then [] else CodeHead(s) + Code(s[Token(s)..])
  }

  /** Offsets at which the scan starts a token, and the end of the string. */
  predicate Boundary(s: string, j: nat)
    requires j <= |s|
    decreases |s|
  {
    j == 0 || (s != [] && Token(s) <= j && Boundary(s[Token(s)..], j - Token(s)))
  }

  // ------------------------------------------------------------------------------------------
  // Masking only blanks.

  lemma {:induction false} HeadOnlyBlanks(s: string, i: nat)
    requires s != [] && i < Token(s)
    ensures TextHead(s)[i] == s[i] || TextHead(s)[i] == ' '
    ensures CodeHead(s)[i] == s[i] || CodeHead(s)[i] == ' '
    ensures CodeHead(s)[i] == TextHead(s)[i] || CodeHead(s)[i] == ' '
  {
    hide Token;
  }

  lemma {:induction false} MaskAt(s: string, i: nat)
    requires i < |s|
    ensures var n := Token(s);
            && Text(s)[i] == (if i < n then TextHead(s)[i] else Text(s[n..])[i - n])
            && Code(s)[i] == (if i < n then CodeHead(s)[i] else Code(s[n..])[i - n])
  {
    hide Token, TextHead, CodeHead;
  }

  lemma {:induction false} MaskOnlyBlanks(s: string, i: nat)
    requires i < |s|
    ensures Text(s)[i] == s[i] || Text(s)[i] == ' '
    ensures Code(s)[i] == s[i] || Code(s)[i] == ' '
    ensures Code(s)[i] == Text(s)[i] || Code(s)[i] == ' '
    decreases |s|
  {
    hide Token, TextHead, CodeHead, Text, Code;
    var n := Token(s);
    MaskAt(s, i);
    if i < n { HeadOnlyBlanks(s, i); } else { MaskOnlyBlanks(s[n..], i - n); }
  }

  // ------------------------------------------------------------------------------------------
  // Scanning a slice is slicing the scan.

  lemma {:induction false} QuoteEndPrefix(s: string, quote: char, i: nat, j: nat)
    requires i <= |s| && QuoteEnd(s, quote, i) <= j <= |s|
    ensures i <= j && QuoteEnd(s[..j], quote, i) == QuoteEnd(s, quote, i)
    decreases |s| - i
  {
    if i < |s| {
      if s[i] != quote { QuoteEndPrefix(s, quote, i + 1, j); }
      else if quote != ']' && i + 1 < |s| && s[i + 1] == quote { QuoteEndPrefix(s, quote, i + 2, j); }
    }
  }

  lemma {:induction false} LineEndPrefix(s: string, i: nat, j: nat)
    requires i <= |s| && LineEnd(s, i) <= j <= |s|
    ensures LineEnd(s[..j], i) == LineEnd(s, i)
    decreases |s| - i
  {
    if i < |s| && s[i] != '\n' { LineEndPrefix(s, i + 1, j); }
  }

  lemma {:induction false} BlockEndPrefix(s: string, i: nat, j: nat)
    requires i <= |s| && BlockEnd(s, i) <= j <= |s|
    ensures BlockEnd(s[..j], i) == BlockEnd(s, i)
    decreases |s| - i
  {
    if i < |s| && !(s[i] == '*' && i + 1 < |s| && s[i + 1] == '/') { BlockEndPrefix(s, i + 1, j); }
  }

  lemma TokenPrefix(s: string, j: nat)
    requires s != [] && Token(s) <= j <= |s|
    ensures Token(s[..j]) == Token(s)
    ensures TextHead(s[..j]) == TextHead(s) && CodeHead(s[..j]) == CodeHead(s)
  {
    if IsQuote(s[0]) { QuoteEndPrefix(s, Closing(s[0]), 1, j); }
    else if LineStart(s) { LineEndPrefix(s, 2, j); }
    else if BlockStart(s) { BlockEndPrefix(s, 2, j); }
    assert s[..j][..Token(s)] == s[..Token(s)];
  }

  lemma TakeConcat(a: string, b: string, j: nat)
    requires |a| <= j <= |a + b|
    ensures (a + b)[..j] == a + b[..j - |a|] && (a + b)[j..] == b[j - |a|..]
  {
  }

  lemma DropTwice(s: string, n: nat, j: nat)
    requires n <= j <= |s|
    ensures s[n..][j - n..] == s[j..] && s[..j][n..] == s[n..][..j - n]
  {
  }

  lemma {:induction false} ScanSplits(s: string, j: nat)
    requires j <= |s| && Boundary(s, j)
    ensures Text(s[..j]) == Text(s)[..j] && Code(s[..j]) == Code(s)[..j]
    ensures Text(s[j..]) == Text(s)[j..] && Code(s[j..]) == Code(s)[j..]
    decreases |s|
  {
    if j > 0 {
      hide Token, TextHead, CodeHead;
      var n := Token(s);
      TokenPrefix(s, j);
      ScanSplits(s[n..], j - n);
      DropTwice(s, n, j);
      TakeConcat(TextHead(s), Text(s[n..]), j);
      TakeConcat(CodeHead(s), Code(s[n..]), j);
    } else {
      assert s[0..] == s && s[..0] == [];
    }
  }

  lemma {:induction false} BoundaryStep(s: string, j: nat)
    requires 0 < j <= |s| && Boundary(s, j)
    ensures Token(s) <= j && Boundary(s[Token(s)..], j - Token(s))
  {
  }

  lemma {:induction false} BoundaryRest(s: string, i: nat, j: nat)
    requires i <= j <= |s| && Boundary(s, i) && Boundary(s, j)
    ensures Boundary(s[i..], j - i)
    decreases |s|
  {
    hide Token, Boundary;
    if i > 0 {
      BoundaryStep(s, i);
      BoundaryStep(s, j);
      var n := Token(s);
      var rest := s[n..];
      BoundaryRest(rest, i - n, j - n);
      assert rest[i - n..] == s[i..] by { DropTwice(s, n, i); }
      assert (j - n) - (i - n) == j - i;
    } else {
      assert s[0..] == s;
    }
  }

  /** Between two token boundaries a nested scan never disagrees with the outer one. */
  lemma ScanOfSlice(s: string, i: nat, j: nat)
    requires i <= j <= |s| && Boundary(s, i) && Boundary(s, j)
    ensures Text(s[i..j]) == Text(s)[i..j] && Code(s[i..j]) == Code(s)[i..j]
  {
    hide Text, Code, Boundary;
    BoundaryRest(s, i, j);
    ScanSplits(s, i);
    ScanSplits(s[i..], j - i);
    SliceTwice(s, i, j);
    SliceTwice(Text(s), i, j);
    SliceTwice(Code(s), i, j);
  }

  lemma SliceTwice(s: string, i: nat, j: nat)
    requires i <= j <= |s|
    ensures s[i..j] == s[i..][..j - i]
  {
  }

  // ------------------------------------------------------------------------------------------
  // Masking is idempotent.

  /** Nothing in the string starts a quoted value or a comment. */
  ghost predicate Bare(s: string) {
    && (forall i :: 0 <= i < |s| ==> !IsQuote(s[i]))
    && (forall i :: 0 <= i < |s| - 1 ==> !(s[i] == '-' && s[i + 1] == '-') && !(s[i] == '/' && s[i + 1] == '*'))
  }

  lemma {:induction false} BareIsFixed(s: string)
    requires Bare(s)
    ensures Text(s) == s && Code(s) == s
    decreases |s|
  {
    if s != [] { BareIsFixed(s[1..]); }
  }

  lemma {:induction false} CodeIsBare(s: string)
    ensures Bare(Code(s))
    decreases |s|
  {
    if s != [] {
      var n := Token(s);
      CodeIsBare(s[n..]);
      if IsPlain(s) && n < |s| { MaskOnlyBlanks(s[n..], 0); }
    }
  }

  lemma BlankAhead(s: string)
    ensures Text(" " + s) == " " + Text(s) && Code(" " + s) == " " + Code(s)
  {
    var t := " " + s;
    assert Token(t) == 1 && t[..1] == " " && t[1..] == s;
  }

  lemma {:induction false} SpacesAhead(n: nat, s: string)
    ensures Text(Spaces(n) + s) == Spaces(n) + Text(s) && Code(Spaces(n) + s) == Spaces(n) + Code(s)
  {
    hide Text, Code;
    if n > 0 {
      SpacesAhead(n - 1, s);
      BlankAhead(Spaces(n - 1) + s);
      assert Spaces(n) + s == " " + (Spaces(n - 1) + s);
      assert Spaces(n) + Text(s) == " " + (Spaces(n - 1) + Text(s));
      assert Spaces(n) + Code(s) == " " + (Spaces(n - 1) + Code(s));
    } else {
      assert Spaces(0) + s == s && Spaces(0) + Text(s) == Text(s) && Spaces(0) + Code(s) == Code(s);
    }
  }

  /** A complete quoted value ends where it did whatever follows, unless its own quote does. */
  lemma {:induction false} QuoteEndAppend(s: string, quote: char, i: nat, u: string)
    requires i <= |s| && QuoteClosed(s, quote, i)
    requires u != [] && quote != ']' ==> u[0] != quote
    ensures QuoteEnd(s + u, quote, i) == |s|
    decreases |s| - i
  {
    if s[i] != quote { QuoteEndAppend(s, quote, i + 1, u); }
    else if quote != ']' && i + 1 < |s| && s[i + 1] == quote { QuoteEndAppend(s, quote, i + 2, u); }
  }

  /** The scan reaches a closing quote, and it is the last character. */
  predicate QuoteClosed(s: string, quote: char, i: nat)
    requires i <= |s|
    decreases |s| - i
  {
    if i == |s| then false
    else if s[i] != quote then QuoteClosed(s, quote, i + 1)
    else if quote != ']' && i + 1 < |s| && s[i + 1] == quote then QuoteClosed(s, quote, i + 2)
    else i + 1 == |s|
  }

  /** A quoted token that is not the last is complete and not followed by its own quote. */
  lemma {:induction false} QuoteStops(s: string, quote: char, i: nat)
    requires i <= |s| && QuoteEnd(s, quote, i) < |s|
    ensures QuoteClosed(s[..QuoteEnd(s, quote, i)], quote, i)
    ensures quote != ']' ==> s[QuoteEnd(s, quote, i)] != quote
    decreases |s| - i
  {
    if s[i] != quote { QuoteStops(s, quote, i + 1); }
    else if quote != ']' && i + 1 < |s| && s[i + 1] == quote { QuoteStops(s, quote, i + 2); }
  }

  lemma {:induction false} TextIsFixed(s: string)
    ensures Text(Text(s)) == Text(s) && Code(Text(s)) == Code(s)
    decreases |s|
  {
    if s != [] {
      var n := Token(s);
      var rest := Text(s[n..]);
      TextIsFixed(s[n..]);
      if n < |s| { MaskOnlyBlanks(s[n..], 0); }
      if IsComment(s) {
        SpacesAhead(n, rest);
      } else {
        assert Text(s) == s[..n] + rest;
        TokenOfText(s);
        assert (s[..n] + rest)[n..] == rest;
      }
    }
  }

  lemma TokenOfText(s: string)
    requires s != [] && !IsComment(s)
    ensures var t := Text(s); Token(t) == Token(s) && !IsComment(t) && IsPlain(t) == IsPlain(s)
  {
    var n := Token(s);
    var rest := Text(s[n..]);
    if n < |s| { MaskOnlyBlanks(s[n..], 0); }
    if IsQuote(s[0]) {
      if n < |s| {
        QuoteStops(s, Closing(s[0]), 1);
        QuoteEndAppend(s[..n], Closing(s[0]), 1, rest);
      } else {
        assert Text(s) == s;
      }
    }
  }

  /** Masking a mask changes nothing. */
  lemma MaskingIsIdempotent(s: string)
    ensures Text(Text(s)) == Text(s) && Code(Code(s)) == Code(s)
    ensures Code(Text(s)) == Code(s) && Text(Code(s)) == Code(s)
  {
    TextIsFixed(s);
    CodeIsBare(s);
    BareIsFixed(Code(s));
  }

  // ------------------------------------------------------------------------------------------
  // The scanner as written, over two character arrays.

  method Fill(a: array<char>, from: nat, to: nat)
    requires from <= to <= a.Length
    modifies a
    ensures a[..] == Blanked(old(a[..]), from, to)
  {
    for i := from to to
      invariant a[..] == old(a[..from]) + Spaces(i - from) + old(a[i..])
    {
      SpacesEnd(i - from);
      a[i] := ' ';
    }
  }

  lemma {:induction false} SpacesEnd(n: nat)
    ensures Spaces(n + 1) == Spaces(n) + " "
  {
    if n > 0 { SpacesEnd(n - 1); }
  }

  lemma {:induction false} QuoteEndShift(s: string, quote: char, k: nat, i: nat)
    requires k + i <= |s|
    ensures k + QuoteEnd(s[k..], quote, i) == QuoteEnd(s, quote, k + i)
    decreases |s| - i
  {
    if k + i < |s| {
      if s[k + i] != quote { QuoteEndShift(s, quote, k, i + 1); }
      else if quote != ']' && k + i + 1 < |s| && s[k + i + 1] == quote { QuoteEndShift(s, quote, k, i + 2); }
    }
  }

  /** The inner loop of the source. */
  method ScanQuoted(sql: string, quote: char, from: nat) returns (end: nat)
    requires from <= |sql|
    ensures end == QuoteEnd(sql, quote, from)
  {
    end := from;
    while end < |sql|
      invariant end <= |sql| && QuoteEnd(sql, quote, end) == QuoteEnd(sql, quote, from)
    {
      if sql[end] == quote {
        if quote != ']' && end + 1 < |sql| && sql[end + 1] == quote {
          end := end + 2;
          continue;
        }
        end := end + 1;
        break;
      }
      end := end + 1;
    }
  }

  /** `masked` is a mask of `s` up to `index` and still `s` from there on. */
  ghost predicate MaskedUpTo(masked: string, mask: string, s: string, index: nat) {
    index <= |s| == |mask| && masked == mask[..index] + s[index..]
  }

  lemma MaskBlanked(masked: string, mask: string, s: string, index: nat, n: nat, rest: string)
    requires MaskedUpTo(masked, mask, s, index) && index + n <= |s|
    requires mask[index..] == Spaces(n) + rest
    ensures MaskedUpTo(masked[..index] + Spaces(n) + masked[index + n..], mask, s, index + n)
    ensures mask[index + n..] == rest
  {
    assert mask[..index + n] == mask[..index] + mask[index..][..n];
    assert masked[index + n..] == s[index + n..];
  }

  lemma MaskKept(masked: string, mask: string, s: string, index: nat, n: nat, rest: string)
    requires MaskedUpTo(masked, mask, s, index) && index + n <= |s|
    requires mask[index..] == s[index..][..n] + rest
    ensures MaskedUpTo(masked, mask, s, index + n)
    ensures mask[index + n..] == rest
  {
    assert mask[..index + n] == mask[..index] + mask[index..][..n];
    assert s[index..] == s[index..][..n] + s[index + n..];
  }

  /** The loop invariant: both arrays are masked up to `index`, where a token starts. */
  ghost predicate Scanned(text: string, code: string, sql: string, index: nat) {
    && MaskedUpTo(text, Text(sql), sql, index) && MaskedUpTo(code, Code(sql), sql, index)
    && Text(sql)[index..] == Text(sql[index..]) && Code(sql)[index..] == Code(sql[index..])
  }

  function Blanked(a: string, from: nat, to: nat): string
    requires from <= to <= |a|
  {
    a[..from] + Spaces(to - from) + a[to..]
  }

  lemma ScanAt(sql: string, index: nat)
    requires index < |sql|
    ensures var rest, n := sql[index..], Token(sql[index..]);
            && Text(rest) == TextHead(rest) + Text(sql[index + n..])
            && Code(rest) == CodeHead(rest) + Code(sql[index + n..])
  {
    var rest, n := sql[index..], Token(sql[index..]);
    assert rest[n..] == sql[index + n..];
  }

  lemma QuoteHeads(sql: string, index: nat)
    requires index < |sql| && IsQuote(sql[index])
    ensures var n := Token(sql[index..]);
            && index + n == QuoteEnd(sql, Closing(sql[index]), index + 1)
            && Text(sql[index..]) == sql[index..][..n] + Text(sql[index + n..])
            && Code(sql[index..]) == Spaces(n) + Code(sql[index + n..])
  {
    hide Text, Code, Spaces;
    QuoteEndShift(sql, Closing(sql[index]), index, 1);
    ScanAt(sql, index);
  }

  lemma CommentHeads(sql: string, index: nat)
    requires index < |sql| && IsComment(sql[index..])
    ensures var n := Token(sql[index..]);
            && Text(sql[index..]) == Spaces(n) + Text(sql[index + n..])
            && Code(sql[index..]) == Spaces(n) + Code(sql[index + n..])
  {
    hide Text, Code, Spaces, Token;
    ScanAt(sql, index);
  }

  lemma {:induction false} ScannedQuote(text: string, code: string, sql: string, index: nat)
    requires Scanned(text, code, sql, index) && index < |sql| == |text| == |code| && IsQuote(sql[index])
    ensures var end := QuoteEnd(sql, Closing(sql[index]), index + 1);
            Scanned(text, Blanked(code, index, end), sql, end)
  {
    hide Text, Code, QuoteEnd, Spaces, Token, TextHead, CodeHead;
    QuoteHeads(sql, index);
    var n := Token(sql[index..]);
    MaskKept(text, Text(sql), sql, index, n, Text(sql[index + n..]));
    MaskBlanked(code, Code(sql), sql, index, n, Code(sql[index + n..]));
  }

  lemma {:induction false} ScannedComment(text: string, code: string, sql: string, index: nat)
    requires Scanned(text, code, sql, index) && index < |sql| == |text| == |code| && IsComment(sql[index..])
    ensures var end := index + Token(sql[index..]);
            Scanned(Blanked(text, index, end), Blanked(code, index, end), sql, end)
  {
    hide Text, Code, Spaces, Token, TextHead, CodeHead, IsComment;
    CommentHeads(sql, index);
    var n := Token(sql[index..]);
    MaskBlanked(text, Text(sql), sql, index, n, Text(sql[index + n..]));
    MaskBlanked(code, Code(sql), sql, index, n, Code(sql[index + n..]));
  }

  lemma ScannedPlain(text: string, code: string, sql: string, index: nat)
    requires Scanned(text, code, sql, index) && index < |sql| == |text| == |code| && IsPlain(sql[index..])
    ensures Scanned(text, code, sql, index + 1)
  {
    ScanAt(sql, index);
    hide Text, Code;
    MaskKept(text, Text(sql), sql, index, 1, Text(sql[index + 1..]));
    MaskKept(code, Code(sql), sql, index, 1, Code(sql[index + 1..]));
  }

  lemma ScanStarts(sql: string)
    ensures Scanned(sql, sql, sql, 0)
  {
    assert sql[0..] == sql && Text(sql)[0..] == Text(sql) && Code(sql)[0..] == Code(sql);
  }

  lemma ScanEnds(text: string, code: string, sql: string)
    requires Scanned(text, code, sql, |sql|)
    ensures text == Text(sql) && code == Code(sql)
  {
  }

  method Characters(sql: string) returns (a: array<char>)
    ensures fresh(a) && a[..] == sql
  {
    a := new char[|sql|];
    for i := 0 to |sql|
      invariant a[..i] == sql[..i]
    {
      a[i] := sql[i];
    }
  }

  method Scan(sql: string) returns (text: array<char>, code: array<char>)
    ensures fresh(text) && fresh(code)
    ensures text[..] == Text(sql) && code[..] == Code(sql)
  {
    text := Characters(sql);
    code := Characters(sql);
    hide Scanned, Text, Code;
    ScanStarts(sql);
    var index := 0;
    while index < |sql|
      invariant index <= |sql| && text.Length == code.Length == |sql| && text != code
      invariant fresh(text) && fresh(code)
      invariant Scanned(text[..], code[..], sql, index)
    {
      index := MaskToken(sql, text, code, index);
    }
    ScanEnds(text[..], code[..], sql);
  }

  /** The body of the loop: blank the token at `index` where it must be, and step past it. */
  method MaskToken(sql: string, text: array<char>, code: array<char>, index: nat) returns (end: nat)
    requires index < |sql| == text.Length == code.Length && text != code
    requires Scanned(text[..], code[..], sql, index)
    modifies text, code
    ensures index < end <= |sql| && Scanned(text[..], code[..], sql, end)
  {
    hide Scanned, Spaces, Blanked, QuoteEnd, LineEnd, BlockEnd, Text, Code;
    if IsQuote(sql[index]) {
      ScannedQuote(text[..], code[..], sql, index);
      end := ScanQuoted(sql, Closing(sql[index]), index + 1);
      Fill(code, index, end);
    } else if LineStart(sql[index..]) || BlockStart(sql[index..]) {
      ScannedComment(text[..], code[..], sql, index);
      end := index + if LineStart(sql[index..]) then LineEnd(sql[index..], 2) else BlockEnd(sql[index..], 2);
      Fill(text, index, end);
      Fill(code, index, end);
    } else {
      ScannedPlain(text[..], code[..], sql, index);
      end := index + 1;
    }
  }
}
