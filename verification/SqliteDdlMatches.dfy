/** Finding a pattern in DDL: only where a word of the code starts outside all parentheses, and never inside
    an earlier match.  Also the names given to anonymous checks. */
module SqliteDdlMatches {
  import opened Options
  import opened SqliteDdlText
  import opened SqliteDdlScanner

  /** A sticky pattern: where a match that starts at an offset of a text ends, if there is one. */
  type Pattern = (string, nat) -> Option<nat>

  datatype Match = Match(start: nat, end: nat)

  ghost predicate Forward(exec: Pattern) {
    forall s: string, i: nat :: exec(s, i).Some? ==> i <= exec(s, i).value
  }

  predicate WordStart(code: string, i: nat) {
    i < |code| && DigitLetter(code[i]) && (i == 0 || !DigitLetter(code[i - 1]))
  }

  /** Where a match may start. */
  predicate Eligible(code: string, i: nat) {
    WordStart(code, i) && Depth(code, 0, i) == 0
  }

  predicate Letters(s: string) {
    forall i :: 0 <= i < |s| ==> DigitLetter(s[i])
  }

  /** A match may start at a word character that no other leads up to, with as many parentheses opened before it
      as closed. */
  lemma EligibleExactly(code: string, i: nat)
    ensures Eligible(code, i) <==>
              && i < |code| && DigitLetter(code[i])
              && (forall k :: 0 <= k < i ==> !Letters(code[k..i]))
              && multiset(code[..i])['('] == multiset(code[..i])[')']
  {
    hide DigitLetter;
    if i < |code| {
      DepthCounts(code, 0, i);
      assert code[0..i] == code[..i];
      if i > 0 {
        assert Letters(code[i - 1..i]) <==> DigitLetter(code[i - 1]) by { assert code[i - 1..i] == [code[i - 1]]; }
        forall k | 0 <= k < i && !DigitLetter(code[i - 1]) ensures !Letters(code[k..i]) {
          assert code[k..i][i - 1 - k] == code[i - 1];
        }
      }
    }
  }

  function ConsumedEnd(matches: seq<Match>): nat {
    if matches == [] then 0 else matches[|matches| - 1].end
  }

  /** The matches that start before `n`. */
  function MatchesBefore(text: string, code: string, exec: Pattern, n: nat): seq<Match>
    requires n <= |code|
  {
    if n == 0 then []
    else
      var before := MatchesBefore(text, code, exec, n - 1);
      if Eligible(code, n - 1) && ConsumedEnd(before) <= n - 1 && exec(text, n - 1).Some?
      then before + [Match(n - 1, exec(text, n - 1).value)]
      else before
  }

  method FindMatches(sql: string, exec: Pattern) returns (matches: seq<Match>)
    requires Forward(exec)
    ensures matches == MatchesBefore(Text(sql), Code(sql), exec, |sql|)
  {
    hide Text, Code;
    var texts, codes := Scan(sql);
    var text, code := texts[..], codes[..];
    matches := [];
    var cursor, depth, consumedEnd := 0, 0, 0;
    for index := 0 to |code|
      invariant cursor <= index && depth == Depth(code, 0, cursor)
      invariant matches == MatchesBefore(text, code, exec, index) && consumedEnd == ConsumedEnd(matches)
    {
      if !WordStart(code, index) {
        continue;
      }
      while cursor < index
        invariant cursor <= index && depth == Depth(code, 0, cursor)
      {
        if code[cursor] == '(' {
          depth := depth + 1;
        } else if code[cursor] == ')' {
          depth := depth - 1;
        }
        assert Depth(code, 0, cursor + 1) == Depth(code, 0, cursor) + Delta(code[cursor]);
        cursor := cursor + 1;
      }
      if depth != 0 || index < consumedEnd {
        continue;
      }
      var found := exec(text, index);
      if found.Some? {
        matches := matches + [Match(index, found.value)];
        consumedEnd := found.value;
      }
    }
  }

  /** Matches are found in order, apart from each other, at eligible places, as the pattern has them. */
  lemma {:induction false} MatchesApart(text: string, code: string, exec: Pattern, n: nat, k: nat)
    requires Forward(exec) && n <= |code|
    requires k < |MatchesBefore(text, code, exec, n)|
    ensures var matches := MatchesBefore(text, code, exec, n);
            && matches[k].start < n && Eligible(code, matches[k].start)
            && exec(text, matches[k].start) == Some(matches[k].end)
            && matches[k].end <= ConsumedEnd(matches)
            && (k > 0 ==> matches[k - 1].end <= matches[k].start)
  {
    hide Eligible;
    var before := MatchesBefore(text, code, exec, n - 1);
    if k < |before| {
      MatchesApart(text, code, exec, n - 1, k);
    } else if k > 0 {
      MatchesApart(text, code, exec, n - 1, k - 1);
    }
  }

  /** None is missed: wherever the pattern matches at an eligible place, that match is reported or its start
      lies inside one reported before. */
  lemma {:induction false} MatchesComplete(text: string, code: string, exec: Pattern, n: nat, i: nat) returns (k: nat)
    requires Forward(exec) && i < n <= |code| && Eligible(code, i) && exec(text, i).Some?
    ensures var matches := MatchesBefore(text, code, exec, n);
            k < |matches| && matches[k].start <= i && (matches[k].start == i || i < matches[k].end)
  {
    hide Eligible;
    if i < n - 1 {
      k := MatchesComplete(text, code, exec, n - 1, i);
    } else {
      var before := MatchesBefore(text, code, exec, n - 1);
      if ConsumedEnd(before) <= i {
        k := |before|;
      } else {
        k := |before| - 1;
        MatchesApart(text, code, exec, n - 1, k);
      }
    }
  }

  // ------------------------------------------------------------------------------------------
  // Names of anonymous checks.

  function Digit(d: nat): char
    requires d < 10
  {
    '0' + d as char
  }

  function Decimal(n: nat): string {
    (if n < 10 then [] else Decimal(n / 10)) + [Digit(n % 10)]
  }

  function Numeral(s: string): int {
    if s == [] then 0 else Numeral(s[..|s| - 1]) * 10 + (s[|s| - 1] as int - '0' as int)
  }

  lemma {:induction false} NumeralReads(n: nat)
    ensures Numeral(Decimal(n)) == n
  {
    var s := Decimal(n);
    assert s[..|s| - 1] == if n < 10 then [] else Decimal(n / 10);
    if n >= 10 { NumeralReads(n / 10); }
  }

  function Candidate(k: nat): string {
    "ck_pulled_" + Decimal(k)
  }

  lemma CandidatesDiffer(j: nat, k: nat)
    requires Candidate(j) == Candidate(k)
    ensures j == k
  {
    assert Candidate(j)[10..] == Decimal(j) && Candidate(k)[10..] == Decimal(k);
    NumeralReads(j);
    NumeralReads(k);
  }

  class NameSource {
    var used: set<string>
    var anonymousCheck: nat

    constructor (used: set<string>)
      ensures this.used == used && anonymousCheck == 0
    {
      this.used := used;
      anonymousCheck := 0;
    }

    /** The next candidate nobody uses; the search ends because only so many names are used. */
    method AnonymousName() returns (name: string)
      modifies this
      ensures name !in old(used) && used == old(used) + {name}
      ensures anonymousCheck > old(anonymousCheck) && name == Candidate(anonymousCheck)
      ensures forall k :: old(anonymousCheck) < k < anonymousCheck ==> Candidate(k) in old(used)
    {
      ghost var first := anonymousCheck;
      anonymousCheck := anonymousCheck + 1;
      name := Candidate(anonymousCheck);
      ghost var rest := used;
      while name in used
        invariant first < anonymousCheck && name == Candidate(anonymousCheck) && used == old(used)
        invariant forall k :: first < k < anonymousCheck ==> Candidate(k) in used
        invariant forall k :: anonymousCheck <= k && Candidate(k) in used ==> Candidate(k) in rest
        decreases |rest|
      {
        rest := rest - {name};
        forall k | anonymousCheck < k && Candidate(k) in used ensures Candidate(k) in rest {
          if Candidate(k) == name { CandidatesDiffer(k, anonymousCheck); }
        }
        anonymousCheck := anonymousCheck + 1;
        name := Candidate(anonymousCheck);
      }
      used := used + {name};
    }

    /** However many are drawn, they differ from each other and from every name used before. */
    method AnonymousNames(count: nat) returns (names: seq<string>)
      modifies this
      ensures |names| == count && forall i :: 0 <= i < count ==> names[i] !in old(used)
      ensures forall i, j :: 0 <= i < j < count ==> names[i] != names[j]
    {
      names := [];
      while |names| < count
        invariant |names| <= count && old(used) <= used
        invariant forall i :: 0 <= i < |names| ==> names[i] !in old(used) && names[i] in used
        invariant forall i, j :: 0 <= i < j < |names| ==> names[i] != names[j]
      {
        var name := AnonymousName();
        names := names + [name];
      }
    }
  }
}
