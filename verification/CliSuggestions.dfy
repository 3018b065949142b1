/** Spelling suggestions: the two-row edit distance is the length of a shortest chain of single edits,
    a metric, and the suggestion is the first nearest known spelling within three edits. */
module CliSuggestions {
  import opened Options

  function Min(a: nat, b: nat): nat {
    if a <= b then a else b
  }

  function Init(s: string): string
    requires s != []
  {
    s[..|s| - 1]
  }

  function Last(s: string): char
    requires s != []
  {
    s[|s| - 1]
  }

  function Cost(x: char, y: char): nat {
    if x == y then 0 else 1
  }

  /** The recurrence of the table, on the prefixes themselves. */
  function Distance(left: string, right: string): nat
    decreases |left| + |right|
  {
    if left == [] then |right|
    else if right == [] then |left|
    else Min(Min(Distance(left, Init(right)) + 1, Distance(Init(left), right) + 1),
             Distance(Init(left), Init(right)) + Cost(Last(left), Last(right)))
  }

  // ------------------------------------------------------------------------------------------
  // Chains of edits: an independent reading of what the distance means.

  function Inserted(s: string, i: nat, c: char): string
    requires i <= |s|
  {
    s[..i] + [c] + s[i..]
  }

  /** `y` is `x` with one character inserted, deleted or replaced. */
  ghost predicate OneEdit(x: string, y: string) {
    || (|y| == |x| + 1 && exists i, c :: 0 <= i <= |x| && y == Inserted(x, i, c))
    || (|x| == |y| + 1 && exists i, c :: 0 <= i <= |y| && x == Inserted(y, i, c))
    || (|x| == |y| && exists i :: 0 <= i < |x| && y == x[i := y[i]])
  }

  /** A way from `a` to `b` by single edits, with all intermediate strings. */
  ghost predicate Chain(path: seq<string>, a: string, b: string) {
    && path != [] && path[0] == a && path[|path| - 1] == b
    && forall i :: 0 <= i < |path| - 1 ==> OneEdit(path[i], path[i + 1])
  }

  // No chain is shorter than the distance: one edit changes it by at most one.

  lemma {:induction false} InsertionNear(x: string, i: nat, c: char, z: string)
    requires i <= |x|
    ensures var y := Inserted(x, i, c);
            Distance(x, z) <= Distance(y, z) + 1 && Distance(y, z) <= Distance(x, z) + 1
    decreases |x| + |z|
  {
    var y := Inserted(x, i, c);
    if z != [] {
      if i == |x| {
        assert Init(y) == x && y != [];
        InsertionNear(x, i, c, Init(z));
      } else {
        var x' := Init(x);
        assert y == Inserted(x', i, c) + [Last(x)];
        assert Init(y) == Inserted(x', i, c) && Last(y) == Last(x);
        InsertionNear(x', i, c, z);
        InsertionNear(x, i, c, Init(z));
        InsertionNear(x', i, c, Init(z));
      }
    }
  }

  lemma DistanceStep(left: string, right: string)
    requires left != [] && right != []
    ensures var d, a, b := Distance(left, right), Distance(left, Init(right)), Distance(Init(left), right);
            var c := Distance(Init(left), Init(right)) + Cost(Last(left), Last(right));
            d <= a + 1 && d <= b + 1 && d <= c && (d == a + 1 || d == b + 1 || d == c)
  {
  }

  /** `x` and `y` differ at most at `i`. */
  ghost predicate Alike(x: string, y: string, i: nat) {
    |x| == |y| && i < |x| && forall j :: 0 <= j < |x| && j != i ==> x[j] == y[j]
  }

  lemma AlikeInit(x: string, y: string, i: nat)
    requires Alike(x, y, i)
    ensures x != [] && y != [] && i <= |x| - 1
    ensures if i == |x| - 1 then Init(y) == Init(x) else Alike(Init(x), Init(y), i) && Last(y) == Last(x)
  {
  }

  lemma {:induction false} ReplacementNear(x: string, y: string, i: nat, z: string)
    requires Alike(x, y, i)
    ensures Distance(x, z) <= Distance(y, z) + 1
    decreases |x| + |z|
  {
    if z != [] {
      hide Distance, Alike;
      AlikeInit(x, y, i);
      DistanceStep(x, z);
      DistanceStep(y, z);
      ReplacementNear(x, y, i, Init(z));
      if i < |x| - 1 {
        ReplacementNear(Init(x), Init(y), i, z);
        ReplacementNear(Init(x), Init(y), i, Init(z));
      }
    }
  }

  lemma OneEditNear(x: string, y: string, z: string)
    requires OneEdit(x, y)
    ensures Distance(x, z) <= Distance(y, z) + 1
  {
    if |y| == |x| + 1 {
      var i, c :| 0 <= i <= |x| && y == Inserted(x, i, c);
      InsertionNear(x, i, c, z);
    } else if |x| == |y| + 1 {
      var i, c :| 0 <= i <= |y| && x == Inserted(y, i, c);
      InsertionNear(y, i, c, z);
    } else {
      var i :| 0 <= i < |x| && y == x[i := y[i]];
      ReplacementNear(x, y, i, z);
    }
  }

  lemma {:induction false} DistanceToSelf(s: string)
    ensures Distance(s, s) == 0
  {
    if s != [] { DistanceToSelf(Init(s)); }
  }

  lemma {:induction false} NoChainShorter(path: seq<string>, a: string, b: string)
    requires Chain(path, a, b)
    ensures Distance(a, b) <= |path| - 1
    decreases |path|
  {
    if |path| == 1 {
      DistanceToSelf(a);
    } else {
      NoChainShorter(path[1..], path[1], b);
      OneEditNear(a, path[1], b);
    }
  }

  // A chain of exactly that length exists.

  lemma AppendEdit(x: string, y: string, c: char)
    requires OneEdit(x, y)
    ensures OneEdit(x + [c], y + [c])
  {
    if |y| == |x| + 1 {
      var i, d :| 0 <= i <= |x| && y == Inserted(x, i, d);
      assert y + [c] == Inserted(x + [c], i, d);
    } else if |x| == |y| + 1 {
      var i, d :| 0 <= i <= |y| && x == Inserted(y, i, d);
      assert x + [c] == Inserted(y + [c], i, d);
    } else {
      var i :| 0 <= i < |x| && y == x[i := y[i]];
      assert y + [c] == (x + [c])[i := (y + [c])[i]];
    }
  }

  function AppendAll(path: seq<string>, c: char): (r: seq<string>)
    ensures |r| == |path|
  {
    seq(|path|, i requires 0 <= i < |path| => path[i] + [c])
  }

  lemma ChainAppend(path: seq<string>, a: string, b: string, c: char)
    requires Chain(path, a, b)
    ensures Chain(AppendAll(path, c), a + [c], b + [c])
  {
    var r := AppendAll(path, c);
    forall i | 0 <= i < |r| - 1 ensures OneEdit(r[i], r[i + 1]) { AppendEdit(path[i], path[i + 1], c); }
  }

  lemma ChainThen(path: seq<string>, a: string, b: string, c: string)
    requires Chain(path, a, b) && OneEdit(b, c)
    ensures Chain(path + [c], a, c)
  {
  }

  lemma ChainFirst(a: string, path: seq<string>, b: string, c: string)
    requires Chain(path, b, c) && OneEdit(a, b)
    ensures Chain([a] + path, a, c)
  {
    var r := [a] + path;
    forall i | 0 <= i < |r| - 1 ensures OneEdit(r[i], r[i + 1]) {
      if i > 0 { assert r[i] == path[i - 1] && r[i + 1] == path[i]; }
    }
  }

  lemma {:induction false} ChainOfInserts(right: string) returns (path: seq<string>)
    ensures Chain(path, [], right) && |path| == |right| + 1
  {
    if right == [] {
      path := [[]];
    } else {
      path := ChainOfInserts(Init(right));
      assert right == Inserted(Init(right), |right| - 1, Last(right));
      ChainThen(path, [], Init(right), right);
      path := path + [right];
    }
  }

  lemma DropLast(left: string)
    requires left != []
    ensures OneEdit(left, Init(left)) && OneEdit(Init(left), left)
  {
    assert left == Inserted(Init(left), |left| - 1, Last(left));
  }

  lemma {:induction false} ShortestChain(left: string, right: string) returns (path: seq<string>)
    ensures Chain(path, left, right) && |path| == Distance(left, right) + 1
    decreases |left| + |right|
  {
    if left == [] {
      path := ChainOfInserts(right);
    } else if right == [] {
      DropLast(left);
      path := ShortestChain(Init(left), right);
      ChainFirst(left, path, Init(left), right);
      path := [left] + path;
    } else if Distance(left, right) == Distance(left, Init(right)) + 1 {
      DropLast(right);
      path := ShortestChain(left, Init(right));
      ChainThen(path, left, Init(right), right);
      path := path + [right];
    } else if Distance(left, right) == Distance(Init(left), right) + 1 {
      DropLast(left);
      path := ShortestChain(Init(left), right);
      ChainFirst(left, path, Init(left), right);
      path := [left] + path;
    } else {
      var inner := ShortestChain(Init(left), Init(right));
      path := AppendAll(inner, Last(left));
      ChainAppend(inner, Init(left), Init(right), Last(left));
      assert left == Init(left) + [Last(left)] && right == Init(right) + [Last(right)];
      if Last(left) != Last(right) {
        var almost := Init(right) + [Last(left)];
        assert right == almost[|right| - 1 := right[|right| - 1]];
        ChainThen(path, left, almost, right);
        path := path + [right];
      }
    }
  }

  /** The distance is the length of a shortest chain of edits. */
  lemma DistanceIsShortest(left: string, right: string)
    ensures exists path :: Chain(path, left, right) && |path| - 1 == Distance(left, right)
    ensures forall path :: Chain(path, left, right) ==> |path| - 1 >= Distance(left, right)
  {
    var path := ShortestChain(left, right);
    forall other | Chain(other, left, right) ensures |other| - 1 >= Distance(left, right) {
      NoChainShorter(other, left, right);
    }
  }

  // ------------------------------------------------------------------------------------------
  // A metric.

  lemma {:induction false} ZeroMeansEqual(left: string, right: string)
    ensures Distance(left, right) == 0 <==> left == right
    decreases |left| + |right|
  {
    if left == right {
      DistanceToSelf(left);
    } else if left != [] && right != [] {
      ZeroMeansEqual(Init(left), Init(right));
      assert left == Init(left) + [Last(left)] && right == Init(right) + [Last(right)];
    }
  }

  lemma {:induction false} Symmetric(left: string, right: string)
    ensures Distance(left, right) == Distance(right, left)
    decreases |left| + |right|
  {
    if left != [] && right != [] {
      Symmetric(left, Init(right));
      Symmetric(Init(left), right);
      Symmetric(Init(left), Init(right));
    }
  }

  lemma Triangle(a: string, b: string, c: string)
    ensures Distance(a, c) <= Distance(a, b) + Distance(b, c)
  {
    var first := ShortestChain(a, b);
    var second := ShortestChain(b, c);
    var path := first + second[1..];
    forall i | 0 <= i < |path| - 1 ensures OneEdit(path[i], path[i + 1]) {
      if i >= |first| - 1 {
        assert path[i] == second[i - (|first| - 1)] && path[i + 1] == second[i - (|first| - 1) + 1];
      }
    }
    NoChainShorter(path, a, c);
  }

  // ------------------------------------------------------------------------------------------
  // The program.

  /** One row of the table, left to right, from the row above it. */
  method FillRow(left: string, right: string, leftIndex: nat, previous: array<nat>, current: array<nat>)
    requires 1 <= leftIndex <= |left| && previous.Length == current.Length == |right| + 1 && previous != current
    requires forall j :: 0 <= j <= |right| ==> previous[j] == Distance(left[..leftIndex - 1], right[..j])
    modifies current
    ensures forall j :: 0 <= j <= |right| ==> current[j] == Distance(left[..leftIndex], right[..j])
  {
    var row := left[..leftIndex];
    assert Init(row) == left[..leftIndex - 1];
    current[0] := leftIndex;
    for rightIndex := 1 to |right| + 1
      invariant forall j :: 0 <= j < rightIndex ==> current[j] == Distance(row, right[..j])
    {
      assert Init(right[..rightIndex]) == right[..rightIndex - 1];
      assert Last(row) == left[leftIndex - 1] && Last(right[..rightIndex]) == right[rightIndex - 1];
      current[rightIndex] := Min(Min(current[rightIndex - 1] + 1, previous[rightIndex] + 1),
                                 previous[rightIndex - 1] + Cost(left[leftIndex - 1], right[rightIndex - 1]));
    }
  }

  method EditDistance(left: string, right: string) returns (distance: nat)
    ensures distance == Distance(left, right)
  {
    var previous := new nat[|right| + 1](index => index);
    for leftIndex := 1 to |left| + 1
      invariant previous.Length == |right| + 1
      invariant forall j :: 0 <= j <= |right| ==> previous[j] == Distance(left[..leftIndex - 1], right[..j])
    {
      var current := new nat[|right| + 1];
      FillRow(left, right, leftIndex, previous, current);
      forall j | 0 <= j < previous.Length {
        previous[j] := current[j];
      }
    }
    assert left[..|left|] == left && right[..|right|] == right;
    distance := previous[|right|];
  }

  ghost predicate FirstNearest(typed: string, known: seq<string>, i: nat) {
    && i < |known|
    && (forall j :: 0 <= j < |known| ==> Distance(typed, known[i]) <= Distance(typed, known[j]))
    && (forall j :: 0 <= j < i ==> Distance(typed, known[i]) < Distance(typed, known[j]))
  }

  /** The first candidate nearest to what was typed, given exactly when one lies within three edits. */
  method ClosestCliSpelling(typed: string, known: seq<string>) returns (best: Option<string>)
    ensures best.Some? <==> exists i :: 0 <= i < |known| && Distance(typed, known[i]) <= 3
    ensures best.Some? ==> exists i: nat :: FirstNearest(typed, known, i) && known[i] == best.value
  {
    var bestDistance: Option<nat> := None;
    var found := [];
    ghost var at := 0;
    for k := 0 to |known|
      invariant bestDistance.None? <==> k == 0
      invariant bestDistance.Some? ==>
        at < k && known[at] == found && bestDistance.value == Distance(typed, known[at])
      invariant bestDistance.Some? ==> forall j :: 0 <= j < k ==> bestDistance.value <= Distance(typed, known[j])
      invariant bestDistance.Some? ==> forall j :: 0 <= j < at ==> bestDistance.value < Distance(typed, known[j])
    {
      var distance := EditDistance(typed, known[k]);
      if bestDistance.None? || distance < bestDistance.value {
        bestDistance := Some(distance);
        found := known[k];
        at := k;
      }
    }
    assert bestDistance.Some? ==> FirstNearest(typed, known, at);
    best := if bestDistance.Some? && bestDistance.value <= 3 then Some(found) else None;
  }
}
