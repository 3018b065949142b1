/** Splitting a mutation scope into shards: patterns grouped by file, files placed heaviest first on
    the lightest shard. */
module MutationShards {
  import opened Options
  import opened Scheduling

  /** A mutation pattern after its `:first-last` suffix was read off. */
  datatype Lines = Whole | Range(first: int, last: int)
  datatype Pattern = Pattern(file: string, lines: Lines)

  datatype Entry = Entry(file: string, patterns: seq<Pattern>, weight: int)
  datatype Shard = Shard(mutate: seq<Pattern>, weight: int)

  function WeightOf(pattern: Pattern, sourceLines: string -> int): int {
    match pattern.lines
    case Range(first, last) => last - first + 1
    case Whole => sourceLines(pattern.file)
  }

  /** A range of one line weighs one, and ranges end to end weigh together what the whole range does. */
  lemma RangesAddUp(file: string, first: int, middle: int, last: int, sourceLines: string -> int)
    ensures WeightOf(Pattern(file, Range(first, first)), sourceLines) == 1
    ensures WeightOf(Pattern(file, Range(first, middle)), sourceLines)
            + WeightOf(Pattern(file, Range(middle + 1, last)), sourceLines)
            == WeightOf(Pattern(file, Range(first, last)), sourceLines)
  {
  }

  function TotalWeight(patterns: seq<Pattern>, sourceLines: string -> int): int {
    if patterns == [] then 0
    else TotalWeight(patterns[..|patterns| - 1], sourceLines) + WeightOf(patterns[|patterns| - 1], sourceLines)
  }

  /** All patterns of some entries, or of some shards, with their multiplicity. */
  function Pool(entries: seq<Entry>): multiset<Pattern> {
    if entries == [] then multiset{} else Pool(entries[..|entries| - 1]) + multiset(entries[|entries| - 1].patterns)
  }

  function Combined(shards: seq<Shard>): multiset<Pattern> {
    if shards == [] then multiset{} else Combined(shards[..|shards| - 1]) + multiset(shards[|shards| - 1].mutate)
  }

  function Weights(entries: seq<Entry>): (jobs: seq<int>)
    ensures |jobs| == |entries| && forall i :: 0 <= i < |jobs| ==> jobs[i] == entries[i].weight
  {
    seq(|entries|, i requires 0 <= i < |entries| => entries[i].weight)
  }

  ghost predicate DistinctFiles(entries: seq<Entry>) {
    forall i, j :: 0 <= i < j < |entries| ==> entries[i].file != entries[j].file
  }

  ghost predicate EntryOk(entry: Entry, sourceLines: string -> int) {
    && entry.patterns != []
    && (forall p :: p in entry.patterns ==> p.file == entry.file)
    && entry.weight == TotalWeight(entry.patterns, sourceLines)
  }

  /** One entry per file, holding exactly its patterns. */
  ghost predicate Grouped(patterns: seq<Pattern>, entries: seq<Entry>, sourceLines: string -> int) {
    && DistinctFiles(entries)
    && (forall e :: e in entries ==> EntryOk(e, sourceLines))
    && Pool(entries) == multiset(patterns)
  }

  // ------------------------------------------------------------------------------------------

  lemma {:induction false} PoolReplace(entries: seq<Entry>, i: nat, entry: Entry, p: Pattern)
    requires i < |entries| && entry.patterns == entries[i].patterns + [p]
    ensures Pool(entries[i := entry]) == Pool(entries) + multiset{p}
  {
    var n := |entries| - 1;
    var more := entries[i := entry];
    if i == n {
      assert more[..n] == entries[..n];
    } else {
      PoolReplace(entries[..n], i, entry, p);
      assert more[..n] == entries[..n][i := entry];
    }
  }

  function AddTo(entry: Entry, pattern: Pattern, sourceLines: string -> int): Entry {
    Entry(entry.file, entry.patterns + [pattern], entry.weight + WeightOf(pattern, sourceLines))
  }

  lemma GroupedInOldEntry(patterns: seq<Pattern>, entries: seq<Entry>, sourceLines: string -> int, i: nat, pattern: Pattern)
    requires Grouped(patterns, entries, sourceLines) && i < |entries| && entries[i].file == pattern.file
    ensures Grouped(patterns + [pattern], entries[i := AddTo(entries[i], pattern, sourceLines)], sourceLines)
  {
    var entry := AddTo(entries[i], pattern, sourceLines);
    assert entries[i] in entries && entry.patterns[..|entries[i].patterns|] == entries[i].patterns;
    assert EntryOk(entry, sourceLines);
    var more := entries[i := entry];
    forall e | e in more ensures EntryOk(e, sourceLines) {
      if e != entry { assert e in entries; }
    }
    PoolReplace(entries, i, entry, pattern);
  }

  lemma GroupedInNewEntry(patterns: seq<Pattern>, entries: seq<Entry>, sourceLines: string -> int, pattern: Pattern)
    requires Grouped(patterns, entries, sourceLines)
    requires forall e :: e in entries ==> e.file != pattern.file
    ensures Grouped(patterns + [pattern], entries + [AddTo(Entry(pattern.file, [], 0), pattern, sourceLines)], sourceLines)
  {
    var entry := AddTo(Entry(pattern.file, [], 0), pattern, sourceLines);
    assert entry.patterns == [pattern] && [pattern][..0] == [];
    assert TotalWeight([pattern], sourceLines) == WeightOf(pattern, sourceLines);
    forall i | 0 <= i < |entries| ensures entries[i].file != pattern.file { assert entries[i] in entries; }
  }

  /** The insertion-ordered map of the source: entries in order of first occurrence. */
  method GroupByFile(patterns: seq<Pattern>, sourceLines: string -> int) returns (entries: seq<Entry>)
    ensures Grouped(patterns, entries, sourceLines)
  {
    entries := [];
    var files: map<string, nat> := map[];
    for k := 0 to |patterns|
      invariant Grouped(patterns[..k], entries, sourceLines)
      invariant forall f :: f in files ==> files[f] < |entries| && entries[files[f]].file == f
      invariant forall e :: e in entries ==> e.file in files
    {
      hide Grouped;
      var pattern := patterns[k];
      assert patterns[..k + 1] == patterns[..k] + [pattern];
      if pattern.file in files {
        var i := files[pattern.file];
        GroupedInOldEntry(patterns[..k], entries, sourceLines, i, pattern);
        entries := entries[i := AddTo(entries[i], pattern, sourceLines)];
      } else {
        GroupedInNewEntry(patterns[..k], entries, sourceLines, pattern);
        files := files[pattern.file := |entries|];
        entries := entries + [AddTo(Entry(pattern.file, [], 0), pattern, sourceLines)];
      }
    }
    assert patterns[..|patterns|] == patterns;
  }

  // ------------------------------------------------------------------------------------------
  // Heaviest first; entries of equal weight by file name, in whatever order the locale gives.

  function Insert(entry: Entry, sorted: seq<Entry>, comesFirst: (string, string) -> bool): (r: seq<Entry>)
    ensures |r| == |sorted| + 1
  {
    if sorted == [] then [entry]
    else if entry.weight > sorted[0].weight
         || (entry.weight == sorted[0].weight && comesFirst(entry.file, sorted[0].file))
    then [entry] + sorted
    else [sorted[0]] + Insert(entry, sorted[1..], comesFirst)
  }

  function Sorted(entries: seq<Entry>, comesFirst: (string, string) -> bool): (r: seq<Entry>)
    ensures |r| == |entries|
  {
    if entries == [] then [] else Insert(entries[0], Sorted(entries[1..], comesFirst), comesFirst)
  }

  ghost predicate Descending(entries: seq<Entry>) {
    forall i, j :: 0 <= i <= j < |entries| ==> entries[i].weight >= entries[j].weight
  }

  lemma {:induction false} InsertMembers(entry: Entry, sorted: seq<Entry>, comesFirst: (string, string) -> bool)
    ensures forall e :: e in Insert(entry, sorted, comesFirst) <==> e == entry || e in sorted
  {
    if sorted != [] { InsertMembers(entry, sorted[1..], comesFirst); }
  }

  lemma {:induction false} InsertDescending(entry: Entry, sorted: seq<Entry>, comesFirst: (string, string) -> bool)
    requires Descending(sorted)
    ensures Descending(Insert(entry, sorted, comesFirst))
  {
    if sorted != [] {
      InsertDescending(entry, sorted[1..], comesFirst);
      var rest := Insert(entry, sorted[1..], comesFirst);
      InsertMembers(entry, sorted[1..], comesFirst);
      assert forall i :: 0 <= i < |rest| ==> rest[i] in rest;
    }
  }

  lemma {:induction false} InsertDistinct(entry: Entry, sorted: seq<Entry>, comesFirst: (string, string) -> bool)
    requires DistinctFiles(sorted) && forall e :: e in sorted ==> e.file != entry.file
    ensures DistinctFiles(Insert(entry, sorted, comesFirst))
  {
    if sorted != [] {
      InsertDistinct(entry, sorted[1..], comesFirst);
      var rest := Insert(entry, sorted[1..], comesFirst);
      InsertMembers(entry, sorted[1..], comesFirst);
      assert forall i :: 0 <= i < |rest| ==> rest[i] in rest;
    }
  }

  lemma {:induction false} InsertPool(entry: Entry, sorted: seq<Entry>, comesFirst: (string, string) -> bool)
    ensures Pool(Insert(entry, sorted, comesFirst)) == Pool(sorted) + multiset(entry.patterns)
  {
    var r := Insert(entry, sorted, comesFirst);
    if sorted == [] {
      assert [entry][..0] == [];
    } else if r == [entry] + sorted {
      PoolPrepend(entry, sorted);
    } else {
      assert sorted == [sorted[0]] + sorted[1..];
      InsertPool(entry, sorted[1..], comesFirst);
      PoolPrepend(sorted[0], Insert(entry, sorted[1..], comesFirst));
      PoolPrepend(sorted[0], sorted[1..]);
    }
  }

  lemma {:induction false} PoolPrepend(entry: Entry, entries: seq<Entry>)
    ensures Pool([entry] + entries) == multiset(entry.patterns) + Pool(entries)
  {
    var all := [entry] + entries;
    if entries == [] {
      assert all[..0] == [];
    } else {
      PoolPrepend(entry, entries[..|entries| - 1]);
      assert all[..|all| - 1] == [entry] + entries[..|entries| - 1];
    }
  }

  lemma {:induction false} SortedKeeps(entries: seq<Entry>, comesFirst: (string, string) -> bool)
    requires DistinctFiles(entries)
    ensures var r := Sorted(entries, comesFirst);
            && Descending(r)
            && (forall e :: e in r <==> e in entries)
            && DistinctFiles(r)
            && Pool(r) == Pool(entries)
  {
    if entries != [] {
      var first, rest := entries[0], Sorted(entries[1..], comesFirst);
      assert entries == [first] + entries[1..];
      SortedKeeps(entries[1..], comesFirst);
      forall e | e in rest ensures e.file != first.file { assert e in entries[1..]; }
      InsertMembers(first, rest, comesFirst);
      InsertDescending(first, rest, comesFirst);
      InsertDistinct(first, rest, comesFirst);
      InsertPool(first, rest, comesFirst);
      PoolPrepend(first, entries[1..]);
    }
  }

  /** A strict order that tells any two file names apart. */
  ghost predicate TellsApart(comesFirst: (string, string) -> bool) {
    && (forall f, g, h :: comesFirst(f, g) && comesFirst(g, h) ==> comesFirst(f, h))
    && (forall f, g :: f != g ==> comesFirst(f, g) || comesFirst(g, f))
  }

  ghost predicate Precedes(e: Entry, f: Entry, comesFirst: (string, string) -> bool) {
    e.weight > f.weight || (e.weight == f.weight && comesFirst(e.file, f.file))
  }

  ghost predicate InOrder(entries: seq<Entry>, comesFirst: (string, string) -> bool) {
    forall i, j :: 0 <= i < j < |entries| ==> Precedes(entries[i], entries[j], comesFirst)
  }

  lemma {:induction false} InsertInOrder(entry: Entry, sorted: seq<Entry>, comesFirst: (string, string) -> bool)
    requires TellsApart(comesFirst) && InOrder(sorted, comesFirst)
    requires forall e :: e in sorted ==> e.file != entry.file
    ensures InOrder(Insert(entry, sorted, comesFirst), comesFirst)
  {
    if sorted != [] {
      InsertInOrder(entry, sorted[1..], comesFirst);
      var rest := Insert(entry, sorted[1..], comesFirst);
      InsertMembers(entry, sorted[1..], comesFirst);
      forall e | e in rest && Insert(entry, sorted, comesFirst)[0] == sorted[0] && !Precedes(entry, sorted[0], comesFirst)
        ensures Precedes(sorted[0], e, comesFirst)
      {
        if e in sorted[1..] {
          var i :| 0 <= i < |sorted[1..]| && sorted[1..][i] == e;
          assert sorted[i + 1] == e;
        }
      }
      assert forall i :: 0 <= i < |rest| ==> rest[i] in rest;
    }
  }

  /** Heaviest first, and by name among files of equal weight. */
  lemma {:induction false} SortedInOrder(entries: seq<Entry>, comesFirst: (string, string) -> bool)
    requires TellsApart(comesFirst) && DistinctFiles(entries)
    ensures InOrder(Sorted(entries, comesFirst), comesFirst)
  {
    if entries != [] {
      SortedInOrder(entries[1..], comesFirst);
      SortedKeeps(entries[1..], comesFirst);
      forall e | e in Sorted(entries[1..], comesFirst) ensures e.file != entries[0].file { assert e in entries[1..]; }
      InsertInOrder(entries[0], Sorted(entries[1..], comesFirst), comesFirst);
    }
  }

  // ------------------------------------------------------------------------------------------

  /** The patterns the first `k` entries bring to shard `s`. */
  function Gathered(entries: seq<Entry>, placed: seq<nat>, k: nat, s: nat): seq<Pattern>
    requires k <= |entries| && k <= |placed|
  {
    if k == 0 then []
    else Gathered(entries, placed, k - 1, s) + if placed[k - 1] == s then entries[k - 1].patterns else []
  }

  /** Shards as a placement of entries fills them. */
  ghost predicate Filled(shards: seq<Shard>, entries: seq<Entry>, placed: seq<nat>, k: nat)
    requires k <= |entries| && k <= |placed|
  {
    forall s :: 0 <= s < |shards| ==>
      && shards[s].weight == Load(Weights(entries), placed, k, s)
      && shards[s].mutate == Gathered(entries, placed, k, s)
  }

  lemma {:induction false} LoadPrefix(jobs: seq<int>, placed: seq<nat>, more: nat, k: nat, s: nat)
    requires k <= |jobs| && k <= |placed|
    ensures Load(jobs, placed + [more], k, s) == Load(jobs, placed, k, s)
  {
    if k > 0 { LoadPrefix(jobs, placed, more, k - 1, s); }
  }

  lemma {:induction false} GatheredPrefix(entries: seq<Entry>, placed: seq<nat>, more: nat, k: nat, s: nat)
    requires k <= |entries| && k <= |placed|
    ensures Gathered(entries, placed + [more], k, s) == Gathered(entries, placed, k, s)
  {
    if k > 0 { GatheredPrefix(entries, placed, more, k - 1, s); }
  }

  /** The first shard of least weight. */
  method Smallest(shards: seq<Shard>) returns (least: nat)
    requires shards != []
    ensures least < |shards|
    ensures forall s :: 0 <= s < |shards| ==> shards[least].weight <= shards[s].weight
    ensures forall s :: 0 <= s < least ==> shards[least].weight < shards[s].weight
  {
    least := 0;
    for item := 1 to |shards|
      invariant least < item
      invariant forall s :: 0 <= s < item ==> shards[least].weight <= shards[s].weight
      invariant forall s :: 0 <= s < least ==> shards[least].weight < shards[s].weight
    {
      if shards[item].weight < shards[least].weight {
        least := item;
      }
    }
  }

  /** The greedy so far, before all entries are placed. */
  ghost predicate GreedySoFar(jobs: seq<int>, placed: seq<nat>, m: nat) {
    && |placed| <= |jobs|
    && Placement(placed, m)
    && forall i :: 0 <= i < |placed| ==> LeastLoaded(jobs, placed, i, placed[i], m)
  }

  lemma GreedyExtends(jobs: seq<int>, placed: seq<nat>, m: nat, least: nat)
    requires GreedySoFar(jobs, placed, m) && |placed| < |jobs| && least < m
    requires LeastLoaded(jobs, placed, |placed|, least, m)
    ensures GreedySoFar(jobs, placed + [least], m)
  {
    var more := placed + [least];
    forall i | 0 <= i < |more| ensures LeastLoaded(jobs, more, i, more[i], m) {
      forall s | 0 <= s < m ensures Load(jobs, more, i, more[i]) <= Load(jobs, more, i, s) {
        LoadPrefix(jobs, placed, least, i, more[i]);
        LoadPrefix(jobs, placed, least, i, s);
        if i < |placed| { assert LeastLoaded(jobs, placed, i, placed[i], m); }
      }
    }
  }

  function AddEntry(shard: Shard, entry: Entry): Shard {
    Shard(shard.mutate + entry.patterns, shard.weight + entry.weight)
  }

  lemma FilledExtends(shards: seq<Shard>, entries: seq<Entry>, placed: seq<nat>, least: nat)
    requires |placed| < |entries| && least < |shards| && Filled(shards, entries, placed, |placed|)
    ensures var more := shards[least := AddEntry(shards[least], entries[|placed|])];
            && Filled(more, entries, placed + [least], |placed| + 1)
            && Combined(more) == Combined(shards) + multiset(entries[|placed|].patterns)
  {
    var k := |placed|;
    var more := shards[least := AddEntry(shards[least], entries[k])];
    forall s | 0 <= s < |more|
      ensures more[s].weight == Load(Weights(entries), placed + [least], k + 1, s)
      ensures more[s].mutate == Gathered(entries, placed + [least], k + 1, s)
    {
      LoadPrefix(Weights(entries), placed, least, k, s);
      GatheredPrefix(entries, placed, least, k, s);
    }
    CombinedReplace(shards, least, more[least], entries[k].patterns);
  }

  /** The loop invariant: shards, placement and pool after the first `|placed|` entries. */
  ghost predicate PlacedSoFar(shards: seq<Shard>, queue: seq<Entry>, placed: seq<nat>) {
    && |placed| <= |queue|
    && GreedySoFar(Weights(queue), placed, |shards|)
    && Filled(shards, queue, placed, |placed|)
    && Combined(shards) == Pool(queue[..|placed|])
  }

  lemma StartsEmpty(queue: seq<Entry>, shards: seq<Shard>)
    requires forall s :: 0 <= s < |shards| ==> shards[s] == Shard([], 0)
    ensures PlacedSoFar(shards, queue, [])
  {
    NothingCombined(shards);
  }

  lemma PlaceStep(shards: seq<Shard>, queue: seq<Entry>, placed: seq<nat>, least: nat)
    requires PlacedSoFar(shards, queue, placed) && |placed| < |queue| && least < |shards|
    requires forall s :: 0 <= s < |shards| ==> shards[least].weight <= shards[s].weight
    ensures PlacedSoFar(shards[least := AddEntry(shards[least], queue[|placed|])], queue, placed + [least])
  {
    var k := |placed|;
    assert queue[..k + 1] == queue[..k] + [queue[k]];
    assert Combined(shards) == Pool(queue[..k]);
    hide Filled, GreedySoFar, Combined, LeastLoaded, Pool;
    GreedyExtends(Weights(queue), placed, |shards|, least);
    FilledExtends(shards, queue, placed, least);
  }

  lemma PlacedAll(shards: seq<Shard>, queue: seq<Entry>, placed: seq<nat>)
    requires PlacedSoFar(shards, queue, placed) && |placed| == |queue|
    ensures Greedy(Weights(queue), placed, |shards|) && Filled(shards, queue, placed, |queue|)
    ensures Combined(shards) == Pool(queue)
  {
    assert queue[..|queue|] == queue;
  }

  /** Every entry in turn goes to the first lightest shard. */
  method PlaceHeaviestFirst(queue: seq<Entry>, m: nat) returns (shards: seq<Shard>, ghost placed: seq<nat>)
    requires queue != [] ==> m > 0
    ensures |shards| == m && Greedy(Weights(queue), placed, m)
    ensures Filled(shards, queue, placed, |queue|)
    ensures Combined(shards) == Pool(queue)
  {
    hide PlacedSoFar;
    shards, placed := seq(m, _ => Shard([], 0)), [];
    StartsEmpty(queue, shards);
    for k := 0 to |queue|
      invariant |shards| == m && |placed| == k && PlacedSoFar(shards, queue, placed)
    {
      var least := Smallest(shards);
      PlaceStep(shards, queue, placed, least);
      shards := shards[least := AddEntry(shards[least], queue[k])];
      placed := placed + [least];
    }
    PlacedAll(shards, queue, placed);
  }

  /** The whole split.  `entries` are the files in the order placed and `placed` says where each went. */
  method ShardMutationScope(
    patterns: seq<Pattern>, count: int, sourceLines: string -> int, comesFirst: (string, string) -> bool)
    returns (shards: Option<seq<Shard>>, ghost entries: seq<Entry>, ghost placed: seq<nat>)
    ensures shards.None? <==> count < 1
    ensures shards.Some? ==>
      var m := |shards.value|;
      && Grouped(patterns, entries, sourceLines) && Descending(entries)
      && m == (if count < |entries| then count else |entries|)
      && Greedy(Weights(entries), placed, m)
      && Filled(shards.value, entries, placed, |entries|)
    ensures shards.Some? ==> Combined(shards.value) == multiset(patterns)
  {
    entries, placed := [], [];
    if count < 1 {
      return None, entries, placed;
    }
    var files := GroupByFile(patterns, sourceLines);
    var queue := Sorted(files, comesFirst);
    SortedKeeps(files, comesFirst);
    entries := queue;
    assert Grouped(patterns, entries, sourceLines);
    var m := if count < |files| then count else |files|;
    var filled;
    filled, placed := PlaceHeaviestFirst(queue, m);
    shards := Some(filled);
  }

  lemma {:induction false} NothingCombined(shards: seq<Shard>)
    requires forall s :: 0 <= s < |shards| ==> shards[s].mutate == []
    ensures Combined(shards) == multiset{}
  {
    if shards != [] { NothingCombined(shards[..|shards| - 1]); }
  }

  lemma {:induction false} CombinedReplace(shards: seq<Shard>, i: nat, shard: Shard, more: seq<Pattern>)
    requires i < |shards| && shard.mutate == shards[i].mutate + more
    ensures Combined(shards[i := shard]) == Combined(shards) + multiset(more)
  {
    var n := |shards| - 1;
    if i == n {
      assert shards[i := shard][..n] == shards[..n];
    } else {
      CombinedReplace(shards[..n], i, shard, more);
      assert shards[i := shard][..n] == shards[..n][i := shard];
    }
  }

  // ------------------------------------------------------------------------------------------
  // What the split promises.

  lemma {:induction false} GatheredFrom(entries: seq<Entry>, placed: seq<nat>, k: nat, s: nat, p: Pattern) returns (i: nat)
    requires k <= |entries| && k <= |placed| && p in Gathered(entries, placed, k, s)
    ensures i < k && placed[i] == s && p in entries[i].patterns
  {
    if placed[k - 1] == s && p in entries[k - 1].patterns { i := k - 1; }
    else { i := GatheredFrom(entries, placed, k - 1, s, p); }
  }

  /** All patterns of one file end up in one shard. */
  lemma FilesStayTogether(
    patterns: seq<Pattern>, sourceLines: string -> int, shards: seq<Shard>, entries: seq<Entry>, placed: seq<nat>,
    s: nat, t: nat, p: Pattern, q: Pattern)
    requires Grouped(patterns, entries, sourceLines) && |placed| == |entries|
    requires Filled(shards, entries, placed, |entries|)
    requires s < |shards| && t < |shards| && p in shards[s].mutate && q in shards[t].mutate && p.file == q.file
    ensures s == t
  {
    var i := GatheredFrom(entries, placed, |entries|, s, p);
    var j := GatheredFrom(entries, placed, |entries|, t, q);
    assert entries[i] in entries && entries[j] in entries;
    assert EntryOk(entries[i], sourceLines) && EntryOk(entries[j], sourceLines);
    assert i == j;
  }

  lemma {:induction false} GatheredNonEmpty(entries: seq<Entry>, placed: seq<nat>, k: nat, s: nat)
    requires k <= |entries| && k <= |placed| && Count(placed, k, s) >= 1
    requires forall i :: 0 <= i < |entries| ==> entries[i].patterns != []
    ensures Gathered(entries, placed, k, s) != []
  {
    if placed[k - 1] != s { GatheredNonEmpty(entries, placed, k - 1, s); }
  }

  /** With files of positive weight no shard is empty. */
  lemma NoShardEmpty(
    patterns: seq<Pattern>, sourceLines: string -> int, shards: seq<Shard>, entries: seq<Entry>, placed: seq<nat>, s: nat)
    requires Grouped(patterns, entries, sourceLines) && s < |shards| <= |entries|
    requires Greedy(Weights(entries), placed, |shards|) && Filled(shards, entries, placed, |entries|)
    requires forall i :: 0 <= i < |entries| ==> entries[i].weight > 0
    ensures shards[s].mutate != []
  {
    NoneIdle(Weights(entries), placed, |shards|, s);
    forall i | 0 <= i < |entries| ensures entries[i].patterns != [] { assert entries[i] in entries; }
    GatheredNonEmpty(entries, placed, |entries|, s);
  }

  /** Against any other assignment of the files to as many shards, none of them heavier than `cap`,
      every shard is within 4/3 - 1/(3m) of `cap`. */
  lemma NearlyBalanced(shards: seq<Shard>, entries: seq<Entry>, placed: seq<nat>, other: seq<nat>, cap: int, s: nat)
    requires Descending(entries) && (forall i :: 0 <= i < |entries| ==> entries[i].weight >= 0)
    requires Greedy(Weights(entries), placed, |shards|) && Filled(shards, entries, placed, |entries|)
    requires FitsWithin(Weights(entries), other, |shards|, cap) && s < |shards|
    ensures 3 * |shards| * shards[s].weight <= (4 * |shards| - 1) * cap
  {
    GreedyBound(Weights(entries), placed, other, |shards|, cap, s);
  }
}
