/** Exhaustive cleanup: every action runs, every failure is kept, and the failures that aggregate others,
    possibly in cycles, are flattened. */
module Restoration {
  import opened Options

  /** What inspecting a thrown value shows.  Values refer to each other by index into a graph. */
  datatype Shape = Plain(isError: bool) | Opaque | Aggregate(members: seq<nat>)

  type Graph = seq<Shape>

  /** A recorded failure: the value itself, or a stand-in for one that must not be touched. */
  datatype Entry = Value(id: nat) | Uninspectable(id: nat)

  function At(g: Graph, id: nat): Shape {
    if id < |g| then g[id] else Plain(false)
  }

  /** An aggregate without members counts as a plain failure. */
  predicate IsNode(g: Graph, id: nat) {
    At(g, id).Aggregate? && At(g, id).members != []
  }

  function Members(g: Graph, id: nat): seq<nat> {
    if IsNode(g, id) then At(g, id).members else []
  }

  ghost function Unvisited(g: Graph, visited: set<nat>): set<nat> {
    (set i: nat | i < |g| && IsNode(g, i)) - visited
  }

  lemma SmallerSet(s: set<nat>, t: set<nat>, x: nat)
    requires s <= t && x in t && x !in s
    ensures |s| < |t|
  {
    var rest := t - {x};
    assert rest == s + (rest - s);
  }

  lemma VisitShrinks(g: Graph, visited: set<nat>, id: nat)
    requires IsNode(g, id) && id !in visited
    ensures |Unvisited(g, visited + {id})| < |Unvisited(g, visited)|
  {
    SmallerSet(Unvisited(g, visited + {id}), Unvisited(g, visited), id);
  }

  /** `visited` holds the aggregates on the way down to `id`. */
  function Flatten(g: Graph, id: nat, visited: set<nat>): seq<Entry>
    decreases |Unvisited(g, visited)|, 1, 0
  {
    if At(g, id).Opaque? then [Uninspectable(id)]
    else if !IsNode(g, id) || id in visited then [Value(id)]
    else
      VisitShrinks(g, visited, id);
      FlattenAll(g, Members(g, id), visited + {id})
  }

  function FlattenAll(g: Graph, ids: seq<nat>, visited: set<nat>): seq<Entry>
    decreases |Unvisited(g, visited)|, 2, |ids|
  {
    if ids == [] then [] else FlattenAll(g, ids[..|ids| - 1], visited) + Flatten(g, ids[|ids| - 1], visited)
  }

  // ------------------------------------------------------------------------------------------
  // What flattening yields.

  /** Every failure leaves at least one entry, so none can be lost. */
  lemma {:induction false} FlattenNotEmpty(g: Graph, id: nat, visited: set<nat>)
    ensures Flatten(g, id, visited) != []
    decreases |Unvisited(g, visited)|
  {
    if IsNode(g, id) && id !in visited {
      VisitShrinks(g, visited, id);
      var ids := Members(g, id);
      FlattenNotEmpty(g, ids[|ids| - 1], visited + {id});
    }
  }

  /** `path` leads down through aggregates, none twice and none visited, to what `entry` records: a value
      that aggregates nothing, or an aggregate met again. */
  ghost predicate LeadsTo(g: Graph, visited: set<nat>, path: seq<nat>, entry: Entry) {
    path != [] &&
      var last := path[|path| - 1];
      && (forall i :: 0 <= i < |path| - 1 ==> Down(g, visited, path, i))
      && if At(g, last).Opaque? then entry == Uninspectable(last)
         else entry == Value(last) && (!IsNode(g, last) || last in visited || last in path[..|path| - 1])
  }

  ghost predicate Down(g: Graph, visited: set<nat>, path: seq<nat>, i: nat)
    requires i + 1 < |path|
  {
    && IsNode(g, path[i]) && path[i + 1] in Members(g, path[i])
    && path[i] !in visited && path[i] !in path[..i]
  }

  ghost predicate Found(g: Graph, visited: set<nat>, id: nat, entry: Entry) {
    exists path :: LeadsTo(g, visited, path, entry) && path[0] == id
  }

  lemma PathGrows(g: Graph, visited: set<nat>, id: nat, path: seq<nat>, entry: Entry)
    requires IsNode(g, id) && id !in visited && path != [] && path[0] in Members(g, id)
    requires LeadsTo(g, visited + {id}, path, entry)
    ensures LeadsTo(g, visited, [id] + path, entry)
  {
    var longer := [id] + path;
    forall i | 0 <= i < |longer| - 1 ensures Down(g, visited, longer, i) {
      if i > 0 {
        assert Down(g, visited + {id}, path, i - 1);
        assert longer[i] == path[i - 1] && longer[i + 1] == path[i];
        assert longer[..i] == [id] + path[..i - 1];
      }
    }
    assert longer[..|longer| - 1] == [id] + path[..|path| - 1];
  }

  lemma PathShrinks(g: Graph, visited: set<nat>, path: seq<nat>, entry: Entry)
    requires LeadsTo(g, visited, path, entry) && |path| > 1
    ensures IsNode(g, path[0]) && path[0] !in visited && path[1] in Members(g, path[0])
    ensures LeadsTo(g, visited + {path[0]}, path[1..], entry)
  {
    var id, shorter := path[0], path[1..];
    assert Down(g, visited, path, 0);
    forall i | 0 <= i < |shorter| - 1 ensures Down(g, visited + {id}, shorter, i) {
      assert Down(g, visited, path, i + 1);
      assert shorter[i] == path[i + 1] && shorter[i + 1] == path[i + 2];
      assert path[..i + 1] == [id] + shorter[..i];
    }
    assert path[..|path| - 1] == [id] + shorter[..|shorter| - 1];
  }

  lemma {:induction false} FoundBelow(g: Graph, visited: set<nat>, id: nat, entry: Entry)
    requires IsNode(g, id) && id !in visited
    ensures Found(g, visited, id, entry) <==> exists m :: m in Members(g, id) && Found(g, visited + {id}, m, entry)
  {
    if path :| LeadsTo(g, visited, path, entry) && path[0] == id {
      assert |path| != 1;
      PathShrinks(g, visited, path, entry);
      assert path[1..][0] == path[1];
      assert Found(g, visited + {id}, path[1], entry);
    }
    if m :| m in Members(g, id) && Found(g, visited + {id}, m, entry) {
      var path :| LeadsTo(g, visited + {id}, path, entry) && path[0] == m;
      PathGrows(g, visited, id, path, entry);
      assert ([id] + path)[0] == id;
    }
  }

  lemma FoundHere(g: Graph, visited: set<nat>, id: nat, entry: Entry)
    requires !IsNode(g, id) || id in visited
    ensures Found(g, visited, id, entry) <==>
              entry == if At(g, id).Opaque? then Uninspectable(id) else Value(id)
  {
    var lone := [id];
    assert lone[..0] == [];
    if entry == (if At(g, id).Opaque? then Uninspectable(id) else Value(id)) {
      assert LeadsTo(g, visited, lone, entry) && lone[0] == id;
    }
    if path :| LeadsTo(g, visited, path, entry) && path[0] == id {
      assert |path| > 1 ==> Down(g, visited, path, 0);
      assert path == [id];
    }
  }

  /** Flattening any graph, cycles included, yields exactly what some path leads to. */
  lemma {:induction false} FlattenFinds(g: Graph, id: nat, visited: set<nat>, entry: Entry)
    ensures entry in Flatten(g, id, visited) <==> Found(g, visited, id, entry)
    decreases |Unvisited(g, visited)|, 1, 0
  {
    hide Found;
    if At(g, id).Opaque? || !IsNode(g, id) || id in visited {
      FoundHere(g, visited, id, entry);
    } else {
      VisitShrinks(g, visited, id);
      FoundBelow(g, visited, id, entry);
      FlattenAllFinds(g, Members(g, id), visited + {id}, entry);
    }
  }

  lemma {:induction false} FlattenAllFinds(g: Graph, ids: seq<nat>, visited: set<nat>, entry: Entry)
    ensures entry in FlattenAll(g, ids, visited) <==> exists m :: m in ids && Found(g, visited, m, entry)
    decreases |Unvisited(g, visited)|, 2, |ids|
  {
    hide Found;
    if ids != [] {
      var init, last := ids[..|ids| - 1], ids[|ids| - 1];
      FlattenAllFinds(g, init, visited, entry);
      FlattenFinds(g, last, visited, entry);
      assert ids == init + [last];
    }
  }

  /** A graph is acyclic when its values can be ranked above their members. */
  ghost predicate Ranked(g: Graph, rank: seq<nat>) {
    |rank| == |g| && forall id: nat, m :: m in Members(g, id) ==> Rank(rank, m) < Rank(rank, id)
  }

  function Rank(rank: seq<nat>, id: nat): nat {
    if id < |rank| then rank[id] + 1 else 0
  }

  /** The leaves of an acyclic failure, from left to right. */
  ghost function Leaves(g: Graph, rank: seq<nat>, id: nat): seq<Entry>
    requires Ranked(g, rank)
    decreases Rank(rank, id), 1, 0
  {
    if IsNode(g, id) then LeavesOf(g, rank, Members(g, id), Rank(rank, id))
    else if At(g, id).Opaque? then [Uninspectable(id)]
    else [Value(id)]
  }

  ghost function LeavesOf(g: Graph, rank: seq<nat>, ids: seq<nat>, below: nat): seq<Entry>
    requires Ranked(g, rank) && forall m :: m in ids ==> Rank(rank, m) < below
    decreases below, 0, |ids|
  {
    if ids == [] then []
    else
      assert ids[0] in ids;
      Leaves(g, rank, ids[0]) + LeavesOf(g, rank, ids[1..], below)
  }

  lemma {:induction false} LeavesOfLast(g: Graph, rank: seq<nat>, ids: seq<nat>, below: nat)
    requires Ranked(g, rank) && (forall m :: m in ids ==> Rank(rank, m) < below) && ids != []
    ensures LeavesOf(g, rank, ids, below) ==
            LeavesOf(g, rank, ids[..|ids| - 1], below) + Leaves(g, rank, ids[|ids| - 1])
    decreases |ids|
  {
    hide Leaves;
    if |ids| == 1 {
      assert ids[1..] == [] && ids[..0] == [];
    } else {
      LeavesOfLast(g, rank, ids[1..], below);
      assert ids[..|ids| - 1][1..] == ids[1..][..|ids| - 2];
    }
  }

  /** An acyclic failure is flattened to exactly its leaves, in order. */
  lemma {:induction false} AcyclicFlattens(g: Graph, rank: seq<nat>, id: nat, visited: set<nat>)
    requires Ranked(g, rank) && forall v :: v in visited ==> Rank(rank, id) < Rank(rank, v)
    ensures Flatten(g, id, visited) == Leaves(g, rank, id)
    decreases Rank(rank, id), 1, 0
  {
    if IsNode(g, id) {
      assert id !in visited;
      AcyclicFlattensAll(g, rank, Members(g, id), Rank(rank, id), visited + {id});
    }
  }

  lemma {:induction false} AcyclicFlattensAll(g: Graph, rank: seq<nat>, ids: seq<nat>, below: nat, visited: set<nat>)
    requires Ranked(g, rank) && (forall m :: m in ids ==> Rank(rank, m) < below)
    requires forall v :: v in visited ==> below <= Rank(rank, v)
    ensures FlattenAll(g, ids, visited) == LeavesOf(g, rank, ids, below)
    decreases below, 0, |ids|
  {
    if ids != [] {
      AcyclicFlattensAll(g, rank, ids[..|ids| - 1], below, visited);
      assert ids[|ids| - 1] in ids;
      AcyclicFlattens(g, rank, ids[|ids| - 1], visited);
      LeavesOfLast(g, rank, ids, below);
    }
  }

  // ------------------------------------------------------------------------------------------
  // Actions.

  datatype Raised =
    | Same(id: nat)
    | Wrapped(id: nat)
    | StandIn(id: nat)
    | Several(entries: seq<Entry>)

  /** An action returns, or throws a value. */
  datatype Action = Returns | Throws(id: nat)

  function ErrorFrom(g: Graph, entry: Entry): Raised {
    match entry
    case Uninspectable(id) => StandIn(id)
    case Value(id) =>
      match At(g, id)
      case Plain(isError) => if isError then Same(id) else Wrapped(id)
      case Aggregate(_) => Same(id)
      case Opaque => StandIn(id)
  }

  function FailureFrom(g: Graph, failures: seq<Entry>): Option<Raised> {
    if |failures| == 0 then None
    else if |failures| == 1 then Some(ErrorFrom(g, failures[0]))
    else Some(Several(failures))
  }

  function Failures(g: Graph, actions: seq<Action>): seq<Entry> {
    if actions == [] then []
    else
      var last := actions[|actions| - 1];
      Failures(g, actions[..|actions| - 1]) + if last.Throws? then Flatten(g, last.id, {}) else []
  }

  predicate SomeThrows(actions: seq<Action>) {
    exists i :: 0 <= i < |actions| && actions[i].Throws?
  }

  lemma {:induction false} FailuresExactly(g: Graph, actions: seq<Action>)
    ensures Failures(g, actions) != [] <==> SomeThrows(actions)
  {
    hide Flatten;
    if actions != [] {
      var init, last := actions[..|actions| - 1], actions[|actions| - 1];
      FailuresExactly(g, init);
      if last.Throws? { FlattenNotEmpty(g, last.id, {}); }
      assert actions == init + [last];
      assert SomeThrows(actions) <==> SomeThrows(init) || last.Throws? by { ThrowsLast(init, last); }
    }
  }

  lemma ThrowsLast(init: seq<Action>, last: Action)
    ensures SomeThrows(init + [last]) <==> SomeThrows(init) || last.Throws?
  {
    var actions := init + [last];
    assert actions[|init|] == last;
    if i :| 0 <= i < |init| && init[i].Throws? { assert actions[i].Throws?; }
  }

  /** An error is raised exactly when some action failed. */
  lemma RaisedExactlyOnFailure(g: Graph, actions: seq<Action>)
    ensures FailureFrom(g, Failures(g, actions)).Some? <==> SomeThrows(actions)
  {
    hide SomeThrows, Failures, ErrorFrom;
    FailuresExactly(g, actions);
  }

  /** Whatever one failure flattens to is among the recorded failures. */
  lemma {:induction false} NoFailureLost(g: Graph, actions: seq<Action>, i: nat, entry: Entry)
    requires i < |actions| && actions[i].Throws? && entry in Flatten(g, actions[i].id, {})
    ensures entry in Failures(g, actions)
  {
    hide Flatten;
    if i < |actions| - 1 { NoFailureLost(g, actions[..|actions| - 1], i, entry); }
  }

  /** What the only recorded failure is raised as: errors unchanged, other values wrapped, and what must not be
      touched by a stand-in; an aggregate is raised as what it contains. */
  ghost predicate Carries(g: Graph, id: nat, raised: Raised) {
    match At(g, id)
    case Plain(isError) => raised == if isError then Same(id) else Wrapped(id)
    case Opaque => raised == StandIn(id)
    case Aggregate(_) =>
      if |Flatten(g, id, {})| > 1 then raised == Several(Flatten(g, id, {}))
      else exists leaf :: raised == Lone(g, leaf) && Flatten(g, id, {}) == [leaf]
  }

  ghost function Lone(g: Graph, leaf: Entry): Raised {
    if leaf.Uninspectable? || At(g, leaf.id).Opaque? then StandIn(leaf.id)
    else if At(g, leaf.id) == Plain(false) then Wrapped(leaf.id)
    else Same(leaf.id)
  }

  lemma {:induction false} NothingThrown(g: Graph, actions: seq<Action>)
    requires !SomeThrows(actions)
    ensures Failures(g, actions) == []
  {
    FailuresExactly(g, actions);
  }

  lemma {:induction false} OneThrown(g: Graph, actions: seq<Action>, i: nat)
    requires i < |actions| && forall j :: 0 <= j < |actions| ==> (actions[j].Throws? <==> i == j)
    ensures Failures(g, actions) == Flatten(g, actions[i].id, {})
  {
    hide Flatten;
    var n := |actions| - 1;
    assert forall j :: 0 <= j < n ==> actions[..n][j] == actions[j];
    if i < n { OneThrown(g, actions[..n], i); } else { NothingThrown(g, actions[..n]); }
  }

  lemma {:induction false} TwoThrown(g: Graph, actions: seq<Action>, i: nat, j: nat)
    requires i < j < |actions| && actions[i].Throws? && actions[j].Throws?
    ensures |Failures(g, actions)| > 1
  {
    hide Flatten;
    var n := |actions| - 1;
    if j < n {
      TwoThrown(g, actions[..n], i, j);
    } else {
      assert actions[..n][i].Throws?;
      assert SomeThrows(actions[..n]);
      FailuresExactly(g, actions[..n]);
      FlattenNotEmpty(g, actions[n].id, {});
    }
  }

  /** A lone failure is raised as itself. */
  lemma LoneFailureRaised(g: Graph, actions: seq<Action>, i: nat)
    requires i < |actions| && forall j :: 0 <= j < |actions| ==> (actions[j].Throws? <==> i == j)
    ensures var raised := FailureFrom(g, Failures(g, actions));
            raised.Some? && Carries(g, actions[i].id, raised.value)
  {
    hide Failures;
    OneThrown(g, actions, i);
    hide FlattenAll;
    FlattenNotEmpty(g, actions[i].id, {});
    if |Flatten(g, actions[i].id, {})| == 1 {
      assert Flatten(g, actions[i].id, {}) == [Flatten(g, actions[i].id, {})[0]];
    }
  }

  /** Several failures are raised together, in the order in which they were thrown. */
  lemma SeveralFailuresRaised(g: Graph, actions: seq<Action>, i: nat, j: nat)
    requires i < j < |actions| && actions[i].Throws? && actions[j].Throws?
    ensures FailureFrom(g, Failures(g, actions)) == Some(Several(Failures(g, actions)))
  {
    hide Failures;
    TwoThrown(g, actions, i, j);
  }

  class Cleanup {
    const g: Graph
    var target: seq<Entry>
    var visited: set<nat>
    /** The actions that ran, in order. */
    var ran: seq<nat>

    constructor (g: Graph)
      ensures this.g == g && target == [] && visited == {} && ran == []
    {
      this.g := g;
      target, visited, ran := [], {}, [];
    }

    /** Leaves the path of aggregates as it found it. */
    method AppendFlattened(failure: nat)
      modifies `target, `visited
      ensures target == old(target) + Flatten(g, failure, old(visited)) && visited == old(visited)
      decreases |Unvisited(g, visited)|
    {
      var shape := At(g, failure);
      if shape.Opaque? {
        target := target + [Uninspectable(failure)];
        return;
      }
      if !IsNode(g, failure) || failure in visited {
        target := target + [Value(failure)];
        return;
      }
      VisitShrinks(g, visited, failure);
      ghost var above := visited;
      visited := visited + {failure};
      var members := Members(g, failure);
      for i := 0 to |members|
        invariant visited == above + {failure}
        invariant target == old(target) + FlattenAll(g, members[..i], visited)
      {
        hide Flatten;
        assert members[..i + 1][..i] == members[..i];
        AppendFlattened(members[i]);
      }
      assert members[..|members|] == members;
      visited := visited - {failure};
    }

    /** Runs all actions, whatever they throw, before it reports. */
    method RunRestorationActions(actions: seq<Action>) returns (raised: Option<Raised>)
      requires target == [] && visited == {} && ran == []
      modifies this
      ensures target == Failures(g, actions) && raised == FailureFrom(g, target)
      ensures |ran| == |actions| && forall i :: 0 <= i < |actions| ==> ran[i] == i
      ensures raised.Some? <==> SomeThrows(actions)
    {
      for i := 0 to |actions|
        invariant visited == {} && target == Failures(g, actions[..i])
        invariant |ran| == i && forall j :: 0 <= j < i ==> ran[j] == j
      {
        hide Flatten;
        assert actions[..i + 1][..i] == actions[..i];
        ran := ran + [i];
        if actions[i].Throws? {
          AppendFlattened(actions[i].id);
        }
      }
      assert actions[..|actions|] == actions;
      RaisedExactlyOnFailure(g, actions);
      raised := FailureFrom(g, target);
    }
  }

  // ------------------------------------------------------------------------------------------
  // The scope of one operation.

  datatype Scope = Scope(failures: seq<Entry>, primary: Option<nat>, poisoned: bool, marks: seq<Raised>)

  datatype Call =
    | CapturePrimary(error: nat)
    | RecordFailure(error: nat)
    | Attempt(action: Action)
    | RethrowPrimary
    | ThrowIfFailed

  /** What a call throws, if anything. */
  datatype Thrown = Nothing | NoPrimary | Primary(error: nat) | Failed(failure: Raised)

  function PoisonIfNeeded(g: Graph, s: Scope): Scope {
    var failure := FailureFrom(g, s.failures);
    if failure.None? || s.poisoned then s else s.(poisoned := true, marks := s.marks + [failure.value])
  }

  function Perform(g: Graph, s: Scope, call: Call): (Scope, Thrown) {
    match call
    case CapturePrimary(error) => (if s.primary.Some? then s else s.(primary := Some(error)), Nothing)
    case RecordFailure(error) => (s.(failures := s.failures + Flatten(g, error, {})), Nothing)
    case Attempt(action) =>
      (if action.Throws? then s.(failures := s.failures + Flatten(g, action.id, {})) else s, Nothing)
    case RethrowPrimary =>
      if s.primary.None? then (s, NoPrimary) else (PoisonIfNeeded(g, s), Primary(s.primary.value))
    case ThrowIfFailed =>
      var failure := FailureFrom(g, s.failures);
      (PoisonIfNeeded(g, s), if failure.Some? then Failed(failure.value) else Nothing)
  }

  function Performed(g: Graph, calls: seq<Call>): Scope {
    if calls == [] then Scope([], None, false, [])
    else Perform(g, Performed(g, calls[..|calls| - 1]), calls[|calls| - 1]).0
  }

  /** The first captured error of a run. */
  function FirstPrimary(calls: seq<Call>): Option<nat> {
    if calls == [] then None
    else if calls[0].CapturePrimary? then Some(calls[0].error)
    else FirstPrimary(calls[1..])
  }

  /** The failures recorded so far, in the order they were thrown. */
  function Recorded(g: Graph, calls: seq<Call>): seq<Entry> {
    if calls == [] then []
    else
      Recorded(g, calls[..|calls| - 1]) + Contribution(g, calls[|calls| - 1])
  }

  function Contribution(g: Graph, call: Call): seq<Entry> {
    match call
    case RecordFailure(error) => Flatten(g, error, {})
    case Attempt(action) => if action.Throws? then Flatten(g, action.id, {}) else []
    case _ => []
  }

  /** A call that poisons the owner, should a failure be recorded by then. */
  predicate Reports(calls: seq<Call>, i: nat)
    requires i < |calls|
  {
    calls[i].ThrowIfFailed? || (calls[i].RethrowPrimary? && FirstPrimary(calls[..i]).Some?)
  }

  /** Some call reported while a failure was recorded. */
  ghost predicate Poisons(g: Graph, calls: seq<Call>) {
    exists i :: 0 <= i < |calls| && Reports(calls, i) && Recorded(g, calls[..i]) != []
  }

  lemma {:induction false} FirstPrimaryLast(calls: seq<Call>, call: Call)
    ensures FirstPrimary(calls + [call]) ==
            if FirstPrimary(calls).Some? then FirstPrimary(calls)
            else if call.CapturePrimary? then Some(call.error) else None
  {
    if calls == [] {
      assert (calls + [call])[1..] == [];
    } else {
      assert (calls + [call])[1..] == calls[1..] + [call];
      if !calls[0].CapturePrimary? { FirstPrimaryLast(calls[1..], call); }
    }
  }

  lemma PoisonsLast(g: Graph, calls: seq<Call>)
    requires calls != []
    ensures var init := calls[..|calls| - 1];
            Poisons(g, calls) <==>
              Poisons(g, init) || (Reports(calls, |calls| - 1) && Recorded(g, init) != [])
  {
    hide Recorded, FirstPrimary;
    var n := |calls| - 1;
    var init := calls[..n];
    assert forall i :: 0 <= i < n ==> calls[..i] == init[..i] && calls[i] == init[i];
    if i :| 0 <= i < n && Reports(init, i) && Recorded(g, init[..i]) != [] {
      assert Reports(calls, i) && Recorded(g, calls[..i]) != [];
    }
    if i :| 0 <= i < |calls| && Reports(calls, i) && Recorded(g, calls[..i]) != [] && i < n {
      assert Reports(init, i) && Recorded(g, init[..i]) != [];
    }
  }

  /** Whatever a scope goes through, it keeps the first primary error and all failures, and tells its
      owner at most once, and exactly when it reported with a failure recorded. */
  lemma {:induction false} ScopeKeeps(g: Graph, calls: seq<Call>)
    ensures var s := Performed(g, calls);
            && s.primary == FirstPrimary(calls)
            && s.failures == Recorded(g, calls)
            && |s.marks| == (if s.poisoned then 1 else 0)
            && (s.poisoned <==> Poisons(g, calls))
  {
    hide Flatten, Poisons, FirstPrimary, Perform, Contribution;
    if calls != [] {
      var init, last := calls[..|calls| - 1], calls[|calls| - 1];
      ScopeKeeps(g, init);
      assert calls == init + [last];
      FirstPrimaryLast(init, last);
      PoisonsLast(g, calls);
      PerformChanges(g, Performed(g, init), last);
    } else {
      EmptyScope(g);
    }
  }

  lemma PerformChanges(g: Graph, s: Scope, call: Call)
    ensures var t := Perform(g, s, call).0;
            var reports := call.ThrowIfFailed? || (call.RethrowPrimary? && s.primary.Some?);
            && t.primary == (if s.primary.Some? then s.primary
                             else if call.CapturePrimary? then Some(call.error) else None)
            && t.failures == s.failures + Contribution(g, call)
            && (t.poisoned <==> s.poisoned || (reports && s.failures != []))
            && |t.marks| == |s.marks| + (if t.poisoned && !s.poisoned then 1 else 0)
  {
    hide Flatten, ErrorFrom;
    assert s.failures + [] == s.failures;
  }

  lemma EmptyScope(g: Graph)
    ensures FirstPrimary([]) == None && !Poisons(g, [])
  {
  }

  predicate Fails(call: Call) {
    call.RecordFailure? || (call.Attempt? && call.action.Throws?)
  }

  /** `error` is captured at `i`, and nothing before. */
  ghost predicate FirstCapture(calls: seq<Call>, i: nat, error: nat) {
    i < |calls| && calls[i] == CapturePrimary(error) && forall j :: 0 <= j < i ==> !calls[j].CapturePrimary?
  }

  lemma {:induction false} FirstPrimaryIs(calls: seq<Call>, error: nat)
    ensures FirstPrimary(calls) == Some(error) <==> exists i: nat :: FirstCapture(calls, i, error)
    ensures FirstPrimary(calls) == None <==> forall i :: 0 <= i < |calls| ==> !calls[i].CapturePrimary?
  {
    if calls != [] {
      var rest := calls[1..];
      FirstPrimaryIs(rest, error);
      assert forall j :: 0 <= j < |rest| ==> rest[j] == calls[j + 1];
      if calls[0].CapturePrimary? {
        if calls[0].error == error { assert FirstCapture(calls, 0, error); }
      } else {
        forall i: nat | FirstCapture(rest, i, error) ensures FirstCapture(calls, i + 1, error) {
          assert forall j :: 1 <= j < i + 1 ==> calls[j] == rest[j - 1];
        }
        forall i: nat | FirstCapture(calls, i, error) ensures i > 0 && FirstCapture(rest, i - 1, error) {}
        if i :| 0 <= i < |rest| && rest[i].CapturePrimary? { assert calls[i + 1].CapturePrimary?; }
      }
    }
  }

  lemma {:induction false} RecordedExactly(g: Graph, calls: seq<Call>)
    ensures Recorded(g, calls) != [] <==> exists i :: 0 <= i < |calls| && Fails(calls[i])
  {
    hide Flatten;
    if calls != [] {
      var n := |calls| - 1;
      RecordedExactly(g, calls[..n]);
      assert forall i :: 0 <= i < n ==> calls[..n][i] == calls[i];
      match calls[n] {
        case RecordFailure(error) => FlattenNotEmpty(g, error, {});
        case Attempt(action) => if action.Throws? { FlattenNotEmpty(g, action.id, {}); }
        case _ =>
      }
    }
  }

  /** What a call throws, after any calls: a rethrow gives the error captured first, or complains that there is
      none; a report gives the failures recorded so far, if any; nothing else throws. */
  lemma ThrownExactly(g: Graph, calls: seq<Call>, call: Call, error: nat)
    ensures var thrown := Perform(g, Performed(g, calls), call).1;
            && (thrown == NoPrimary <==>
                call.RethrowPrimary? && forall i :: 0 <= i < |calls| ==> !calls[i].CapturePrimary?)
            && (thrown == Primary(error) <==> call.RethrowPrimary? && exists i: nat :: FirstCapture(calls, i, error))
            && (thrown.Failed? <==> call.ThrowIfFailed? && exists i :: 0 <= i < |calls| && Fails(calls[i]))
            && (thrown.Failed? ==> FailureFrom(g, Recorded(g, calls)) == Some(thrown.failure))
  {
    hide Fails, FirstCapture, Recorded, FirstPrimary, Performed, ErrorFrom, Flatten;
    ScopeKeeps(g, calls);
    FirstPrimaryIs(calls, error);
    RecordedExactly(g, calls);
  }

  /** Its owner is told the failures recorded by the first call that reported any. */
  ghost predicate FirstReport(g: Graph, calls: seq<Call>, i: nat) {
    && i < |calls| && Reports(calls, i) && Recorded(g, calls[..i]) != []
    && forall j :: 0 <= j < i ==> !(Reports(calls, j) && Recorded(g, calls[..j]) != [])
  }

  lemma {:induction false} OwnerToldFirst(g: Graph, calls: seq<Call>, i: nat)
    requires FirstReport(g, calls, i)
    ensures FailureFrom(g, Recorded(g, calls[..i])).Some?
    ensures Performed(g, calls).marks == [FailureFrom(g, Recorded(g, calls[..i])).value]
  {
    hide Recorded, FirstPrimary, Flatten, Contribution, ErrorFrom, Poisons, FailureFrom;
    var n := |calls| - 1;
    var init := calls[..n];
    assert init[..i] == calls[..i];
    FailureFromExactly(g, Recorded(g, init[..i]));
    ScopeKeeps(g, init);
    if i < n {
      assert forall j :: 0 <= j < n ==> init[j] == calls[j] && init[..j] == calls[..j];
      OwnerToldFirst(g, init, i);
      assert Poisons(g, init) by { ReportPoisons(g, init, i); }
      MarksGrow(g, Performed(g, init), calls[n]);
    } else {
      assert !Poisons(g, init) by {
        assert forall j :: 0 <= j < n ==> init[j] == calls[j] && init[..j] == calls[..j];
        ReportsPoison(g, init);
      }
      assert calls[..n] == calls[..i] && calls[n] == calls[i];
      MarksGrow(g, Performed(g, init), calls[n]);
    }
  }

  lemma FailureFromExactly(g: Graph, failures: seq<Entry>)
    ensures FailureFrom(g, failures).Some? <==> failures != []
  {
    hide ErrorFrom;
  }

  lemma ReportPoisons(g: Graph, calls: seq<Call>, i: nat)
    requires i < |calls| && Reports(calls, i) && Recorded(g, calls[..i]) != []
    ensures Poisons(g, calls)
  {
    hide Recorded, Reports;
  }

  lemma ReportsPoison(g: Graph, calls: seq<Call>)
    requires forall j :: 0 <= j < |calls| ==> !(Reports(calls, j) && Recorded(g, calls[..j]) != [])
    ensures !Poisons(g, calls)
  {
    hide Recorded, Reports;
  }

  lemma MarksGrow(g: Graph, s: Scope, call: Call)
    ensures var reports := call.ThrowIfFailed? || (call.RethrowPrimary? && s.primary.Some?);
            var failure := FailureFrom(g, s.failures);
            Perform(g, s, call).0.marks ==
            if reports && !s.poisoned && failure.Some? then s.marks + [failure.value] else s.marks
  {
    hide Flatten, FailureFrom;
  }

  class RestorationScope {
    const g: Graph
    var failures: seq<Entry>
    var primary: Option<nat>
    var poisoned: bool
    /** The calls made to the owner. */
    var marks: seq<Raised>

    constructor (g: Graph)
      ensures this.g == g && Now() == Scope([], None, false, [])
    {
      this.g := g;
      failures, primary, poisoned, marks := [], None, false, [];
    }

    ghost function Now(): Scope
      reads this
    {
      Scope(failures, primary, poisoned, marks)
    }

    method Capture(error: nat)
      modifies this
      ensures Now() == Perform(g, old(Now()), CapturePrimary(error)).0
      ensures old(primary).Some? ==> primary == old(primary)
    {
      if primary.None? {
        primary := Some(error);
      }
    }

    method Record(error: nat)
      modifies this
      ensures Now() == Perform(g, old(Now()), RecordFailure(error)).0
    {
      var cleanup := new Cleanup(g);
      cleanup.AppendFlattened(error);
      failures := failures + cleanup.target;
      assert [] + Flatten(g, error, {}) == Flatten(g, error, {});
    }

    method AttemptAll(actions: seq<Action>)
      modifies this
      ensures failures == old(failures) + Failures(g, actions)
      ensures primary == old(primary) && poisoned == old(poisoned) && marks == old(marks)
    {
      for i := 0 to |actions|
        invariant failures == old(failures) + Failures(g, actions[..i])
        invariant primary == old(primary) && poisoned == old(poisoned) && marks == old(marks)
      {
        hide Flatten;
        assert actions[..i + 1][..i] == actions[..i];
        if actions[i].Throws? {
          Record(actions[i].id);
        }
      }
      assert actions[..|actions|] == actions;
    }

    method Poison() returns (failure: Option<Raised>)
      modifies this
      ensures Now() == PoisonIfNeeded(g, old(Now())) && failure == FailureFrom(g, failures)
    {
      failure := FailureFrom(g, failures);
      if failure.Some? && !poisoned {
        poisoned := true;
        marks := marks + [failure.value];
      }
    }

    method Rethrow() returns (thrown: Thrown)
      modifies this
      ensures (Now(), thrown) == Perform(g, old(Now()), RethrowPrimary)
    {
      if primary.None? {
        return NoPrimary;
      }
      var _ := Poison();
      thrown := Primary(primary.value);
    }

    method ThrowFailure() returns (thrown: Thrown)
      modifies this
      ensures (Now(), thrown) == Perform(g, old(Now()), ThrowIfFailed)
    {
      var failure := Poison();
      thrown := if failure.Some? then Failed(failure.value) else Nothing;
    }
  }
}
