/** The failure that nested calls leave on record, and when it tells the truth.

    The record decides whether the root may commit.  It is a fold over how the nested calls ended; set
    against it is the damage that really stands, and what makes the two differ. */
module FailureRecord {
  import opened Options
  import opened Savepoints
  import opened NestedTransactions

  // ------------------------------------------------------------------------------------------
  // The flag is a fold over what the callbacks can see: the errors their scopes threw.

  function Note(end: End, failure: Option<Error>): Option<Error> {
    match end
    case Kept => failure
    case Skipped => failure
    case Undone(error) => if failure == Some(error) then None else failure
    case Left(error) => if failure.None? then Some(error) else failure
  }

  function Flag(ran: Ran, failure: Option<Error>): Option<Error> {
    match ran
    case Stopped => failure
    case Wrote(_, rest) => Flag(rest, failure)
    case Failed(_, rest) => Flag(rest, failure)
    case Scoped(inner, end, rest) => Flag(rest, Note(end, Flag(inner, failure)))
  }

  /** Between calls no recovered error is remembered, and the failure recorded is that of the fold. */
  ghost predicate Folded(s: State, t: State, failure: Option<Error>) {
    s.recovered == {} ==> t.recovered == {} && t.failure == failure
  }

  lemma {:induction false} FlagIsFold(env: Env, work: Work, s: State)
    ensures var r := RunWork(env, work, s); Folded(s, r.state, Flag(r.ran, s.failure))
    decreases work, 0
  {
    match work
    case Return =>
    case Throw(_) =>
    case Rethrow(_) =>
    case Write(row, next, failed) =>
      var (after, ok) := Exec(env, s, Insert(row), env.At(s.sent).write);
      FlagIsFold(env, if ok then next else failed, if ok then after else Catch(after, Driver(StatementOp, s.sent)));
    case Nest(inner, abort, next, failed) =>
      NestedFlagIsFold(env, inner, abort, s);
      hide RunNested;
      var n := RunNested(env, inner, abort, s);
      FlagIsFold(env, if n.outcome.Returned? then next else failed, Resume(n));
  }

  lemma {:induction false} NestedFlagIsFold(env: Env, inner: Work, abort: Abort, s: State)
    ensures var n := RunNested(env, inner, abort, s); Folded(s, n.state, Note(n.end, Flag(n.ran, s.failure)))
    decreases inner, 3
  {
    hide *;
    var entered := s.(depth := s.depth + 1);
    var begun := Exec(env, entered, Establish(s.depth), env.At(s.sent).establish).0;
    FlagIsFold(env, inner, begun);
    GuardedFold(env, s.depth, inner, abort, begun);
    NestedFold(env, inner, abort, s, entered, begun);
  }

  lemma NestedFold(env: Env, inner: Work, abort: Abort, s: State, entered: State, begun: State)
    requires entered == s.(depth := s.depth + 1)
    requires begun == Exec(env, entered, Establish(s.depth), env.At(s.sent).establish).0
    requires var r := WorkThenRelease(env, s.depth, inner, abort, begun);
             Folded(begun, r.state, Flag(r.ran, begun.failure))
    ensures var n := RunNested(env, inner, abort, s); Folded(s, n.state, Note(n.end, Flag(n.ran, s.failure)))
  {
    hide RunWork, WorkThenRelease, RunSavepoint, Note, Flag, ObserveNestedFailure, Send, ToObserve;
    if s.recovered == {} {
      SavepointFold(env, s.depth, inner, abort, entered, begun);
      var n := RunSavepoint(env, s.depth, inner, abort, entered);
      ObservedFold(n, Note(n.end, Flag(n.ran, s.failure)));
    }
  }

  /** Before the enclosing state observes the error. */
  ghost predicate ToObserve(n: Scope, failure: Option<Error>) {
    match n.end
    case Kept => n.outcome.Returned? && n.state.recovered == {} && n.state.failure == failure
    case Skipped => n.outcome == Threw(Canceled) && n.state.recovered == {} && n.state.failure == failure
    case Undone(error) => n.outcome == Threw(error) && n.state.recovered == {error} && n.state.failure == failure
    case Left(error) =>
      && n.outcome == Threw(error) && n.state.recovered == {} && Compromises(error) && failure.Some?
      && (n.state.failure == failure || (n.state.failure.None? && failure == Some(error)))
  }

  lemma ObservedFold(n: Scope, failure: Option<Error>)
    requires ToObserve(n, failure)
    ensures var seen := if n.outcome.Threw? then ObserveNestedFailure(n.state, n.outcome.error) else n.state;
            seen.recovered == {} && seen.failure == failure
  {
    if n.outcome.Threw? { assert {n.outcome.error} - {n.outcome.error} == {}; }
  }

  lemma GuardedFold(env: Env, name: nat, inner: Work, abort: Abort, begun: State)
    requires var r := RunWork(env, inner, begun); Folded(begun, r.state, Flag(r.ran, begun.failure))
    ensures var r := WorkThenRelease(env, name, inner, abort, begun);
            Folded(begun, r.state, Flag(r.ran, begun.failure))
  {
  }

  lemma UndoFold(env: Env, name: nat, r: Run)
    requires r.outcome.Threw? && r.state.recovered == {}
    ensures var n := Undo(env, name, r); ToObserve(n, Note(n.end, r.state.failure)) && n.ran == r.ran
  {
    hide Send;
    assert {} + {r.outcome.error} == {r.outcome.error};
  }

  ghost predicate FoldedBelow(env: Env, name: nat, inner: Work, abort: Abort, s: State, begun: State) {
    && begun == Exec(env, s, Establish(name), env.At(s.sent).establish).0
    && s.recovered == {}
    && var r := WorkThenRelease(env, name, inner, abort, begun);
       r.state.recovered == {} && r.state.failure == Flag(r.ran, begun.failure)
  }

  lemma SavepointFold(env: Env, name: nat, inner: Work, abort: Abort, s: State, begun: State)
    requires FoldedBelow(env, name, inner, abort, s, begun)
    ensures var n := RunSavepoint(env, name, inner, abort, s); ToObserve(n, Note(n.end, Flag(n.ran, s.failure)))
  {
    hide Send, WorkThenRelease, RunSavepoint, Undo, RunWork;
    SavepointGoes(env, name, inner, abort, s);
    var r := WorkThenRelease(env, name, inner, abort, begun);
    if r.outcome.Threw? { UndoFold(env, name, r); }
    UndoFold(env, name, Run(begun, Threw(Canceled), Stopped));
  }

  // ------------------------------------------------------------------------------------------
  // When the flag tells the truth.  Damage stands while a scope failed without a confirmed rollback
  // and no scope around it was rolled back since.

  predicate Harm(end: End, before: bool, inside: bool) {
    match end
    case Kept => inside
    case Skipped => inside
    case Undone(_) => before
    case Left(_) => true
  }

  predicate Damage(ran: Ran, before: bool) {
    match ran
    case Stopped => before
    case Wrote(_, rest) => Damage(rest, before)
    case Failed(_, rest) => Damage(rest, before)
    case Scoped(inner, end, rest) => Damage(rest, Harm(end, before, Damage(inner, before)))
  }

  /** At some moment damage stands although no failure is recorded. */
  predicate Misjudged(ran: Ran, failure: Option<Error>, damage: bool) {
    (failure.None? && damage) ||
      match ran
      case Stopped => false
      case Wrote(_, rest) => Misjudged(rest, failure, damage)
      case Failed(_, rest) => Misjudged(rest, failure, damage)
      case Scoped(inner, end, rest) =>
        || Misjudged(inner, failure, damage)
        || Misjudged(rest, Note(end, Flag(inner, failure)), Harm(end, damage, Damage(inner, damage)))
  }

  /** While damage stands, some scope throws the very error that was recorded before it began. */
  predicate Betrays(ran: Ran, failure: Option<Error>, damage: bool) {
    match ran
    case Stopped => false
    case Wrote(_, rest) => Betrays(rest, failure, damage)
    case Failed(_, rest) => Betrays(rest, failure, damage)
    case Scoped(inner, end, rest) =>
      || Betrays(inner, failure, damage)
      || (damage && end.Undone? && failure == Some(end.error))
      || Betrays(rest, Note(end, Flag(inner, failure)), Harm(end, damage, Damage(inner, damage)))
  }

  lemma {:induction false} DamageStays(ran: Ran)
    ensures Damage(ran, true)
  {
    match ran
    case Stopped =>
    case Wrote(_, rest) => DamageStays(rest);
    case Failed(_, rest) => DamageStays(rest);
    case Scoped(inner, end, rest) => DamageStays(inner); DamageStays(rest);
  }

  /** A recorded failure survives as long as damage stands and nobody throws it again. */
  lemma {:induction false} FailureStays(ran: Ran, failure: Error)
    requires !Betrays(ran, Some(failure), true)
    ensures Flag(ran, Some(failure)) == Some(failure)
  {
    match ran
    case Stopped =>
    case Wrote(_, rest) => FailureStays(rest, failure);
    case Failed(_, rest) => FailureStays(rest, failure);
    case Scoped(inner, end, rest) =>
      FailureStays(inner, failure);
      DamageStays(inner);
      FailureStays(rest, failure);
  }

  lemma {:induction false} JudgedAtEnd(ran: Ran, failure: Option<Error>, damage: bool)
    requires !Misjudged(ran, failure, damage)
    ensures Flag(ran, failure).None? ==> !Damage(ran, damage)
  {
    match ran
    case Stopped =>
    case Wrote(_, rest) => JudgedAtEnd(rest, failure, damage);
    case Failed(_, rest) => JudgedAtEnd(rest, failure, damage);
    case Scoped(inner, end, rest) =>
      JudgedAtEnd(rest, Note(end, Flag(inner, failure)), Harm(end, damage, Damage(inner, damage)));
  }

  /** A failure is missing at some moment exactly when some callback throws a recorded error that it did not
      let through: one recorded, with its damage standing, before its own scope began. */
  lemma {:induction false} MisjudgedExactly(ran: Ran, failure: Option<Error>, damage: bool)
    requires failure.None? ==> !damage
    ensures Misjudged(ran, failure, damage) <==> Betrays(ran, failure, damage)
  {
    match ran
    case Stopped =>
    case Wrote(_, rest) => MisjudgedExactly(rest, failure, damage);
    case Failed(_, rest) => MisjudgedExactly(rest, failure, damage);
    case Scoped(inner, end, rest) =>
      MisjudgedExactly(inner, failure, damage);
      if !Betrays(inner, failure, damage) {
        JudgedAtEnd(inner, failure, damage);
        if damage {
          FailureStays(inner, failure.value);
          DamageStays(inner);
        }
        var after, harm := Note(end, Flag(inner, failure)), Harm(end, damage, Damage(inner, damage));
        if after.None? && harm {
          assert Misjudged(rest, after, harm);
        } else {
          MisjudgedExactly(rest, after, harm);
        }
      }
  }

  /** No damage is left where the flag ends clear, unless somebody betrayed it. */
  lemma ClearMeansWhole(ran: Ran)
    requires Flag(ran, None).None? && !Betrays(ran, None, false)
    ensures !Damage(ran, false)
  {
    MisjudgedExactly(ran, None, false);
    JudgedAtEnd(ran, None, false);
  }

  /** At some moment a failure is recorded although no damage stands. */
  predicate Stale(ran: Ran, failure: Option<Error>, damage: bool) {
    (failure.Some? && !damage) ||
      match ran
      case Stopped => false
      case Wrote(_, rest) => Stale(rest, failure, damage)
      case Failed(_, rest) => Stale(rest, failure, damage)
      case Scoped(inner, end, rest) =>
        || Stale(inner, failure, damage)
        || Stale(rest, Note(end, Flag(inner, failure)), Harm(end, damage, Damage(inner, damage)))
  }

  /** Some scope that began with no damage standing is rolled back, with all the damage inside, but throws
      another error than the one recorded. */
  predicate Outlives(ran: Ran, failure: Option<Error>, damage: bool) {
    match ran
    case Stopped => false
    case Wrote(_, rest) => Outlives(rest, failure, damage)
    case Failed(_, rest) => Outlives(rest, failure, damage)
    case Scoped(inner, end, rest) =>
      || Outlives(inner, failure, damage)
      || (!damage && end.Undone? && Flag(inner, failure).Some? && Flag(inner, failure) != Some(end.error))
      || Outlives(rest, Note(end, Flag(inner, failure)), Harm(end, damage, Damage(inner, damage)))
  }

  lemma {:induction false} FreshAtEnd(ran: Ran, failure: Option<Error>, damage: bool)
    requires !Stale(ran, failure, damage)
    ensures Flag(ran, failure).Some? ==> Damage(ran, damage)
  {
    match ran
    case Stopped =>
    case Wrote(_, rest) => FreshAtEnd(rest, failure, damage);
    case Failed(_, rest) => FreshAtEnd(rest, failure, damage);
    case Scoped(inner, end, rest) =>
      FreshAtEnd(rest, Note(end, Flag(inner, failure)), Harm(end, damage, Damage(inner, damage)));
  }

  /** A failure stays on record with no damage standing, at some moment, exactly when the rollback that
      recovered from it was that of a scope which threw another error. */
  lemma {:induction false} StaleExactly(ran: Ran, failure: Option<Error>, damage: bool)
    requires failure.Some? ==> damage
    ensures Stale(ran, failure, damage) <==> Outlives(ran, failure, damage)
  {
    match ran
    case Stopped =>
    case Wrote(_, rest) => StaleExactly(rest, failure, damage);
    case Failed(_, rest) => StaleExactly(rest, failure, damage);
    case Scoped(inner, end, rest) =>
      StaleExactly(inner, failure, damage);
      if !Outlives(inner, failure, damage) {
        FreshAtEnd(inner, failure, damage);
        var after, harm := Note(end, Flag(inner, failure)), Harm(end, damage, Damage(inner, damage));
        if after.Some? && !harm {
          assert Stale(rest, after, harm);
        } else {
          StaleExactly(rest, after, harm);
        }
      }
  }

  /** So the record is right at the end, in both directions, unless one of the two happened. */
  lemma RecordTells(ran: Ran)
    requires !Betrays(ran, None, false) && !Outlives(ran, None, false)
    ensures Flag(ran, None).Some? <==> Damage(ran, false)
  {
    MisjudgedExactly(ran, None, false);
    JudgedAtEnd(ran, None, false);
    StaleExactly(ran, None, false);
    FreshAtEnd(ran, None, false);
  }

  // ------------------------------------------------------------------------------------------
  // Callbacks that throw only their own errors never betray the record.

  /** No nested callback throws again an error it was handed: it throws at most errors caught since its call
      began, of which there are at least `mine`.  The root callback may throw any. */
  predicate ThrowsOwn(work: Work, nested: bool, mine: nat) {
    match work
    case Return => true
    case Throw(_) => true
    case Rethrow(back) => !nested || back < mine
    case Write(_, next, failed) => ThrowsOwn(next, nested, mine) && ThrowsOwn(failed, nested, mine + 1)
    case Nest(inner, _, next, failed) =>
      ThrowsOwn(inner, true, 0) && ThrowsOwn(next, nested, mine) && ThrowsOwn(failed, nested, mine + 1)
  }

  /** Not made by a command before the given one. */
  predicate Young(error: Error, sent: nat) {
    (error.Driver? || error.Cleanup?) ==> error.at >= sent
  }

  predicate Old(failure: Option<Error>, sent: nat) {
    failure.Some? ==> (failure.value.Driver? || failure.value.Cleanup?) && failure.value.at < sent
  }

  ghost predicate YoungFrom(caught: seq<Error>, from: int, sent: nat) {
    0 <= from <= |caught| && forall j :: from <= j < |caught| ==> Young(caught[j], sent)
  }

  /** A scope ends with an error made since it began, and one that compromises was made by a command. */
  ghost predicate EndsYoung(s: State, r: Run, n: Scope) {
    && (n.ran == Stopped || (n.ran == r.ran && n.state.sent >= r.state.sent))
    && (n.state.caught == s.caught || n.state.caught == r.state.caught)
    && (n.outcome.Threw? ==> Young(n.outcome.error, s.sent))
    && (n.end.Undone? ==> Young(n.end.error, s.sent))
    && (n.end.Left? ==> Old(Some(n.end.error), n.state.sent))
  }

  lemma UndoYoung(env: Env, s: State, g: Run, r: Run)
    requires s.depth > 0
    requires g.outcome.Threw? && Young(g.outcome.error, s.sent) && s.sent <= g.state.sent
    requires g.ran == Stopped || (g.ran == r.ran && r.state.sent <= g.state.sent)
    requires g.state.caught == s.caught || g.state.caught == r.state.caught
    ensures EndsYoung(s, r, Undo(env, s.depth - 1, g))
  {
    hide Send;
  }

  lemma {:induction false} SavepointYoung(env: Env, inner: Work, abort: Abort, s: State, begun: State)
    requires s.depth > 0 && begun == Exec(env, s, Establish(s.depth - 1), env.At(s.sent).establish).0
    requires var r := RunWork(env, inner, begun); r.outcome.Threw? ==> Young(r.outcome.error, s.sent)
    ensures EndsYoung(s, RunWork(env, inner, begun), RunSavepoint(env, s.depth - 1, inner, abort, s))
  {
    hide Send, RunWork, Undo, RunSavepoint;
    SavepointGoes(env, s.depth - 1, inner, abort, s);
    var r := RunWork(env, inner, begun);
    var g := WorkThenRelease(env, s.depth - 1, inner, abort, begun);
    if g.outcome.Threw? { UndoYoung(env, s, g, r); }
    UndoYoung(env, s, Run(begun, Threw(Canceled), Stopped), r);
  }

  /** `start` is the command with which the call of this callback began. */
  lemma {:induction false} WorkOwn(
    env: Env, work: Work, s: State, nested: bool, mine: nat, start: nat, failure: Option<Error>, damage: bool)
    requires ThrowsOwn(work, nested, mine) && Old(failure, s.sent)
    requires start <= s.sent && YoungFrom(s.caught, |s.caught| - mine, start)
    ensures var r := RunWork(env, work, s);
            && (nested && r.outcome.Threw? ==> Young(r.outcome.error, start))
            && s.caught <= r.state.caught && YoungFrom(r.state.caught, |s.caught|, start)
            && Old(Flag(r.ran, failure), r.state.sent)
            && !Betrays(r.ran, failure, damage)
    decreases work, 0
  {
    hide Send, Harm, Damage, Note, RunNested;
    match work
    case Return =>
    case Throw(_) =>
    case Rethrow(_) =>
    case Write(row, next, failed) =>
      var (after, ok) := Exec(env, s, Insert(row), env.At(s.sent).write);
      if ok { WorkOwn(env, next, after, nested, mine, start, failure, damage); }
      else { WorkOwn(env, failed, Catch(after, Driver(StatementOp, s.sent)), nested, mine + 1, start, failure, damage); }
    case Nest(inner, abort, next, failed) =>
      NestedOwn(env, inner, abort, s, failure, damage);
      var n := RunNested(env, inner, abort, s);
      var after, harm := Note(n.end, Flag(n.ran, failure)), Harm(n.end, damage, Damage(n.ran, damage));
      if n.outcome.Returned? { WorkOwn(env, next, Resume(n), nested, mine, start, after, harm); }
      else { WorkOwn(env, failed, Resume(n), nested, mine + 1, start, after, harm); }
  }

  lemma {:induction false} NestedOwn(
    env: Env, inner: Work, abort: Abort, s: State, failure: Option<Error>, damage: bool)
    requires ThrowsOwn(inner, true, 0) && Old(failure, s.sent)
    ensures var n := RunNested(env, inner, abort, s);
            && (n.outcome.Threw? ==> Young(n.outcome.error, s.sent))
            && s.caught <= n.state.caught && YoungFrom(n.state.caught, |s.caught|, s.sent)
            && (n.end.Undone? ==> failure != Some(n.end.error))
            && Old(Note(n.end, Flag(n.ran, failure)), n.state.sent)
            && !Betrays(n.ran, failure, damage)
    decreases inner, 3
  {
    hide Send, RunWork, RunSavepoint, Damage, Harm;
    var entered := s.(depth := s.depth + 1);
    var begun := Exec(env, entered, Establish(s.depth), env.At(s.sent).establish).0;
    WorkOwn(env, inner, begun, true, 0, s.sent, failure, damage);
    SavepointYoung(env, inner, abort, entered, begun);
  }
}
