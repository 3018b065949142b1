/** Nested transactions whose cleanup works: on every server they run as the tree alone says, and the root
    commits exactly when its work returns.  On Postgres, where a refused statement aborts the transaction, it
    depends on what the callbacks do after they caught its error; which trees are safe is decided exactly. */
module CleanRuns {
  import opened Options
  import opened Savepoints
  import opened NestedTransactions
  import opened FailureRecord
  import opened SavedRows

  /** Savepoints and cleanup commands succeed and no statement ends the transaction.  Statements may fail,
      and a release after successful work may fail without effect. */
  ghost predicate CleanUp(env: Env) {
    forall i: nat :: env.At(i).establish.Accept? && env.At(i).undo.Accept? && env.At(i).drop.Accept?
                     && !env.At(i).release.Lose? && !env.At(i).write.Doom?
  }

  ghost predicate NoRefusal(env: Env) {
    forall i: nat :: !env.At(i).write.Refuse?
  }

  ghost predicate AllAccepted(env: Env) {
    CleanUp(env) && forall i: nat :: env.At(i).release.Accept? && env.At(i).write.Accept?
  }

  lemma CleanIsFaithful(env: Env)
    requires CleanUp(env)
    ensures Faithful(env)
  {
  }

  // ------------------------------------------------------------------------------------------
  // Read off the tree: whether a refused statement may cost the root its commit.

  /** Some run of the work returns. */
  predicate Returns(work: Work) {
    match work
    case Return => true
    case Throw(_) => false
    case Rethrow(_) => false
    case Write(_, next, failed) => Returns(next) || Returns(failed)
    case Nest(inner, abort, next, failed) => (abort.Never? && Returns(inner) && Returns(next)) || Returns(failed)
  }

  /** In an aborted transaction every command fails, so the work takes the way of failures: it ends by
      throwing again the error caught `back` errors before the latest. */
  predicate PassesOn(work: Work, back: nat) {
    match work
    case Return => false
    case Throw(_) => false
    case Rethrow(other) => other == back
    case Write(_, _, failed) => PassesOn(failed, back + 1)
    case Nest(_, _, _, failed) => PassesOn(failed, back + 1)
  }

  /** In an aborted transaction the work gets into trouble: the root callback returns, or a nested call is
      tried whose error is not passed on. */
  predicate Stuck(work: Work, top: bool) {
    match work
    case Return => top
    case Throw(_) => false
    case Rethrow(_) => false
    case Write(_, _, failed) => Stuck(failed, top)
    case Nest(_, abort, _, failed) => if abort.BeforeSavepoint? then Stuck(failed, top) else !PassesOn(failed, 0)
  }

  /** Some statement within reach may be refused and leave its callback stuck. */
  predicate Hurts(work: Work, top: bool) {
    match work
    case Return => false
    case Throw(_) => false
    case Rethrow(_) => false
    case Write(_, next, failed) => Hurts(next, top) || Hurts(failed, top) || Stuck(failed, top)
    case Nest(inner, abort, next, failed) =>
      || ((abort.Never? || abort.AfterWork?) && Hurts(inner, false))
      || (abort.Never? && Returns(inner) && Hurts(next, top))
      || Hurts(failed, top)
  }

  /** No refusal can do harm: there is none, or not on Postgres, or the tree is safe. */
  ghost predicate Careful(env: Env, work: Work, top: bool) {
    !env.engine.Postgres? || NoRefusal(env) || !Hurts(work, top)
  }

  lemma {:induction false} ReturnedReturns(env: Env, work: Work, s: State)
    ensures RunWork(env, work, s).outcome.Returned? ==> Returns(work)
    decreases work, 0
  {
    hide Exec;
    match work
    case Return =>
    case Throw(_) =>
    case Rethrow(_) =>
    case Write(row, next, failed) =>
      var (after, ok) := Exec(env, s, Insert(row), env.At(s.sent).write);
      ReturnedReturns(env, if ok then next else failed, if ok then after else Catch(after, Driver(StatementOp, s.sent)));
    case Nest(inner, abort, next, failed) =>
      NestedReturns(env, inner, abort, s);
      hide RunNested;
      var n := RunNested(env, inner, abort, s);
      ReturnedReturns(env, if n.outcome.Returned? then next else failed, Resume(n));
  }

  lemma {:induction false} NestedReturns(env: Env, inner: Work, abort: Abort, s: State)
    ensures RunNested(env, inner, abort, s).outcome.Returned? ==> abort.Never? && Returns(inner)
    decreases inner, 3
  {
    hide Send, RunSavepoint, Undo;
    var entered := s.(depth := s.depth + 1);
    var begun := Exec(env, entered, Establish(s.depth), env.At(s.sent).establish).0;
    ReturnedReturns(env, inner, begun);
    hide RunWork;
    SavepointGoes(env, s.depth, inner, abort, entered);
    var g := WorkThenRelease(env, s.depth, inner, abort, begun);
    if g.outcome.Threw? { UndoThrows(env, s.depth, g); }
    UndoThrows(env, s.depth, Run(begun, Threw(Canceled), Stopped));
  }

  lemma UndoThrows(env: Env, name: nat, r: Run)
    requires r.outcome.Threw?
    ensures Undo(env, name, r).outcome.Threw?
  {
    hide Send;
  }

  // ------------------------------------------------------------------------------------------
  // In an aborted transaction.

  /** Nothing is left on record, and no damage. */
  predicate Clear(ran: Ran) {
    Flag(ran, None).None? && !Damage(ran, false)
  }

  /** Clear, or ending with the very error on record. */
  predicate Settled(r: Run) {
    Clear(r.ran) || (r.outcome.Threw? && Flag(r.ran, None) == Some(r.outcome.error))
  }

  lemma AbortedWrite(env: Env, s: State, row: int, verdict: Verdict, rest: Ran)
    requires env.engine.Postgres? && s.server.aborted && !s.server.ended
    ensures var (after, ok) := Exec(env, s, Insert(row), verdict);
            && !ok && after.server.aborted && !after.server.ended && after.caught == s.caught
            && var ran := Mark(s, after, row, verdict, rest);
               ran == Failed(ran.fault, rest) && !ran.fault.Ending?
  {
  }

  lemma {:induction false} AbortedNest(env: Env, inner: Work, abort: Abort, s: State)
    requires env.engine.Postgres? && s.server.aborted && !s.server.ended
    ensures var n := RunNested(env, inner, abort, s);
            && n.outcome.Threw? && n.ran == Stopped
            && n.end == (if abort.BeforeSavepoint? then Skipped else Left(n.outcome.error))
            && n.state.server.aborted && !n.state.server.ended && n.state.caught == s.caught
  {
    hide RunWork, RunSavepoint, Undo, WorkThenRelease;
    SavepointGoes(env, s.depth, inner, abort, s.(depth := s.depth + 1));
  }

  lemma {:induction false} PassRun(env: Env, work: Work, s: State, back: nat, f: Error)
    requires env.engine.Postgres? && s.server.aborted && !s.server.ended
    requires PassesOn(work, back) && back < |s.caught| && Again(s.caught, back) == f
    ensures var r := RunWork(env, work, s);
            r.outcome == Threw(f) && Flag(r.ran, Some(f)) == Some(f) && !Doomed(r.ran)
    decreases work
  {
    hide Send, Mark;
    match work
    case Rethrow(_) =>
    case Write(row, next, failed) =>
      var after := Exec(env, s, Insert(row), env.At(s.sent).write).0;
      AbortedWrite(env, s, row, env.At(s.sent).write, Stopped);
      var resumed := Catch(after, Driver(StatementOp, s.sent));
      PassRun(env, failed, resumed, back + 1, f);
      AbortedWrite(env, s, row, env.At(s.sent).write, RunWork(env, failed, resumed).ran);
    case Nest(inner, abort, next, failed) =>
      AbortedNest(env, inner, abort, s);
      hide RunNested;
      var n := RunNested(env, inner, abort, s);
      PassRun(env, failed, Resume(n), back + 1, f);
  }

  lemma {:induction false} StuckRun(env: Env, work: Work, s: State, top: bool)
    requires env.engine.Postgres? && s.server.aborted && !s.server.ended && !Stuck(work, top)
    ensures var r := RunWork(env, work, s);
            Settled(r) && !Doomed(r.ran) && (r.outcome.Returned? ==> !top)
    decreases work
  {
    hide Send, Mark;
    match work
    case Return =>
    case Throw(_) =>
    case Rethrow(_) =>
    case Write(row, next, failed) =>
      var after := Exec(env, s, Insert(row), env.At(s.sent).write).0;
      AbortedWrite(env, s, row, env.At(s.sent).write, Stopped);
      var resumed := Catch(after, Driver(StatementOp, s.sent));
      StuckRun(env, failed, resumed, top);
      AbortedWrite(env, s, row, env.At(s.sent).write, RunWork(env, failed, resumed).ran);
    case Nest(inner, abort, next, failed) =>
      AbortedNest(env, inner, abort, s);
      hide RunNested;
      var n := RunNested(env, inner, abort, s);
      StoppedClear();
      if abort.BeforeSavepoint? { StuckRun(env, failed, Resume(n), top); }
      else { PassRun(env, failed, Resume(n), 0, n.outcome.error); }
  }

  // ------------------------------------------------------------------------------------------
  // The tree alone, read as nested snapshots: the rows, the outcome and the errors caught when every
  // command works.

  datatype Meaning = Meaning(rows: Rows, outcome: Outcome, caught: seq<Error>)

  function Pure(work: Work, rows: Rows, caught: seq<Error>): Meaning
    decreases work, 0
  {
    match work
    case Return => Meaning(rows, Returned, caught)
    case Throw(code) => Meaning(rows, Threw(App(code)), caught)
    case Rethrow(back) => Meaning(rows, Threw(Again(caught, back)), caught)
    case Write(row, next, _) => Pure(next, rows + [row], caught)
    case Nest(inner, abort, next, failed) =>
      var m := PureScope(inner, abort, rows, caught);
      if m.outcome.Returned? then Pure(next, m.rows, m.caught)
      else Pure(failed, m.rows, m.caught + [m.outcome.error])
  }

  function PureScope(inner: Work, abort: Abort, rows: Rows, caught: seq<Error>): Meaning
    decreases inner, 1
  {
    if abort.BeforeSavepoint? || abort.AfterSavepoint? then Meaning(rows, Threw(Canceled), caught) else
    var m := Pure(inner, rows, caught);
    if m.outcome.Threw? then m.(rows := rows)
    else if abort.AfterWork? then Meaning(rows, Threw(Canceled), m.caught)
    else m
  }

  ghost predicate Means(env: Env, s: State, outcome: Outcome, m: Meaning) {
    AllAccepted(env) ==> (s.server.rows, outcome, s.caught) == (m.rows, m.outcome, m.caught)
  }

  // ------------------------------------------------------------------------------------------
  // Runs with working cleanup.

  lemma UndoClean(env: Env, name: nat, r: Run, frames: seq<Rows>, rows: Rows)
    requires CleanUp(env) && r.outcome.Threw? && Recoverable(env, r.state, frames + [rows]) && name == |frames| + 1
    ensures var u := Undo(env, name, r);
            && u.end == Undone(r.outcome.error) && u.outcome == r.outcome && u.ran == r.ran
            && u.state.caught == r.state.caught && !u.state.server.aborted && u.state.server.rows == rows
  {
    hide Shape, UniqueNames;
    assert |frames + [rows]| == name && (frames + [rows])[..|frames|] == frames;
    RollbackToShape(env.engine, r.state.server, frames + [rows]);
    var undone := Exec(env, r.state, RollbackTo(name), env.At(r.state.sent).undo).0;
    ReleaseShape(env.engine, undone.server, frames + [rows]);
  }

  /** The guarded part of a scope, given what its work does. */
  lemma GuardedClean(env: Env, name: nat, inner: Work, abort: Abort, begun: State, frames: seq<Rows>, rows: Rows)
    requires CleanUp(env) && name == |frames| + 1
    requires Recoverable(env, RunWork(env, inner, begun).state, frames + [rows])
    ensures var r, g := RunWork(env, inner, begun), WorkThenRelease(env, name, inner, abort, begun);
            && g.ran == r.ran && g.state.caught == r.state.caught
            && (r.outcome.Threw? ==> g == r)
            && (if g.outcome.Returned? then !g.state.server.aborted && g.state.server.rows == r.state.server.rows
                else Recoverable(env, g.state, frames + [rows]))
            && (AllAccepted(env) && !r.state.server.aborted ==>
                 g.outcome == if r.outcome.Returned? && abort.AfterWork? then Threw(Canceled) else r.outcome)
  {
    hide Shape, UniqueNames, RunWork;
    assert |frames + [rows]| == name && (frames + [rows])[..|frames|] == frames;
    var r := RunWork(env, inner, begun);
    ReleaseShape(env.engine, r.state.server, frames + [rows]);
  }

  /** A scope when cleanup works: nothing stays on record. */
  ghost predicate ScopeClean(env: Env, inner: Work, abort: Abort, s: State, n: Scope) {
    && Note(n.end, Flag(n.ran, None)).None? && !Harm(n.end, false, Damage(n.ran, false))
    && !Doomed(n.ran) && !n.end.Left? && !n.state.server.aborted
    && Means(env, n.state, n.outcome, PureScope(inner, abort, s.server.rows, s.caught))
  }

  /** What work leaves behind when cleanup works. */
  ghost predicate WorkCleaned(env: Env, work: Work, s: State, r: Run, top: bool) {
    && Settled(r) && !Doomed(r.ran)
    && (r.outcome.Returned? && top ==> !r.state.server.aborted)
    && (!env.engine.Postgres? || NoRefusal(env) ==> !r.state.server.aborted)
    && Means(env, r.state, r.outcome, Pure(work, s.server.rows, s.caught))
  }

  predicate RunsWork(abort: Abort) {
    abort.Never? || abort.AfterWork?
  }

  lemma {:induction false} SavepointClean(env: Env, inner: Work, abort: Abort, s: State, begun: State, frames: seq<Rows>)
    requires CleanUp(env) && s.depth == |frames| + 2 && !s.server.aborted
    requires (begun, true) == Exec(env, s, Establish(|frames| + 1), env.At(s.sent).establish)
    requires Recoverable(env, begun, frames + [s.server.rows]) && begun.server.rows == s.server.rows
    requires !begun.server.aborted && begun.caught == s.caught
    requires RunsWork(abort) ==>
               var r := RunWork(env, inner, begun);
               && Recoverable(env, r.state, frames + [s.server.rows])
               && WorkCleaned(env, inner, begun, r, false)
    ensures ScopeClean(env, inner, abort, s, RunSavepoint(env, |frames| + 1, inner, abort, s))
  {
    hide Recoverable, RunWork, Undo, RunSavepoint, WorkThenRelease, CleanUp, Damage, Doomed, NoRefusal;
    var rows := s.server.rows;
    SavepointGoes(env, |frames| + 1, inner, abort, s);
    UndoClean(env, |frames| + 1, Run(begun, Threw(Canceled), Stopped), frames, rows);
    StoppedClear();
    if RunsWork(abort) {
      GuardedClean(env, |frames| + 1, inner, abort, begun, frames, rows);
      AcceptedNotRefused(env);
      var g := WorkThenRelease(env, |frames| + 1, inner, abort, begun);
      if g.outcome.Threw? { UndoClean(env, |frames| + 1, g, frames, rows); }
    }
  }

  lemma StoppedClear()
    ensures Flag(Stopped, None) == None && !Damage(Stopped, false) && !Doomed(Stopped)
  {
  }

  lemma AcceptedNotRefused(env: Env)
    ensures AllAccepted(env) ==> NoRefusal(env)
  {
  }

  lemma CarefulDown(env: Env, work: Work, top: bool)
    requires Careful(env, work, top)
    ensures work.Write? ==> Careful(env, work.next, top) && Careful(env, work.failed, top)
    ensures work.Nest? ==>
              && (RunsWork(work.abort) ==> Careful(env, work.inner, false))
              && (work.abort.Never? && Returns(work.inner) ==> Careful(env, work.next, top))
              && Careful(env, work.failed, top)
  {
    hide NoRefusal;
  }

  /** A statement when cleanup works: the callback goes on as before, or in an aborted transaction. */
  lemma CleanWrite(env: Env, s: State, frames: seq<Rows>, row: int, rest: Ran)
    requires CleanUp(env) && Healthy(env, s, frames) && !s.server.aborted
    ensures var verdict := env.At(s.sent).write;
            var (after, ok) := Exec(env, s, Insert(row), verdict);
            var ran := Mark(s, after, row, verdict, rest);
            && Healthy(env, after, frames) && after.caught == s.caught && after.depth == s.depth
            && !after.server.ended
            && (after.server.aborted ==> env.engine.Postgres? && !NoRefusal(env) && !ok)
            && (AllAccepted(env) ==> ok && after.server.rows == s.server.rows + [row])
            && Flag(ran, None) == Flag(rest, None) && Damage(ran, false) == Damage(rest, false)
            && Doomed(ran) == Doomed(rest)
  {
    hide Shape, UniqueNames, Within;
  }

  lemma WriteCleaned(
    env: Env, row: int, next: Work, failed: Work, s: State, t: State, ok: bool, ran: Ran, r: Run, top: bool)
    requires Flag(ran, None) == Flag(r.ran, None) && Damage(ran, false) == Damage(r.ran, false)
    requires Doomed(ran) == Doomed(r.ran)
    requires WorkCleaned(env, if ok then next else failed, t, r, top)
    requires AllAccepted(env) ==> ok && t.server.rows == s.server.rows + [row] && t.caught == s.caught
    ensures WorkCleaned(env, Write(row, next, failed), s, r.(ran := ran), top)
  {
    hide Flag, Damage, Doomed, NoRefusal, AllAccepted;
  }

  /** In an aborted transaction. */
  lemma StuckCleaned(env: Env, work: Work, s: State, r: Run, top: bool)
    requires env.engine.Postgres? && !NoRefusal(env)
    requires Settled(r) && !Doomed(r.ran) && (r.outcome.Returned? ==> !top)
    ensures WorkCleaned(env, work, s, r, top)
  {
    hide Settled, Doomed;
  }

  lemma NestCleaned(env: Env, inner: Work, abort: Abort, next: Work, failed: Work, s: State, n: Scope, r: Run, top: bool)
    requires ScopeClean(env, inner, abort, s, n)
    requires WorkCleaned(env, if n.outcome.Returned? then next else failed, Resume(n), r, top)
    ensures WorkCleaned(env, Nest(inner, abort, next, failed), s, r.(ran := Scoped(n.ran, n.end, r.ran)), top)
  {
    hide NoRefusal, AllAccepted, PureScope;
  }

  /** With working cleanup, work runs as the tree alone says, and leaves nothing on record but an error that
      it throws itself. */
  lemma {:induction false} WorkClean(env: Env, work: Work, s: State, frames: seq<Rows>, top: bool)
    requires CleanUp(env) && Careful(env, work, top)
    requires Healthy(env, s, frames) && s.depth == |frames| + 1 && !s.server.aborted
    ensures WorkCleaned(env, work, s, RunWork(env, work, s), top)
    decreases work, 0
  {
    hide Healthy, PureScope, CleanUp, NoRefusal, Mark, Damage, Flag, Doomed;
    StoppedClear();
    CarefulDown(env, work, top);
    match work
    case Return =>
    case Throw(_) =>
    case Rethrow(_) =>
    case Write(row, next, failed) =>
      hide WorkCleaned, AllAccepted;
      var (after, ok) := Exec(env, s, Insert(row), env.At(s.sent).write);
      var branch, resumed := if ok then next else failed, if ok then after else Catch(after, Driver(StatementOp, s.sent));
      var r := RunWork(env, branch, resumed);
      CleanWrite(env, s, frames, row, r.ran);
      SoundServer(env, after, resumed, frames, after.server.rows);
      hide Send;
      if after.server.aborted {
        NotStuck(env, row, next, failed, top);
        StuckRun(env, failed, resumed, top);
        StuckCleaned(env, failed, resumed, r, top);
      } else {
        WorkClean(env, branch, resumed, frames, top);
      }
      WriteCleaned(env, row, next, failed, s, resumed, ok, Mark(s, after, row, env.At(s.sent).write, r.ran), r, top);
    case Nest(inner, abort, next, failed) =>
      hide WorkCleaned;
      NestedClean(env, inner, abort, s, frames);
      NestedReturns(env, inner, abort, s);
      hide RunNested;
      var n := RunNested(env, inner, abort, s);
      SoundServer(env, n.state, Resume(n), frames, n.state.server.rows);
      var branch := if n.outcome.Returned? then next else failed;
      ScopeUsable(env, inner, abort, s, n);
      hide ScopeClean;
      WorkClean(env, branch, Resume(n), frames, top);
      NestCleaned(env, inner, abort, next, failed, s, n, RunWork(env, branch, Resume(n)), top);
  }

  lemma ScopeUsable(env: Env, inner: Work, abort: Abort, s: State, n: Scope)
    requires ScopeClean(env, inner, abort, s, n)
    ensures !n.state.server.aborted
  {
  }

  lemma NotStuck(env: Env, row: int, next: Work, failed: Work, top: bool)
    requires Careful(env, Write(row, next, failed), top) && env.engine.Postgres? && !NoRefusal(env)
    ensures !Stuck(failed, top)
  {
    hide NoRefusal;
  }

  lemma {:induction false} NestedClean(env: Env, inner: Work, abort: Abort, s: State, frames: seq<Rows>)
    requires CleanUp(env) && (RunsWork(abort) ==> Careful(env, inner, false))
    requires Healthy(env, s, frames) && s.depth == |frames| + 1 && !s.server.aborted
    ensures var n := RunNested(env, inner, abort, s);
            && ScopeClean(env, inner, abort, s, n) && Healthy(env, n.state, frames)
    decreases inner, 3
  {
    hide *;
    var entered := s.(depth := s.depth + 1);
    var (begun, ok) := Exec(env, entered, Establish(|frames| + 1), env.At(entered.sent).establish);
    var inside := frames + [s.server.rows];
    SoundServer(env, s, entered, frames, s.server.rows);
    CleanIsFaithful(env);
    ScopeEntered(env, entered, frames);
    CleanEntry(env, entered, frames);
    if RunsWork(abort) {
      WorkClean(env, inner, begun, inside, false);
      KeepsOwn(env, inner, begun, inside);
      CleanedMeans(env, inner, begun, RunWork(env, inner, begun), false);
    }
    SavepointClean(env, inner, abort, entered, begun, frames);
    ObservedClean(env, inner, abort, s, entered);
    NestedSound(env, inner, abort, s, frames);
    NoHarm(env, inner, abort, s, frames);
  }

  lemma CleanedMeans(env: Env, work: Work, s: State, r: Run, top: bool)
    requires WorkCleaned(env, work, s, r, top)
    ensures !Doomed(r.ran)
  {
  }

  lemma CleanEntry(env: Env, s: State, frames: seq<Rows>)
    requires CleanUp(env) && Healthy(env, s, frames) && !s.server.aborted
    ensures var (begun, ok) := Exec(env, s, Establish(|frames| + 1), env.At(s.sent).establish);
            ok && !begun.server.aborted && begun.caught == s.caught
  {
    hide Shape, UniqueNames;
  }

  lemma ObservedClean(env: Env, inner: Work, abort: Abort, s: State, entered: State)
    requires entered == s.(depth := s.depth + 1)
    requires ScopeClean(env, inner, abort, entered, RunSavepoint(env, s.depth, inner, abort, entered))
    ensures ScopeClean(env, inner, abort, s, RunNested(env, inner, abort, s))
  {
    hide RunSavepoint, Damage, Flag, PureScope, AllAccepted;
  }

  lemma NoHarm(env: Env, inner: Work, abort: Abort, s: State, frames: seq<Rows>)
    requires var n := RunNested(env, inner, abort, s);
             && ScopeClean(env, inner, abort, s, n)
             && (!Harm(n.end, false, Damage(n.ran, false)) && !Doomed(n.ran) ==>
                  Sound(env, n.state, frames, if n.end.Kept? then Surviving(n.ran, s.server.rows) else s.server.rows))
    ensures Healthy(env, RunNested(env, inner, abort, s).state, frames)
  {
    hide RunNested, Damage, Healthy;
  }

  // ------------------------------------------------------------------------------------------
  // The root.

  /** The root commits exactly when its work returns, and otherwise raises what its work threw. */
  predicate AsWorkEnds(f: Final, durable: Rows) {
    && f.committed == f.run.outcome.Returned?
    && (f.committed <==> f.outcome.Returned?)
    && (!f.committed ==> f.outcome == f.run.outcome && f.durable == durable)
    && (f.committed ==> f.durable == Surviving(f.run.ran, durable))
  }

  /** With working cleanup, a nested failure that its caller catches never costs the root its commit. */
  lemma CommitsWhenWorkReturns(env: Env, work: Work, durable: Rows)
    requires CleanUp(env) && Careful(env, work, true)
    ensures AsWorkEnds(Transaction(env, SMOOTH, work, durable), durable)
  {
    hide RunWork, CleanUp, Careful, Betrays, Surviving, Healthy, Damage, Doomed, NoRefusal, Pure;
    FreshHealthy(env, durable);
    WorkClean(env, work, Fresh(durable), [], true);
    FlagIsFold(env, work, Fresh(durable));
    CleanIsFaithful(env);
    EndedRows(env, work, Fresh(durable));
    WorkSound(env, work, Fresh(durable), []);
  }

  /** Nothing but the work keeps the root from committing. */
  predicate Undisturbed(plan: Plan) {
    && Applied(plan.settings) == |plan.settings| && plan.begin.Accept? && plan.abort.NoAbort?
    && (plan.commit.Accept? || plan.commit.Lose?)
  }

  /** On each server the same tree means the same nested snapshots. */
  lemma SameOnEveryEngine(env: Env, plan: Plan, work: Work, durable: Rows)
    requires AllAccepted(env)
    ensures var f := Transaction(env, plan, work, durable);
            var m := Pure(work, durable, []);
            && f.durable == (if Undisturbed(plan) && m.outcome.Returned? then m.rows else durable)
            && (plan == SMOOTH ==> f.outcome == m.outcome)
  {
    hide RunWork, CleanUp, Healthy, Pure, Damage, Doomed, NoRefusal;
    FreshHealthy(env, durable);
    AcceptedNotRefused(env);
    WorkClean(env, work, Fresh(durable), [], true);
    FlagIsFold(env, work, Fresh(durable));
    EndedRows(env, work, Fresh(durable));
  }
}
