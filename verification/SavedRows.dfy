/** What nested transactions leave on the server: which rows survive, that open scopes can be rolled back,
    and what a root call makes durable. */
module SavedRows {
  import opened Options
  import opened Savepoints
  import opened NestedTransactions
  import opened FailureRecord

  /** A statement ended the transaction, which only MySQL does. */
  predicate Doomed(ran: Ran) {
    match ran
    case Stopped => false
    case Wrote(_, rest) => Doomed(rest)
    case Failed(fault, rest) => fault.Ending? || Doomed(rest)
    case Scoped(inner, _, rest) => Doomed(inner) || Doomed(rest)
  }

  // ------------------------------------------------------------------------------------------
  // The open scopes can be rolled back whatever happens below them.

  /** SQLite commands run in this process: a release that took effect does not report an error. */
  ghost predicate Faithful(env: Env) {
    env.engine.Sqlite? ==> forall i: nat :: env.At(i).release != Lose
  }

  ghost predicate Recoverable(env: Env, s: State, frames: seq<Rows>) {
    && !s.server.ended
    && Shape(env.engine, s.server.stack, frames) && (env.engine.MySql? ==> UniqueNames(s.server.stack))
  }

  ghost predicate Healthy(env: Env, s: State, frames: seq<Rows>) {
    Recoverable(env, s, frames) && (env.engine.Postgres? ==> Within(s.server.stack, |frames|))
  }

  lemma {:induction false} PostgresWorkKeeps(env: Env, work: Work, s: State, frames: seq<Rows>)
    requires env.engine.Postgres? && Recoverable(env, s, frames) && s.depth > |frames|
    ensures Recoverable(env, RunWork(env, work, s).state, frames)
    decreases work, 0
  {
    hide Shape;
    match work
    case Return =>
    case Throw(_) =>
    case Rethrow(_) =>
    case Write(row, next, failed) =>
      var (after, ok) := Exec(env, s, Insert(row), env.At(s.sent).write);
      DeeperKeepsOuter(s.server, Insert(row), env.At(s.sent).write, frames);
      hide Send;
      PostgresWorkKeeps(env, if ok then next else failed,
                        if ok then after else Catch(after, Driver(StatementOp, s.sent)), frames);
    case Nest(inner, abort, next, failed) =>
      PostgresNestedKeeps(env, inner, abort, s, frames);
      hide RunNested;
      var n := RunNested(env, inner, abort, s);
      PostgresWorkKeeps(env, if n.outcome.Returned? then next else failed, Resume(n), frames);
  }

  lemma {:induction false} PostgresNestedKeeps(env: Env, inner: Work, abort: Abort, s: State, frames: seq<Rows>)
    requires env.engine.Postgres? && Recoverable(env, s, frames) && s.depth > |frames|
    ensures Recoverable(env, RunNested(env, inner, abort, s).state, frames)
    decreases inner, 3
  {
    hide *;
    var name, entered := s.depth, s.(depth := s.depth + 1);
    PostgresEntryKeeps(env, s, entered, frames);
    var begun := Exec(env, entered, Establish(name), env.At(entered.sent).establish).0;
    PostgresWorkKeeps(env, inner, begun, frames);
    PostgresScopeKeeps(env, inner, abort, entered, begun, frames);
    ObservedKeeps(env, inner, abort, s, entered, frames);
  }

  lemma PostgresEntryKeeps(env: Env, s: State, entered: State, frames: seq<Rows>)
    requires env.engine.Postgres? && Recoverable(env, s, frames) && s.depth > |frames|
    requires entered == s.(depth := s.depth + 1)
    ensures var begun := Exec(env, entered, Establish(s.depth), env.At(entered.sent).establish).0;
            Recoverable(env, entered, frames) && Recoverable(env, begun, frames) && begun.depth > |frames|
  {
    hide Shape, Send;
    DeeperKeepsOuter(s.server, Establish(s.depth), env.At(s.sent).establish, frames);
  }

  lemma ObservedKeeps(env: Env, inner: Work, abort: Abort, s: State, entered: State, frames: seq<Rows>)
    requires entered == s.(depth := s.depth + 1)
    requires Recoverable(env, RunSavepoint(env, s.depth, inner, abort, entered).state, frames)
    ensures Recoverable(env, RunNested(env, inner, abort, s).state, frames)
  {
    hide RunSavepoint;
  }

  lemma PostgresScopeKeeps(env: Env, inner: Work, abort: Abort, s: State, begun: State, frames: seq<Rows>)
    requires env.engine.Postgres? && Recoverable(env, s, frames) && s.depth > |frames| + 1
    requires begun == Exec(env, s, Establish(s.depth - 1), env.At(s.sent).establish).0
    requires Recoverable(env, begun, frames) && Recoverable(env, RunWork(env, inner, begun).state, frames)
    ensures Recoverable(env, RunSavepoint(env, s.depth - 1, inner, abort, s).state, frames)
  {
    hide Recoverable, Send, RunWork, RunSavepoint, Undo;
    var name := s.depth - 1;
    SavepointGoes(env, name, inner, abort, s);
    var w := RunWork(env, inner, begun).state;
    PostgresReleaseKeeps(env, name, w, env.At(w.sent).release, frames);
    var g := WorkThenRelease(env, name, inner, abort, begun);
    assert Recoverable(env, g.state, frames);
    hide WorkThenRelease;
    if g.outcome.Threw? { PostgresUndoKeeps(env, name, g, frames); }
    PostgresUndoKeeps(env, name, Run(begun, Threw(Canceled), Stopped), frames);
  }

  lemma PostgresReleaseKeeps(env: Env, name: nat, s: State, verdict: Verdict, frames: seq<Rows>)
    requires env.engine.Postgres? && Recoverable(env, s, frames) && name > |frames|
    ensures Recoverable(env, Exec(env, s, Release(name), verdict).0, frames)
  {
    hide Shape, Send;
    DeeperKeepsOuter(s.server, Release(name), verdict, frames);
  }

  lemma PostgresUndoKeeps(env: Env, name: nat, r: Run, frames: seq<Rows>)
    requires env.engine.Postgres? && Recoverable(env, r.state, frames) && name > |frames| && r.outcome.Threw?
    ensures Recoverable(env, Undo(env, name, r).state, frames)
  {
    hide Shape, Send;
    DeeperKeepsOuter(r.state.server, RollbackTo(name), env.At(r.state.sent).undo, frames);
    var undone := Exec(env, r.state, RollbackTo(name), env.At(r.state.sent).undo).0;
    DeeperKeepsOuter(undone.server, Release(name), env.At(undone.sent).drop, frames);
  }

  ghost predicate Undoable(env: Env, s: State, frames: seq<Rows>, rows: Rows) {
    Recoverable(env, s, frames + [rows])
    || (Recoverable(env, s, frames) && Newest(s.server.stack, |frames| + 1) < 0)
  }

  /** A new savepoint, executed or not. */
  lemma EstablishStep(env: Env, s: State, frames: seq<Rows>, verdict: Verdict)
    requires if env.engine.Postgres? then Healthy(env, s, frames) else Recoverable(env, s, frames)
    ensures var (after, ok) := Exec(env, s, Establish(|frames| + 1), verdict);
            && after.server.rows == s.server.rows
            && Recoverable(env, after, frames)
            && (ok ==> Recoverable(env, after, frames + [s.server.rows]))
            && (ok && Healthy(env, s, frames) ==> Healthy(env, after, frames + [s.server.rows]))
  {
    hide Shape, Newest, KeptUnder, UniqueNames, Within;
    var rows := s.server.rows;
    EstablishShape(env.engine, s.server, frames);
    var after := Execute(env.engine, s.server, Establish(|frames| + 1));
    assert (frames + [rows])[..|frames|] == frames && |frames + [rows]| == |frames| + 1;
    ShapeOuter(env.engine, after.stack, frames + [rows]);
  }

  /** A release of the innermost scope. */
  lemma ReleaseStep(env: Env, s: State, frames: seq<Rows>, rows: Rows, verdict: Verdict)
    requires Recoverable(env, s, frames + [rows]) && (env.engine.Sqlite? ==> verdict != Lose)
    ensures var (after, ok) := Exec(env, s, Release(|frames| + 1), verdict);
            && after.server.rows == s.server.rows
            && (ok ==> Recoverable(env, after, frames))
            && (ok && env.engine.Postgres? ==> Within(after.server.stack, |frames|))
            && (!ok ==> Undoable(env, after, frames, rows))
  {
    hide Shape, Newest, UniqueNames, Within;
    assert (frames + [rows])[..|frames|] == frames && |frames + [rows]| == |frames| + 1;
    ReleaseShape(env.engine, s.server, frames + [rows]);
  }

  lemma UndoRestores(env: Env, s: State, frames: seq<Rows>, rows: Rows, verdict: Verdict)
    requires Undoable(env, s, frames, rows)
    ensures var (after, ok) := Exec(env, s, RollbackTo(|frames| + 1), verdict);
            && Recoverable(env, after, frames)
            && (ok ==> after.server.rows == rows && Recoverable(env, after, frames + [rows]))
  {
    hide Shape, Newest, UniqueNames;
    assert (frames + [rows])[..|frames|] == frames && |frames + [rows]| == |frames| + 1;
    if Recoverable(env, s, frames + [rows]) {
      RollbackToShape(env.engine, s.server, frames + [rows]);
      ShapeOuter(env.engine, s.server.stack, frames + [rows]);
      var after := Execute(env.engine, s.server, RollbackTo(|frames| + 1));
      ShapeOuter(env.engine, after.stack, frames + [rows]);
    }
  }

  /** The guarded part of a scope, given that its work keeps the scope's savepoint. */
  lemma GuardedUndoable(env: Env, inner: Work, abort: Abort, begun: State, frames: seq<Rows>, rows: Rows)
    requires Faithful(env) && Recoverable(env, RunWork(env, inner, begun).state, frames + [rows])
    ensures var r := WorkThenRelease(env, |frames| + 1, inner, abort, begun);
            && (r.outcome.Threw? ==> Undoable(env, r.state, frames, rows))
            && (r.outcome.Returned? ==>
                  Recoverable(env, r.state, frames)
                  && (env.engine.Postgres? ==> Within(r.state.server.stack, |frames|))
                  && r.state.server.rows == RunWork(env, inner, begun).state.server.rows)
  {
    hide RunWork, Recoverable;
    var r := RunWork(env, inner, begun);
    ReleaseStep(env, r.state, frames, rows, env.At(r.state.sent).release);
  }

  /** What a scope does to the rows and to the scopes around it, if the transaction did not end in it. */
  ghost predicate ScopeKept(env: Env, s: State, frames: seq<Rows>, r: Run, n: Scope) {
    !Doomed(n.ran) ==>
      && Recoverable(env, n.state, frames)
      && match n.end
         case Kept => r.outcome.Returned? && n.ran == r.ran && n.state.server == r.state.server
         case Undone(_) => n.state.server.rows == s.server.rows
                           && (env.engine.Postgres? ==> Within(n.state.server.stack, |frames|))
         case Skipped => n.state.server.rows == s.server.rows
                         && (env.engine.Postgres? ==> n.state.server.stack == s.server.stack)
         case Left(_) => true
  }

  lemma RollBackKept(env: Env, s: State, frames: seq<Rows>, r: Run, w: Run)
    requires !env.engine.Postgres? && w.outcome.Threw? && Undoable(env, w.state, frames, s.server.rows)
    ensures ScopeKept(env, s, frames, r, RollBack(env, |frames| + 1, w))
  {
    hide Recoverable, Send;
    UndoRestores(env, w.state, frames, s.server.rows, env.At(w.state.sent).undo);
    RecoverableOf(env, Exec(env, w.state, RollbackTo(|frames| + 1), env.At(w.state.sent).undo).0, w.outcome.error, frames);
  }

  lemma RecoverableOf(env: Env, s: State, error: Error, frames: seq<Rows>)
    requires Recoverable(env, s, frames)
    ensures Recoverable(env, MarkRecovered(s, error), frames) && Recoverable(env, MarkUnusable(s, error), frames)
    ensures Recoverable(env, Catch(s, error), frames)
  {
  }

  lemma DropKept(env: Env, s: State, frames: seq<Rows>, r: Run, w: Run)
    requires env.engine.Postgres? && w.outcome.Threw? && Undoable(env, w.state, frames, s.server.rows)
    ensures ScopeKept(env, s, frames, r, RollBackAndRelease(env, |frames| + 1, w))
  {
    hide Recoverable, Send, Undoable;
    var rows := s.server.rows;
    UndoRestores(env, w.state, frames, rows, env.At(w.state.sent).undo);
    var (undone, ok) := Exec(env, w.state, RollbackTo(|frames| + 1), env.At(w.state.sent).undo);
    if ok {
      ReleaseStep(env, undone, frames, rows, env.At(undone.sent).drop);
      var dropped := Exec(env, undone, Release(|frames| + 1), env.At(undone.sent).drop).0;
      UndoableKeeps(env, dropped, frames, rows);
      RecoverableOf(env, dropped, w.outcome.error, frames);
    }
  }

  lemma UndoableKeeps(env: Env, s: State, frames: seq<Rows>, rows: Rows)
    ensures Undoable(env, s, frames, rows) ==> Recoverable(env, s, frames)
  {
    if Recoverable(env, s, frames + [rows]) {
      assert (frames + [rows])[..|frames|] == frames;
      ShapeOuter(env.engine, s.server.stack, frames + [rows]);
    }
  }

  /** A scope about to run, and its work known to keep the scope's own savepoint. */
  ghost predicate ScopeReady(env: Env, inner: Work, s: State, begun: State, frames: seq<Rows>) {
    && Faithful(env)
    && (if env.engine.Postgres? then Healthy(env, s, frames) else Recoverable(env, s, frames))
    && (begun, Exec(env, s, Establish(|frames| + 1), env.At(s.sent).establish).1)
       == Exec(env, s, Establish(|frames| + 1), env.At(s.sent).establish)
    && (Exec(env, s, Establish(|frames| + 1), env.At(s.sent).establish).1 ==>
          Recoverable(env, begun, frames + [s.server.rows])
          && var r := RunWork(env, inner, begun);
             !Doomed(r.ran) ==> Recoverable(env, r.state, frames + [s.server.rows]))
  }

  lemma UndoKept(env: Env, s: State, frames: seq<Rows>, r: Run, w: Run)
    requires w.outcome.Threw? && Undoable(env, w.state, frames, s.server.rows)
    ensures ScopeKept(env, s, frames, r, Undo(env, |frames| + 1, w))
  {
    hide ScopeKept, Undoable;
    if env.engine.Postgres? { DropKept(env, s, frames, r, w); } else { RollBackKept(env, s, frames, r, w); }
  }

  lemma GuardedRan(env: Env, name: nat, inner: Work, abort: Abort, begun: State)
    ensures WorkThenRelease(env, name, inner, abort, begun).ran == RunWork(env, inner, begun).ran
  {
    hide RunWork;
  }

  lemma UndoRan(env: Env, name: nat, r: Run)
    requires r.outcome.Threw?
    ensures Undo(env, name, r).ran == r.ran
  {
    hide Send;
  }

  lemma {:induction false} SavepointKept(env: Env, inner: Work, abort: Abort, s: State, begun: State, frames: seq<Rows>)
    requires ScopeReady(env, inner, s, begun, frames)
    ensures ScopeKept(env, s, frames, WorkThenRelease(env, |frames| + 1, inner, abort, begun),
                      RunSavepoint(env, |frames| + 1, inner, abort, s))
  {
    hide Recoverable, Send, RunWork, RunSavepoint, Undo;
    EstablishStep(env, s, frames, env.At(s.sent).establish);
    SavepointGoes(env, |frames| + 1, inner, abort, s);
    if Exec(env, s, Establish(|frames| + 1), env.At(s.sent).establish).1 {
      var r, skip := WorkThenRelease(env, |frames| + 1, inner, abort, begun), Run(begun, Threw(Canceled), Stopped);
      GuardedRan(env, |frames| + 1, inner, abort, begun);
      if !Doomed(r.ran) { GuardedUndoable(env, inner, abort, begun, frames, s.server.rows); }
      hide WorkThenRelease;
      if r.outcome.Threw? {
        UndoRan(env, |frames| + 1, r);
        if !Doomed(r.ran) { UndoKept(env, s, frames, r, r); }
      }
      UndoKept(env, s, frames, r, skip);
    } else {
      RecoverableOf(env, begun, Driver(SavepointOp, s.sent), frames);
    }
  }

  lemma {:induction false} NestedKept(env: Env, inner: Work, abort: Abort, s: State, begun: State, frames: seq<Rows>)
    requires s.depth == |frames| + 1 && ScopeReady(env, inner, s.(depth := s.depth + 1), begun, frames)
    ensures ScopeKept(env, s, frames, WorkThenRelease(env, |frames| + 1, inner, abort, begun),
                      RunNested(env, inner, abort, s))
  {
    hide ScopeReady, WorkThenRelease, RunSavepoint, Shape;
    SavepointKept(env, inner, abort, s.(depth := s.depth + 1), begun, frames);
  }

  /** On SQLite and MySQL work under a scope keeps the scopes around it, whatever is damaged, unless a
      statement ends the transaction. */
  lemma {:induction false} OthersWorkKeeps(env: Env, work: Work, s: State, frames: seq<Rows>)
    requires !env.engine.Postgres? && Faithful(env) && Recoverable(env, s, frames) && s.depth == |frames| + 1
    ensures var r := RunWork(env, work, s); !Doomed(r.ran) ==> Recoverable(env, r.state, frames)
    decreases work, 0
  {
    hide Shape, Faithful, Mark;
    match work
    case Return =>
    case Throw(_) =>
    case Rethrow(_) =>
    case Write(row, next, failed) =>
      var (after, ok) := Exec(env, s, Insert(row), env.At(s.sent).write);
      var branch, resumed := if ok then next else failed, if ok then after else Catch(after, Driver(StatementOp, s.sent));
      WriteKeeps(env, s, frames, row, env.At(s.sent).write, RunWork(env, branch, resumed).ran);
      hide Send;
      if !after.server.ended { OthersWorkKeeps(env, branch, resumed, frames); }
    case Nest(inner, abort, next, failed) =>
      OthersNestedKeeps(env, inner, abort, s, frames);
      hide RunNested;
      var n := RunNested(env, inner, abort, s);
      if !Doomed(n.ran) { OthersWorkKeeps(env, if n.outcome.Returned? then next else failed, Resume(n), frames); }
  }

  lemma WriteKeeps(env: Env, s: State, frames: seq<Rows>, row: int, verdict: Verdict, rest: Ran)
    requires Recoverable(env, s, frames)
    ensures var after := Exec(env, s, Insert(row), verdict).0;
            var ran := Mark(s, after, row, verdict, rest);
            && (Doomed(ran) <==> after.server.ended || Doomed(rest))
            && (!after.server.ended ==> Recoverable(env, after, frames))
            && (env.engine.Postgres? && Healthy(env, s, frames) ==> Healthy(env, after, frames))
  {
    hide Shape, UniqueNames, Within;
  }

  lemma {:induction false} OthersNestedKeeps(env: Env, inner: Work, abort: Abort, s: State, frames: seq<Rows>)
    requires !env.engine.Postgres? && Faithful(env) && Recoverable(env, s, frames) && s.depth == |frames| + 1
    ensures var n := RunNested(env, inner, abort, s); !Doomed(n.ran) ==> Recoverable(env, n.state, frames)
    decreases inner, 3
  {
    hide Shape, Faithful, Send;
    var entered := s.(depth := s.depth + 1);
    var (begun, ok) := Exec(env, entered, Establish(|frames| + 1), env.At(s.sent).establish);
    EstablishStep(env, entered, frames, env.At(s.sent).establish);
    if ok { OthersWorkKeeps(env, inner, begun, frames + [s.server.rows]); }
    hide RunWork, RunNested;
    NestedKept(env, inner, abort, s, begun, frames);
  }

  // ------------------------------------------------------------------------------------------
  // Where no damage stands, the server holds exactly the surviving rows.

  ghost predicate Sound(env: Env, s: State, frames: seq<Rows>, rows: Rows) {
    Healthy(env, s, frames) && s.server.rows == rows
  }

  lemma SoundServer(env: Env, a: State, b: State, frames: seq<Rows>, rows: Rows)
    requires Healthy(env, a, frames) && a.server.rows == rows && a.server == b.server
    ensures Sound(env, b, frames, rows) && Healthy(env, b, frames)
  {
  }

  lemma SoundWrite(env: Env, s: State, frames: seq<Rows>, row: int, verdict: Verdict, rest: Ran)
    requires Healthy(env, s, frames)
    ensures var (after, ok) := Exec(env, s, Insert(row), verdict);
            var ran := Mark(s, after, row, verdict, rest);
            && (Doomed(ran) <==> after.server.ended || Doomed(rest))
            && (!after.server.ended ==>
                  && Healthy(env, after, frames)
                  && Surviving(ran, s.server.rows) == Surviving(rest, after.server.rows))
            && Damage(ran, false) == Damage(rest, false)
  {
    hide Shape, UniqueNames, Within;
  }

  /** Main induction. */
  lemma {:induction false} WorkSound(env: Env, work: Work, s: State, frames: seq<Rows>)
    requires Faithful(env) && Healthy(env, s, frames) && s.depth == |frames| + 1
    ensures var r := RunWork(env, work, s);
            !Damage(r.ran, false) && !Doomed(r.ran) ==>
              Sound(env, r.state, frames, Surviving(r.ran, s.server.rows))
    decreases work, 0
  {
    hide Healthy, Faithful, Mark, Harm;
    match work
    case Return =>
    case Throw(_) =>
    case Rethrow(_) =>
    case Write(row, next, failed) =>
      var (after, ok) := Exec(env, s, Insert(row), env.At(s.sent).write);
      var branch, resumed := if ok then next else failed, if ok then after else Catch(after, Driver(StatementOp, s.sent));
      SoundWrite(env, s, frames, row, env.At(s.sent).write, RunWork(env, branch, resumed).ran);
      hide Send;
      if !after.server.ended {
        SoundServer(env, after, resumed, frames, after.server.rows);
        WorkSound(env, branch, resumed, frames);
      }
    case Nest(inner, abort, next, failed) =>
      NestedSound(env, inner, abort, s, frames);
      hide RunNested;
      var n := RunNested(env, inner, abort, s);
      var branch := if n.outcome.Returned? then next else failed;
      if Harm(n.end, false, Damage(n.ran, false)) { DamageStays(RunWork(env, branch, Resume(n)).ran); }
      else if !Doomed(n.ran) {
        SoundServer(env, n.state, Resume(n), frames, n.state.server.rows);
        WorkSound(env, branch, Resume(n), frames);
      }
  }

  /** A scope whose work is sound: its rows stay or they go, and nothing else changes. */
  lemma {:induction false} NestedStep(
    env: Env, inner: Work, abort: Abort, s: State, entered: State, begun: State, frames: seq<Rows>)
    requires Faithful(env) && Healthy(env, s, frames) && s.depth == |frames| + 1
    requires entered == s.(depth := s.depth + 1)
    requires begun == Exec(env, entered, Establish(|frames| + 1), env.At(entered.sent).establish).0
    requires Exec(env, entered, Establish(|frames| + 1), env.At(entered.sent).establish).1 ==>
               && Recoverable(env, begun, frames + [s.server.rows])
               && begun.server.rows == s.server.rows
               && var r := RunWork(env, inner, begun);
                  && (!Doomed(r.ran) ==> Recoverable(env, r.state, frames + [s.server.rows]))
                  && (!Damage(r.ran, false) && !Doomed(r.ran) ==>
                        Sound(env, r.state, frames + [s.server.rows], Surviving(r.ran, begun.server.rows)))
    ensures var n := RunNested(env, inner, abort, s);
            !Harm(n.end, false, Damage(n.ran, false)) && !Doomed(n.ran) ==>
              Sound(env, n.state, frames, if n.end.Kept? then Surviving(n.ran, s.server.rows) else s.server.rows)
  {
    hide Recoverable, Send, RunWork, RunNested, Surviving, Within;
    SameServer(env, s, entered, frames);
    NestedKept(env, inner, abort, s, begun, frames);
    var n := RunNested(env, inner, abort, s);
    if n.end.Kept? && !Doomed(n.ran) {
      KeptWasEntered(env, inner, abort, s);
      GuardedRan(env, |frames| + 1, inner, abort, begun);
      GuardedUndoable(env, inner, abort, begun, frames, s.server.rows);
    }
  }

  lemma SameServer(env: Env, a: State, b: State, frames: seq<Rows>)
    requires a.server == b.server && Recoverable(env, a, frames)
    ensures Recoverable(env, b, frames)
  {
  }

  lemma KeptWasEntered(env: Env, inner: Work, abort: Abort, s: State)
    requires RunNested(env, inner, abort, s).end.Kept?
    ensures Exec(env, s.(depth := s.depth + 1), Establish(s.depth), env.At(s.sent).establish).1
  {
    hide RunWork, Send, WorkThenRelease, TryWork;
    var entered := s.(depth := s.depth + 1);
    match env.engine
    case Sqlite => assert SqliteSavepoint(env, s.depth, inner, abort, entered).end.Kept?;
    case MySql => assert MysqlSavepoint(env, s.depth, inner, abort, entered).end.Kept?;
    case Postgres => assert PostgresSavepoint(env, s.depth, inner, abort, entered).end.Kept?;
  }

  lemma ScopeEntered(env: Env, s: State, frames: seq<Rows>)
    requires Healthy(env, s, frames)
    ensures var (begun, ok) := Exec(env, s, Establish(|frames| + 1), env.At(s.sent).establish);
            && begun.depth == s.depth && begun.server.rows == s.server.rows
            && (ok ==> Healthy(env, begun, frames + [s.server.rows])
                       && Recoverable(env, begun, frames + [s.server.rows]))
  {
    hide Shape, Send;
    EstablishStep(env, s, frames, env.At(s.sent).establish);
  }

  lemma KeepsOwn(env: Env, inner: Work, begun: State, inside: seq<Rows>)
    requires Faithful(env) && Healthy(env, begun, inside) && begun.depth == |inside| + 1
    ensures var r := RunWork(env, inner, begun); !Doomed(r.ran) ==> Recoverable(env, r.state, inside)
  {
    hide Recoverable, RunWork;
    if env.engine.Postgres? { PostgresWorkKeeps(env, inner, begun, inside); }
    else { OthersWorkKeeps(env, inner, begun, inside); }
  }

  /** A nested call as a single step: what of its rows stays. */
  lemma {:induction false} NestedSound(env: Env, inner: Work, abort: Abort, s: State, frames: seq<Rows>)
    requires Faithful(env) && Healthy(env, s, frames) && s.depth == |frames| + 1
    ensures var n := RunNested(env, inner, abort, s);
            !Harm(n.end, false, Damage(n.ran, false)) && !Doomed(n.ran) ==>
              Sound(env, n.state, frames, if n.end.Kept? then Surviving(n.ran, s.server.rows) else s.server.rows)
    decreases inner, 3
  {
    hide *;
    var entered := s.(depth := s.depth + 1);
    var (begun, ok) := Exec(env, entered, Establish(|frames| + 1), env.At(entered.sent).establish);
    var inside := frames + [s.server.rows];
    SoundServer(env, s, entered, frames, s.server.rows);
    ScopeEntered(env, entered, frames);
    if ok {
      WorkSound(env, inner, begun, inside);
      KeepsOwn(env, inner, begun, inside);
    }
    NestedStep(env, inner, abort, s, entered, begun, frames);
  }

  // ------------------------------------------------------------------------------------------
  // Once the transaction has ended, every statement stays, whatever its callbacks end with.

  /** The rows written after the end, in order. */
  function Later(ran: Ran, ended: bool): Rows {
    match ran
    case Stopped => []
    case Wrote(row, rest) => (if ended then [row] else []) + Later(rest, ended)
    case Failed(fault, rest) => Later(rest, ended || fault.Ending?)
    case Scoped(inner, _, rest) => Later(inner, ended) + Later(rest, ended || Doomed(inner))
  }

  lemma {:induction false} NoneLater(ran: Ran)
    requires !Doomed(ran)
    ensures Later(ran, false) == []
  {
    match ran
    case Stopped =>
    case Wrote(_, rest) => NoneLater(rest);
    case Failed(_, rest) => NoneLater(rest);
    case Scoped(inner, _, rest) => NoneLater(inner); NoneLater(rest);
  }

  ghost predicate EndsAs(env: Env, s: Server, t: Server, ran: Ran) {
    && (Doomed(ran) ==> env.engine.MySql?)
    && t.base == s.base
    && (t.ended <==> s.ended || Doomed(ran))
    && (t.ended ==> t.stack == [] && t.rows == (if s.ended then s.rows else s.base) + Later(ran, s.ended))
  }

  /** Commands on savepoints neither end a transaction nor touch one that has ended. */
  lemma SavepointsEndNothing(env: Env, s: State, command: Command, verdict: Verdict)
    requires !command.Insert? && (s.server.ended ==> s.server.stack == [])
    ensures var t := Exec(env, s, command, verdict).0.server;
            && t.base == s.server.base && t.ended == s.server.ended
            && (t.ended ==> t.stack == [] && t.rows == s.server.rows)
  {
  }

  lemma WriteEnds(env: Env, s: State, row: int, verdict: Verdict, t: Server, rest: Ran)
    requires s.server.ended ==> s.server.stack == []
    requires EndsAs(env, Exec(env, s, Insert(row), verdict).0.server, t, rest)
    ensures EndsAs(env, s.server, t, Mark(s, Exec(env, s, Insert(row), verdict).0, row, verdict, rest))
    ensures var u := Exec(env, s, Insert(row), verdict).0.server; u.ended ==> u.stack == []
  {
    var u := Exec(env, s, Insert(row), verdict).0.server;
    if s.server.ended && |u.rows| > |s.server.rows| {
      assert u.rows + Later(rest, true) == s.server.rows + ([row] + Later(rest, true));
    } else if u.ended && !s.server.ended {
      assert u.rows == s.server.base;
    }
  }

  lemma ScopeEnds(env: Env, s: Server, t: Server, u: Server, inner: Ran, end: End, rest: Ran)
    requires EndsAs(env, s, t, inner) && EndsAs(env, t, u, rest)
    ensures EndsAs(env, s, u, Scoped(inner, end, rest))
  {
    if !t.ended { NoneLater(inner); }
    var start := if s.ended then s.rows else s.base;
    assert start + Later(inner, s.ended) + Later(rest, t.ended) == start + (Later(inner, s.ended) + Later(rest, t.ended));
  }

  lemma {:induction false} EndedRows(env: Env, work: Work, s: State)
    requires s.server.ended ==> s.server.stack == []
    ensures var r := RunWork(env, work, s);
            && EndsAs(env, s.server, r.state.server, r.ran)
            && (r.state.server.ended ==> r.state.server.stack == [])
    decreases work, 0
  {
    hide Send, Mark, Doomed, Later;
    match work
    case Return => NothingRan(env, s.server);
    case Throw(_) => NothingRan(env, s.server);
    case Rethrow(_) => NothingRan(env, s.server);
    case Write(row, next, failed) =>
      var verdict := env.At(s.sent).write;
      var (after, ok) := Exec(env, s, Insert(row), verdict);
      var branch, resumed := if ok then next else failed, if ok then after else Catch(after, Driver(StatementOp, s.sent));
      WriteStops(env, s, row, verdict);
      EndedRows(env, branch, resumed);
      var r := RunWork(env, branch, resumed);
      WriteEnds(env, s, row, verdict, r.state.server, r.ran);
    case Nest(inner, abort, next, failed) =>
      NestedEnds(env, inner, abort, s);
      hide RunNested;
      var n := RunNested(env, inner, abort, s);
      var branch := if n.outcome.Returned? then next else failed;
      EndedRows(env, branch, Resume(n));
      ScopeEnds(env, s.server, n.state.server, RunWork(env, branch, Resume(n)).state.server,
                n.ran, n.end, RunWork(env, branch, Resume(n)).ran);
  }

  lemma WriteStops(env: Env, s: State, row: int, verdict: Verdict)
    requires s.server.ended ==> s.server.stack == []
    ensures var u := Exec(env, s, Insert(row), verdict).0.server; u.ended ==> u.stack == []
  {
  }

  lemma NothingRan(env: Env, s: Server)
    requires s.ended ==> s.stack == []
    ensures EndsAs(env, s, s, Stopped)
  {
  }

  /** A server on which only savepoint commands were executed since. */
  ghost predicate Beside(s: Server, t: Server) {
    t.base == s.base && t.ended == s.ended && (t.ended ==> t.stack == [] && t.rows == s.rows)
  }

  lemma {:induction false} NestedEnds(env: Env, inner: Work, abort: Abort, s: State)
    requires s.server.ended ==> s.server.stack == []
    ensures var n := RunNested(env, inner, abort, s);
            && EndsAs(env, s.server, n.state.server, n.ran)
            && (n.state.server.ended ==> n.state.server.stack == [])
    decreases inner, 3
  {
    hide *;
    var entered := s.(depth := s.depth + 1);
    var begun := Exec(env, entered, Establish(s.depth), env.At(entered.sent).establish).0;
    SavepointsEndNothing(env, entered, Establish(s.depth), env.At(entered.sent).establish);
    EndedRows(env, inner, begun);
    NestedBeside(env, inner, abort, s, entered, begun);
    BesideEnds(env, s.server, begun.server, RunWork(env, inner, begun).state.server,
               RunNested(env, inner, abort, s).state.server, RunWork(env, inner, begun).ran);
  }

  lemma BesideEnds(env: Env, s: Server, begun: Server, w: Server, t: Server, ran: Ran)
    requires (s.ended ==> s.stack == []) && Beside(s, begun) && EndsAs(env, begun, w, ran)
    ensures Beside(w, t) ==> EndsAs(env, s, t, ran)
    ensures Beside(s, t) ==> EndsAs(env, s, t, Stopped)
  {
  }

  /** Around the work of a nested call there are only savepoint commands. */
  lemma {:induction false} NestedBeside(
    env: Env, inner: Work, abort: Abort, s: State, entered: State, begun: State)
    requires entered == s.(depth := s.depth + 1) && (s.server.ended ==> s.server.stack == [])
    requires begun == Exec(env, entered, Establish(s.depth), env.At(entered.sent).establish).0
    requires var w := RunWork(env, inner, begun).state.server; w.ended ==> w.stack == []
    ensures var n, r := RunNested(env, inner, abort, s), RunWork(env, inner, begun);
            || (n.ran == r.ran && Beside(r.state.server, n.state.server))
            || (n.ran == Stopped && Beside(s.server, n.state.server))
    ensures var n := RunNested(env, inner, abort, s); n.state.server.ended ==> n.state.server.stack == []
    ensures Beside(s.server, begun.server)
  {
    hide Send, RunWork, RunSavepoint, Undo, WorkThenRelease, Beside;
    var name := s.depth;
    BesideStep(env, entered, Establish(name), env.At(entered.sent).establish);
    GuardedBeside(env, name, inner, abort, begun);
    SavepointGoes(env, name, inner, abort, entered);
    var r, g := RunWork(env, inner, begun), WorkThenRelease(env, name, inner, abort, begun);
    BesideNext(s.server, s.server, begun.server);
    BesideStack(r.state.server, g.state.server);
    if g.outcome.Threw? {
      UndoBeside(env, name, g);
      BesideNext(r.state.server, g.state.server, Undo(env, name, g).state.server);
      BesideStack(g.state.server, Undo(env, name, g).state.server);
    }
    BesideStack(s.server, begun.server);
    var skip := Run(begun, Threw(Canceled), Stopped);
    UndoBeside(env, name, skip);
    BesideNext(s.server, begun.server, Undo(env, name, skip).state.server);
    BesideStack(begun.server, Undo(env, name, skip).state.server);
  }

  lemma BesideNext(a: Server, b: Server, c: Server)
    ensures Beside(a, b) && Beside(b, c) ==> Beside(a, c)
    ensures (a.ended ==> a.stack == []) ==> Beside(a, a)
  {
  }

  lemma BesideStack(a: Server, b: Server)
    ensures Beside(a, b) ==> (b.ended ==> b.stack == [])
  {
  }

  lemma BesideStep(env: Env, s: State, command: Command, verdict: Verdict)
    requires !command.Insert? && (s.server.ended ==> s.server.stack == [])
    ensures Beside(s.server, Exec(env, s, command, verdict).0.server)
  {
    hide Send;
    SavepointsEndNothing(env, s, command, verdict);
  }

  lemma GuardedBeside(env: Env, name: nat, inner: Work, abort: Abort, begun: State)
    requires var w := RunWork(env, inner, begun).state.server; w.ended ==> w.stack == []
    ensures var r, g := RunWork(env, inner, begun), WorkThenRelease(env, name, inner, abort, begun);
            g.ran == r.ran && Beside(r.state.server, g.state.server)
  {
    hide RunWork, Send;
    var r := RunWork(env, inner, begun);
    SavepointsEndNothing(env, r.state, Release(name), env.At(r.state.sent).release);
  }

  lemma UndoBeside(env: Env, name: nat, r: Run)
    requires r.outcome.Threw? && (r.state.server.ended ==> r.state.server.stack == [])
    ensures var u := Undo(env, name, r); u.ran == r.ran && Beside(r.state.server, u.state.server)
  {
    hide Send;
    SavepointsEndNothing(env, r.state, RollbackTo(name), env.At(r.state.sent).undo);
    var undone := Exec(env, r.state, RollbackTo(name), env.At(r.state.sent).undo).0;
    SavepointsEndNothing(env, undone, Release(name), env.At(undone.sent).drop);
  }

  // ------------------------------------------------------------------------------------------
  // What a root call makes durable.

  lemma FreshHealthy(env: Env, durable: Rows)
    ensures Healthy(env, Fresh(durable), [])
  {
  }

  /** Whatever the driver replies: a root that commits makes durable exactly the surviving rows, unless a
      callback threw a recorded error it had not let through. */
  lemma CommitsOnlySurvivors(env: Env, plan: Plan, work: Work, durable: Rows)
    requires Faithful(env)
    ensures var f := Transaction(env, plan, work, durable);
            && (f.committed ==> f.durable == Surviving(f.run.ran, durable) || Betrays(f.run.ran, None, false))
            && f.run.state.depth == 1
  {
    hide RunWork, Surviving, Betrays, Healthy, Damage, Doomed;
    FreshHealthy(env, durable);
    FlagIsFold(env, work, Fresh(durable));
    WorkSound(env, work, Fresh(durable), []);
    EndedRows(env, work, Fresh(durable));
    var ran := RunWork(env, work, Fresh(durable)).ran;
    if Flag(ran, None).None? && !Betrays(ran, None, false) { ClearMeansWhole(ran); }
  }

  /** A root that does not commit leaves exactly the rows written after the server ended its transaction: it
      changes nothing, exactly if no statement was executed after one that ended the transaction. */
  lemma UncommittedLeavesExactly(env: Env, plan: Plan, work: Work, durable: Rows)
    ensures var f := Transaction(env, plan, work, durable);
            && (!f.committed ==> f.durable == durable + Later(f.run.ran, false))
            && (!f.committed ==> (f.durable == durable <==> Later(f.run.ran, false) == []))
            && (f.committed ==> !Doomed(f.run.ran))
            && (Doomed(f.run.ran) ==> env.engine.MySql?)
  {
    hide RunWork;
    EndedRows(env, work, Fresh(durable));
    var ran := RunWork(env, work, Fresh(durable)).ran;
    if !Doomed(ran) { NoneLater(ran); }
    assert Later(Stopped, false) == [];
    assert durable + [] == durable;
  }

  /** A transaction whose nested callbacks throw only their own errors commits exactly the surviving rows. */
  lemma OwnErrorsCommitSurvivors(env: Env, plan: Plan, work: Work, durable: Rows)
    requires Faithful(env) && ThrowsOwn(work, false, 0)
    ensures var f := Transaction(env, plan, work, durable);
            f.committed ==> f.durable == Surviving(f.run.ran, durable)
  {
    hide RunWork, Betrays, Surviving;
    CommitsOnlySurvivors(env, plan, work, durable);
    WorkOwn(env, work, Fresh(durable), false, 0, 0, None, false);
  }

  /** The root callback itself had a statement the server refused. */
  predicate TopRefused(ran: Ran) {
    match ran
    case Stopped => false
    case Wrote(_, rest) => TopRefused(rest)
    case Failed(fault, rest) => fault.Refused? || TopRefused(rest)
    case Scoped(_, _, rest) => TopRefused(rest)
  }

  /** On Postgres no scope is entered while the transaction is aborted, and none is kept or undone in it. */
  lemma {:induction false} NestedAborts(env: Env, inner: Work, abort: Abort, s: State)
    requires env.engine.Postgres?
    ensures var n := RunNested(env, inner, abort, s);
            && (n.end.Kept? || n.end.Undone? ==> !s.server.aborted && !n.state.server.aborted)
            && (n.end.Skipped? ==> n.state.server == s.server)
            && (s.server.aborted ==> n.state.server.aborted && n.ran == Stopped)
  {
    hide RunWork, RunSavepoint, Send, Undo, WorkThenRelease;
    var entered := s.(depth := s.depth + 1);
    SavepointGoes(env, s.depth, inner, abort, entered);
    EstablishAborts(env, s.depth, entered);
    var begun := Exec(env, entered, Establish(s.depth), env.At(s.sent).establish).0;
    var g := WorkThenRelease(env, s.depth, inner, abort, begun);
    ReleasedAborts(env, s.depth, inner, abort, begun);
    if g.outcome.Threw? { UndoneAborts(env, s.depth, g); }
    UndoneAborts(env, s.depth, Run(begun, Threw(Canceled), Stopped));
  }

  lemma EstablishAborts(env: Env, name: nat, s: State)
    requires env.engine.Postgres?
    ensures var (begun, ok) := Exec(env, s, Establish(name), env.At(s.sent).establish);
            (ok ==> !s.server.aborted) && (s.server.aborted ==> begun.server.aborted)
  {
  }

  lemma ReleasedAborts(env: Env, name: nat, inner: Work, abort: Abort, begun: State)
    ensures var g := WorkThenRelease(env, name, inner, abort, begun);
            g.outcome.Returned? ==> !g.state.server.aborted
  {
    hide RunWork;
  }

  lemma UndoneAborts(env: Env, name: nat, r: Run)
    requires env.engine.Postgres? && r.outcome.Threw?
    ensures var u := Undo(env, name, r); !u.end.Kept? && !u.end.Skipped? && (u.end.Undone? ==> !u.state.server.aborted)
  {
  }

  lemma WriteAborts(env: Env, s: State, row: int, rest: Ran)
    requires env.engine.Postgres?
    ensures var (after, ok) := Exec(env, s, Insert(row), env.At(s.sent).write);
            var ran := Mark(s, after, row, env.At(s.sent).write, rest);
            && (ok ==> !s.server.aborted && !after.server.aborted)
            && (s.server.aborted ==> after.server.aborted)
            && (after.server.aborted ==> s.server.aborted || TopRefused(ran))
            && (TopRefused(ran) ==> after.server.aborted || TopRefused(rest))
            && (TopRefused(rest) ==> TopRefused(ran))
  {
  }

  lemma {:induction false} TopAborts(env: Env, work: Work, s: State)
    requires env.engine.Postgres? && s.recovered == {}
    ensures var r := RunWork(env, work, s);
            && (s.server.aborted || TopRefused(r.ran) ==> r.state.server.aborted)
            && (s.server.aborted && s.failure.Some? ==> r.state.failure.Some?)
            && (r.state.server.aborted && r.state.failure.None? ==> s.server.aborted || TopRefused(r.ran))
  {
    hide Mark, Send;
    match work
    case Return =>
    case Throw(_) =>
    case Rethrow(_) =>
    case Write(row, next, failed) =>
      var (after, ok) := Exec(env, s, Insert(row), env.At(s.sent).write);
      var branch, resumed := if ok then next else failed, if ok then after else Catch(after, Driver(StatementOp, s.sent));
      TopAborts(env, branch, resumed);
      WriteAborts(env, s, row, RunWork(env, branch, resumed).ran);
    case Nest(inner, abort, next, failed) =>
      NestedFlagIsFold(env, inner, abort, s);
      NestedAborts(env, inner, abort, s);
      hide RunNested;
      var n := RunNested(env, inner, abort, s);
      TopAborts(env, if n.outcome.Returned? then next else failed, Resume(n));
  }

  /** A root call that returns has committed, except on Postgres after its own callback caught the error of a
      statement that the server refused, and on MySQL after any statement that ended the transaction. */
  lemma ReturnedCommitsExactly(env: Env, plan: Plan, work: Work, durable: Rows)
    ensures var f := Transaction(env, plan, work, durable);
            f.outcome.Returned? ==>
              (f.committed <==> !(env.engine.Postgres? && TopRefused(f.run.ran)) && !Doomed(f.run.ran))
  {
    hide RunWork;
    EndedRows(env, work, Fresh(durable));
    if env.engine.Postgres? { TopAborts(env, work, Fresh(durable)); }
  }

  /** A root call that raises has committed all the same exactly when the reply to the commit was lost, or a
      SQLite setting could not be set back. */
  lemma CommittedRaisesExactly(env: Env, plan: Plan, work: Work, durable: Rows)
    requires Transaction(env, plan, work, durable).committed
    ensures Transaction(env, plan, work, durable).outcome.Threw? <==> plan.commit.Lose? || ResetFails(env, plan)
  {
    hide RunWork;
  }
}
