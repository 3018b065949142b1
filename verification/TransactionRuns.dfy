/** Runs in which a promise is broken, for any rows and, where it applies, on all engines. */
module TransactionRuns {
  import opened Options
  import opened Savepoints
  import opened NestedTransactions
  import opened FailureRecord
  import opened SavedRows

  // ------------------------------------------------------------------------------------------
  // A nested call writes, throws, and cannot be rolled back.

  function Failing(row: int): Work {
    Write(row, Throw(0), LET_THROUGH)
  }

  /** The error of its cleanup, the command with the given index. */
  function Stranded(at: nat): Error {
    Cleanup(RollbackToSavepointOp, App(0), at)
  }

  function StrandedState(env: Env, row: int, s: State): State {
    s.(server := s.server.(rows := s.server.rows + [row],
                           stack := KeptUnder(env.engine, s.server.stack, s.depth) + [Savepoint(s.depth, s.server.rows)]),
       failure := Some(Stranded(s.sent + 2)), sent := s.sent + 3)
  }

  lemma {:induction false} FailsHard(env: Env, row: int, s: State)
    requires env.At(s.sent) == env.At(s.sent + 1) == ACCEPT && env.At(s.sent + 2).undo == Miss
    requires !s.server.aborted && !s.server.ended && s.failure.None? && s.recovered == {}
    ensures var f := Stranded(s.sent + 2);
            RunNested(env, Failing(row), Never, s) == Scope(StrandedState(env, row, s), Threw(f), Wrote(row, Stopped), Left(f))
  {
    hide RunSavepoint, KeptUnder;
    var entered := s.(depth := s.depth + 1);
    var stack := KeptUnder(env.engine, s.server.stack, s.depth) + [Savepoint(s.depth, s.server.rows)];
    var begun := entered.(server := s.server.(stack := stack), sent := s.sent + 1);
    assert Exec(env, entered, Establish(s.depth), Accept) == (begun, true);
    var written := begun.(server := begun.server.(rows := s.server.rows + [row]), sent := s.sent + 2);
    assert Exec(env, begun, Insert(row), Accept) == (written, true);
    var thrown := Run(written, Threw(App(0)), Wrote(row, Stopped));
    assert RunWork(env, Failing(row), begun) == thrown by {
      assert RunWork(env, Throw(0), written) == thrown.(ran := Stopped);
    }
    assert WorkThenRelease(env, s.depth, Failing(row), Never, begun) == thrown;
    SavepointGoes(env, s.depth, Failing(row), Never, entered);
    hide RunWork, WorkThenRelease;
    assert {} - {Stranded(s.sent + 2)} == {};
  }

  // ------------------------------------------------------------------------------------------
  // The next call throws the caught error again, and the root commits what the first one wrote.

  const AGAIN := Nest(Rethrow(0), Never, Return, Return)

  function Rethrowing(row: int): Work {
    Nest(Failing(row), Never, AGAIN, AGAIN)
  }

  /** Every command works but the third, the rollback of the first call, which never reaches the server. */
  function UndoMissed(engine: Engine): Env {
    Env(engine, [ACCEPT, ACCEPT, ACCEPT.(undo := Miss)])
  }

  lemma {:induction false} RethrowingScope(engine: Engine, row: int, durable: Rows)
    ensures var env := UndoMissed(engine);
            var n := RunNested(env, Rethrow(0), Never, Catch(StrandedState(env, row, Fresh(durable)), Stranded(2)));
            && n.outcome == Threw(Stranded(2)) && n.end == Undone(Stranded(2)) && n.ran == Stopped
            && n.state.failure.None? && n.state.server.rows == durable + [row]
            && !n.state.server.aborted && !n.state.server.ended
  {
    hide RunSavepoint, Undo;
    var env, rows := UndoMissed(engine), durable + [row];
    var first, own := Savepoint(1, durable), Savepoint(1, rows);
    assert [] + [own] == [own] && [first] + [own] == [first, own] && [] + [first] == [first];
    assert Newest([first], 1) == 0 && Without([first], 0) == [];
    var s := Catch(StrandedState(env, row, Fresh(durable)), Stranded(2));
    assert s.server.stack == [first];
    var entered := s.(depth := 2);
    var stack := if engine.MySql? then [own] else [first, own];
    var begun := entered.(server := s.server.(stack := stack), sent := 4);
    assert Exec(env, entered, Establish(1), Accept) == (begun, true);
    var thrown := Run(begun, Threw(Stranded(2)), Stopped);
    assert WorkThenRelease(env, 1, Rethrow(0), Never, begun) == thrown by {
      assert RunWork(env, Rethrow(0), begun) == thrown;
    }
    hide RunWork, WorkThenRelease;
    SavepointGoes(env, 1, Rethrow(0), Never, entered);
    UndoneAgain(engine, thrown, row, durable);
    assert {Stranded(2)} - {Stranded(2)} == {};
  }

  lemma {:induction false} UndoneAgain(engine: Engine, thrown: Run, row: int, durable: Rows)
    requires var own := Savepoint(1, durable + [row]);
             thrown.state.server ==
             Server(durable + [row], if engine.MySql? then [own] else [Savepoint(1, durable), own], durable, false, false)
    requires thrown.outcome == Threw(Stranded(2)) && thrown.state.failure == Some(Stranded(2)) && thrown.state.sent == 4
    requires thrown.state.recovered == {}
    ensures var n := Undo(UndoMissed(engine), 1, thrown);
            && n.outcome == thrown.outcome && n.end == Undone(Stranded(2)) && n.ran == thrown.ran
            && n.state.failure.None? && n.state.server.rows == durable + [row]
            && !n.state.server.aborted && !n.state.server.ended
            && n.state.recovered == {Stranded(2)}
  {
    var stack := thrown.state.server.stack;
    assert stack[..|stack|] == stack;
    assert Newest(stack, 1) == |stack| - 1;
    assert {} + {Stranded(2)} == {Stranded(2)};
  }

  lemma RethrowingRan(row: int, rows: Rows)
    ensures var f := Stranded(2);
            var ran := Scoped(Wrote(row, Stopped), Left(f), Scoped(Stopped, Undone(f), Stopped));
            Surviving(ran, rows) == rows && Betrays(ran, None, false)
  {
    var second := Scoped(Stopped, Undone(Stranded(2)), Stopped);
    assert Surviving(second, rows) == rows;
    assert Flag(Wrote(row, Stopped), None) == None by { assert Flag(Stopped, None) == None; }
    assert Betrays(second, Some(Stranded(2)), true);
  }

  /** The root commits a row of a call that failed.  Its own callback only caught errors. */
  lemma {:induction false} RethrownFailureCommits(engine: Engine, row: int, durable: Rows)
    ensures var f := Transaction(UndoMissed(engine), SMOOTH, Rethrowing(row), durable);
            && f.outcome.Returned? && f.committed && f.durable == durable + [row]
            && Surviving(f.run.ran, durable) == durable && Betrays(f.run.ran, None, false)
  {
    hide RunNested;
    var env, s := UndoMissed(engine), Fresh(durable);
    FailsHard(env, row, s);
    RethrowingScope(engine, row, durable);
    var caught := Catch(StrandedState(env, row, s), Stranded(2));
    var n := RunNested(env, Rethrow(0), Never, caught);
    var last := Run(Resume(n), Returned, Stopped);
    assert RunWork(env, Return, last.state) == last;
    assert RunWork(env, AGAIN, caught) == last.(ran := Scoped(Stopped, n.end, Stopped));
    assert RunWork(env, Rethrowing(row), s).ran ==
           Scoped(Wrote(row, Stopped), Left(Stranded(2)), Scoped(Stopped, Undone(Stranded(2)), Stopped));
    RethrowingRan(row, durable);
  }

  // ------------------------------------------------------------------------------------------
  // The enclosing call throws an error of its own and is rolled back, with all that was written inside, and
  // the root is refused all the same.

  function Covering(row: int): Work {
    Nest(Failing(row), Never, Throw(1), Throw(1))
  }

  function Enclosing(row: int): Work {
    Nest(Covering(row), Never, Return, Return)
  }

  /** Every command works but the rollback of the inner call. */
  function InnerUndoMissed(engine: Engine): Env {
    Env(engine, [ACCEPT, ACCEPT, ACCEPT, ACCEPT.(undo := Miss)])
  }

  function Entered(durable: Rows): State {
    Fresh(durable).(server := Server(durable, [Savepoint(1, durable)], durable, false, false), depth := 2, sent := 1)
  }

  lemma {:induction false} CoveringScope(engine: Engine, row: int, durable: Rows)
    ensures var n := RunNested(InnerUndoMissed(engine), Covering(row), Never, Fresh(durable));
            && n.outcome == Threw(App(1)) && n.end == Undone(App(1))
            && n.ran == Scoped(Wrote(row, Stopped), Left(Stranded(3)), Stopped)
            && n.state.failure == Some(Stranded(3)) && n.state.server.rows == durable && !n.state.server.ended
  {
    hide RunSavepoint, Undo;
    var env := InnerUndoMissed(engine);
    var entered, begun := Fresh(durable).(depth := 2), Entered(durable);
    assert [] + [Savepoint(1, durable)] == [Savepoint(1, durable)];
    assert Exec(env, entered, Establish(1), Accept) == (begun, true);
    assert env.At(begun.sent) == env.At(begun.sent + 1) == ACCEPT;
    FailsHard(env, row, begun);
    hide RunNested;
    var caught := Catch(StrandedState(env, row, begun), Stranded(3));
    var thrown := Run(caught, Threw(App(1)), Scoped(Wrote(row, Stopped), Left(Stranded(3)), Stopped));
    assert RunWork(env, Covering(row), begun) == thrown by {
      assert RunWork(env, Throw(1), caught) == thrown.(ran := Stopped);
    }
    assert WorkThenRelease(env, 1, Covering(row), Never, begun) == thrown;
    hide RunWork, WorkThenRelease;
    SavepointGoes(env, 1, Covering(row), Never, entered);
    CoveringUndone(engine, row, durable);
    CoveringObserved(engine, row, durable, Undo(env, 1, thrown));
  }

  lemma CoveringObserved(engine: Engine, row: int, durable: Rows, n: Scope)
    requires RunSavepoint(InnerUndoMissed(engine), 1, Covering(row), Never, Fresh(durable).(depth := 2)) == n
    requires n.outcome == Threw(App(1)) && n.state.recovered == {App(1)} && n.state.failure.Some?
    ensures var m := RunNested(InnerUndoMissed(engine), Covering(row), Never, Fresh(durable));
            && m.outcome == n.outcome && m.end == n.end && m.ran == n.ran
            && m.state.failure == n.state.failure && m.state.server == n.state.server
  {
    hide RunSavepoint;
  }

  lemma {:induction false} CoveringUndone(engine: Engine, row: int, durable: Rows)
    ensures var env := InnerUndoMissed(engine);
            var caught := Catch(StrandedState(env, row, Entered(durable)), Stranded(3));
            var thrown := Run(caught, Threw(App(1)), Scoped(Wrote(row, Stopped), Left(Stranded(3)), Stopped));
            var n := Undo(env, 1, thrown);
            && n.outcome == thrown.outcome && n.end == Undone(App(1)) && n.ran == thrown.ran
            && n.state.failure == Some(Stranded(3)) && n.state.recovered == {App(1)}
            && n.state.server.rows == durable && !n.state.server.ended
  {
    var env, s := InnerUndoMissed(engine), Entered(durable);
    var outer, inner := Savepoint(1, durable), Savepoint(2, durable);
    assert Newest([outer], 2) == -1;
    assert [outer] + [inner] == [outer, inner];
    assert StrandedState(env, row, s).server.stack == [outer, inner];
    assert Newest([outer, inner], 1) == 0;
    assert [outer, inner][..1] == [outer] && [outer][..0] == [];
    assert Newest([outer], 1) == 0;
    assert {} + {App(1)} == {App(1)};
  }

  lemma EnclosingRan(row: int, rows: Rows)
    ensures var ran := Scoped(Scoped(Wrote(row, Stopped), Left(Stranded(3)), Stopped), Undone(App(1)), Stopped);
            && Surviving(ran, rows) == rows && !Damage(ran, false)
            && Outlives(ran, None, false) && !Betrays(ran, None, false)
  {
    var inside := Scoped(Wrote(row, Stopped), Left(Stranded(3)), Stopped);
    assert Surviving(Stopped, rows) == rows;
    assert Flag(Wrote(row, Stopped), None) == None by { assert Flag(Stopped, None) == None; }
    assert Flag(inside, None) == Some(Stranded(3)) by { assert Flag(Stopped, Some(Stranded(3))) == Some(Stranded(3)); }
    assert !Betrays(Wrote(row, Stopped), None, false) by { assert !Betrays(Stopped, None, false); }
    assert !Betrays(inside, None, false) by { assert !Betrays(Stopped, Some(Stranded(3)), true); }
    assert !Betrays(Stopped, Some(Stranded(3)), false);
    assert !Damage(Stopped, false);
  }

  /** The root is refused although its work returned and the server has exactly the surviving rows. */
  lemma {:induction false} RecoveredRootRefused(engine: Engine, row: int, durable: Rows)
    ensures var f := Transaction(InnerUndoMissed(engine), SMOOTH, Enclosing(row), durable);
            && f.run.outcome.Returned? && f.run.state.server.rows == Surviving(f.run.ran, durable) == durable
            && !Damage(f.run.ran, false) && !Betrays(f.run.ran, None, false) && Outlives(f.run.ran, None, false)
            && f.outcome == Threw(Stranded(3)) && !f.committed
  {
    hide RunNested;
    var env, s := InnerUndoMissed(engine), Fresh(durable);
    CoveringScope(engine, row, durable);
    var n := RunNested(env, Covering(row), Never, s);
    var last := Run(Resume(n), Returned, Stopped);
    assert RunWork(env, Return, last.state) == last;
    assert RunWork(env, Enclosing(row), s) == last.(ran := Scoped(n.ran, n.end, Stopped));
    EnclosingRan(row, durable);
  }

  // ------------------------------------------------------------------------------------------
  // On MySQL a deadlock ends the transaction; a callback that catches its error and goes on writes rows that
  // stay, although the root throws.

  function GoingOn(first: int, second: int, third: int): Work {
    var last := Write(third, Throw(0), Throw(0));
    var middle := Write(second, last, last);
    Write(first, middle, middle)
  }

  const DEADLOCK := Env(MySql, [ACCEPT, ACCEPT.(write := Doom)])

  lemma {:induction false} EndedStatementsStay(first: int, second: int, third: int, durable: Rows)
    ensures var f := Transaction(DEADLOCK, SMOOTH, GoingOn(first, second, third), durable);
            && f.outcome == Threw(App(0)) && !f.committed && f.durable == durable + [third]
            && Surviving(f.run.ran, durable) == durable + [first, third]
  {
    var env, s := DEADLOCK, Fresh(durable);
    var one := s.(server := s.server.(rows := durable + [first]), sent := 1);
    assert Exec(env, s, Insert(first), env.At(0).write) == (one, true);
    var two := one.(server := Server(durable, [], durable, false, true), sent := 2);
    assert Exec(env, one, Insert(second), env.At(1).write) == (two, false);
    var caught := Catch(two, Driver(StatementOp, 1));
    var three := caught.(server := caught.server.(rows := durable + [third]), sent := 3);
    assert Exec(env, caught, Insert(third), env.At(2).write) == (three, true);
    var last := Write(third, Throw(0), Throw(0));
    var middle := Write(second, last, last);
    var thrown := Run(three, Threw(App(0)), Stopped);
    assert RunWork(env, Throw(0), three) == thrown;
    assert RunWork(env, last, caught) == thrown.(ran := Wrote(third, Stopped));
    assert RunWork(env, middle, one) == thrown.(ran := Failed(Ending, Wrote(third, Stopped)));
    assert RunWork(env, GoingOn(first, second, third), s)
           == thrown.(ran := Wrote(first, Failed(Ending, Wrote(third, Stopped))));
    assert durable + [first] + [third] == durable + [first, third];
    assert Surviving(Stopped, durable + [first, third]) == durable + [first, third];
    assert Surviving(Wrote(third, Stopped), durable + [first]) == durable + [first, third];
  }

  // ------------------------------------------------------------------------------------------
  // `Faithful` is needed: with a SQLite release that took effect and reported an error, the rollback finds
  // the savepoint of an earlier failed sibling, and the write between the two calls is lost.

  const EMPTY := Nest(Return, Never, Return, Return)

  const BETWEEN := Write(2, EMPTY, EMPTY)

  const FAILED_SIBLING := Nest(Throw(0), Never, BETWEEN, BETWEEN)

  const LOST_RELEASE := Env(Sqlite, [ACCEPT, ACCEPT, ACCEPT, ACCEPT, ACCEPT.(release := Lose)])

  const STALE := Savepoint(1, [1])

  function Log(rows: Rows, stack: seq<Savepoint>): Server {
    Server(rows, stack, [1], false, false)
  }

  const UNDONE := State(Log([1], [STALE]), None, {}, 1, 2, [])

  const WRITTEN := State(Log([1, 2], [STALE]), None, {}, 1, 3, [App(0)])

  lemma {:induction false} SiblingFails()
    ensures RunNested(LOST_RELEASE, Throw(0), Never, Fresh([1])) == Scope(UNDONE, Threw(App(0)), Stopped, Undone(App(0)))
  {
    hide RunSavepoint;
    var env, entered := LOST_RELEASE, Fresh([1]).(depth := 2);
    var begun := State(Log([1], [STALE]), None, {}, 2, 1, []);
    assert Exec(env, entered, Establish(1), Accept) == (begun, true) by { assert [] + [STALE] == [STALE]; }
    var thrown := Run(begun, Threw(App(0)), Stopped);
    assert WorkThenRelease(env, 1, Throw(0), Never, begun) == thrown by {
      assert RunWork(env, Throw(0), begun) == thrown;
    }
    SavepointGoes(env, 1, Throw(0), Never, entered);
    hide RunWork, WorkThenRelease;
    assert [STALE][..1] == [STALE];
    assert ({} + {App(0)}) - {App(0)} == {};
  }

  lemma {:induction false} StaleIsFound()
    ensures var n := RunNested(LOST_RELEASE, Return, Never, WRITTEN);
            && n.state.failure.None? && n.state.server.rows == [1] && !n.state.server.ended
            && n.outcome.Threw? && n.end.Undone? && n.ran == Stopped
  {
    hide RunSavepoint;
    var env, entered, own := LOST_RELEASE, WRITTEN.(depth := 2), Savepoint(1, [1, 2]);
    var begun := State(Log([1, 2], [STALE, own]), None, {}, 2, 4, [App(0)]);
    assert Exec(env, entered, Establish(1), Accept) == (begun, true) by { assert [STALE] + [own] == [STALE, own]; }
    var lost := Run(begun.(server := Log([1, 2], [STALE]), sent := 5), Threw(Driver(ReleaseSavepointOp, 4)), Stopped);
    assert WorkThenRelease(env, 1, Return, Never, begun) == lost by {
      assert RunWork(env, Return, begun) == Run(begun, Returned, Stopped);
      assert Newest([STALE, own], 1) == 1 && [STALE, own][..1] == [STALE];
    }
    SavepointGoes(env, 1, Return, Never, entered);
    hide RunWork, WorkThenRelease;
    assert Newest([STALE], 1) == 0;
    assert {} + {lost.outcome.error} == {lost.outcome.error};
  }

  lemma {:induction false} LostReleaseLosesRows()
    ensures var f := Transaction(LOST_RELEASE, SMOOTH, FAILED_SIBLING, [1]);
            && f.committed && f.durable == [1] && Surviving(f.run.ran, [1]) == [1, 2]
            && !Betrays(f.run.ran, None, false)
  {
    hide RunNested;
    var env := LOST_RELEASE;
    SiblingFails();
    StaleIsFound();
    var n := RunNested(env, Return, Never, WRITTEN);
    var last := Run(Resume(n), Returned, Stopped);
    assert RunWork(env, Return, last.state) == last;
    assert RunWork(env, EMPTY, WRITTEN) == last.(ran := Scoped(Stopped, n.end, Stopped));
    var caught := Catch(UNDONE, App(0));
    assert Exec(env, caught, Insert(2), Accept) == (WRITTEN, true) by {
      assert [1] + [2] == [1, 2] && [] + [App(0)] == [App(0)];
    }
    assert RunWork(env, BETWEEN, caught) == last.(ran := Wrote(2, Scoped(Stopped, n.end, Stopped)));
    LostRan(n.end.error);
  }

  lemma LostRan(error: Error)
    ensures var ran := Scoped(Stopped, Undone(App(0)), Wrote(2, Scoped(Stopped, Undone(error), Stopped)));
            Surviving(ran, [1]) == [1, 2] && !Betrays(ran, None, false)
  {
    var last := Scoped(Stopped, Undone(error), Stopped);
    assert [1] + [2] == [1, 2];
    assert Surviving(last, [1, 2]) == [1, 2];
    assert Surviving(Wrote(2, last), [1]) == [1, 2];
    assert !Betrays(last, None, false);
    assert !Betrays(Wrote(2, last), None, false);
  }
}
