/** The runners as the sources write them: one object whose depth, failure flag and server change
    command by command, proved against the functions of `NestedTransactions`. */
module TransactionRunner {
  import opened Options
  import opened Savepoints
  import opened NestedTransactions
  import opened FailureRecord
  import opened SavedRows

  class Runner {
    const env: Env
    var server: Server
    var transactionDepth: nat
    var failure: Option<Error>
    var recovered: set<Error>
    var sent: nat
    var caught: seq<Error>
    var durable: Rows

    constructor (env: Env, durable: Rows)
      ensures this.env == env && this.durable == durable && transactionDepth == 0
    {
      this.env := env;
      this.durable := durable;
      server := Server(durable, [], durable, false, false);
      transactionDepth := 0;
      failure := None;
      recovered := {};
      sent := 0;
      caught := [];
    }

    ghost function Now(): State
      reads this
    {
      State(server, failure, recovered, transactionDepth, sent, caught)
    }

    method Execute(command: Command, verdict: Verdict) returns (ok: bool)
      modifies `server, `sent
      ensures (Now(), ok) == Exec(env, old(Now()), command, verdict)
    {
      server, ok := Send(env.engine, server, command, verdict).0, Send(env.engine, server, command, verdict).1;
      sent := sent + 1;
    }

    method MarkRecovered(error: Error)
      modifies `failure, `recovered
      ensures Now() == NestedTransactions.MarkRecovered(old(Now()), error)
    {
      if failure == Some(error) {
        failure := None;
      }
      recovered := recovered + {error};
    }

    method ObserveNestedFailure(error: Error)
      modifies `failure, `recovered
      ensures Now() == NestedTransactions.ObserveNestedFailure(old(Now()), error)
    {
      var wasRecovered := error in recovered;
      recovered := recovered - {error};
      if !wasRecovered && failure == None && Compromises(error) {
        failure := Some(error);
      }
    }

    /** The caller's callback. */
    method Work(work: Work) returns (outcome: Outcome, ran: Ran)
      modifies this
      ensures Run(Now(), outcome, ran) == RunWork(env, work, old(Now())) && durable == old(durable)
      decreases work, 0, 1
    {
      match work
      case Return =>
        return Returned, Stopped;
      case Throw(code) =>
        return Threw(App(code)), Stopped;
      case Rethrow(back) =>
        return Threw(if back < |caught| then caught[|caught| - 1 - back] else App(back)), Stopped;
      case Write(row, next, failed) =>
        outcome, ran := WriteRow(row, next, failed, work);
      case Nest(inner, abort, next, failed) =>
        var end;
        outcome, ran, end := NestedTransaction(inner, abort);
        var innerRan := ran;
        if outcome.Threw? {
          caught := caught + [outcome.error];
          outcome, ran := Work(failed);
        } else {
          outcome, ran := Work(next);
        }
        ran := Scoped(innerRan, end, ran);
    }

    method WriteRow(row: int, next: Work, failed: Work, ghost work: Work) returns (outcome: Outcome, ran: Ran)
      requires work == Write(row, next, failed)
      modifies this
      ensures Run(Now(), outcome, ran) == RunWork(env, work, old(Now())) && durable == old(durable)
      decreases work, 0, 0
    {
      hide Send;
      var at, before := sent, server;
      var verdict := env.At(at).write;
      var ok := Execute(Insert(row), verdict);
      var ends, took := server.ended && !before.ended, |server.rows| > |before.rows|;
      if ok {
        outcome, ran := Work(next);
      } else {
        caught := caught + [Driver(StatementOp, at)];
        outcome, ran := Work(failed);
      }
      ran := if ends then Failed(Ending, ran)
             else if took then Wrote(row, ran)
             else Failed(if verdict.Miss? then Unsent else Refused, ran);
    }

    method NestedTransaction(inner: Work, abort: Abort) returns (outcome: Outcome, ran: Ran, end: End)
      modifies this
      ensures Scope(Now(), outcome, ran, end) == RunNested(env, inner, abort, old(Now())) && durable == old(durable)
      decreases inner, 3, 0
    {
      hide RunWork, NestedTransactions.RunSavepoint, Send;
      var savepoint := transactionDepth;
      transactionDepth := transactionDepth + 1;
      outcome, ran, end := RunSavepoint(savepoint, inner, abort);
      if outcome.Threw? {
        ObserveNestedFailure(outcome.error);
      }
      transactionDepth := transactionDepth - 1;
    }

    method RunSavepoint(savepoint: nat, inner: Work, abort: Abort) returns (outcome: Outcome, ran: Ran, end: End)
      modifies this
      ensures Scope(Now(), outcome, ran, end) == NestedTransactions.RunSavepoint(env, savepoint, inner, abort, old(Now()))
      ensures durable == old(durable)
      decreases inner, 2, 1
    {
      match env.engine
      case Sqlite => outcome, ran, end := RunSqliteSavepoint(savepoint, inner, abort);
      case MySql => outcome, ran, end := RunMysqlSavepoint(savepoint, inner, abort);
      case Postgres => outcome, ran, end := RunPostgresSavepoint(savepoint, inner, abort);
    }

    method WorkAndRelease(savepoint: nat, inner: Work, abort: Abort) returns (outcome: Outcome, ran: Ran)
      modifies this
      ensures Run(Now(), outcome, ran) == WorkThenRelease(env, savepoint, inner, abort, old(Now()))
      ensures durable == old(durable)
      decreases inner, 1, 0
    {
      outcome, ran := Work(inner);
      if outcome.Threw? {
        return;
      }
      if abort.AfterWork? {
        return Threw(Canceled), ran;
      }
      var at := sent;
      var ok := Execute(Release(savepoint), env.At(at).release);
      if !ok {
        outcome := Threw(Driver(ReleaseSavepointOp, at));
      }
    }

    method RunSqliteSavepoint(savepoint: nat, inner: Work, abort: Abort) returns (outcome: Outcome, ran: Ran, end: End)
      modifies this
      ensures Scope(Now(), outcome, ran, end) == SqliteSavepoint(env, savepoint, inner, abort, old(Now()))
      ensures durable == old(durable)
      decreases inner, 2, 0
    {
      hide Send, WorkThenRelease, RollBack, RollBackAndRelease;
      if abort.BeforeSavepoint? {
        return Threw(Canceled), Stopped, Skipped;
      }
      var at := sent;
      var ok := Execute(Establish(savepoint), env.At(at).establish);
      if !ok {
        var error := Driver(SavepointOp, at);
        if failure == None {
          failure := Some(error);
        }
        return Threw(error), Stopped, Left(error);
      }
      if abort.AfterSavepoint? {
        return Threw(Canceled), Stopped, Skipped;
      }
      outcome, ran := WorkAndRelease(savepoint, inner, abort);
      end := Kept;
      if outcome.Threw? {
        outcome, end := UndoOnly(savepoint, outcome.error, ran);
      }
    }

    method RunMysqlSavepoint(savepoint: nat, inner: Work, abort: Abort) returns (outcome: Outcome, ran: Ran, end: End)
      modifies this
      ensures Scope(Now(), outcome, ran, end) == MysqlSavepoint(env, savepoint, inner, abort, old(Now()))
      ensures durable == old(durable)
      decreases inner, 2, 0
    {
      hide Send, WorkThenRelease, RollBack, RollBackAndRelease;
      if abort.BeforeSavepoint? {
        return Threw(Canceled), Stopped, Skipped;
      }
      var at := sent;
      var ok := Execute(Establish(savepoint), env.At(at).establish);
      if !ok {
        return Threw(Driver(SavepointOp, at)), Stopped, Left(Driver(SavepointOp, at));
      }
      if abort.AfterSavepoint? {
        outcome, ran := Threw(Canceled), Stopped;
      } else {
        outcome, ran := WorkAndRelease(savepoint, inner, abort);
      }
      end := Kept;
      if outcome.Threw? {
        outcome, end := UndoOnly(savepoint, outcome.error, ran);
      }
    }

    method RunPostgresSavepoint(savepoint: nat, inner: Work, abort: Abort) returns (outcome: Outcome, ran: Ran, end: End)
      modifies this
      ensures Scope(Now(), outcome, ran, end) == PostgresSavepoint(env, savepoint, inner, abort, old(Now()))
      ensures durable == old(durable)
      decreases inner, 2, 0
    {
      hide Send, WorkThenRelease, RollBack, RollBackAndRelease;
      if abort.BeforeSavepoint? {
        return Threw(Canceled), Stopped, Skipped;
      }
      var at := sent;
      var ok := Execute(Establish(savepoint), env.At(at).establish);
      if !ok {
        return Threw(Driver(SavepointOp, at)), Stopped, Left(Driver(SavepointOp, at));
      }
      if abort.AfterSavepoint? {
        outcome, ran := Threw(Canceled), Stopped;
      } else {
        outcome, ran := WorkAndRelease(savepoint, inner, abort);
      }
      end := Kept;
      if outcome.Threw? {
        outcome, end := UndoAndDrop(savepoint, outcome.error, ran);
      }
    }

    /** The catch block of the SQLite and MySQL runners. */
    method UndoOnly(savepoint: nat, error: Error, ghost ran: Ran) returns (outcome: Outcome, end: End)
      modifies this
      ensures Scope(Now(), outcome, ran, end) == RollBack(env, savepoint, Run(old(Now()), Threw(error), ran))
      ensures durable == old(durable)
    {
      hide Send;
      var at := sent;
      var ok := Execute(RollbackTo(savepoint), env.At(at).undo);
      if !ok {
        var cleanup := Cleanup(RollbackToSavepointOp, error, at);
        return Threw(cleanup), Left(cleanup);
      }
      MarkRecovered(error);
      return Threw(error), Undone(error);
    }

    /** The catch block of the Postgres runner. */
    method UndoAndDrop(savepoint: nat, error: Error, ghost ran: Ran) returns (outcome: Outcome, end: End)
      modifies this
      ensures Scope(Now(), outcome, ran, end) == RollBackAndRelease(env, savepoint, Run(old(Now()), Threw(error), ran))
      ensures durable == old(durable)
    {
      hide Send;
      var at := sent;
      var ok := Execute(RollbackTo(savepoint), env.At(at).undo);
      if !ok {
        var cleanup := Cleanup(RollbackToSavepointOp, error, at);
        return Threw(cleanup), Left(cleanup);
      }
      at := sent;
      ok := Execute(Release(savepoint), env.At(at).drop);
      if !ok {
        var cleanup := Cleanup(ReleaseSavepointOp, error, at);
        return Threw(cleanup), Left(cleanup);
      }
      MarkRecovered(error);
      return Threw(error), Undone(error);
    }

    /** The root transaction: the depth is zero again, and a returned call has committed exactly when
        Postgres refused no statement of the root callback and MySQL ended the transaction with none.  What is
        durable after a commit is what the surviving scopes wrote, unless a recorded error was thrown again;
        without one, what was written after the transaction had ended. */
    method Transaction(plan: Plan, work: Work) returns (outcome: Outcome, ghost final: Final)
      requires transactionDepth == 0
      modifies this
      ensures final == NestedTransactions.Transaction(env, plan, work, old(durable))
      ensures outcome == final.outcome && durable == final.durable && transactionDepth == 0
      ensures Faithful(env) && final.committed ==>
        durable == Surviving(final.run.ran, old(durable)) || Betrays(final.run.ran, None, false)
      ensures !final.committed ==> durable == old(durable) + Later(final.run.ran, false)
      ensures outcome.Returned? ==>
        (final.committed <==> !(env.engine.Postgres? && TopRefused(final.run.ran)) && !Doomed(final.run.ran))
    {
      hide RunWork, Surviving, Betrays, TopRefused, Faithful, Later, Doomed;
      final := NestedTransactions.Transaction(env, plan, work, durable);
      if Faithful(env) { CommitsOnlySurvivors(env, plan, work, durable); }
      ReturnedCommitsExactly(env, plan, work, durable);
      UncommittedLeavesExactly(env, plan, work, durable);
      if plan.abort.AtStart? {
        return Threw(Canceled), final;
      }
      transactionDepth := 1;
      failure, recovered, sent, caught := None, {}, 0, [];
      server := Server(durable, [], durable, false, false);
      var started := ApplySettings(plan.settings);
      if started < |plan.settings| || !plan.begin.Accept? {
        outcome := Threw(Driver(BeginOp, 0));
      } else {
        outcome := RunRoot(plan, work);
      }
      transactionDepth := 0;
      failure, recovered := None, {};
      var restored := ResetSettings(plan.settings, started);
      if !restored {
        outcome := Threw(ResetError(outcome, sent));
      }
    }

    /** From the begin to the commit or the rollback. */
    method RunRoot(plan: Plan, work: Work) returns (outcome: Outcome)
      requires plan.begin.Accept? && Applied(plan.settings) == |plan.settings|
      requires Now() == Fresh(durable)
      modifies this
      ensures var f := Attempt(env, plan, work, old(durable));
              outcome == f.outcome && durable == f.durable && sent == f.run.state.sent
    {
      hide RunWork;
      outcome := Returned;
      if plan.abort.AfterBegin? {
        outcome := Threw(Canceled);
      } else {
        var ran;
        outcome, ran := Work(work);
        if failure.Some? {
          outcome := Threw(failure.value);
        } else if outcome.Returned? && plan.abort.BeforeCommit? {
          outcome := Threw(Canceled);
        } else if outcome.Returned? {
          if CommitTakes(env, plan.commit, server) {
            durable := server.rows;
          }
          if !plan.commit.Accept? {
            outcome := Threw(Driver(CommitOp, sent));
          }
        }
      }
      if server.ended {
        durable := server.rows;
      }
      if outcome.Threw? && !plan.rollback.Accept? {
        outcome := Threw(Cleanup(RollbackOp, outcome.error, sent));
      }
    }

    method ApplySettings(settings: seq<Setting>) returns (applied: nat)
      ensures applied == Applied(settings)
    {
      applied := 0;
      while applied < |settings| && settings[applied].applies
        invariant applied <= |settings| && applied + Applied(settings[applied..]) == Applied(settings)
      {
        assert settings[applied..][1..] == settings[applied + 1..];
        applied := applied + 1;
      }
    }

    /** In reverse order, up to the first that fails; only SQLite sets anything back. */
    method ResetSettings(settings: seq<Setting>, applied: nat) returns (ok: bool)
      requires applied <= |settings|
      ensures ok <==> !env.engine.Sqlite? || forall i :: 0 <= i < applied ==> settings[i].resets
    {
      if env.engine.Sqlite? {
        var left := applied;
        while left > 0
          invariant 0 <= left <= applied <= |settings|
          invariant forall i :: left <= i < applied ==> settings[i].resets
        {
          left := left - 1;
          if !settings[left].resets {
            return false;
          }
        }
      }
      ok := true;
    }
  }
}
