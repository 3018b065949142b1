/** Which error a call raises: the root from the plan and the record of its run, a nested call from its work
    and the replies to its commands. */
module RaisedErrors {
  import opened Options
  import opened Savepoints
  import opened NestedTransactions
  import opened FailureRecord
  import opened SavedRows
  import opened CleanRuns

  // ------------------------------------------------------------------------------------------
  // The root.

  /** The settings and the begin succeed, and nothing is canceled before them. */
  predicate IsOpened(plan: Plan) {
    !plan.abort.AtStart? && (forall i :: 0 <= i < |plan.settings| ==> plan.settings[i].applies) && plan.begin.Accept?
  }

  /** The error is `inner` after a rollback that was accepted, and else a cleanup error of the rollback that
      wraps it. */
  predicate RolledBack(plan: Plan, error: Error, inner: Error) {
    if plan.rollback.Accept? then error == inner
    else error.Cleanup? && error.operation.RollbackOp? && error.primary == inner
  }

  /** A SQLite setting that was made cannot be set back. */
  predicate StaysSet(env: Env, plan: Plan) {
    env.engine.Sqlite? &&
      exists i :: 0 <= i < |plan.settings| && !plan.settings[i].resets && forall j :: 0 <= j <= i ==> plan.settings[j].applies
  }

  lemma {:induction false} AppliedPrefix(settings: seq<Setting>, i: nat)
    requires i < |settings|
    ensures i < Applied(settings) <==> forall j :: 0 <= j <= i ==> settings[j].applies
  {
    var n := Applied(settings);
  }

  lemma ResetFailsExactly(env: Env, plan: Plan)
    ensures ResetFails(env, plan) <==> StaysSet(env, plan)
  {
    var settings := plan.settings;
    if env.engine.Sqlite? {
      if i :| 0 <= i < Applied(settings) && !settings[i].resets { AppliedPrefix(settings, i); }
      if i :| 0 <= i < |settings| && !settings[i].resets && forall j :: 0 <= j <= i ==> settings[j].applies {
        AppliedPrefix(settings, i);
      }
    }
  }

  lemma {:induction false} AppliedAll(settings: seq<Setting>)
    ensures Applied(settings) == |settings| <==> forall i :: 0 <= i < |settings| ==> settings[i].applies
  {
    var n := Applied(settings);
  }

  /** An opened root runs its work, unless it is canceled after the begin.  It returns exactly if there is no
      failure on record, the work returned, nothing was canceled and the commit was acknowledged; otherwise it
      raises, in this order, the failure on record, what the work threw, the cancellation, or the failure of the
      commit, wrapped if the rollback failed. */
  lemma OpenedRaisesExactly(env: Env, plan: Plan, work: Work, durable: Rows)
    requires IsOpened(plan) && !StaysSet(env, plan)
    ensures var f := Transaction(env, plan, work, durable);
            var r := RunWork(env, work, Fresh(durable));
            var record := Flag(r.ran, None);
            && (plan.abort.AfterBegin? ==> f.outcome.Threw? && RolledBack(plan, f.outcome.error, Canceled)
                                           && f.run.ran == Stopped && f.run.state.sent == 0)
            && (!plan.abort.AfterBegin? ==>
                  && f.run == r
                  && (f.outcome.Returned? <==>
                        record.None? && r.outcome.Returned? && !plan.abort.BeforeCommit? && plan.commit.Accept?)
                  && (record.Some? ==> RolledBack(plan, f.outcome.error, record.value))
                  && (record.None? && r.outcome.Threw? ==> RolledBack(plan, f.outcome.error, r.outcome.error))
                  && (record.None? && r.outcome.Returned? && plan.abort.BeforeCommit? ==>
                        RolledBack(plan, f.outcome.error, Canceled))
                  && (record.None? && r.outcome.Returned? && !plan.abort.BeforeCommit? && !plan.commit.Accept? ==>
                        RolledBack(plan, f.outcome.error, Driver(CommitOp, r.state.sent))))
  {
    hide RunWork;
    ResetFailsExactly(env, plan);
    AppliedAll(plan.settings);
    FlagIsFold(env, work, Fresh(durable));
  }

  /** A root that is not opened runs nothing, and changes nothing: it is canceled, or its begin or a setting
      before it fails, and then nothing is rolled back. */
  lemma UnopenedRaises(env: Env, plan: Plan, work: Work, durable: Rows)
    requires !IsOpened(plan) && !StaysSet(env, plan)
    ensures var f := Transaction(env, plan, work, durable);
            && f.outcome == Threw(if plan.abort.AtStart? then Canceled else Driver(BeginOp, 0))
            && f.run.ran == Stopped && f.run.state.sent == 0 && !f.committed && f.durable == durable
  {
    ResetFailsExactly(env, plan);
    AppliedAll(plan.settings);
  }

  /** With the same plan but working resets. */
  function Reset(plan: Plan): Plan {
    plan.(settings := seq(|plan.settings|, i requires 0 <= i < |plan.settings| => plan.settings[i].(resets := true)))
  }

  lemma {:induction false} ResetApplies(settings: seq<Setting>, others: seq<Setting>)
    requires |settings| == |others| && forall i :: 0 <= i < |settings| ==> settings[i].applies == others[i].applies
    ensures Applied(settings) == Applied(others)
  {
    if settings != [] && settings[0].applies { ResetApplies(settings[1..], others[1..]); }
  }

  /** A setting that cannot be set back: the error of the call is wrapped by a cleanup error of the rollback,
      and a call that had none raises the plain error; all else is as if it had been set back. */
  lemma ResetRaises(env: Env, plan: Plan, work: Work, durable: Rows)
    requires StaysSet(env, plan) && !plan.abort.AtStart?
    ensures var f, g := Transaction(env, plan, work, durable), Transaction(env, Reset(plan), work, durable);
            && f.durable == g.durable && f.committed == g.committed && f.run == g.run && f.outcome.Threw?
            && (g.outcome.Threw? ==>
                  f.outcome.error.Cleanup? && f.outcome.error.operation.RollbackOp?
                  && f.outcome.error.primary == g.outcome.error)
            && (g.outcome.Returned? ==> f.outcome.error == Driver(RollbackOp, g.run.state.sent))
  {
    hide RunWork;
    ResetFailsExactly(env, plan);
    ResetApplies(plan.settings, Reset(plan).settings);
    assert !ResetFails(env, Reset(plan));
  }

  // ------------------------------------------------------------------------------------------
  // A nested call.

  /** The work of a nested call as it runs: after its savepoint, one level deeper. */
  function Inside(env: Env, inner: Work, s: State): Run {
    RunWork(env, inner, Exec(env, s.(depth := s.depth + 1), Establish(s.depth), env.At(s.sent).establish).0)
  }

  predicate Entered(env: Env, s: State) {
    Exec(env, s.(depth := s.depth + 1), Establish(s.depth), env.At(s.sent).establish).1
  }

  /** `error`, thrown after a confirmed rollback, or wrapped with the command that failed, which was the last one
      sent: the rollback, or after it on Postgres the release.  `from` commands were sent before. */
  predicate ThrownOrWrapped(env: Env, n: Scope, error: Error, from: nat) {
    if n.end.Undone? then
      n.end.error == error && n.outcome == Threw(error)
      && n.state.sent == from + if env.engine.Postgres? then 2 else 1
    else
      && n.end.Left? && n.outcome == Threw(n.end.error)
      && n.end.error.Cleanup? && n.end.error.primary == error && n.state.sent == n.end.error.at + 1
      && ((n.end.error.operation.RollbackToSavepointOp? && n.end.error.at == from)
          || (env.engine.Postgres? && n.end.error.operation.ReleaseSavepointOp? && n.end.error.at == from + 1))
  }

  lemma UndoneRaises(env: Env, name: nat, r: Run)
    requires r.outcome.Threw?
    ensures ThrownOrWrapped(env, Undo(env, name, r), r.outcome.error, r.state.sent) && Undo(env, name, r).ran == r.ran
  {
    hide Send;
  }

  /** A nested call raises the cancellation, the failure of its savepoint, or what ended it: the error of its
      work, a cancellation after it, or the failure of its release.  It returns only if its work did. */
  lemma {:induction false} NestedRaisesExactly(env: Env, inner: Work, abort: Abort, s: State)
    ensures var n, w := RunNested(env, inner, abort, s), Inside(env, inner, s);
            && (n.outcome.Returned? <==> n.end.Kept?)
            && (abort.BeforeSavepoint? ==>
                  n.outcome == Threw(Canceled) && n.end.Skipped? && n.ran == Stopped
                  && n.state.server == s.server && n.state.sent == s.sent)
            && (!abort.BeforeSavepoint? && !Entered(env, s) ==>
                  n.outcome == Threw(Driver(SavepointOp, s.sent)) && n.end == Left(n.outcome.error) && n.ran == Stopped)
            && (Entered(env, s) && abort.AfterSavepoint? ==>
                  n.ran == Stopped
                  && if env.engine.Sqlite? then n.outcome == Threw(Canceled) && n.end.Skipped?
                     else ThrownOrWrapped(env, n, Canceled, s.sent + 1))
            && (Entered(env, s) && RunsWork(abort) ==>
                  && n.ran == w.ran
                  && (w.outcome.Threw? ==> ThrownOrWrapped(env, n, w.outcome.error, w.state.sent))
                  && (w.outcome.Returned? && abort.AfterWork? ==> ThrownOrWrapped(env, n, Canceled, w.state.sent))
                  && (w.outcome.Returned? && abort.Never? ==>
                        n.end.Kept?
                        || ThrownOrWrapped(env, n, Driver(ReleaseSavepointOp, w.state.sent), w.state.sent + 1)))
  {
    hide Send, RunWork, RunSavepoint, Undo;
    var name, entered := s.depth, s.(depth := s.depth + 1);
    var begun := Exec(env, entered, Establish(name), env.At(s.sent).establish).0;
    SavepointGoes(env, name, inner, abort, entered);
    var g := WorkThenRelease(env, name, inner, abort, begun);
    if g.outcome.Threw? { UndoneRaises(env, name, g); }
    UndoneRaises(env, name, Run(begun, Threw(Canceled), Stopped));
  }

  // ------------------------------------------------------------------------------------------
  // Errors that are let through.

  /** A callback that lets the error of a statement or of a nested call through ends with that very error. */
  lemma {:induction false} LetThroughEnds(env: Env, row: int, inner: Work, abort: Abort, next: Work, s: State)
    ensures var n, r := RunNested(env, inner, abort, s), RunWork(env, Nest(inner, abort, next, LET_THROUGH), s);
            n.outcome.Threw? ==> r.outcome == n.outcome && r.state.server == n.state.server
    ensures var (after, ok) := Exec(env, s, Insert(row), env.At(s.sent).write);
            var r := RunWork(env, Write(row, next, LET_THROUGH), s);
            !ok ==> r.outcome == Threw(Driver(StatementOp, s.sent)) && r.state.server == after.server
  {
    hide RunNested, Send;
    var n := RunNested(env, inner, abort, s);
    if n.outcome.Threw? { LatestEnds(env, n.state, n.outcome.error); }
    var after := Exec(env, s, Insert(row), env.At(s.sent).write).0;
    LatestEnds(env, after, Driver(StatementOp, s.sent));
  }

  lemma LatestEnds(env: Env, s: State, error: Error)
    ensures var r := RunWork(env, LET_THROUGH, Catch(s, error)); r.outcome == Threw(error) && r.state.server == s.server
  {
  }
}
