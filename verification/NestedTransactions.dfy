/** Nested `transaction()` calls over named savepoints on SQLite, MySQL and Postgres.

    The caller's work is a tree, the driver's replies an arbitrary script.  The specification runs
    the tree against the name-resolved server of `Savepoints`; its meaning is the pure one, in which
    a scope that throws restores the rows it started from and a scope that returns keeps its own. */
module NestedTransactions {
  import opened Options
  import opened Savepoints

  datatype Operation =
    BeginOp | CommitOp | RollbackOp | StatementOp | SavepointOp | ReleaseSavepointOp | RollbackToSavepointOp

  /** Errors, compared by identity in the source.  Errors made by the runner carry the index of the
      command that failed, which makes them distinct objects. */
  datatype Error =
    | App(code: nat)
    | Canceled
    | Driver(operation: Operation, at: nat)
    | Cleanup(operation: Operation, primary: Error, at: nat)

  /** When the cancellation signal of a nested call is found aborted. */
  datatype Abort = Never | BeforeSavepoint | AfterSavepoint | AfterWork

  /** What the callback of a transaction does.  A statement and a nested call each go on in one way after
      they succeeded and in another after their error was caught.  A callback ends by returning, by throwing
      an error of its own, or by throwing again an error object that any callback of this transaction caught:
      the latest, the one before it, and so on.  Throwing the latest at once lets an error through. */
  datatype Work =
    | Return
    | Throw(code: nat)
    | Rethrow(back: nat)
    | Write(row: int, next: Work, failed: Work)
    | Nest(inner: Work, abort: Abort, next: Work, failed: Work)

  const LET_THROUGH := Rethrow(0)

  /** How a nested call ended: its rows kept; its error thrown after a confirmed rollback; an error thrown
      and no rollback confirmed; or canceled before there was anything to roll back. */
  datatype End = Kept | Undone(error: Error) | Left(error: Error) | Skipped

  /** Why a statement had no effect: it never got to the server, it was refused, or with it the server ended
      the whole transaction. */
  datatype Fault = Unsent | Refused | Ending

  /** What actually ran. */
  datatype Ran =
    | Stopped
    | Wrote(row: int, rest: Ran)
    | Failed(fault: Fault, rest: Ran)
    | Scoped(inner: Ran, end: End, rest: Ran)

  /** Pure nested snapshots: the rows left by `ran` when a failed scope vanishes without a trace. */
  function Surviving(ran: Ran, rows: Rows): Rows {
    match ran
    case Stopped => rows
    case Wrote(row, rest) => Surviving(rest, rows + [row])
    case Failed(_, rest) => Surviving(rest, rows)
    case Scoped(inner, end, rest) => Surviving(rest, if end.Kept? then Surviving(inner, rows) else rows)
  }

  /** The verdicts on the command with a given index, by the kind of command found there: a statement, a
      savepoint, a release after successful work, a rollback to a savepoint, a release after it. */
  datatype Replies = Replies(write: Verdict, establish: Verdict, release: Verdict, undo: Verdict, drop: Verdict)

  const ACCEPT := Replies(Accept, Accept, Accept, Accept, Accept)

  datatype Env = Env(engine: Engine, script: seq<Replies>) {
    function At(i: nat): Replies {
      if i < |script| then script[i] else ACCEPT
    }
  }

  /** `caught` holds the errors caught so far, which any callback may still hold. */
  datatype State = State(
    server: Server, failure: Option<Error>, recovered: set<Error>, depth: nat, sent: nat, caught: seq<Error>)

  datatype Outcome = Returned | Threw(error: Error)

  datatype Run = Run(state: State, outcome: Outcome, ran: Ran)

  datatype Scope = Scope(state: State, outcome: Outcome, ran: Ran, end: End)

  // ------------------------------------------------------------------------------------------
  // The flag that decides whether the root may commit.

  predicate Compromises(error: Error) {
    error.Cleanup? || (error.Driver? && error.operation.SavepointOp?)
  }

  function MarkUnusable(s: State, error: Error): State {
    if s.failure.None? then s.(failure := Some(error)) else s
  }

  function MarkRecovered(s: State, error: Error): State {
    s.(failure := if s.failure == Some(error) then None else s.failure,
       recovered := s.recovered + {error})
  }

  function ObserveNestedFailure(s: State, error: Error): State {
    var forgotten := s.(recovered := s.recovered - {error});
    if error !in s.recovered && s.failure.None? && Compromises(error)
    then forgotten.(failure := Some(error)) else forgotten
  }

  // ------------------------------------------------------------------------------------------
  // The runners.

  function Exec(env: Env, s: State, command: Command, verdict: Verdict): (State, bool) {
    var (server, ok) := Send(env.engine, s.server, command, verdict);
    (s.(server := server, sent := s.sent + 1), ok)
  }

  function Catch(s: State, error: Error): State {
    s.(caught := s.caught + [error])
  }

  /** What a statement leaves behind, whatever was reported. */
  function Mark(before: State, after: State, row: int, verdict: Verdict, rest: Ran): Ran {
    if after.server.ended && !before.server.ended then Failed(Ending, rest)
    else if |after.server.rows| > |before.server.rows| then Wrote(row, rest)
    else Failed(if verdict.Miss? then Unsent else Refused, rest)
  }

  /** The error object a callback throws again; there may be none. */
  function Again(caught: seq<Error>, back: nat): Error {
    if back < |caught| then caught[|caught| - 1 - back] else App(back)
  }

  function RunWork(env: Env, work: Work, s: State): (r: Run)
    ensures r.state.depth == s.depth && r.state.sent >= s.sent
    decreases work, 0
  {
    match work
    case Return => Run(s, Returned, Stopped)
    case Throw(code) => Run(s, Threw(App(code)), Stopped)
    case Rethrow(back) => Run(s, Threw(Again(s.caught, back)), Stopped)
    case Write(row, next, failed) =>
      var verdict := env.At(s.sent).write;
      var (after, ok) := Exec(env, s, Insert(row), verdict);
      var r := RunWork(env, if ok then next else failed, if ok then after else Catch(after, Driver(StatementOp, s.sent)));
      r.(ran := Mark(s, after, row, verdict, r.ran))
    case Nest(inner, abort, next, failed) =>
      var n := RunNested(env, inner, abort, s);
      var r := RunWork(env, if n.outcome.Returned? then next else failed, Resume(n));
      r.(ran := Scoped(n.ran, n.end, r.ran))
  }

  /** Where the callback goes on after a nested call. */
  function Resume(n: Scope): State {
    if n.outcome.Returned? then n.state else Catch(n.state, n.outcome.error)
  }

  function RunNested(env: Env, inner: Work, abort: Abort, s: State): (n: Scope)
    ensures n.state.depth == s.depth && n.state.sent >= s.sent
    decreases inner, 3
  {
    var n := RunSavepoint(env, s.depth, inner, abort, s.(depth := s.depth + 1));
    var seen := if n.outcome.Threw? then ObserveNestedFailure(n.state, n.outcome.error) else n.state;
    n.(state := seen.(depth := seen.depth - 1))
  }

  function RunSavepoint(env: Env, name: nat, inner: Work, abort: Abort, s: State): (n: Scope)
    ensures n.state.depth == s.depth && n.state.sent >= s.sent
    decreases inner, 2, 1
  {
    match env.engine
    case Sqlite => SqliteSavepoint(env, name, inner, abort, s)
    case MySql => MysqlSavepoint(env, name, inner, abort, s)
    case Postgres => PostgresSavepoint(env, name, inner, abort, s)
  }

  /** The guarded part all three runners share: the work, then the release of its savepoint. */
  function WorkThenRelease(env: Env, name: nat, inner: Work, abort: Abort, s: State): (r: Run)
    ensures r.state.depth == s.depth && r.state.sent >= s.sent
    decreases inner, 1, 0
  {
    var r := RunWork(env, inner, s);
    if r.outcome.Threw? then r
    else if abort.AfterWork? then r.(outcome := Threw(Canceled))
    else
      var (after, ok) := Exec(env, r.state, Release(name), env.At(r.state.sent).release);
      Run(after, if ok then Returned else Threw(Driver(ReleaseSavepointOp, r.state.sent)), r.ran)
  }

  /** The try block of the MySQL and Postgres runners. */
  function TryWork(env: Env, name: nat, inner: Work, abort: Abort, s: State): (r: Run)
    ensures r.state.depth == s.depth && r.state.sent >= s.sent
    decreases inner, 1, 1
  {
    if abort.AfterSavepoint? then Run(s, Threw(Canceled), Stopped)
    else WorkThenRelease(env, name, inner, abort, s)
  }

  /** The catch block of the SQLite and MySQL runners: roll back, leave the savepoint behind. */
  function RollBack(env: Env, name: nat, r: Run): (n: Scope)
    requires r.outcome.Threw?
    ensures n.state.depth == r.state.depth && n.state.sent >= r.state.sent
  {
    var (undone, ok) := Exec(env, r.state, RollbackTo(name), env.At(r.state.sent).undo);
    var error := r.outcome.error;
    if ok then Scope(MarkRecovered(undone, error), r.outcome, r.ran, Undone(error))
    else
      var cleanup := Cleanup(RollbackToSavepointOp, error, r.state.sent);
      Scope(undone, Threw(cleanup), r.ran, Left(cleanup))
  }

  /** The catch block of the Postgres runner: roll back, then release. */
  function RollBackAndRelease(env: Env, name: nat, r: Run): (n: Scope)
    requires r.outcome.Threw?
    ensures n.state.depth == r.state.depth && n.state.sent >= r.state.sent
  {
    var (undone, ok) := Exec(env, r.state, RollbackTo(name), env.At(r.state.sent).undo);
    var error := r.outcome.error;
    if !ok then
      var cleanup := Cleanup(RollbackToSavepointOp, error, r.state.sent);
      Scope(undone, Threw(cleanup), r.ran, Left(cleanup))
    else
      var (dropped, drop) := Exec(env, undone, Release(name), env.At(undone.sent).drop);
      if drop then Scope(MarkRecovered(dropped, error), r.outcome, r.ran, Undone(error))
      else
        var cleanup := Cleanup(ReleaseSavepointOp, error, undone.sent);
        Scope(dropped, Threw(cleanup), r.ran, Left(cleanup))
  }

  function Cancel(s: State): Scope {
    Scope(s, Threw(Canceled), Stopped, Skipped)
  }

  function SqliteSavepoint(env: Env, name: nat, inner: Work, abort: Abort, s: State): (n: Scope)
    ensures n.state.depth == s.depth && n.state.sent >= s.sent
    decreases inner, 2, 0
  {
    if abort.BeforeSavepoint? then Cancel(s) else
    var (begun, ok) := Exec(env, s, Establish(name), env.At(s.sent).establish);
    if !ok then
      var error := Driver(SavepointOp, s.sent);
      Scope(MarkUnusable(begun, error), Threw(error), Stopped, Left(error))
    else if abort.AfterSavepoint? then Cancel(begun) else
    var r := WorkThenRelease(env, name, inner, abort, begun);
    if r.outcome.Returned? then Scope(r.state, Returned, r.ran, Kept) else RollBack(env, name, r)
  }

  function MysqlSavepoint(env: Env, name: nat, inner: Work, abort: Abort, s: State): (n: Scope)
    ensures n.state.depth == s.depth && n.state.sent >= s.sent
    decreases inner, 2, 0
  {
    if abort.BeforeSavepoint? then Cancel(s) else
    var (begun, ok) := Exec(env, s, Establish(name), env.At(s.sent).establish);
    var error := Driver(SavepointOp, s.sent);
    if !ok then Scope(begun, Threw(error), Stopped, Left(error)) else
    var r := TryWork(env, name, inner, abort, begun);
    if r.outcome.Returned? then Scope(r.state, Returned, r.ran, Kept) else RollBack(env, name, r)
  }

  function PostgresSavepoint(env: Env, name: nat, inner: Work, abort: Abort, s: State): (n: Scope)
    ensures n.state.depth == s.depth && n.state.sent >= s.sent
    decreases inner, 2, 0
  {
    if abort.BeforeSavepoint? then Cancel(s) else
    var (begun, ok) := Exec(env, s, Establish(name), env.At(s.sent).establish);
    var error := Driver(SavepointOp, s.sent);
    if !ok then Scope(begun, Threw(error), Stopped, Left(error)) else
    var r := TryWork(env, name, inner, abort, begun);
    if r.outcome.Returned? then Scope(r.state, Returned, r.ran, Kept) else RollBackAndRelease(env, name, r)
  }

  // ------------------------------------------------------------------------------------------
  // The ways a nested call can go, one engine like the other.

  function Undo(env: Env, name: nat, r: Run): (n: Scope)
    requires r.outcome.Threw?
    ensures n.state.depth == r.state.depth && n.state.sent >= r.state.sent
  {
    if env.engine.Postgres? then RollBackAndRelease(env, name, r) else RollBack(env, name, r)
  }

  /** Canceled early, no savepoint, canceled with an unused savepoint (SQLite only) or rolled back for it (the
      others), kept, or rolled back; `g` is the guarded part. */
  function Goes(env: Env, name: nat, s: State, abort: Abort, begun: State, ok: bool, g: Run): Scope {
    var error := Driver(SavepointOp, s.sent);
    if abort.BeforeSavepoint? then Cancel(s)
    else if !ok then
      Scope(if env.engine.Sqlite? then MarkUnusable(begun, error) else begun, Threw(error), Stopped, Left(error))
    else if abort.AfterSavepoint? then
      if env.engine.Sqlite? then Cancel(begun) else Undo(env, name, Run(begun, Threw(Canceled), Stopped))
    else if g.outcome.Returned? then Scope(g.state, Returned, g.ran, Kept)
    else Undo(env, name, g)
  }

  lemma TryGoes(env: Env, name: nat, inner: Work, abort: Abort, begun: State)
    ensures TryWork(env, name, inner, abort, begun)
            == if abort.AfterSavepoint? then Run(begun, Threw(Canceled), Stopped)
               else WorkThenRelease(env, name, inner, abort, begun)
  {
  }

  lemma SqliteGoes(env: Env, name: nat, inner: Work, abort: Abort, s: State)
    requires env.engine.Sqlite?
    ensures var (begun, ok) := Exec(env, s, Establish(name), env.At(s.sent).establish);
            SqliteSavepoint(env, name, inner, abort, s)
            == Goes(env, name, s, abort, begun, ok, WorkThenRelease(env, name, inner, abort, begun))
  {
    hide Send, WorkThenRelease, RollBack, RollBackAndRelease, TryWork;
    TryGoes(env, name, inner, abort, Exec(env, s, Establish(name), env.At(s.sent).establish).0);
  }

  lemma MysqlGoes(env: Env, name: nat, inner: Work, abort: Abort, s: State)
    requires env.engine.MySql?
    ensures var (begun, ok) := Exec(env, s, Establish(name), env.At(s.sent).establish);
            MysqlSavepoint(env, name, inner, abort, s)
            == Goes(env, name, s, abort, begun, ok, WorkThenRelease(env, name, inner, abort, begun))
  {
    hide Send, WorkThenRelease, RollBack, RollBackAndRelease, TryWork;
    TryGoes(env, name, inner, abort, Exec(env, s, Establish(name), env.At(s.sent).establish).0);
  }

  lemma PostgresGoes(env: Env, name: nat, inner: Work, abort: Abort, s: State)
    requires env.engine.Postgres?
    ensures var (begun, ok) := Exec(env, s, Establish(name), env.At(s.sent).establish);
            PostgresSavepoint(env, name, inner, abort, s)
            == Goes(env, name, s, abort, begun, ok, WorkThenRelease(env, name, inner, abort, begun))
  {
    hide Send, WorkThenRelease, RollBack, RollBackAndRelease, TryWork;
    TryGoes(env, name, inner, abort, Exec(env, s, Establish(name), env.At(s.sent).establish).0);
  }

  lemma SavepointGoes(env: Env, name: nat, inner: Work, abort: Abort, s: State)
    ensures var (begun, ok) := Exec(env, s, Establish(name), env.At(s.sent).establish);
            RunSavepoint(env, name, inner, abort, s)
            == Goes(env, name, s, abort, begun, ok, WorkThenRelease(env, name, inner, abort, begun))
  {
    hide Goes, SqliteSavepoint, MysqlSavepoint, PostgresSavepoint;
    match env.engine
    case Sqlite => SqliteGoes(env, name, inner, abort, s);
    case MySql => MysqlGoes(env, name, inner, abort, s);
    case Postgres => PostgresGoes(env, name, inner, abort, s);
  }

  // ------------------------------------------------------------------------------------------
  // The root transaction.

  datatype RootAbort = NoAbort | AtStart | AfterBegin | BeforeCommit

  /** A command before the begin, such as a pragma: whether it succeeds, and whether on SQLite the command
      that sets it back afterwards does. */
  datatype Setting = Setting(applies: bool, resets: bool)

  datatype Plan = Plan(abort: RootAbort, settings: seq<Setting>, begin: Verdict, commit: Verdict, rollback: Verdict)

  const SMOOTH := Plan(NoAbort, [], Accept, Accept, Accept)

  /** `committed` says whether the server made the transaction's rows durable. */
  datatype Final = Final(durable: Rows, committed: bool, outcome: Outcome, run: Run)

  function Fresh(durable: Rows): State {
    State(Server(durable, [], durable, false, false), None, {}, 1, 0, [])
  }

  /** How many settings are in force when the first one fails, or all are. */
  function Applied(settings: seq<Setting>): (n: nat)
    ensures n <= |settings| && (forall i :: 0 <= i < n ==> settings[i].applies)
    ensures n < |settings| ==> !settings[n].applies
  {
    if settings == [] || !settings[0].applies then 0 else 1 + Applied(settings[1..])
  }

  predicate ResetFails(env: Env, plan: Plan) {
    env.engine.Sqlite? && exists i :: 0 <= i < Applied(plan.settings) && !plan.settings[i].resets
  }

  function RollBackRoot(plan: Plan, durable: Rows, committed: bool, error: Error, run: Run): Final {
    var at := run.state.sent;
    Final(durable, committed, Threw(if plan.rollback.Accept? then error else Cleanup(RollbackOp, error, at)), run)
  }

  /** Whether a commit makes the rows durable.  Postgres answers the commit of an aborted transaction with
      success, and rolls it back; and MySQL answers one that has nothing to commit any more. */
  predicate CommitTakes(env: Env, verdict: Verdict, server: Server) {
    (verdict.Accept? || verdict.Lose?) && !(env.engine.Postgres? && server.aborted) && !server.ended
  }

  /** What is durable without a commit. */
  function Uncommitted(server: Server, durable: Rows): Rows {
    if server.ended then server.rows else durable
  }

  /** From the first setting to the commit or the rollback, with the check `runRootWork` makes between. */
  function Attempt(env: Env, plan: Plan, work: Work, durable: Rows): Final {
    var idle := Run(Fresh(durable), Returned, Stopped);
    if Applied(plan.settings) < |plan.settings| || !plan.begin.Accept? then
      Final(durable, false, Threw(Driver(BeginOp, 0)), idle)
    else if plan.abort.AfterBegin? then RollBackRoot(plan, durable, false, Canceled, idle)
    else
      var r := RunWork(env, work, Fresh(durable));
      var kept := Uncommitted(r.state.server, durable);
      if r.state.failure.Some? then RollBackRoot(plan, kept, false, r.state.failure.value, r)
      else if r.outcome.Threw? then RollBackRoot(plan, kept, false, r.outcome.error, r)
      else if plan.abort.BeforeCommit? then RollBackRoot(plan, kept, false, Canceled, r)
      else
        var committed := CommitTakes(env, plan.commit, r.state.server);
        var after := if committed then r.state.server.rows else kept;
        if plan.commit.Accept? then Final(after, committed, Returned, r)
        else RollBackRoot(plan, after, committed, Driver(CommitOp, r.state.sent), r)
  }

  /** The error raised when setting back fails. */
  function ResetError(outcome: Outcome, at: nat): Error {
    if outcome.Threw? then Cleanup(RollbackOp, outcome.error, at) else Driver(RollbackOp, at)
  }

  /** `transaction()` at depth zero. */
  function Transaction(env: Env, plan: Plan, work: Work, durable: Rows): Final {
    if plan.abort.AtStart? then Final(durable, false, Threw(Canceled), Run(Fresh(durable), Returned, Stopped))
    else
      var f := Attempt(env, plan, work, durable);
      if ResetFails(env, plan) then f.(outcome := Threw(ResetError(f.outcome, f.run.state.sent))) else f
  }
}
