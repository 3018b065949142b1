/** Who owns a pooled connection: sessions, transactions and streams over one shared slot.

    The callbacks are a tree of calls.  Root transactions run and fail as `CommitOutcome` says, streams as
    `PostgresStream` says; what is followed here is where each connection goes.  A tree may mix the calls of
    the two providers, which only makes the claims wider. */
module PooledConnection {
  import opened Options
  import CommitOutcome
  import PostgresStream

  type Error = CommitOutcome.Error

  /** How a nested transaction goes besides its work: its savepoint is refused, or it ends as its work does,
      or with an error of its own. */
  datatype Nesting = Refused(error: Error) | AsWork | Instead(error: Error)

  /** How a MySQL stream ends: read to its end, left by its consumer, or with an error. */
  datatype Ending = Completed | LeftEarly | Failed(error: Error)

  datatype Call =
    | Session(work: Work, connects: bool, aborted: bool)
    | Transaction(
        work: Work, connects: bool, provider: CommitOutcome.Provider, script: CommitOutcome.Script,
        spoiled: Option<Error>, nesting: Nesting)
    | StreamPostgres(
        rows: seq<int>, batch: int, abortedBefore: bool, connect: PostgresStream.Turn, turns: PostgresStream.Script)
    | StreamMysql(connects: bool, ending: Ending)

  /** What a callback does: calls whose errors it swallows or lets through, then it returns, or throws any
      error there is. */
  datatype Work = Return | Throw(error: Error) | Then(call: Call, swallow: bool, rest: Work)

  datatype Event =
    | Acquired(connection: nat)
    | Unsafe(connection: nat)
    | Released(connection: nat)
    | Destroyed(connection: nat)

  /** `gone`: the active client was released already.  `unknown`: the outcome error that makes the connection
      unusable.  `acquired` counts the connections acquired so far, `log` is what happened to them. */
  datatype State = State(
    active: Option<nat>, gone: bool, depth: nat, unknown: Option<Error>, acquired: nat, log: seq<Event>)

  const IDLE := State(None, false, 0, None, 0, [])

  /** The plain errors of a client released twice, and of one that cannot be had. */
  const RELEASED_TWICE := CommitOutcome.App(0)

  const NOT_CONNECTED := CommitOutcome.ProviderError(CommitOutcome.OtherOperation, None)

  function Enter(s: State): State
    requires s.active.None?
  {
    s.(active := Some(s.acquired), gone := false, acquired := s.acquired + 1, log := s.log + [Acquired(s.acquired)])
  }

  /** Giving the connection up; a client that is gone cannot be released again. */
  function Leave(s: State, connection: nat, intact: bool): State {
    s.(active := None, gone := false,
       log := if s.gone then s.log else s.log + [if intact then Released(connection) else Destroyed(connection)])
  }

  function FindUnknown(error: Error): Option<Error> {
    match error
    case OutcomeUnknown(_) => Some(error)
    case Cleanup(primary, _, _) => FindUnknown(primary)
    case _ => None
  }

  /** Whether a failed root transaction leaves a connection that must not be used again. */
  predicate FailsUnsafely(error: Error) {
    || FindUnknown(error).Some?
    || (error.Cleanup? && error.operation.Rollback?)
    || (error.ProviderError? && error.operation.Begin?)
  }

  /** Whether the runner calls the work: not when it is canceled or refused before. */
  predicate Begins(provider: CommitOutcome.Provider, script: CommitOutcome.Script) {
    && !script.abortedAtStart && script.begin.Done? && !script.abortedAfterBegin
    && (provider.MySql? && script.isolation.Some? ==> script.isolation.value.Done? && !script.abortedAfterIsolation)
  }

  /** A client that is gone rejects the begin. */
  function Reaching(s: State, script: CommitOutcome.Script): CommitOutcome.Script {
    if s.gone then script.(begin := CommitOutcome.Rejected(None)) else script
  }

  /** The failure recorded against the root, if there is one, replaces the end of its work. */
  function WorkError(spoiled: Option<Error>, thrown: Option<Error>): Option<Error> {
    if spoiled.Some? then spoiled else thrown
  }

  function StreamConfig(call: Call, s: State): PostgresStream.Config
    requires call.StreamPostgres?
  {
    PostgresStream.Config(call.rows, call.batch, s.active.Some?, s.gone, s.depth > 0, call.abortedBefore, call.connect)
  }

  function StreamError(outcome: PostgresStream.Outcome): Option<Error> {
    match outcome
    case Finished => None
    case LeftEarly => None
    case Cancellation => Some(CommitOutcome.Canceled)
    case BadBatch => Some(CommitOutcome.App(1))
    case NotConnected(_) => Some(NOT_CONNECTED)
    case ProviderError(_) => Some(CommitOutcome.ProviderError(CommitOutcome.OtherOperation, None))
    case CleanupError(primary, _) =>
      Some(CommitOutcome.Cleanup(
        if primary.Canceled? then CommitOutcome.Canceled else CommitOutcome.App(2), CommitOutcome.OtherOperation, None))
  }

  /** The releases in a stream's log, as events of its connection. */
  function Fates(log: seq<PostgresStream.Event>, connection: nat): seq<Event> {
    if log == [] then []
    else
      var event := log[|log| - 1];
      Fates(log[..|log| - 1], connection)
      + if !event.Release? then [] else [if event.destroy then Destroyed(connection) else Released(connection)]
  }

  function RunWork(work: Work, s: State): (State, Option<Error>)
    decreases work, 0
  {
    match work
    case Return => (s, None)
    case Throw(error) => (s, Some(error))
    case Then(call, swallow, rest) =>
      var (t, error) := RunCall(call, s);
      if error.None? || swallow then RunWork(rest, t) else (t, error)
  }

  function RunCall(call: Call, s: State): (State, Option<Error>)
    decreases call, 0
  {
    if s.unknown.Some? then (s, s.unknown)
    else match call
      case Session(work, connects, aborted) => RunSession(work, connects, aborted, s)
      case Transaction(work, connects, provider, script, spoiled, nesting) =>
        if s.depth > 0 then RunNested(work, nesting, s)
        else RunRoot(work, connects, provider, script, spoiled, s)
      case StreamPostgres(_, _, _, _, turns) => StreamRows(call, s)
      case StreamMysql(connects, ending) =>
        var error := if ending.Failed? then Some(ending.error) else None;
        if s.active.Some? then (s, error)
        else if !connects then (s, Some(NOT_CONNECTED))
        else (Leave(Enter(s), s.acquired, ending.Completed?), error)
  }

  function RunSession(work: Work, connects: bool, aborted: bool, s: State): (State, Option<Error>)
    decreases work, 1
  {
    if s.active.Some? then if aborted then (s, Some(CommitOutcome.Canceled)) else RunWork(work, s)
    else if !connects then (s, Some(NOT_CONNECTED))
    else
      var (t, error) := if aborted then (Enter(s), Some(CommitOutcome.Canceled)) else RunWork(work, Enter(s));
      (Leave(t, s.acquired, error.None?), if t.gone then Some(RELEASED_TWICE) else error)
  }

  function RunNested(work: Work, nesting: Nesting, s: State): (State, Option<Error>)
    decreases work, 1
  {
    if s.active.None? then RunWork(work, s)
    else if nesting.Refused? then (s, Some(nesting.error))
    else
      var (t, error) := RunWork(work, s.(depth := s.depth + 1));
      (t.(depth := if t.depth > 0 then t.depth - 1 else 0), if nesting.Instead? then Some(nesting.error) else error)
  }

  function RunRoot(
    work: Work, connects: bool, provider: CommitOutcome.Provider, script: CommitOutcome.Script,
    spoiled: Option<Error>, s: State): (State, Option<Error>)
    decreases work, 1
  {
    if s.active.None? && !connects then (s, Some(NOT_CONNECTED))
    else
      var entered := (if s.active.None? then Enter(s) else s).(depth := 1);
      var reaching := Reaching(s, script);
      var (t, thrown) := if Begins(provider, reaching) then RunWork(work, entered) else (entered, None);
      var error := CommitOutcome.Run(provider, reaching.(work := WorkError(spoiled, thrown))).error;
      (RootEnds(t, entered.active.value, s.active.None?, error), error)
  }

  function RootEnds(t: State, connection: nat, owns: bool, error: Option<Error>): State {
    var bad := error.Some? && FailsUnsafely(error.value);
    var ended := t.(depth := 0, unknown := if error.Some? then FindUnknown(error.value) else t.unknown,
                    log := if bad then t.log + [Unsafe(connection)] else t.log);
    if owns then Leave(ended, connection, !bad) else ended
  }

  function StreamRows(call: Call, s: State): (State, Option<Error>)
    requires call.StreamPostgres?
  {
    var r := PostgresStream.Stream(StreamConfig(call, s), call.turns);
    var error := StreamError(r.outcome);
    if s.active.Some? then
      (s.(gone := s.gone || PostgresStream.Releases(r.state.log) > 0,
          log := s.log + Fates(r.state.log, s.active.value)), error)
    else if !r.acquired then (s, error)
    else
      (s.(acquired := s.acquired + 1, log := s.log + [Acquired(s.acquired)] + Fates(r.state.log, s.acquired)), error)
  }

  // ------------------------------------------------------------------------------------------
  // What the log shows of one connection.

  function Got(log: seq<Event>, c: nat): nat {
    if log == [] then 0 else Got(log[..|log| - 1], c) + if log[|log| - 1] == Acquired(c) then 1 else 0
  }

  function Gone(log: seq<Event>, c: nat): nat {
    if log == [] then 0
    else Gone(log[..|log| - 1], c) + if log[|log| - 1] == Released(c) || log[|log| - 1] == Destroyed(c) then 1 else 0
  }

  lemma Appended(log: seq<Event>, e: Event, c: nat)
    ensures Got(log + [e], c) == Got(log, c) + if e == Acquired(c) then 1 else 0
    ensures Gone(log + [e], c) == Gone(log, c) + if e == Released(c) || e == Destroyed(c) then 1 else 0
  {
    assert (log + [e])[..|log|] == log;
  }

  /** A stream's log adds as many departures as it has releases. */
  lemma {:induction false} AppendedFates(log: seq<Event>, stream: seq<PostgresStream.Event>, connection: nat, c: nat)
    ensures var after := log + Fates(stream, connection);
            && Got(after, c) == Got(log, c)
            && Gone(after, c) == Gone(log, c) + if c == connection then PostgresStream.Releases(stream) else 0
    ensures forall k :: Unsafe(k) in log + Fates(stream, connection) <==> Unsafe(k) in log
  {
    if stream == [] {
      assert log + Fates(stream, connection) == log;
    } else {
      var before, event := stream[..|stream| - 1], stream[|stream| - 1];
      AppendedFates(log, before, connection, c);
      if !event.Release? {
        assert Fates(stream, connection) == Fates(before, connection);
      } else {
        var fate := if event.destroy then Destroyed(connection) else Released(connection);
        Appended(log + Fates(before, connection), fate, c);
        assert log + Fates(stream, connection) == log + Fates(before, connection) + [fate];
      }
    }
  }

  /** Every connection acquired is in the log once, and has left once unless it is the active one and was not
      released early. */
  ghost predicate Owned(s: State) {
    && (s.active.Some? ==> s.active.value < s.acquired)
    && (s.depth > 0 || s.gone ==> s.active.Some?)
    && (forall c: nat :: Unsafe(c) in s.log ==> c < s.acquired)
    && forall c: nat ::
         && Got(s.log, c) == (if c < s.acquired then 1 else 0)
         && Gone(s.log, c) == (if c < s.acquired && (s.active != Some(c) || s.gone) then 1 else 0)
  }

  lemma EnterOwned(s: State)
    requires Owned(s) && s.active.None?
    ensures Owned(Enter(s))
  {
    forall c: nat { Appended(s.log, Acquired(s.acquired), c); }
  }

  lemma LeaveOwned(s: State, connection: nat, intact: bool)
    requires Owned(s.(depth := 0)) && s.active == Some(connection) && s.depth == 0
    ensures Owned(Leave(s, connection, intact))
  {
    forall c: nat { Appended(s.log, if intact then Released(connection) else Destroyed(connection), c); }
  }

  lemma UnsafeOwned(s: State, connection: nat)
    requires Owned(s) && connection < s.acquired
    ensures Owned(s.(log := s.log + [Unsafe(connection)]))
  {
    forall c: nat { Appended(s.log, Unsafe(connection), c); }
  }

  /** Back where it was: same slot, same depth. */
  ghost predicate Restored(s: State, t: State) {
    && t.active == s.active && t.depth == s.depth && Owned(t)
    && (s.gone ==> t.gone) && (s.depth > 0 ==> t.gone == s.gone)
  }

  lemma {:induction false} WorkRestores(work: Work, s: State)
    requires Owned(s)
    ensures Restored(s, RunWork(work, s).0)
    decreases work, 0
  {
    hide Owned;
    if work.Then? {
      CallRestores(work.call, s);
      var (t, error) := RunCall(work.call, s);
      if error.None? || work.swallow { WorkRestores(work.rest, t); }
    }
  }

  /** Whatever a call does and however it ends, the slot and the depth are what they were, and every
      connection acquired on the way is gone exactly once. */
  lemma {:induction false} CallRestores(call: Call, s: State)
    requires Owned(s)
    ensures Restored(s, RunCall(call, s).0)
    decreases call, 0
  {
    hide RunSession, RunNested, RunRoot, StreamRows, Owned;
    if s.unknown.None? {
      match call {
        case Session(work, connects, aborted) => SessionRestores(work, connects, aborted, s);
        case Transaction(work, connects, provider, script, spoiled, nesting) =>
          if s.depth > 0 { NestedRestores(work, nesting, s); }
          else { RootRestores(work, connects, provider, script, spoiled, s); }
        case StreamPostgres(_, _, _, _, _) => StreamRestores(call, s);
        case StreamMysql(connects, ending) =>
          if s.active.None? {
            IdleMeans(s);
            EnterOwned(s);
            LeaveOwned(Enter(s), s.acquired, ending.Completed?);
          }
      }
    }
  }

  lemma IdleMeans(s: State)
    requires Owned(s)
    ensures s.active.None? ==> s.depth == 0 && !s.gone
  {
  }

  lemma {:induction false} SessionRestores(work: Work, connects: bool, aborted: bool, s: State)
    requires Owned(s)
    ensures Restored(s, RunSession(work, connects, aborted, s).0)
    decreases work, 1
  {
    hide RunWork, Owned;
    IdleMeans(s);
    if s.active.Some? { WorkRestores(work, s); }
    else if connects {
      EnterOwned(s);
      WorkRestores(work, Enter(s));
      var t := if aborted then Enter(s) else RunWork(work, Enter(s)).0;
      var error := if aborted then Some(CommitOutcome.Canceled) else RunWork(work, Enter(s)).1;
      LeaveOwned(t, s.acquired, error.None?);
    }
  }

  lemma {:induction false} NestedRestores(work: Work, nesting: Nesting, s: State)
    requires Owned(s) && s.depth > 0
    ensures Restored(s, RunNested(work, nesting, s).0)
    decreases work, 1
  {
    hide RunWork;
    var deeper := s.(depth := s.depth + 1);
    assert Owned(deeper);
    WorkRestores(work, deeper);
  }

  lemma {:induction false} RootRestores(
    work: Work, connects: bool, provider: CommitOutcome.Provider, script: CommitOutcome.Script,
    spoiled: Option<Error>, s: State)
    requires Owned(s) && s.depth == 0
    ensures Restored(s, RunRoot(work, connects, provider, script, spoiled, s).0)
    decreases work, 1
  {
    hide RunWork, CommitOutcome.Run, Owned, FailsUnsafely, FindUnknown;
    if s.active.Some? || connects {
      IdleMeans(s);
      if s.active.None? { EnterOwned(s); }
      var entered := (if s.active.None? then Enter(s) else s).(depth := 1);
      Deeper(if s.active.None? then Enter(s) else s);
      WorkRestores(work, entered);
      var reaching := Reaching(s, script);
      var (t, thrown) := if Begins(provider, reaching) then RunWork(work, entered) else (entered, None);
      var error := CommitOutcome.Run(provider, reaching.(work := WorkError(spoiled, thrown))).error;
      EndOwned(t, entered.active.value, s.active.None?, error);
    }
  }

  lemma Deeper(s: State)
    requires Owned(s) && s.active.Some?
    ensures Owned(s.(depth := 1))
  {
  }

  lemma EndOwned(t: State, connection: nat, owns: bool, error: Option<Error>)
    requires Owned(t) && t.active == Some(connection)
    ensures var u := RootEnds(t, connection, owns, error);
            && Owned(u) && u.depth == 0
            && (if owns then u.active.None? && !u.gone else u.active == t.active && u.gone == t.gone)
  {
    hide FailsUnsafely, FindUnknown;
    var bad := error.Some? && FailsUnsafely(error.value);
    UnsafeOwned(t, connection);
    var ended := t.(depth := 0, unknown := if error.Some? then FindUnknown(error.value) else t.unknown,
                    log := if bad then t.log + [Unsafe(connection)] else t.log);
    assert Owned(ended);
    if owns { LeaveOwned(ended, connection, !bad); }
  }

  lemma StreamRestores(call: Call, s: State)
    requires call.StreamPostgres? && Owned(s)
    ensures Restored(s, StreamRows(call, s).0)
  {
    hide PostgresStream.Stream, PostgresStream.Releases, PostgresStream.Reads, PostgresStream.Signalled, Fates;
    var config := StreamConfig(call, s);
    var r := PostgresStream.Stream(config, call.turns);
    PostgresStream.NeverUsedAfterRelease(config, call.turns);
    StreamHolds(config, call.turns);
    if s.active.Some? {
      AppendedFates(s.log, r.state.log, s.active.value, 0);
      forall c: nat
        ensures var after := s.log + Fates(r.state.log, s.active.value);
                && Got(after, c) == Got(s.log, c)
                && Gone(after, c) == Gone(s.log, c)
                   + if c == s.active.value then PostgresStream.Releases(r.state.log) else 0
      {
        AppendedFates(s.log, r.state.log, s.active.value, c);
      }
    } else if r.acquired {
      var log := s.log + [Acquired(s.acquired)];
      AppendedFates(log, r.state.log, s.acquired, 0);
      forall c: nat
        ensures var after := log + Fates(r.state.log, s.acquired);
                && Got(after, c) == (if c <= s.acquired then 1 else 0)
                && Gone(after, c) == (if c <= s.acquired then 1 else 0)
      {
        Appended(s.log, Acquired(s.acquired), c);
        AppendedFates(log, r.state.log, s.acquired, c);
      }
    }
  }

  /** How many releases a stream's log has, by whose client it was. */
  lemma StreamHolds(c: PostgresStream.Config, turns: PostgresStream.Script)
    ensures var r := PostgresStream.Stream(c, turns);
            && (r.acquired ==> !c.active && PostgresStream.Releases(r.state.log) == 1)
            && (c.active && (c.gone || c.inTransaction) ==> PostgresStream.Releases(r.state.log) == 0)
  {
    hide PostgresStream.StreamRows, PostgresStream.Releases, PostgresStream.Reads, PostgresStream.Signalled;
    PostgresStream.AcquiredReleasedOnce(c, turns);
    PostgresStream.NeverUsedAfterRelease(c, turns);
    PostgresStream.UnusedLog();
    if c.active && !c.gone && c.batch >= 1 && !c.abortedBefore {
      PostgresStream.BorrowedReleasedOnAbort(c, turns);
    }
  }

  /** From an idle start, any work whatsoever: each connection it acquired was released or destroyed exactly
      once, and nothing is held. */
  lemma EveryConnectionGoneOnce(work: Work, c: nat)
    ensures var t := RunWork(work, IDLE).0;
            && t.active.None? && t.depth == 0
            && Got(t.log, c) == Gone(t.log, c) == (if c < t.acquired then 1 else 0)
  {
    assert Owned(IDLE);
    WorkRestores(work, IDLE);
  }

  // ------------------------------------------------------------------------------------------
  // Which root transactions fail unsafely.

  predicate IsolationPasses(provider: CommitOutcome.Provider, script: CommitOutcome.Script) {
    provider.MySql? && script.isolation.Some? ==> script.isolation.value.Done? && !script.abortedAfterIsolation
  }

  /** The server refuses the begin, or the isolation level asked for before it. */
  predicate BeginRefused(provider: CommitOutcome.Provider, script: CommitOutcome.Script) {
    && !script.abortedAtStart
    && if IsolationPasses(provider, script) then script.begin.Rejected? else script.isolation.value.Rejected?
  }

  predicate Opened(provider: CommitOutcome.Provider, script: CommitOutcome.Script) {
    !script.abortedAtStart && IsolationPasses(provider, script) && script.begin.Done?
  }

  /** Read off what the outside world does: the begin is refused; or an opened transaction fails and the
      rollback is refused, or the work threw an unsafe error itself, or a commit of unknown outcome. */
  lemma UnsafeExactly(provider: CommitOutcome.Provider, script: CommitOutcome.Script)
    ensures var a := CommitOutcome.Run(provider, script);
            a.error.Some? && IsUnsafe(a.error.value) <==>
              || BeginRefused(provider, script)
              || (Opened(provider, script) && a.error.Some? &&
                   (|| script.rollback.Rejected?
                    || (!script.abortedAfterBegin && script.work.Some? && IsUnsafe(script.work.value))
                    || (a.commitSent && !CommitOutcome.ProvesAbort(provider, script.commit.code))))
  {
    hide CommitOutcome.ProvesAbort, CommitOutcome.IsOutcomeUnknown, CommitOutcome.IsTransient;
    hide CommitOutcome.PostgresTransient, CommitOutcome.MysqlTransient, IsUnsafe;
    var a := CommitOutcome.Run(provider, script);
    if a.error.Some? { UnsafeMeans(a.error.value); }
    if script.work.Some? { UnsafeMeans(script.work.value); }
  }

  /** Errors after which the connection must not be used again: an unknown outcome, however deep it is wrapped;
      a rollback that failed; a begin that failed.  The cleanup errors of savepoints are none. */
  ghost predicate IsUnsafe(error: Error) {
    || (exists code :: Wraps(error, CommitOutcome.OutcomeUnknown(code)))
    || (error.Cleanup? && error.operation == CommitOutcome.Rollback)
    || (error.ProviderError? && error.operation == CommitOutcome.Begin)
  }

  lemma {:induction false} UnsafeMeans(error: Error)
    ensures FailsUnsafely(error) <==> IsUnsafe(error)
  {
    FindUnknownExactly(error);
    if FindUnknown(error).Some? {
      assert Wraps(error, CommitOutcome.OutcomeUnknown(FindUnknown(error).value.commitCode));
    }
    if code :| Wraps(error, CommitOutcome.OutcomeUnknown(code)) { WrappedIsUnknown(error, code); }
  }

  lemma {:induction false} WrappedIsUnknown(error: Error, code: Option<string>)
    requires Wraps(error, CommitOutcome.OutcomeUnknown(code))
    ensures FindUnknown(error).Some?
  {
    if error.Cleanup? { WrappedIsUnknown(error.primary, code); }
  }

  /** `inner` is the error itself, or what it wraps, however deep. */
  ghost predicate Wraps(error: Error, inner: Error) {
    error == inner || (error.Cleanup? && Wraps(error.primary, inner))
  }

  lemma {:induction false} FindUnknownExactly(error: Error)
    ensures FindUnknown(error).Some? <==> CommitOutcome.IsOutcomeUnknown(error)
    ensures FindUnknown(error).Some? ==>
              FindUnknown(error).value.OutcomeUnknown? && Wraps(error, FindUnknown(error).value)
  {
    if error.Cleanup? { FindUnknownExactly(error.primary); }
  }

  /** A root transaction calls its work exactly if it is opened, which it is not on a client that is gone, and
      not canceled then; the failure on record replaces what the work ended with. */
  lemma RootRunsExactly(
    work: Work, other: Work, connects: bool, provider: CommitOutcome.Provider, script: CommitOutcome.Script,
    spoiled: Option<Error>, nesting: Nesting, s: State)
    requires s.depth == 0 && s.unknown.None? && (s.active.Some? || connects)
    ensures var (t, error) := RunCall(Transaction(work, connects, provider, script, spoiled, nesting), s);
            var inside := (if s.active.Some? then s else Enter(s)).(depth := 1);
            var (u, thrown) := RunWork(work, inside);
            var runs := CommitOutcome.Opens(provider, script) && !s.gone && !script.abortedAfterBegin;
            && (!runs ==> (t, error) == RunCall(Transaction(other, connects, provider, script, spoiled, nesting), s))
            && (runs && spoiled.Some? ==> error.Some? && CommitOutcome.RolledBack(script, error.value, spoiled.value))
            && (runs && spoiled.None? && thrown.Some? ==>
                  error.Some? && CommitOutcome.RolledBack(script, error.value, thrown.value))
            && (runs && spoiled.None? && thrown.None? && !script.abortedAfterWork && script.commit.Acknowledged? ==>
                  error.None?)
            && (runs && s.active.Some? ==> u.log <= t.log)
            && (s.active.Some? && s.gone && !script.abortedAtStart
                && (provider.Postgres? || CommitOutcome.IsolationSet(provider, script)) ==>
                  error == Some(CommitOutcome.ProviderError(CommitOutcome.Begin, None)))
  {
    hide RunWork, FindUnknown, FailsUnsafely;
    var reaching := Reaching(s, script);
    var inside := (if s.active.Some? then s else Enter(s)).(depth := 1);
    var thrown := RunWork(work, inside).1;
    assert Begins(provider, reaching) <==> CommitOutcome.Opens(provider, reaching) && !reaching.abortedAfterBegin;
    if Begins(provider, reaching) {
      CommitOutcome.OpenedRaisesExactly(provider, reaching.(work := WorkError(spoiled, thrown)));
    }
  }

  /** A call that is not served raises this. */
  lemma CallsRaise(work: Work, nesting: Nesting, aborted: bool, s: State)
    requires s.unknown.None?
    ensures s.active.None? ==>
              RunCall(Session(work, false, aborted), s) == (s, Some(NOT_CONNECTED))
    ensures s.active.Some? ==>
              RunCall(Session(work, true, aborted), s) ==
              if aborted then (s, Some(CommitOutcome.Canceled)) else RunWork(work, s)
    ensures s.depth > 0 && s.active.Some? ==>
              forall connects, provider, script, spoiled ::
                var (t, error) := RunCall(Transaction(work, connects, provider, script, spoiled, nesting), s);
                var thrown := RunWork(work, s.(depth := s.depth + 1)).1;
                match nesting
                case Refused(refusal) => (t, error) == (s, Some(refusal))
                case AsWork => error == thrown
                case Instead(other) => error == Some(other)
  {
    hide RunWork, RunRoot;
  }

  /** A MySQL stream of its own returns its connection only when all rows were read, and raises only what failed. */
  lemma MysqlStreamExactly(connects: bool, ending: Ending, s: State)
    requires s.unknown.None?
    ensures var (t, error) := RunCall(StreamMysql(connects, ending), s);
            var tried := s.active.Some? || connects;
            && (error.Some? <==> !tried || ending.Failed?)
            && (error.Some? ==> error.value == if tried then ending.error else NOT_CONNECTED)
            && t.log == s.log + (
                 if s.active.Some? || !connects then []
                 else if ending.Completed? then [Acquired(s.acquired), Released(s.acquired)]
                 else [Acquired(s.acquired), Destroyed(s.acquired)])
  {
  }

  /** A stream that was read or left raises nothing, a canceled one the cancellation, and no error of a stream
      makes the connection unsafe or unusable. */
  lemma StreamRaisesExactly(outcome: PostgresStream.Outcome)
    ensures StreamError(outcome).None? <==> outcome.Finished? || outcome.LeftEarly?
    ensures outcome.Cancellation? ==> StreamError(outcome) == Some(CommitOutcome.Canceled)
    ensures outcome.CleanupError? && outcome.primary.Canceled? ==>
              StreamError(outcome).value.Cleanup? && StreamError(outcome).value.primary.Canceled?
    ensures StreamError(outcome).Some? ==>
              FindUnknown(StreamError(outcome).value).None? && !FailsUnsafely(StreamError(outcome).value)
  {
  }

  // ------------------------------------------------------------------------------------------
  // Which connections go back to the pool.

  lemma {:induction false} GoneIn(log: seq<Event>, c: nat)
    ensures Gone(log, c) == 0 <==> Released(c) !in log && Destroyed(c) !in log
  {
    if log != [] {
      GoneIn(log[..|log| - 1], c);
      assert log == log[..|log| - 1] + [log[|log| - 1]];
    }
  }

  lemma StillHeld(t: State, c: nat)
    requires Owned(t) && t.active == Some(c)
    ensures Released(c) !in t.log && Destroyed(c) !in t.log <==> !t.gone
  {
    GoneIn(t.log, c);
  }

  /** A connection acquired for a root transaction is destroyed exactly when the error raised says that it
      is unsafe, and otherwise goes back intact. */
  lemma TransactionDestroysUnsafe(
    work: Work, provider: CommitOutcome.Provider, script: CommitOutcome.Script, spoiled: Option<Error>,
    nesting: Nesting, s: State)
    requires Owned(s) && s.active.None? && s.unknown.None?
    ensures var (t, error) := RunCall(Transaction(work, true, provider, script, spoiled, nesting), s);
            && (Destroyed(s.acquired) in t.log <==> error.Some? && IsUnsafe(error.value))
            && (Released(s.acquired) in t.log <==> !(error.Some? && IsUnsafe(error.value)))
  {
    hide RunWork, Owned, CommitOutcome.Run, FailsUnsafely, FindUnknown, IsUnsafe;
    var raised := RunCall(Transaction(work, true, provider, script, spoiled, nesting), s).1;
    if raised.Some? { UnsafeMeans(raised.value); }
    IdleMeans(s);
    EnterOwned(s);
    Deeper(Enter(s));
    var entered := Enter(s).(depth := 1);
    WorkRestores(work, entered);
    var t := if Begins(provider, script) then RunWork(work, entered).0 else entered;
    StillHeld(t, s.acquired);
  }

  /** On the way through the work, a root transaction of the held connection fails unsafely. */
  predicate Spoils(work: Work, s: State)
    decreases work, 0
  {
    work.Then? &&
    var (t, error) := RunCall(work.call, s);
    SpoilsCall(work.call, s) || ((error.None? || work.swallow) && Spoils(work.rest, t))
  }

  predicate SpoilsCall(call: Call, s: State)
    decreases call, 0
  {
    s.unknown.None? && s.active.Some? && s.depth == 0 &&
    match call
    case Session(work, _, aborted) => !aborted && Spoils(work, s)
    case Transaction(_, _, _, _, _, _) => var error := RunCall(call, s).1; error.Some? && FailsUnsafely(error.value)
    case StreamPostgres(_, _, _, _, _) => false
    case StreamMysql(_, _) => false
  }

  /** On the way through the work, the signal of a stream outside any transaction fires while it reads. */
  ghost predicate Cuts(work: Work, s: State)
    decreases work, 0
  {
    work.Then? &&
    var (t, error) := RunCall(work.call, s);
    CutsCall(work.call, s) || ((error.None? || work.swallow) && Cuts(work.rest, t))
  }

  ghost predicate CutsCall(call: Call, s: State)
    decreases call, 0
  {
    s.unknown.None? && s.active.Some? && s.depth == 0 && !s.gone &&
    match call
    case Session(work, _, aborted) => !aborted && Cuts(work, s)
    case Transaction(_, _, _, _, _, _) => false
    case StreamPostgres(_, batch, abortedBefore, _, turns) =>
      var r := PostgresStream.Stream(StreamConfig(call, s), turns).state;
      && batch >= 1 && !abortedBefore
      && PostgresStream.Signalled(turns, PostgresStream.Reads(r.log), |r.delivered|)
    case StreamMysql(_, _) => false
  }

  /** What happens to the connection that is held. */
  ghost predicate Held(s: State, t: State, c: nat, spoilt: bool, cut: bool) {
    && (Released(c) in t.log <==> Released(c) in s.log)
    && (Unsafe(c) in t.log <==> Unsafe(c) in s.log || spoilt)
    && (t.gone <==> s.gone || cut)
  }

  lemma {:induction false} WorkHeld(work: Work, s: State, c: nat)
    requires Owned(s) && s.active == Some(c)
    ensures Held(s, RunWork(work, s).0, c, Spoils(work, s), Cuts(work, s))
    decreases work, 0
  {
    hide Owned, SpoilsCall, CutsCall, RunCall;
    if work.Then? {
      CallHeld(work.call, s, c);
      CallRestores(work.call, s);
      var (t, error) := RunCall(work.call, s);
      if error.None? || work.swallow { WorkHeld(work.rest, t, c); }
    }
  }

  lemma {:induction false} CallHeld(call: Call, s: State, c: nat)
    requires Owned(s) && s.active == Some(c)
    ensures Held(s, RunCall(call, s).0, c, SpoilsCall(call, s), CutsCall(call, s))
    decreases call, 0
  {
    hide Owned, Spoils, Cuts, RunRoot, RunNested, RunWork, StreamRows, FailsUnsafely, FindUnknown;
    if s.unknown.None? {
      match call {
        case Session(work, connects, aborted) =>
          if !aborted {
            WorkHeld(work, s, c);
            if s.depth > 0 { NeverDeep(work, s); }
            if s.gone { GoneStays(work, s); }
          }
        case Transaction(work, connects, provider, script, spoiled, nesting) =>
          if s.depth > 0 { NestedHeld(work, nesting, s, c); }
          else { RootHeld(work, connects, provider, script, spoiled, s, c); }
        case StreamPostgres(_, _, _, _, _) => StreamHeld(call, s, c);
        case StreamMysql(_, _) =>
      }
    }
  }

  /** Neither happens inside a transaction. */
  lemma {:induction false} NeverDeep(work: Work, s: State)
    requires Owned(s) && s.depth > 0
    ensures !Spoils(work, s) && !Cuts(work, s)
    decreases work
  {
    hide RunCall, Owned;
    if work.Then? {
      CallRestores(work.call, s);
      NeverDeep(work.rest, RunCall(work.call, s).0);
    }
  }

  /** A client that is gone is not cut off again. */
  lemma {:induction false} GoneStays(work: Work, s: State)
    requires Owned(s) && s.gone
    ensures !Cuts(work, s)
    decreases work
  {
    hide RunCall, Owned;
    if work.Then? {
      CallRestores(work.call, s);
      GoneStays(work.rest, RunCall(work.call, s).0);
    }
  }

  lemma {:induction false} NestedHeld(work: Work, nesting: Nesting, s: State, c: nat)
    requires Owned(s) && s.active == Some(c) && s.depth > 0
    ensures Held(s, RunNested(work, nesting, s).0, c, false, false)
    decreases work, 1
  {
    hide RunWork, Spoils, Cuts;
    var deeper := s.(depth := s.depth + 1);
    assert Owned(deeper);
    hide Owned;
    WorkHeld(work, deeper, c);
    NeverDeep(work, deeper);
  }

  lemma {:induction false} RootHeld(
    work: Work, connects: bool, provider: CommitOutcome.Provider, script: CommitOutcome.Script,
    spoiled: Option<Error>, s: State, c: nat)
    requires Owned(s) && s.active == Some(c) && s.depth == 0
    ensures var (t, error) := RunRoot(work, connects, provider, script, spoiled, s);
            Held(s, t, c, error.Some? && FailsUnsafely(error.value), false)
    decreases work, 1
  {
    hide RunWork, Spoils, Cuts, Owned, CommitOutcome.Run, FailsUnsafely, FindUnknown, Begins;
    var entered := s.(depth := 1);
    Deeper(s);
    WorkHeld(work, entered, c);
    NeverDeep(work, entered);
  }

  lemma {:induction false} FatesOf(stream: seq<PostgresStream.Event>, connection: nat)
    ensures Released(connection) in Fates(stream, connection) <==> PostgresStream.Returns(stream) > 0
  {
    if stream != [] { FatesOf(stream[..|stream| - 1], connection); }
  }

  lemma StreamHeld(call: Call, s: State, c: nat)
    requires call.StreamPostgres? && Owned(s) && s.active == Some(c) && s.unknown.None?
    ensures Held(s, StreamRows(call, s).0, c, false, CutsCall(call, s))
  {
    hide PostgresStream.StreamRows, PostgresStream.Releases, PostgresStream.Reads, PostgresStream.Signalled;
    hide PostgresStream.Returns, Fates;
    var config, turns := StreamConfig(call, s), call.turns;
    var r := PostgresStream.Stream(config, turns);
    StreamHolds(config, turns);
    PostgresStream.NeverUsedAfterRelease(config, turns);
    PostgresStream.UnusedLog();
    FatesOf(r.state.log, c);
    AppendedFates(s.log, r.state.log, c, c);
    if config.gone || config.batch < 1 || config.abortedBefore {
      assert r.state.log == [];
    } else {
      PostgresStream.BorrowedReleasedOnAbort(config, turns);
    }
  }

  lemma NotYet(s: State)
    requires Owned(s)
    ensures Gone(s.log, s.acquired) == 0 && Unsafe(s.acquired) !in s.log
  {
  }

  /** A session: its connection goes back intact exactly when the work returned and no stream was cut off in
      it, so after an unsafe failure too when that was swallowed; and once a stream was cut off the session
      rejects, because it releases the client a second time. */
  lemma SessionEndsExactly(work: Work, s: State)
    requires Owned(s) && s.active.None? && s.unknown.None?
    ensures var (t, error) := RunCall(Session(work, true, false), s);
            var thrown := RunWork(work, Enter(s)).1;
            var cut := Cuts(work, Enter(s));
            && (Released(s.acquired) in t.log <==> thrown.None? && !cut)
            && (Destroyed(s.acquired) in t.log <==> thrown.Some? || cut)
            && (Unsafe(s.acquired) in t.log <==> Spoils(work, Enter(s)))
            && error == (if cut then Some(RELEASED_TWICE) else thrown)
  {
    hide RunWork, Owned, Spoils, Cuts;
    IdleMeans(s);
    EnterOwned(s);
    var c := s.acquired;
    GoneIn(s.log, c);
    NotYet(s);
    WorkHeld(work, Enter(s), c);
    WorkRestores(work, Enter(s));
    StillHeld(RunWork(work, Enter(s)).0, c);
  }

  // ------------------------------------------------------------------------------------------
  // An unknown outcome is remembered, and nothing else makes the connection unusable.

  /** A call after which the connection refuses everything, with this error. */
  ghost predicate Dead(s: State, error: Error) {
    error.OutcomeUnknown? && s.unknown == Some(error)
  }

  /** After a root transaction the connection is dead exactly if the error raised holds an unknown outcome. */
  lemma RootRemembers(
    work: Work, connects: bool, provider: CommitOutcome.Provider, script: CommitOutcome.Script,
    spoiled: Option<Error>, nesting: Nesting, s: State)
    requires Owned(s) && s.depth == 0 && s.unknown.None?
    ensures var (t, error) := RunCall(Transaction(work, connects, provider, script, spoiled, nesting), s);
            && (t.unknown.Some? <==> error.Some? && CommitOutcome.IsOutcomeUnknown(error.value))
            && (t.unknown.Some? ==> Dead(t, t.unknown.value) && Wraps(error.value, t.unknown.value))
  {
    hide RunWork, CommitOutcome.Run, FindUnknown, FailsUnsafely, Begins, WorkError, Owned;
    var error := RunCall(Transaction(work, connects, provider, script, spoiled, nesting), s).1;
    if error.Some? { FindUnknownExactly(error.value); }
    if s.active.Some? || connects {
      InsideUsable(work, (if s.active.None? then Enter(s) else s).(depth := 1)) by {
        if s.active.None? { EnterOwned(s); }
        Deeper(if s.active.None? then Enter(s) else s);
      }
    }
  }

  /** Inside a root transaction no outcome gets lost. */
  lemma {:induction false} InsideUsable(work: Work, s: State)
    requires Owned(s) && s.depth > 0
    ensures RunWork(work, s).0.unknown == s.unknown
    decreases work
  {
    hide Owned, RunRoot, StreamRows;
    if work.Then? {
      var call := work.call;
      CallRestores(call, s);
      if s.unknown.None? {
        match call {
          case Session(inner, _, aborted) =>
            ActiveInside(s);
            if !aborted { InsideUsable(inner, s); }
          case Transaction(inner, _, _, _, _, nesting) =>
            ActiveInside(s);
            Deepen(s);
            InsideUsable(inner, s.(depth := s.depth + 1));
          case StreamPostgres(_, _, _, _, _) => StreamForgets(call, s);
          case StreamMysql(_, _) =>
        }
      }
      InsideUsable(work.rest, RunCall(call, s).0);
    }
  }

  lemma ActiveInside(s: State)
    requires Owned(s) && s.depth > 0
    ensures s.active.Some?
  {
  }

  lemma Deepen(s: State)
    requires Owned(s) && s.depth > 0
    ensures Owned(s.(depth := s.depth + 1))
  {
  }

  lemma StreamForgets(call: Call, s: State)
    requires call.StreamPostgres?
    ensures StreamRows(call, s).0.unknown == s.unknown
  {
    hide PostgresStream.Stream, Fates;
  }

  /** Every call on a dead connection raises the outcome error and touches nothing; so does every statement of
      work that lets errors through. */
  lemma DeadRefuses(call: Call, s: State, error: Error)
    requires Dead(s, error)
    ensures RunCall(call, s) == (s, Some(error))
    ensures forall swallow, rest :: !swallow ==> RunWork(Then(call, swallow, rest), s) == (s, Some(error))
  {
  }

  /** One that is not dead serves: a session of work that returns does. */
  lemma AliveServes(s: State)
    requires s.unknown.None? && Owned(s)
    ensures RunCall(Session(Return, true, false), s).1.None?
  {
    assert forall t :: RunWork(Return, t) == (t, None);
  }

  /** On the way through the work, a root transaction loses track of its commit. */
  predicate Loses(work: Work, s: State)
    decreases work, 0
  {
    work.Then? &&
    var (t, error) := RunCall(work.call, s);
    LosesCall(work.call, s) || ((error.None? || work.swallow) && Loses(work.rest, t))
  }

  predicate LosesCall(call: Call, s: State)
    decreases call, 0
  {
    s.unknown.None? && s.depth == 0 &&
    match call
    case Session(work, connects, aborted) =>
      !aborted && (s.active.Some? || connects) && Loses(work, if s.active.Some? then s else Enter(s))
    case Transaction(_, _, _, _, _, _) =>
      var error := RunCall(call, s).1; error.Some? && CommitOutcome.IsOutcomeUnknown(error.value)
    case StreamPostgres(_, _, _, _, _) => false
    case StreamMysql(_, _) => false
  }

  /** Whole works: they leave a dead connection exactly if a root transaction on the way lost track. */
  lemma {:induction false} WorkRemembers(work: Work, s: State)
    requires Owned(s) && s.unknown.None?
    ensures RunWork(work, s).0.unknown.Some? <==> Loses(work, s)
    decreases work, 0
  {
    hide Owned, RunCall, LosesCall;
    if work.Then? {
      CallRestores(work.call, s);
      CallRemembers(work.call, s);
      var (t, error) := RunCall(work.call, s);
      if error.None? || work.swallow {
        if t.unknown.None? { WorkRemembers(work.rest, t); } else { DeadStays(work.rest, t); }
      }
    }
  }

  lemma {:induction false} DeadStays(work: Work, s: State)
    requires s.unknown.Some?
    ensures RunWork(work, s).0 == s
  {
    if work.Then? { DeadStays(work.rest, s); }
  }

  lemma {:induction false} CallRemembers(call: Call, s: State)
    requires Owned(s) && s.unknown.None?
    ensures RunCall(call, s).0.unknown.Some? <==> LosesCall(call, s)
    decreases call, 0
  {
    hide Owned, RunWork, Loses, RunRoot, StreamRows, CommitOutcome.IsOutcomeUnknown;
    match call
    case Session(work, connects, aborted) =>
      if s.active.None? { EnterOwned(s); IdleMeans(s); }
      if !aborted {
        if s.depth == 0 { WorkRemembers(work, if s.active.Some? then s else Enter(s)); }
        else { InsideUsable(work, s); }
      }
    case Transaction(work, connects, provider, script, spoiled, nesting) =>
      if s.depth > 0 {
        ActiveInside(s);
        Deepen(s);
        InsideUsable(work, s.(depth := s.depth + 1));
      } else {
        RootRemembers(work, connects, provider, script, spoiled, nesting, s);
      }
    case StreamPostgres(_, _, _, _, _) => StreamForgets(call, s);
    case StreamMysql(_, _) =>
  }

  // ------------------------------------------------------------------------------------------
  // Both happen.

  function FailingRollback(error: Error, code: Option<string>): Call {
    Transaction(Throw(error), true, CommitOutcome.Postgres,
                CommitOutcome.Script(false, None, false, CommitOutcome.Done, false, None, false,
                                     CommitOutcome.Acknowledged(true), CommitOutcome.Rejected(code)),
                None, AsWork)
  }

  /** A session that swallows a failed rollback gives the connection back intact. */
  lemma {:induction false} SwallowedFailureGoesBack(error: Error, code: Option<string>)
    ensures var (t, raised) := RunCall(Session(Then(FailingRollback(error, code), true, Return), true, false), IDLE);
            raised.None? && t.log == [Acquired(0), Unsafe(0), Released(0)]
  {
    var tx := FailingRollback(error, code);
    var entered := Enter(IDLE);
    assert entered.log == [Acquired(0)];
    var inside := entered.(depth := 1);
    assert RunWork(Throw(error), inside) == (inside, Some(error));
    var raised := CommitOutcome.Cleanup(error, CommitOutcome.Rollback, code);
    assert CommitOutcome.Run(CommitOutcome.Postgres, tx.script.(work := Some(error))).error == Some(raised);
    var after := entered.(log := [Acquired(0)] + [Unsafe(0)], unknown := FindUnknown(raised));
    assert RunCall(tx, entered) == (after, Some(raised)) by {
      assert RunRoot(tx.work, true, tx.provider, tx.script, None, entered) == (after, Some(raised));
    }
    assert RunWork(Then(tx, true, Return), entered) == (after, None) by { assert RunWork(Return, after) == (after, None); }
    assert RunSession(Then(tx, true, Return), true, false, IDLE) == (Leave(after, 0, true), None);
  }

  /** The signal fires while the stream's transaction is being opened. */
  function CutOff(rows: seq<int>): Call {
    var answered := PostgresStream.Turn(PostgresStream.Answered, false);
    StreamPostgres(rows, 1, false, answered, PostgresStream.Script([answered.(aborts := true)], []))
  }

  lemma CutOffRuns(rows: seq<int>, s: State)
    requires s.active.Some? && s.depth == 0 && !s.gone && s.unknown.None?
    ensures RunCall(CutOff(rows), s) ==
            (s.(gone := true, log := s.log + [Destroyed(s.active.value)]), Some(CommitOutcome.Canceled))
  {
    hide PostgresStream.Stream;
    PostgresStream.CutInBegin(StreamConfig(CutOff(rows), s), CutOff(rows).turns);
    var log := [PostgresStream.Command(PostgresStream.Begin, true), PostgresStream.Release(true)];
    assert log[..1] == [PostgresStream.Command(PostgresStream.Begin, true)] && log[..1][..0] == [];
    assert PostgresStream.Releases(log[..1]) == 0;
    assert PostgresStream.Releases(log) == 1;
    assert Fates(log[..1], s.active.value) == [];
    assert Fates(log, s.active.value) == [Destroyed(s.active.value)];
  }

  /** A session that swallows the cancellation of a stream rejects, though its work returned. */
  lemma {:induction false} CutStreamEndsSession(rows: seq<int>)
    ensures var work := Then(CutOff(rows), true, Return);
            var (t, raised) := RunCall(Session(work, true, false), IDLE);
            && RunWork(work, Enter(IDLE)).1.None?
            && raised == Some(RELEASED_TWICE) && t.log == [Acquired(0), Destroyed(0)]
  {
    hide StreamRows;
    var entered, work := Enter(IDLE), Then(CutOff(rows), true, Return);
    assert entered.log == [Acquired(0)];
    CutOffRuns(rows, entered);
    var after := entered.(gone := true, log := [Acquired(0)] + [Destroyed(0)]);
    assert RunWork(work, entered) == (after, None) by { assert RunWork(Return, after) == (after, None); }
    assert RunSession(work, true, false, IDLE) == (Leave(after, 0, true), Some(RELEASED_TWICE));
  }

  // ------------------------------------------------------------------------------------------
  // The connection object.

  class Connection {
    var activeConnection: Option<nat>
    var gone: bool
    var transactionDepth: nat
    var outcomeUnknown: Option<Error>
    var acquired: nat
    var log: seq<Event>

    constructor ()
      ensures Now() == IDLE
    {
      activeConnection, gone, transactionDepth, outcomeUnknown, acquired, log := None, false, 0, None, 0, [];
    }

    ghost function Now(): State
      reads this
    {
      State(activeConnection, gone, transactionDepth, outcomeUnknown, acquired, log)
    }

    method Connect() returns (connection: nat)
      requires activeConnection.None?
      modifies this
      ensures Now() == Enter(old(Now())) && connection == old(acquired)
    {
      connection := acquired;
      acquired := acquired + 1;
      activeConnection, gone := Some(connection), false;
      log := log + [Acquired(connection)];
    }

    /** Releases the connection; a client already gone throws. */
    method GiveUp(connection: nat, intact: bool) returns (thrown: bool)
      modifies this
      ensures Now() == Leave(old(Now()), connection, intact) && thrown == old(gone)
    {
      activeConnection := None;
      thrown := gone;
      gone := false;
      if !thrown {
        log := log + [if intact then Released(connection) else Destroyed(connection)];
      }
    }

    method Perform(work: Work) returns (error: Option<Error>)
      modifies this
      ensures (Now(), error) == RunWork(work, old(Now()))
      decreases work, 0
    {
      match work
      case Return => error := None;
      case Throw(thrown) => error := Some(thrown);
      case Then(call, swallow, rest) =>
        error := Make(call);
        if error.None? || swallow {
          error := Perform(rest);
        }
    }

    method Make(call: Call) returns (error: Option<Error>)
      modifies this
      ensures (Now(), error) == RunCall(call, old(Now()))
      decreases call, 0
    {
      hide RunWork, RunSession, RunNested, RunRoot, StreamRows;
      if outcomeUnknown.Some? {
        return outcomeUnknown;
      }
      match call
      case Session(work, connects, aborted) =>
        error := Session(work, connects, aborted);
      case Transaction(work, connects, provider, script, spoiled, nesting) =>
        if transactionDepth > 0 {
          error := NestedTransaction(work, nesting);
        } else {
          error := RootTransaction(work, connects, provider, script, spoiled);
        }
      case StreamPostgres(_, _, _, _, _) =>
        error := ConsumeRows(call);
      case StreamMysql(connects, ending) =>
        error := if ending.Failed? then Some(ending.error) else None;
        if activeConnection.None? {
          if !connects {
            return Some(NOT_CONNECTED);
          }
          var connection := Connect();
          var _ := GiveUp(connection, ending.Completed?);
        }
    }

    method Session(work: Work, connects: bool, aborted: bool) returns (error: Option<Error>)
      modifies this
      ensures (Now(), error) == RunSession(work, connects, aborted, old(Now()))
      decreases work, 1
    {
      hide RunWork;
      if activeConnection.Some? {
        if aborted {
          return Some(CommitOutcome.Canceled);
        }
        error := Perform(work);
        return;
      }
      if !connects {
        return Some(NOT_CONNECTED);
      }
      var connection := Connect();
      error := Some(CommitOutcome.Canceled);
      if !aborted {
        error := Perform(work);
      }
      var completed := error.None?;
      var thrown := GiveUp(connection, completed);
      if thrown {
        error := Some(RELEASED_TWICE);
      }
    }

    method NestedTransaction(work: Work, nesting: Nesting) returns (error: Option<Error>)
      modifies this
      ensures (Now(), error) == RunNested(work, nesting, old(Now()))
      decreases work, 1
    {
      hide RunWork;
      if activeConnection.None? {
        error := Perform(work);
        return;
      }
      if nesting.Refused? {
        return Some(nesting.error);
      }
      transactionDepth := transactionDepth + 1;
      error := Perform(work);
      if nesting.Instead? {
        error := Some(nesting.error);
      }
      transactionDepth := if transactionDepth > 0 then transactionDepth - 1 else 0;
    }

    method RootTransaction(
      work: Work, connects: bool, provider: CommitOutcome.Provider, script: CommitOutcome.Script,
      spoiled: Option<Error>) returns (error: Option<Error>)
      modifies this
      ensures (Now(), error) == RunRoot(work, connects, provider, script, spoiled, old(Now()))
      decreases work, 1
    {
      hide RunWork, CommitOutcome.Run, Begins, RootEnds, WorkError;
      var ownsConnection := activeConnection.None?;
      var reaching := if gone then script.(begin := CommitOutcome.Rejected(None)) else script;
      var connection;
      if ownsConnection {
        if !connects {
          return Some(NOT_CONNECTED);
        }
        connection := Connect();
      } else {
        connection := activeConnection.value;
      }
      transactionDepth := 1;
      var thrown := None;
      if Begins(provider, reaching) {
        thrown := Perform(work);
      }
      error := CommitOutcome.Run(provider, reaching.(work := WorkError(spoiled, thrown))).error;
      Finish(connection, ownsConnection, error);
    }

    /** The catch and finally blocks of a root transaction. */
    method Finish(connection: nat, ownsConnection: bool, error: Option<Error>)
      modifies this
      ensures Now() == RootEnds(old(Now()), connection, ownsConnection, error)
    {
      hide FailsUnsafely, FindUnknown;
      var connectionUnsafe := false;
      if error.Some? {
        outcomeUnknown := FindUnknown(error.value);
        connectionUnsafe := FailsUnsafely(error.value);
      }
      if connectionUnsafe {
        log := log + [Unsafe(connection)];
      }
      transactionDepth := 0;
      if ownsConnection {
        var _ := GiveUp(connection, !connectionUnsafe);
      }
    }

    /** The stream's own steps are those of `PostgresStream.RowStream`. */
    method ConsumeRows(call: Call) returns (error: Option<Error>)
      requires call.StreamPostgres?
      modifies this
      ensures (Now(), error) == StreamRows(call, old(Now()))
    {
      hide PostgresStream.Stream, Fates;
      var config := PostgresStream.Config(
        call.rows, call.batch, activeConnection.Some?, gone, transactionDepth > 0, call.abortedBefore, call.connect);
      var r := PostgresStream.Stream(config, call.turns);
      error := StreamError(r.outcome);
      if activeConnection.Some? {
        gone := gone || PostgresStream.Releases(r.state.log) > 0;
        log := log + Fates(r.state.log, activeConnection.value);
      } else if r.acquired {
        log := log + [Acquired(acquired)] + Fates(r.state.log, acquired);
        acquired := acquired + 1;
      }
    }
  }
}
