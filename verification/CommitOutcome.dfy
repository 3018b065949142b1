/** Commit uncertainty: which errors of a root transaction prove that nothing was committed, and why
    running retried work applies it at most once. */
module CommitOutcome {
  import opened Options

  datatype Provider = Postgres | MySql

  datatype Operation = Query | Begin | Commit | Rollback | OtherOperation

  /** `App` is any error that is not one of the provider layer's own classes. */
  datatype Error =
    | App(id: int)
    | Canceled
    | ProviderError(operation: Operation, code: Option<string>)
    | OutcomeUnknown(commitCode: Option<string>)
    | Cleanup(primary: Error, operation: Operation, cleanupCode: Option<string>)

  /** The driver's reply to a command.  A rejected commit may or may not have been applied; nor does an
      acknowledged one have an effect when the server had aborted the transaction before. */
  datatype Reply = Done | Rejected(code: Option<string>)
  datatype CommitReply = Acknowledged(applied: bool) | CommitRejected(code: Option<string>, applied: bool)

  /** One attempt as the outside world plays it: where the signal is found aborted, the driver's
      replies, and the error the work throws, whatever it is. */
  datatype Script = Script(
    abortedAtStart: bool, isolation: Option<Reply>, abortedAfterIsolation: bool,
    begin: Reply, abortedAfterBegin: bool, work: Option<Error>, abortedAfterWork: bool,
    commit: CommitReply, rollback: Reply)

  /** `error` is None for an attempt that returned. */
  datatype Attempt = Attempt(error: Option<Error>, commitSent: bool, applied: bool)

  // ------------------------------------------------------------------------------------------

  /** Codes with which a server rejects a commit after aborting the transaction. */
  predicate ProvesAbort(provider: Provider, code: Option<string>) {
    match provider
    case Postgres => code == Some("40001") || code == Some("40P01")
    case MySql => code == Some("ER_LOCK_DEADLOCK")
  }

  function CommitFailure(provider: Provider, code: Option<string>): Error {
    if ProvesAbort(provider, code) then ProviderError(Commit, code) else OutcomeUnknown(code)
  }

  predicate IsOutcomeUnknown(error: Error) {
    error.OutcomeUnknown? || (error.Cleanup? && IsOutcomeUnknown(error.primary))
  }

  predicate StartsWith(text: string, prefix: string) {
    prefix <= text
  }

  predicate PostgresTransient(error: Error) {
    !IsOutcomeUnknown(error) &&
    var candidate := if error.Cleanup? then error.primary else error;
    candidate.ProviderError? &&
    if candidate.operation.Commit? then candidate.code == Some("40001") || candidate.code == Some("40P01")
    else
      candidate.code.Some? &&
      var code := candidate.code.value;
      || StartsWith(code, "08")
      || StartsWith(code, "53")
      || code in ["40001", "40P01", "55P03", "57P01", "57P02", "57P03",
                  "ECONNREFUSED", "ECONNRESET", "EPIPE", "ETIMEDOUT"]
  }

  predicate MysqlTransient(error: Error) {
    !IsOutcomeUnknown(error) &&
    var candidate := if error.Cleanup? then error.primary else error;
    candidate.ProviderError? &&
    if candidate.operation.Commit? then candidate.code == Some("ER_LOCK_DEADLOCK")
    else
      candidate.code.Some? &&
      candidate.code.value in ["ER_LOCK_DEADLOCK", "ER_LOCK_WAIT_TIMEOUT", "ER_CON_COUNT_ERROR",
                               "ER_SERVER_SHUTDOWN", "PROTOCOL_CONNECTION_LOST", "ECONNRESET",
                               "ECONNREFUSED", "EPIPE", "ETIMEDOUT"]
  }

  predicate IsTransient(provider: Provider, error: Error) {
    match provider
    case Postgres => PostgresTransient(error)
    case MySql => MysqlTransient(error)
  }

  // ------------------------------------------------------------------------------------------

  /** The catch block of both runners once the transaction has begun. */
  function RollBack(script: Script, error: Error, commitSent: bool, applied: bool): Attempt {
    var reported := match script.rollback
      case Done => error
      case Rejected(code) => Cleanup(error, Rollback, code);
    Attempt(Some(reported), commitSent, applied)
  }

  /** The try block both runners share, from the begin to the commit. */
  function Started(provider: Provider, script: Script): Attempt {
    if script.abortedAfterBegin then RollBack(script, Canceled, false, false)
    else if script.work.Some? then RollBack(script, script.work.value, false, false)
    else if script.abortedAfterWork then RollBack(script, Canceled, false, false)
    else match script.commit
      case Acknowledged(applied) => Attempt(None, true, applied)
      case CommitRejected(code, applied) => RollBack(script, CommitFailure(provider, code), true, applied)
  }

  function PostgresAttempt(script: Script): Attempt {
    if script.abortedAtStart then Attempt(Some(Canceled), false, false)
    else match script.begin
      case Rejected(code) => Attempt(Some(ProviderError(Begin, code)), false, false)
      case Done => Started(Postgres, script)
  }

  /** MySQL sets a requested isolation level by a command of its own first. */
  function MysqlAttempt(script: Script): Attempt {
    if script.abortedAtStart then Attempt(Some(Canceled), false, false)
    else if script.isolation.Some? && script.isolation.value.Rejected? then
      Attempt(Some(ProviderError(Begin, script.isolation.value.code)), false, false)
    else if script.isolation.Some? && script.abortedAfterIsolation then
      Attempt(Some(Canceled), false, false)
    else match script.begin
      case Rejected(code) => Attempt(Some(ProviderError(Begin, code)), false, false)
      case Done => Started(MySql, script)
  }

  function Run(provider: Provider, script: Script): Attempt {
    match provider
    case Postgres => PostgresAttempt(script)
    case MySql => MysqlAttempt(script)
  }

  /** The one thing believed of a server: it did not apply a commit that it rejected with a code
      proving that it had aborted the transaction. */
  predicate Honest(provider: Provider, script: Script) {
    script.commit.CommitRejected? && ProvesAbort(provider, script.commit.code) ==> !script.commit.applied
  }

  // ------------------------------------------------------------------------------------------

  lemma RejectionReported(provider: Provider, script: Script, code: Option<string>, applied: bool)
    ensures var failure := CommitFailure(provider, code);
            var a := RollBack(script, failure, true, applied);
            && a.error.Some?
            && (IsOutcomeUnknown(a.error.value) <==> !ProvesAbort(provider, code))
            && (IsTransient(provider, a.error.value) <==> ProvesAbort(provider, code))
  {
    var failure := CommitFailure(provider, code);
    assert IsOutcomeUnknown(failure) <==> !ProvesAbort(provider, code);
    var reported := RollBack(script, failure, true, applied).error.value;
    assert reported.Cleanup? ==> reported.primary == failure;
  }

  /** An error that does not say "unknown" means that no commit was sent, or that the reply to it
      proved abortion; so does every error classified as transient, wrapped by a failed rollback or not. */
  lemma KnownFailureIsUncommitted(provider: Provider, script: Script)
    ensures var a := Run(provider, script);
            a.error.Some? && (!IsOutcomeUnknown(a.error.value) || IsTransient(provider, a.error.value)) ==>
              && (a.commitSent ==> script.commit.CommitRejected? && ProvesAbort(provider, script.commit.code))
              && (Honest(provider, script) ==> !a.applied)
  {
    if script.commit.CommitRejected? {
      RejectionReported(provider, script, script.commit.code, script.commit.applied);
    }
  }

  /** After a rejected commit the classification is exact, also when the rollback failed as well. */
  lemma RejectedCommitIsTransientIffAborted(provider: Provider, script: Script)
    requires Run(provider, script).commitSent && script.commit.CommitRejected?
    ensures var a := Run(provider, script);
            && a.error.Some?
            && (IsTransient(provider, a.error.value) <==> ProvesAbort(provider, script.commit.code))
            && (IsOutcomeUnknown(a.error.value) <==> !ProvesAbort(provider, script.commit.code))
  {
    RejectionReported(provider, script, script.commit.code, script.commit.applied);
  }

  // ------------------------------------------------------------------------------------------
  // What one attempt raises.

  /** MySQL sets a requested isolation level first, and then looks at the signal. */
  predicate IsolationSet(provider: Provider, script: Script) {
    provider.MySql? && script.isolation.Some? ==> script.isolation.value.Done? && !script.abortedAfterIsolation
  }

  predicate Opens(provider: Provider, script: Script) {
    !script.abortedAtStart && IsolationSet(provider, script) && script.begin.Done?
  }

  /** `inner` after a rollback that worked, else a cleanup error of the rollback that wraps it. */
  predicate RolledBack(script: Script, error: Error, inner: Error) {
    match script.rollback
    case Done => error == inner
    case Rejected(code) => error == Cleanup(inner, Rollback, code)
  }

  /** An opened attempt commits exactly if it is not canceled and its work does not throw, and returns exactly
      if the commit is acknowledged; otherwise it raises, in this order, the cancellation after the begin, the
      work's error, the cancellation after the work, or what the rejected commit tells. */
  lemma OpenedRaisesExactly(provider: Provider, script: Script)
    requires Opens(provider, script)
    ensures var a := Run(provider, script);
            var works := !script.abortedAfterBegin;
            var commits := works && script.work.None? && !script.abortedAfterWork;
            && a.commitSent == commits
            && a.applied == (commits && script.commit.applied)
            && (a.error.None? <==> commits && script.commit.Acknowledged?)
            && (!works ==> RolledBack(script, a.error.value, Canceled))
            && (works && script.work.Some? ==> RolledBack(script, a.error.value, script.work.value))
            && (works && script.work.None? && script.abortedAfterWork ==> RolledBack(script, a.error.value, Canceled))
            && (commits && script.commit.CommitRejected? ==>
                  RolledBack(script, a.error.value,
                             if ProvesAbort(provider, script.commit.code) then ProviderError(Commit, script.commit.code)
                             else OutcomeUnknown(script.commit.code)))
  {
  }

  /** One that is not opened sends no commit and no rollback: it is canceled, or the isolation level or the begin
      is rejected. */
  lemma UnopenedRaisesExactly(provider: Provider, script: Script)
    requires !Opens(provider, script)
    ensures var a := Run(provider, script);
            var isolation := provider.MySql? && script.isolation.Some?;
            && !a.commitSent && !a.applied
            && (script.abortedAtStart ==> a.error == Some(Canceled))
            && (!script.abortedAtStart && isolation && script.isolation.value.Rejected? ==>
                  a.error == Some(ProviderError(Begin, script.isolation.value.code)))
            && (!script.abortedAtStart && isolation && script.isolation.value.Done? && script.abortedAfterIsolation ==>
                  a.error == Some(Canceled))
            && (!script.abortedAtStart && IsolationSet(provider, script) ==>
                  a.error == Some(ProviderError(Begin, script.begin.code)))
  {
  }

  /** The classes and codes of errors after which the same work may succeed. */
  const POSTGRES_CLASSES := {"08", "53"}

  const POSTGRES_CODES := {"40001", "40P01", "55P03", "57P01", "57P02", "57P03", "ECONNREFUSED", "ECONNRESET", "EPIPE", "ETIMEDOUT"}

  const MYSQL_CODES := {"ER_LOCK_DEADLOCK", "ER_LOCK_WAIT_TIMEOUT", "ER_CON_COUNT_ERROR", "ER_SERVER_SHUTDOWN",
                        "PROTOCOL_CONNECTION_LOST", "ECONNRESET", "ECONNREFUSED", "EPIPE", "ETIMEDOUT"}

  predicate Passing(provider: Provider, code: string) {
    match provider
    case Postgres => code in POSTGRES_CODES || (|code| >= 2 && code[..2] in POSTGRES_CLASSES)
    case MySql => code in MYSQL_CODES
  }

  /** An error of the provider, on its own or wrapped once, is transient exactly by its code: after a commit if
      that proves abortion, else if it is one of these. */
  lemma TransientExactly(provider: Provider, operation: Operation, code: Option<string>, wrapped: Operation, other: Option<string>)
    ensures var error := ProviderError(operation, code);
            var transient := if operation.Commit? then ProvesAbort(provider, code)
                             else code.Some? && Passing(provider, code.value);
            && IsTransient(provider, error) == transient
            && IsTransient(provider, Cleanup(error, wrapped, other)) == transient
            && !IsTransient(provider, Cleanup(Cleanup(error, wrapped, other), wrapped, other))
    ensures !IsTransient(provider, OutcomeUnknown(code)) && !IsTransient(provider, Canceled)
  {
    if code.Some? {
      assert StartsWith(code.value, "08") <==> |code.value| >= 2 && code.value[..2] == "08";
      assert StartsWith(code.value, "53") <==> |code.value| >= 2 && code.value[..2] == "53";
    }
  }

  /** Only what proves abortion does: a serialization failure or a deadlock. */
  lemma ProvesAbortExactly(provider: Provider, code: Option<string>)
    ensures ProvesAbort(provider, code) <==>
              code.Some? && code.value in (if provider.Postgres? then {"40001", "40P01"} else {"ER_LOCK_DEADLOCK"})
  {
  }

  /** What the policy's callback answers; it may also throw, or answer something that is no boolean. */
  datatype Decision = Again | GiveUp | Broken(id: int)

  /** One turn of the loop: whether the signal is found aborted before the attempt or in the delay after it. */
  datatype Round = Round(script: Script, abortedBefore: bool, abortedInDelay: bool)

  /** How many commits were applied, the error finally raised, and how many attempts were made. */
  datatype Retried = Retried(applied: nat, error: Option<Error>, attempts: nat)

  /** One turn, and whether another follows. */
  function Turn(provider: Provider, round: Round, last: bool, shouldRetry: Error -> Decision): (Retried, bool) {
    if round.abortedBefore then (Retried(0, Some(Canceled), 0), false) else
    var a := Run(provider, round.script);
    var count := if a.applied then 1 else 0;
    if a.error.None? || IsOutcomeUnknown(a.error.value) || last then (Retried(count, a.error, 1), false)
    else match shouldRetry(a.error.value)
      case GiveUp => (Retried(count, a.error, 1), false)
      case Broken(id) => (Retried(count, Some(App(id)), 1), false)
      case Again => (Retried(count, if round.abortedInDelay then Some(Canceled) else a.error, 1), !round.abortedInDelay)
  }

  /** The turns from the given one on. */
  function Retry(provider: Provider, rounds: seq<Round>, from: nat, shouldRetry: Error -> Decision): Retried
    requires from < |rounds|
    decreases |rounds| - from
  {
    var last := from == |rounds| - 1;
    var (turn, goesOn) := Turn(provider, rounds[from], last, shouldRetry);
    if last || !goesOn then turn else
    var later := Retry(provider, rounds, from + 1, shouldRetry);
    Retried(turn.applied + later.applied, later.error, turn.attempts + later.attempts)
  }

  ghost predicate AllHonest(provider: Provider, rounds: seq<Round>) {
    forall i :: 0 <= i < |rounds| ==> Honest(provider, rounds[i].script)
  }

  /** What a retry loop may promise: nothing is applied twice; a call that returns was applied exactly if
      the commit acknowledged last had its effect; one that raises a known error was not applied. */
  ghost predicate Bounded(rounds: seq<Round>, from: nat, r: Retried) {
    && r.applied <= 1
    && (r.error.None? ==>
          && 1 <= r.attempts <= |rounds| - from
          && rounds[from + r.attempts - 1].script.commit == Acknowledged(r.applied == 1))
    && (r.error.Some? && !IsOutcomeUnknown(r.error.value) ==> r.applied == 0)
  }

  /** Under any retry policy and any cancellation. */
  lemma {:induction false} AppliedAtMostOnce(
    provider: Provider, rounds: seq<Round>, from: nat, shouldRetry: Error -> Decision)
    requires from < |rounds| && AllHonest(provider, rounds)
    ensures Bounded(rounds, from, Retry(provider, rounds, from, shouldRetry))
    decreases |rounds| - from
  {
    KnownFailureIsUncommitted(provider, rounds[from].script);
    if from + 1 < |rounds| { AppliedAtMostOnce(provider, rounds, from + 1, shouldRetry); }
  }

  /** The attempt of a round raises a known error that the policy wants retried, and neither the attempt
      before it nor the delay after it is canceled. */
  predicate Repeats(provider: Provider, round: Round, shouldRetry: Error -> Decision) {
    var error := Run(provider, round.script).error;
    && !round.abortedBefore && !round.abortedInDelay
    && error.Some? && !IsOutcomeUnknown(error.value) && shouldRetry(error.value).Again?
  }

  /** What the loop ends with at a round from which it does not go on. */
  predicate EndsAt(provider: Provider, round: Round, last: bool, shouldRetry: Error -> Decision, error: Option<Error>) {
    var raised := Run(provider, round.script).error;
    if round.abortedBefore then error == Some(Canceled)
    else if raised.Some? && !IsOutcomeUnknown(raised.value) && !last && shouldRetry(raised.value).Again? then
      error == Some(Canceled)
    else if raised.Some? && !IsOutcomeUnknown(raised.value) && !last && shouldRetry(raised.value).Broken? then
      error == Some(App(shouldRetry(raised.value).id))
    else error == raised
  }

  /** Applied commits among the first attempts. */
  function AppliedIn(provider: Provider, rounds: seq<Round>, from: nat, attempts: nat): nat
    requires from + attempts <= |rounds|
  {
    if attempts == 0 then 0
    else AppliedIn(provider, rounds, from, attempts - 1)
         + if Run(provider, rounds[from + attempts - 1].script).applied then 1 else 0
  }

  lemma {:induction false} AppliedFirst(provider: Provider, rounds: seq<Round>, from: nat, attempts: nat)
    requires 0 < attempts && from + attempts <= |rounds|
    ensures AppliedIn(provider, rounds, from, attempts) ==
            (if Run(provider, rounds[from].script).applied then 1 else 0)
            + AppliedIn(provider, rounds, from + 1, attempts - 1)
  {
    if attempts > 1 { AppliedFirst(provider, rounds, from, attempts - 1); }
  }

  /** An attempt is made exactly when each one before it raised a known error that the policy wanted retried,
      nothing was canceled on the way, and there are rounds left; the call ends as the last round says. */
  lemma {:induction false} AttemptsExactly(
    provider: Provider, rounds: seq<Round>, from: nat, shouldRetry: Error -> Decision)
    requires from < |rounds|
    ensures var r := Retry(provider, rounds, from, shouldRetry);
            && from + r.attempts <= |rounds|
            && (forall k :: from <= k < |rounds| ==>
                  (k < from + r.attempts <==>
                     !rounds[k].abortedBefore && forall i :: from <= i < k ==> Repeats(provider, rounds[i], shouldRetry)))
            && r.applied == AppliedIn(provider, rounds, from, r.attempts)
            && exists j :: from <= j < |rounds|
                 && r.attempts == j - from + (if rounds[j].abortedBefore then 0 else 1)
                 && (forall i :: from <= i < j ==> Repeats(provider, rounds[i], shouldRetry))
                 && (j == |rounds| - 1 || !Repeats(provider, rounds[j], shouldRetry))
                 && EndsAt(provider, rounds[j], j == |rounds| - 1, shouldRetry, r.error)
    decreases |rounds| - from
  {
    hide Run, IsOutcomeUnknown, Bounded;
    var r := Retry(provider, rounds, from, shouldRetry);
    var round := rounds[from];
    if Repeats(provider, round, shouldRetry) && from + 1 < |rounds| {
      AttemptsExactly(provider, rounds, from + 1, shouldRetry);
      AppliedFirst(provider, rounds, from, r.attempts);
    } else {
      assert EndsAt(provider, round, from == |rounds| - 1, shouldRetry, r.error);
    }
  }

  /** The retry loop of the data source; attempt k + 1 meets `rounds[k]`. */
  method ExecuteWithRetry(provider: Provider, rounds: seq<Round>, shouldRetry: Error -> Decision)
    returns (applied: nat, error: Option<Error>, attempts: nat)
    requires |rounds| > 0 && AllHonest(provider, rounds)
    ensures Retried(applied, error, attempts) == Retry(provider, rounds, 0, shouldRetry)
    ensures Bounded(rounds, 0, Retried(applied, error, attempts))
  {
    hide Run, IsOutcomeUnknown, IsTransient, ProvesAbort, Bounded;
    AppliedAtMostOnce(provider, rounds, 0, shouldRetry);
    applied, attempts := 0, 0;
    var attempt := 1;
    while attempt <= |rounds|
      invariant 1 <= attempt <= |rounds| && applied == 0 && attempts == attempt - 1
      invariant var later := Retry(provider, rounds, attempt - 1, shouldRetry);
                Retry(provider, rounds, 0, shouldRetry) == later.(attempts := attempts + later.attempts)
    {
      var round := rounds[attempt - 1];
      if round.abortedBefore {
        error := Some(Canceled);
        return;
      }
      attempts := attempts + 1;
      var a := Run(provider, round.script);
      if a.applied {
        applied := applied + 1;
      }
      error := a.error;
      if error.None? || IsOutcomeUnknown(error.value) || attempt == |rounds| {
        return;
      }
      KnownFailureIsUncommitted(provider, round.script);
      match shouldRetry(error.value) {
        case GiveUp => return;
        case Broken(id) =>
          error := Some(App(id));
          return;
        case Again =>
          if round.abortedInDelay {
            error := Some(Canceled);
            return;
          }
      }
      attempt := attempt + 1;
    }
  }
}
