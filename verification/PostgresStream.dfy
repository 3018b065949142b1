/** Streaming rows through a server-side cursor, and who releases the client that was used.

    Every await of a command and every suspension at a yielded row is a turn of a script: the driver
    answers or rejects, the consumer goes on, leaves or throws, and the abort signal may fire
    meanwhile.  The client is the retained one: once released it rejects every command without sending it,
    and rejects a second release.  The log records what it does send, and its release. */
module PostgresStream {

  type Row = int

  /** A thrown value; a variable that holds no error is `undefined`. */
  datatype Thrown = Undefined | Canceled | ClientReleased | Plain(code: nat)

  /** A driver rejects with an error object. */
  type Failure = error: Thrown | error != Undefined witness Canceled

  datatype Reply = Answered | Rejected(error: Failure)

  datatype Turn = Turn(reply: Reply, aborts: bool)

  datatype Resume = Next | Leave | Raise(error: Thrown)

  datatype Pause = Pause(resume: Resume, aborts: bool)

  /** Turns are those of the commands in order, pauses those at the rows in order.  The answer of a turn is
      that of the driver; a released client gives its own. */
  datatype Script = Script(turns: seq<Turn>, pauses: seq<Pause>) {
    function At(i: nat): Turn {
      if i < |turns| then turns[i] else Turn(Answered, false)
    }

    function PauseAt(i: nat): Pause {
      if i < |pauses| then pauses[i] else Pause(Next, false)
    }
  }

  /** `active`: the connection already holds a client; `gone`: that client was released before. */
  datatype Config = Config(
    rows: seq<Row>, batch: int, active: bool, gone: bool, inTransaction: bool, abortedBefore: bool, connect: Turn)
  {
    predicate OwnsTransaction() { !inTransaction }
    predicate OwnsClient() { !active }
  }

  datatype Sql = Begin | Declare | Fetch | Close | Commit | Rollback

  datatype Event = Command(sql: Sql, answered: bool) | Release(destroy: bool)

  /** `closed` is the client's own memory of its release, `released` that of the stream. */
  datatype State = State(
    log: seq<Event>, delivered: seq<Row>, turn: nat, aborted: bool,
    closed: bool, released: bool, safeToRelease: bool, started: bool, declared: bool)

  const FRESH := State([], [], 0, false, false, false, false, false, false)

  /** How the body of the generator ends. */
  datatype Exit = Ran | Left | Threw(error: Thrown)

  datatype Outcome =
    | Finished
    | LeftEarly
    | BadBatch
    | NotConnected(error: Thrown)
    | Cancellation
    | ProviderError(cause: Thrown)
    | CleanupError(primary: Thrown, cause: Thrown)

  datatype Run = Run(state: State, outcome: Outcome, acquired: bool)

  // ------------------------------------------------------------------------------------------
  // The generator.

  /** The abort listener; a signal fires at most once, and an error of the release is swallowed. */
  function Abort(c: Config, s: State): State {
    if s.aborted then s
    else if c.OwnsTransaction() && !s.released
    then s.(aborted := true, released := true, closed := true, log := if s.closed then s.log else s.log + [Release(true)])
    else s.(aborted := true)
  }

  function Answer(script: Script, s: State): Reply {
    if s.closed then Rejected(ClientReleased) else script.At(s.turn).reply
  }

  function Ask(script: Script, s: State, sql: Sql): State {
    s.(log := if s.closed then s.log else s.log + [Command(sql, script.At(s.turn).reply.Answered?)], turn := s.turn + 1)
  }

  /** A command sent while the listener is registered. */
  function Query(c: Config, script: Script, s: State, sql: Sql): State {
    var asked := Ask(script, s, sql);
    if script.At(s.turn).aborts then Abort(c, asked) else asked
  }

  function Deliver(c: Config, script: Script, s: State, batch: seq<Row>): (State, Exit)
    decreases |batch|
  {
    if batch == [] then (s, Ran)
    else if s.aborted then (s, Threw(Canceled))
    else
      var pause := script.PauseAt(|s.delivered|);
      var yielded := s.(delivered := s.delivered + [batch[0]]);
      var resumed := if pause.aborts then Abort(c, yielded) else yielded;
      match pause.resume
      case Next => Deliver(c, script, resumed, batch[1..])
      case Leave => (resumed, Left)
      case Raise(error) => (resumed, Threw(error))
  }

  function End(c: Config, pos: nat): nat
    requires c.batch >= 1 && pos <= |c.rows|
  {
    if pos + c.batch <= |c.rows| then pos + c.batch else |c.rows|
  }

  function FetchAll(c: Config, script: Script, s: State, pos: nat): (State, Exit)
    requires c.batch >= 1 && pos <= |c.rows|
    decreases |c.rows| - pos
  {
    if s.aborted then (s, Threw(Canceled)) else
    var fetched := Query(c, script, s, Fetch);
    if Answer(script, s).Rejected? then (fetched, Threw(Answer(script, s).error))
    else if fetched.aborted then (fetched, Threw(Canceled))
    else
      var end := End(c, pos);
      var (t, exit) := Deliver(c, script, fetched, c.rows[pos..end]);
      if !exit.Ran? then (t, exit)
      else if end - pos == c.batch then FetchAll(c, script, t, end)
      else if t.aborted then (t, Threw(Canceled))
      else (t, Ran)
  }

  function DeclareAndFetch(c: Config, script: Script, s: State): (State, Exit)
    requires c.batch >= 1
  {
    var declared := Query(c, script, s, Declare);
    if Answer(script, s).Rejected? then (declared, Threw(Answer(script, s).error))
    else FetchAll(c, script, declared.(declared := true), 0)
  }

  function Body(c: Config, script: Script, s: State): (State, Exit)
    requires c.batch >= 1
  {
    if !c.OwnsTransaction() then DeclareAndFetch(c, script, s)
    else
      var begun := Query(c, script, s, Begin);
      if Answer(script, s).Rejected? then (begun, Threw(Answer(script, s).error))
      else DeclareAndFetch(c, script, begun.(started := true))
  }

  function Primary(s: State, exit: Exit): Thrown {
    if !exit.Threw? then Undefined else if s.aborted then Canceled else exit.error
  }

  function CloseCursor(script: Script, s: State, primary: Thrown): (State, Thrown) {
    if !s.released && s.declared && (primary.Undefined? || primary.Canceled?)
    then (Ask(script, s, Close), ErrorOf(Answer(script, s)))
    else (s, Undefined)
  }

  function ErrorOf(reply: Reply): Thrown {
    if reply.Answered? then Undefined else reply.error
  }

  /** The final state and the cleanup error. */
  function Cleanup(c: Config, script: Script, s: State, primary: Thrown): (State, Thrown) {
    var (closed, error) := CloseCursor(script, s, primary);
    if closed.released || !c.OwnsTransaction() || !closed.started then (closed, error)
    else
      var ended := Ask(script, closed, if primary.Undefined? && error.Undefined? then Commit else Rollback);
      var reply := Answer(script, closed);
      if reply.Answered? then (ended.(safeToRelease := true), error)
      else (ended, if error.Undefined? then reply.error else error)
  }

  function OutcomeOf(exit: Exit, primary: Thrown, error: Thrown): Outcome {
    if !error.Undefined? then
      if primary.Undefined? then ProviderError(error) else CleanupError(primary, error)
    else match exit
      case Ran => Finished
      case Left => LeftEarly
      case Threw(_) => if primary.Canceled? then Cancellation else ProviderError(primary)
  }

  function StreamRows(c: Config, script: Script, s: State): (State, Outcome)
    requires c.batch >= 1
  {
    if s.aborted then (s, Cancellation)
    else
      var (t, exit) := Body(c, script, s);
      var primary := Primary(t, exit);
      var (u, error) := Cleanup(c, script, t, primary);
      (u, OutcomeOf(exit, primary, error))
  }

  function ReleaseOwn(c: Config, s: State): State {
    if c.OwnsClient() && !s.released then s.(log := s.log + [Release(!s.safeToRelease)]) else s
  }

  function Unstarted(c: Config): State {
    FRESH.(closed := c.active && c.gone)
  }

  function Start(c: Config): State {
    Unstarted(c).(aborted := c.OwnsClient() && c.connect.aborts)
  }

  /** One stream from its first `next` to its end. */
  function Stream(c: Config, script: Script): Run {
    if c.batch < 1 then Run(Unstarted(c), BadBatch, false)
    else if c.abortedBefore then Run(Unstarted(c), Cancellation, false)
    else if c.OwnsClient() && c.connect.reply.Rejected? then Run(Unstarted(c), NotConnected(c.connect.reply.error), false)
    else
      var (s, outcome) := StreamRows(c, script, Start(c));
      Run(ReleaseOwn(c, s), outcome, c.OwnsClient())
  }

  // ------------------------------------------------------------------------------------------
  // What a log shows.

  function Releases(log: seq<Event>): nat {
    if log == [] then 0 else Releases(log[..|log| - 1]) + if log[|log| - 1].Release? then 1 else 0
  }

  /** Releases that give the client back to the pool intact. */
  function Returns(log: seq<Event>): nat {
    if log == [] then 0 else Returns(log[..|log| - 1]) + if log[|log| - 1] == Release(false) then 1 else 0
  }

  predicate IsEnd(event: Event) {
    event == Command(Commit, true) || event == Command(Rollback, true)
  }

  /** Confirmed commits and rollbacks. */
  function Ends(log: seq<Event>): nat {
    if log == [] then 0 else Ends(log[..|log| - 1]) + if IsEnd(log[|log| - 1]) then 1 else 0
  }

  predicate IsRead(event: Event) {
    event.Command? && (event.sql.Begin? || event.sql.Declare? || event.sql.Fetch?)
  }

  /** The commands sent while the listener was registered. */
  function Reads(log: seq<Event>): nat {
    if log == [] then 0 else Reads(log[..|log| - 1]) + if IsRead(log[|log| - 1]) then 1 else 0
  }

  /** A command was sent to a client already released. */
  predicate UsedAfterRelease(log: seq<Event>) {
    log != [] &&
      (UsedAfterRelease(log[..|log| - 1]) || (log[|log| - 1].Command? && Releases(log[..|log| - 1]) > 0))
  }

  lemma Appended(log: seq<Event>, event: Event)
    ensures Releases(log + [event]) == Releases(log) + if event.Release? then 1 else 0
    ensures Returns(log + [event]) == Returns(log) + if event == Release(false) then 1 else 0
    ensures Ends(log + [event]) == Ends(log) + if IsEnd(event) then 1 else 0
    ensures Reads(log + [event]) == Reads(log) + if IsRead(event) then 1 else 0
    ensures UsedAfterRelease(log + [event]) <==> UsedAfterRelease(log) || (event.Command? && Releases(log) > 0)
  {
    assert (log + [event])[..|log|] == log;
  }

  /** The signal fires at one of the first commands, or while one of the first rows is out. */
  ghost predicate Signalled(script: Script, commands: nat, rows: nat) {
    || (exists i :: 0 <= i < commands && script.At(i).aborts)
    || (exists i :: 0 <= i < rows && script.PauseAt(i).aborts)
  }

  lemma SignalledLater(script: Script, commands: nat, rows: nat)
    ensures Signalled(script, commands + 1, rows) <==> Signalled(script, commands, rows) || script.At(commands).aborts
    ensures Signalled(script, commands, rows + 1) <==> Signalled(script, commands, rows) || script.PauseAt(rows).aborts
  {
  }

  /** While the listener is registered: nothing was ended or given back yet, and a client that was not gone
      is released exactly when the signal fired on an own transaction. */
  ghost predicate Open(c: Config, script: Script, s: State) {
    && (s.released <==> c.OwnsTransaction() && s.aborted)
    && !s.safeToRelease
    && Returns(s.log) == 0 && Ends(s.log) == 0 && !UsedAfterRelease(s.log)
    && if c.active && c.gone then s.closed && s.log == []
       else
         && s.closed == s.released
         && Releases(s.log) == (if s.closed then 1 else 0)
         && (s.aborted <==> Signalled(script, Reads(s.log), |s.delivered|))
         && (!s.closed ==> s.turn == Reads(s.log))
  }

  lemma QueryKeeps(c: Config, script: Script, s: State, sql: Sql)
    requires Open(c, script, s) && IsRead(Command(sql, true))
    ensures Open(c, script, Query(c, script, s, sql))
  {
    hide Signalled, Releases, Returns, Ends, Reads, UsedAfterRelease;
    var command := Command(sql, script.At(s.turn).reply.Answered?);
    Appended(s.log, command);
    Appended(s.log + [command], Release(true));
    SignalledLater(script, Reads(s.log), |s.delivered|);
  }

  /** A row given out, and the turn it takes. */
  lemma YieldKeeps(c: Config, script: Script, s: State, row: Row)
    requires Open(c, script, s) && !s.aborted
    ensures var yielded := s.(delivered := s.delivered + [row]);
            Open(c, script, if script.PauseAt(|s.delivered|).aborts then Abort(c, yielded) else yielded)
  {
    hide Signalled, Releases, Returns, Ends, Reads, UsedAfterRelease;
    Appended(s.log, Release(true));
    SignalledLater(script, Reads(s.log), |s.delivered|);
  }

  /** What the generator's body keeps from `s` to `t`. */
  ghost predicate Kept(c: Config, script: Script, s: State, t: State) {
    Open(c, script, t) && t.started == s.started && t.declared == s.declared
  }

  lemma {:induction false} DeliverKeeps(c: Config, script: Script, s: State, batch: seq<Row>)
    requires Open(c, script, s)
    ensures var (t, exit) := Deliver(c, script, s, batch);
            && Kept(c, script, s, t)
            && t.delivered <= s.delivered + batch
            && (exit.Ran? ==> t.delivered == s.delivered + batch)
    decreases |batch|
  {
    hide Open;
    if batch != [] && !s.aborted {
      YieldKeeps(c, script, s, batch[0]);
      var pause := script.PauseAt(|s.delivered|);
      var yielded := s.(delivered := s.delivered + [batch[0]]);
      var resumed := if pause.aborts then Abort(c, yielded) else yielded;
      assert yielded.delivered + batch[1..] == s.delivered + batch;
      if pause.resume.Next? { DeliverKeeps(c, script, resumed, batch[1..]); }
    }
  }

  lemma {:induction false} FetchKeeps(c: Config, script: Script, s: State, pos: nat)
    requires c.batch >= 1 && pos <= |c.rows| && Open(c, script, s) && s.delivered == c.rows[..pos]
    ensures var (t, exit) := FetchAll(c, script, s, pos);
            && Kept(c, script, s, t)
            && t.delivered <= c.rows
            && (exit.Ran? ==> t.delivered == c.rows && !t.aborted)
    decreases |c.rows| - pos
  {
    hide Deliver, Open, Query;
    if !s.aborted {
      QueryKeeps(c, script, s, Fetch);
      QueryOnlyAsks(c, script, s, Fetch);
      var fetched := Query(c, script, s, Fetch);
      if Answer(script, s).Answered? && !fetched.aborted {
        var end := End(c, pos);
        DeliverKeeps(c, script, fetched, c.rows[pos..end]);
        assert c.rows[..pos] + c.rows[pos..end] == c.rows[..end];
        var (t, exit) := Deliver(c, script, fetched, c.rows[pos..end]);
        if exit.Ran? && end - pos == c.batch { FetchKeeps(c, script, t, end); }
      }
    }
  }

  lemma {:induction false} AskOnlyLogs(c: Config, script: Script, s: State, sql: Sql)
    ensures var t := Ask(script, s, sql);
            t.delivered == s.delivered && t.started == s.started && t.declared == s.declared
    ensures var t := Abort(c, s);
            t.delivered == s.delivered && t.started == s.started && t.declared == s.declared
  {
  }

  lemma {:induction false} QueryOnlyAsks(c: Config, script: Script, s: State, sql: Sql)
    ensures var t := Query(c, script, s, sql);
            t.delivered == s.delivered && t.started == s.started && t.declared == s.declared
  {
    hide Ask, Abort;
    AskOnlyLogs(c, script, s, sql);
    AskOnlyLogs(c, script, Ask(script, s, sql), sql);
  }

  lemma OpenStep(c: Config, script: Script, s: State)
    requires Open(c, script, s)
    ensures Open(c, script, s.(started := true)) && Open(c, script, s.(declared := true))
  {
  }

  lemma DeclareKeeps(c: Config, script: Script, s: State)
    requires c.batch >= 1 && Open(c, script, s) && s.delivered == []
    ensures var (t, exit) := DeclareAndFetch(c, script, s);
            && Open(c, script, t)
            && t.started == s.started
            && t.delivered <= c.rows
            && (exit.Ran? ==> t.delivered == c.rows && !t.aborted && t.declared)
  {
    hide FetchAll, Open, Query;
    QueryKeeps(c, script, s, Declare);
    QueryOnlyAsks(c, script, s, Declare);
    var declared := Query(c, script, s, Declare);
    OpenStep(c, script, declared);
    if Answer(script, s).Answered? { FetchKeeps(c, script, declared.(declared := true), 0); }
  }

  lemma StartOpen(c: Config, script: Script)
    requires !Start(c).aborted
    ensures Open(c, script, Start(c))
  {
  }

  lemma BodyKeeps(c: Config, script: Script)
    requires c.batch >= 1 && !Start(c).aborted
    ensures var (t, exit) := Body(c, script, Start(c));
            && Open(c, script, t)
            && t.delivered <= c.rows
            && (exit.Ran? ==> t.delivered == c.rows && !t.aborted && t.declared && (c.OwnsTransaction() ==> t.started))
  {
    hide DeclareAndFetch, Query, Open;
    StartOpen(c, script);
    if c.OwnsTransaction() {
      QueryKeeps(c, script, Start(c), Begin);
      QueryOnlyAsks(c, script, Start(c), Begin);
      OpenStep(c, script, Query(c, script, Start(c), Begin));
      if Answer(script, Start(c)).Answered? {
        DeclareKeeps(c, script, Query(c, script, Start(c), Begin).(started := true));
      }
    } else {
      DeclareKeeps(c, script, Start(c));
    }
  }

  /** What is known once the listener is gone and the client's transaction ended, if it could be. */
  ghost predicate Closed(c: Config, script: Script, s: State) {
    && Returns(s.log) == 0 && !UsedAfterRelease(s.log)
    && Ends(s.log) == (if s.safeToRelease then 1 else 0) && (s.closed ==> !s.safeToRelease)
    && (s.released ==> s.closed)
    && if c.active && c.gone then s.log == []
       else
         && s.closed == s.released
         && Releases(s.log) == (if s.closed then 1 else 0)
         && (s.released <==> c.OwnsTransaction() && Signalled(script, Reads(s.log), |s.delivered|))
  }

  lemma CleanupKeeps(c: Config, script: Script, s: State, primary: Thrown)
    requires Open(c, script, s)
    ensures var (t, error) := Cleanup(c, script, s, primary);
            && Closed(c, script, t)
            && t.delivered == s.delivered
            && (primary.Undefined? && error.Undefined? && !s.released && s.started && c.OwnsTransaction() ==>
                  t.log != [] && t.log[|t.log| - 1] == Command(Commit, true))
  {
    hide UsedAfterRelease, Releases, Returns, Ends, Reads, Signalled;
    Appended(s.log, Command(Close, script.At(s.turn).reply.Answered?));
    var (closed, error) := CloseCursor(script, s, primary);
    var sql := if primary.Undefined? && error.Undefined? then Commit else Rollback;
    Appended(closed.log, Command(sql, script.At(closed.turn).reply.Answered?));
  }

  // ------------------------------------------------------------------------------------------
  // The promises.

  lemma StreamedKeeps(c: Config, script: Script)
    requires c.batch >= 1 && !Start(c).aborted
    ensures var (t, outcome) := StreamRows(c, script, Start(c));
            && Closed(c, script, t)
            && t.delivered <= c.rows
            && (outcome.Finished? ==>
                  && t.delivered == c.rows
                  && (c.OwnsTransaction() ==> t.log != [] && t.log[|t.log| - 1] == Command(Commit, true)))
  {
    hide Body, Cleanup, Open, Closed;
    BodyKeeps(c, script);
    var (t, exit) := Body(c, script, Start(c));
    CleanupKeeps(c, script, t, Primary(t, exit));
    assert exit.Ran? ==> !t.released by { OpenMeans(c, script, t); }
  }

  lemma OpenMeans(c: Config, script: Script, s: State)
    requires Open(c, script, s)
    ensures s.released ==> s.aborted
  {
  }

  lemma UnusedLog()
    ensures Releases([]) == 0 && Returns([]) == 0 && Ends([]) == 0 && Reads([]) == 0 && !UsedAfterRelease([])
  {
  }

  /** Whatever fails, a client the stream acquired is released exactly once, and goes back to the pool
      intact exactly when a commit or a rollback was confirmed. */
  lemma AcquiredReleasedOnce(c: Config, script: Script)
    ensures var r := Stream(c, script);
            r.acquired ==>
              && Releases(r.state.log) == 1
              && (Returns(r.state.log) == 1 <==> Ends(r.state.log) == 1)
              && (Returns(r.state.log) == 0 <==> Ends(r.state.log) == 0)
  {
    hide StreamRows, UsedAfterRelease, Releases, Returns, Ends, Reads, Signalled;
    UnusedLog();
    if Stream(c, script).acquired {
      if Start(c).aborted { CanceledEarly(c, script); } else { StreamedKeeps(c, script); }
      var s := StreamRows(c, script, Start(c)).0;
      Appended(s.log, Release(!s.safeToRelease));
    }
  }

  lemma CanceledEarly(c: Config, script: Script)
    requires c.batch >= 1 && Start(c).aborted
    ensures StreamRows(c, script, Start(c)) == (Start(c), Cancellation)
  {
  }

  /** In no run is a command sent to a client that was released, by this stream or before it. */
  lemma NeverUsedAfterRelease(c: Config, script: Script)
    ensures var log := Stream(c, script).state.log;
            && !UsedAfterRelease(log) && Releases(log) <= 1
            && (c.active && c.gone ==> log == [])
  {
    hide StreamRows, UsedAfterRelease, Releases, Returns, Ends, Reads, Signalled;
    UnusedLog();
    if c.batch >= 1 {
      if Start(c).aborted { CanceledEarly(c, script); } else { StreamedKeeps(c, script); }
      var s := StreamRows(c, script, Start(c)).0;
      Appended(s.log, Release(!s.safeToRelease));
    }
  }

  /** A client borrowed from a session or a transaction is never given back intact.  It is released, and
      destroyed, exactly when no transaction was open and the signal fired at a command the stream sent or
      while a row it delivered was out. */
  lemma BorrowedReleasedOnAbort(c: Config, script: Script)
    requires c.active && !c.gone && c.batch >= 1 && !c.abortedBefore
    ensures var s := Stream(c, script).state;
            && Returns(s.log) == 0
            && Releases(s.log) == (if !c.inTransaction && Signalled(script, Reads(s.log), |s.delivered|) then 1 else 0)
  {
    hide StreamRows, UsedAfterRelease, Releases, Returns, Ends, Reads, Signalled;
    StreamedKeeps(c, script);
  }

  /** Rows arrive in order, none twice and none skipped; a stream that finishes delivered all of them,
      and its own transaction is committed. */
  lemma RowsInOrder(c: Config, script: Script)
    ensures var r := Stream(c, script);
            && r.state.delivered <= c.rows
            && (r.outcome.Finished? ==>
                  && r.state.delivered == c.rows
                  && (c.OwnsTransaction() ==> Command(Commit, true) in r.state.log))
  {
    hide StreamRows, Closed;
    if c.batch >= 1 {
      if Start(c).aborted { CanceledEarly(c, script); } else { StreamedKeeps(c, script); }
    }
  }

  /** The signal fires while the transaction is being opened, and the server opens it all the same: the
      cursor is declared without a look at the signal, and only the released client refuses to send that. */
  lemma {:induction false} CutInBegin(c: Config, script: Script)
    requires c.active && !c.gone && !c.inTransaction && c.batch >= 1 && !c.abortedBefore
    requires script.At(0) == Turn(Answered, true)
    ensures var r := Stream(c, script);
            && r.state.log == [Command(Begin, true), Release(true)] && r.state.delivered == []
            && r.outcome == Cancellation && !r.acquired
  {
    hide FetchAll;
    var s := Start(c);
    var begun := Query(c, script, s, Begin);
    assert begun.log == [] + [Command(Begin, true)] + [Release(true)] && begun.closed;
    var started := begun.(started := true);
    assert DeclareAndFetch(c, script, started) == (started.(turn := 2), Threw(ClientReleased));
    var t := started.(turn := 2);
    assert Body(c, script, s) == (t, Threw(ClientReleased));
    assert Cleanup(c, script, t, Canceled) == (t, Undefined);
  }

  // ------------------------------------------------------------------------------------------
  // How a stream ends.

  /** What the body ended with: nothing if it read all rows or was left, the cancellation if the signal had
      fired when it threw, else what it threw.  A consumer may throw nothing at all. */
  predicate EndedWith(s: State, exit: Exit, primary: Thrown) {
    if exit.Threw? then primary == (if s.aborted then Canceled else exit.error) else primary == Undefined
  }

  /** The cursor is closed if it was declared, unless the body failed. */
  predicate Closes(s: State, primary: Thrown) {
    s.declared && !s.closed && primary in {Undefined, Canceled}
  }

  /** An own transaction that was opened is ended. */
  predicate EndsTransaction(c: Config, s: State) {
    !c.inTransaction && s.started && !s.closed
  }

  /** After the body the stream closes the cursor and ends its own transaction, by a commit exactly if the body
      ended with nothing and the close was answered; also when the consumer left early.  The outcome is that of
      the body, unless one of the two was rejected: the first such error is raised, wrapping the body's. */
  lemma EndsExactly(c: Config, script: Script)
    requires c.batch >= 1 && !Start(c).aborted && !(c.active && c.gone)
    ensures var (s, exit) := Body(c, script, Start(c));
            var (t, outcome) := StreamRows(c, script, Start(c));
            exists primary :: EndedWith(s, exit, primary) && EndedSo(c, script, s, exit, primary, t, outcome)
  {
    hide Body, Open;
    BodyKeeps(c, script);
    var (s, exit) := Body(c, script, Start(c));
    var primary := Primary(s, exit);
    var (t, outcome) := StreamRows(c, script, Start(c));
    ReleasedIsClosed(c, script, s);
    assert EndedWith(s, exit, primary);
    CleanupExactly(c, script, s, exit, primary);
    assert EndedSo(c, script, s, exit, primary, t, outcome);
  }

  lemma ReleasedIsClosed(c: Config, script: Script, s: State)
    requires Open(c, script, s) && !(c.active && c.gone)
    ensures s.released == s.closed
  {
  }

  /** A stream is refused before it starts for a batch size below one, a signal fired before, or a connection that
      could not be had, in this order; then nothing is acquired, sent or delivered. */
  lemma RefusedExactly(c: Config, script: Script)
    ensures var r := Stream(c, script);
            && (r.outcome.BadBatch? <==> c.batch < 1)
            && (r.outcome.NotConnected? <==>
                  c.batch >= 1 && !c.abortedBefore && c.OwnsClient() && c.connect.reply.Rejected?)
            && (r.outcome.NotConnected? ==> r.outcome.error == c.connect.reply.error)
            && (c.batch >= 1 && c.abortedBefore ==> r.outcome.Cancellation?)
            && (r.outcome.BadBatch? || r.outcome.NotConnected? || c.abortedBefore ==>
                  !r.acquired && r.state.log == [] && r.state.delivered == [])
  {
    hide Body, Cleanup;
  }

  /** Where the body stopped: at a rejected command, at a row, or at the signal. */
  ghost predicate StoppedAt(script: Script, s: State, exit: Exit) {
    match exit
    case Ran => true
    case Left => s.delivered != [] && script.PauseAt(|s.delivered| - 1).resume.Leave?
    case Threw(error) =>
      || s.aborted
      || (s.turn > 0 && script.At(s.turn - 1).reply.Rejected? && script.At(s.turn - 1).reply.error == error)
      || (s.delivered != [] && script.PauseAt(|s.delivered| - 1).resume == Raise(error))
  }

  lemma {:induction false} DeliverStops(c: Config, script: Script, s: State, batch: seq<Row>)
    ensures var (t, exit) := Deliver(c, script, s, batch); StoppedAt(script, t, exit)
    decreases |batch|
  {
    if batch != [] && !s.aborted {
      var pause := script.PauseAt(|s.delivered|);
      var yielded := s.(delivered := s.delivered + [batch[0]]);
      var resumed := if pause.aborts then Abort(c, yielded) else yielded;
      if pause.resume.Next? { DeliverStops(c, script, resumed, batch[1..]); }
    }
  }

  lemma {:induction false} FetchStops(c: Config, script: Script, s: State, pos: nat)
    requires c.batch >= 1 && pos <= |c.rows| && (s.closed ==> s.aborted)
    ensures var (t, exit) := FetchAll(c, script, s, pos); StoppedAt(script, t, exit)
    decreases |c.rows| - pos
  {
    if !s.aborted {
      var fetched := Query(c, script, s, Fetch);
      if Answer(script, s).Answered? && !fetched.aborted {
        var end := End(c, pos);
        DeliverStops(c, script, fetched, c.rows[pos..end]);
        DeliverClosed(c, script, fetched, c.rows[pos..end]);
        var (t, exit) := Deliver(c, script, fetched, c.rows[pos..end]);
        hide Query, Deliver;
        if exit.Ran? && end - pos == c.batch { FetchStops(c, script, t, end); }
      }
    }
  }

  lemma {:induction false} DeliverClosed(c: Config, script: Script, s: State, batch: seq<Row>)
    requires s.closed ==> s.aborted
    ensures var t := Deliver(c, script, s, batch).0; t.closed ==> t.aborted
    decreases |batch|
  {
    if batch != [] && !s.aborted {
      var pause := script.PauseAt(|s.delivered|);
      var yielded := s.(delivered := s.delivered + [batch[0]]);
      var resumed := if pause.aborts then Abort(c, yielded) else yielded;
      if pause.resume.Next? { DeliverClosed(c, script, resumed, batch[1..]); }
    }
  }

  /** The body throws what the driver or the consumer gave it: the error of its last command or of the last row;
      it is left at the last row; and anything else it throws once the signal has fired. */
  lemma {:induction false} BodyStops(c: Config, script: Script)
    requires c.batch >= 1 && !Start(c).aborted && !(c.active && c.gone)
    ensures var (s, exit) := Body(c, script, Start(c)); StoppedAt(script, s, exit)
  {
    var s := Start(c);
    if c.OwnsTransaction() {
      var begun := Query(c, script, s, Begin);
      if Answer(script, s).Answered? { DeclareStops(c, script, begun.(started := true)); }
    } else {
      DeclareStops(c, script, s);
    }
  }

  lemma {:induction false} DeclareStops(c: Config, script: Script, s: State)
    requires c.batch >= 1 && (s.closed ==> s.aborted)
    ensures var (t, exit) := DeclareAndFetch(c, script, s); StoppedAt(script, t, exit)
  {
    hide FetchAll;
    var declared := Query(c, script, s, Declare);
    if Answer(script, s).Answered? { FetchStops(c, script, declared.(declared := true), 0); }
  }

  /** The commands after the body, their errors, and the outcome. */
  ghost predicate EndedSo(
    c: Config, script: Script, s: State, exit: Exit, primary: Thrown, t: State, outcome: Outcome)
  {
    var close, end := Closes(s, primary), EndsTransaction(c, s);
    var first := script.At(s.turn).reply;
    var refused := close && first.Rejected?;
    var last := script.At(if close then s.turn + 1 else s.turn).reply;
    var commits := primary == Undefined && !refused;
    && t.log == s.log + (if close then [Command(Close, first.Answered?)] else [])
                + (if end then [Command(if commits then Commit else Rollback, last.Answered?)] else [])
    && t.delivered == s.delivered
    && (refused ==> outcome == Raised(primary, first.error))
    && (!refused && end && last.Rejected? ==> outcome == Raised(primary, last.error))
    && (!refused && !(end && last.Rejected?) ==>
          && (exit.Ran? <==> outcome.Finished?) && (exit.Left? <==> outcome.LeftEarly?)
          && (exit.Threw? && primary == Canceled ==> outcome == Cancellation)
          && (exit.Threw? && primary != Canceled ==> outcome == ProviderError(primary)))
  }

  /** The error of a cleanup command, after a body that ended with nothing or with an error. */
  function Raised(primary: Thrown, error: Thrown): Outcome {
    if primary == Undefined then ProviderError(error) else CleanupError(primary, error)
  }

  lemma CleanupExactly(c: Config, script: Script, s: State, exit: Exit, primary: Thrown)
    requires EndedWith(s, exit, primary) && s.released == s.closed
    ensures var (t, error) := Cleanup(c, script, s, primary);
            EndedSo(c, script, s, exit, primary, t, OutcomeOf(exit, primary, error))
  {
    assert s.log + [] == s.log;
    var (closed, error) := CloseCursor(script, s, primary);
    assert closed.log == s.log + if Closes(s, primary) then [Command(Close, script.At(s.turn).reply.Answered?)] else [];
    assert closed.log + [] == closed.log;
  }

  // ------------------------------------------------------------------------------------------
  // The undisturbed run.

  ghost predicate Quiet(script: Script) {
    && (forall i: nat :: script.At(i) == Turn(Answered, false))
    && (forall i: nat :: script.PauseAt(i) == Pause(Next, false))
  }

  function Fetches(k: nat): (log: seq<Event>)
    ensures |log| == k
  {
    seq(k, _ => Command(Fetch, true))
  }

  lemma {:induction false} QuietDeliver(c: Config, script: Script, s: State, batch: seq<Row>)
    requires Quiet(script) && !s.aborted && !s.closed
    ensures Deliver(c, script, s, batch) == (s.(delivered := s.delivered + batch), Ran)
    decreases |batch|
  {
    if batch != [] {
      QuietDeliver(c, script, s.(delivered := s.delivered + [batch[0]]), batch[1..]);
      assert s.delivered + [batch[0]] + batch[1..] == s.delivered + batch;
    } else {
      assert s.delivered + batch == s.delivered;
    }
  }

  lemma {:induction false} QuietFetch(c: Config, script: Script, s: State, pos: nat)
    requires Quiet(script) && c.batch >= 1 && pos <= |c.rows| && !s.aborted && !s.closed && s.delivered == c.rows[..pos]
    ensures var k := (|c.rows| - pos) / c.batch + 1;
            FetchAll(c, script, s, pos) ==
            (s.(log := s.log + Fetches(k), turn := s.turn + k, delivered := c.rows), Ran)
    decreases |c.rows| - pos
  {
    hide Deliver, Fetches;
    var end := End(c, pos);
    var fetched := Ask(script, s, Fetch);
    assert script.At(s.turn) == Turn(Answered, false);
    QuietDeliver(c, script, fetched, c.rows[pos..end]);
    assert c.rows[..pos] + c.rows[pos..end] == c.rows[..end];
    assert c.rows[..|c.rows|] == c.rows;
    if end - pos == c.batch {
      QuietFetch(c, script, fetched.(delivered := c.rows[..end]), end);
      OneLess(|c.rows| - pos, c.batch);
      MoreFetches(s.log, (|c.rows| - end) / c.batch + 1);
    } else {
      OneFetch();
      assert (|c.rows| - pos) / c.batch == 0 by { NoneWhole(|c.rows| - pos, c.batch); }
    }
  }

  lemma OneLess(n: nat, b: nat)
    requires 0 < b <= n
    ensures n / b == (n - b) / b + 1
  {
    var q, r := (n - b) / b, (n - b) % b;
    assert n - b == b * q + r;
    Quotient(n, b, q + 1, r);
  }

  lemma {:induction false} NextMultiple(b: nat, p: int, q: int)
    ensures p < q ==> b * p + b <= b * q
    decreases q - p
  {
    if p + 1 < q {
      NextMultiple(b, p, q - 1);
      assert b * q == b * (q - 1) + b;
    } else if p < q {
      assert b * (p + 1) == b * p + b;
    }
  }

  lemma Quotient(n: nat, b: nat, q: nat, r: nat)
    requires b > 0 && n == b * q + r && r < b
    ensures n / b == q
  {
    var p := n / b;
    assert n == b * p + n % b;
    NextMultiple(b, p, q);
    NextMultiple(b, q, p);
  }

  lemma NoneWhole(n: nat, b: nat)
    requires n < b
    ensures n / b == 0
  {
  }

  lemma OneFetch()
    ensures Fetches(1) == [Command(Fetch, true)]
  {
  }

  lemma MoreFetches(log: seq<Event>, k: nat)
    ensures log + [Command(Fetch, true)] + Fetches(k) == log + Fetches(k + 1)
  {
  }

  /** The commands around the fetches. */
  function Opening(c: Config): seq<Event> {
    if c.OwnsTransaction() then [Command(Begin, true), Command(Declare, true)] else [Command(Declare, true)]
  }

  function Closing(c: Config): seq<Event> {
    if c.OwnsTransaction() then [Command(Close, true), Command(Commit, true)] else [Command(Close, true)]
  }

  /** The client is there: delivered now, or held by the connection and not released. */
  predicate HasClient(c: Config) {
    if c.active then !c.gone else c.connect == Turn(Answered, false)
  }

  lemma QuietBody(c: Config, script: Script)
    requires Quiet(script) && c.batch >= 1 && HasClient(c)
    ensures var k := |c.rows| / c.batch + 1;
            Body(c, script, Start(c)) ==
            (State(Opening(c) + Fetches(k), c.rows, |Opening(c)| + k,
                   false, false, false, false, c.OwnsTransaction(), true), Ran)
  {
    hide FetchAll, Fetches;
    assert script.At(0) == script.At(1) == Turn(Answered, false);
    if c.OwnsTransaction() {
      var begun := FRESH.(log := [] + [Command(Begin, true)], turn := 1, started := true);
      var declared := begun.(log := begun.log + [Command(Declare, true)], turn := 2, declared := true);
      QuietFetch(c, script, declared, 0);
      assert declared.log == [Command(Begin, true), Command(Declare, true)];
      assert DeclareAndFetch(c, script, begun) == FetchAll(c, script, declared, 0);
    } else {
      var declared := FRESH.(log := [] + [Command(Declare, true)], turn := 1, declared := true);
      QuietFetch(c, script, declared, 0);
      assert declared.log == [Command(Declare, true)];
      assert DeclareAndFetch(c, script, FRESH) == FetchAll(c, script, declared, 0);
    }
  }

  /** n rows in batches of b: one fetch per full batch and one more, between declaration and close; n / b + 3
      commands inside a transaction and n / b + 5 with one of its own.  A client the stream acquired goes back
      intact if a commit was confirmed, and a borrowed one stays where it is. */
  lemma UndisturbedRun(c: Config, script: Script)
    requires Quiet(script) && c.batch >= 1 && !c.abortedBefore && HasClient(c)
    ensures var r := Stream(c, script);
            && r.outcome.Finished? && r.state.delivered == c.rows
            && r.state.turn == |c.rows| / c.batch + (if c.inTransaction then 3 else 5)
            && r.state.log == Opening(c) + Fetches(|c.rows| / c.batch + 1) + Closing(c)
                              + (if c.active then [] else [Release(c.inTransaction)])
  {
    hide Body, Cleanup, Fetches, Quiet;
    var k := |c.rows| / c.batch + 1;
    QuietBody(c, script);
    QuietCleanup(c, script, Opening(c) + Fetches(k), |Opening(c)| + k);
  }

  lemma QuietCleanup(c: Config, script: Script, log: seq<Event>, turn: nat)
    requires Quiet(script)
    ensures var owns := c.OwnsTransaction();
            var s := State(log, c.rows, turn, false, false, false, false, owns, true);
            Cleanup(c, script, s, Undefined) ==
            (s.(log := log + Closing(c), turn := turn + |Closing(c)|, safeToRelease := owns), Undefined)
  {
    assert script.At(turn) == script.At(turn + 1) == Turn(Answered, false);
    assert log + [Command(Close, true)] + [Command(Commit, true)] == log + [Command(Close, true), Command(Commit, true)];
  }

  // ------------------------------------------------------------------------------------------
  // The generator as the source writes it, step by step.

  class RowStream {
    const c: Config
    const script: Script
    var log: seq<Event>
    var delivered: seq<Row>
    var turn: nat
    var aborted: bool
    var closed: bool
    var released: bool
    var safeToRelease: bool
    var transactionStarted: bool
    var cursorDeclared: bool

    constructor (c: Config, script: Script)
      ensures this.c == c && this.script == script && Now() == Unstarted(c)
    {
      this.c := c;
      this.script := script;
      log, delivered, turn, closed := [], [], 0, c.active && c.gone;
      aborted, released, safeToRelease, transactionStarted, cursorDeclared := false, false, false, false, false;
    }

    ghost function Now(): State
      reads this
    {
      State(log, delivered, turn, aborted, closed, released, safeToRelease, transactionStarted, cursorDeclared)
    }

    method Fire()
      modifies this
      ensures Now() == Abort(c, old(Now()))
    {
      if !aborted {
        aborted := true;
        if c.OwnsTransaction() && !released {
          released := true;
          if !closed {
            closed := true;
            log := log + [Release(true)];
          }
        }
      }
    }

    /** The query method of the retained client: once released it sends nothing and refuses, before that it
        sends exactly this command and passes the driver's answer on. */
    method Send(sql: Sql) returns (reply: Reply)
      modifies `log, `turn
      ensures old(closed) ==> log == old(log) && reply == Rejected(ClientReleased)
      ensures !old(closed) ==>
        log == old(log) + [Command(sql, reply.Answered?)] && reply == script.At(old(turn)).reply
      ensures turn == old(turn) + 1
    {
      turn := turn + 1;
      if closed {
        return Rejected(ClientReleased);
      }
      reply := script.At(turn - 1).reply;
      log := log + [Command(sql, reply.Answered?)];
    }

    method SendListening(sql: Sql) returns (reply: Reply)
      modifies this
      ensures Now() == Query(c, script, old(Now()), sql) && reply == Answer(script, old(Now()))
    {
      var aborts := script.At(turn).aborts;
      reply := Send(sql);
      if aborts {
        Fire();
      }
    }

    method YieldRows(batch: seq<Row>) returns (exit: Exit)
      modifies this
      ensures (Now(), exit) == Deliver(c, script, old(Now()), batch)
    {
      for i := 0 to |batch|
        invariant Deliver(c, script, Now(), batch[i..]) == Deliver(c, script, old(Now()), batch)
      {
        assert batch[i..][1..] == batch[i + 1..];
        if aborted {
          return Threw(Canceled);
        }
        var pause := script.PauseAt(|delivered|);
        delivered := delivered + [batch[i]];
        if pause.aborts {
          Fire();
        }
        match pause.resume {
          case Next =>
          case Leave => return Left;
          case Raise(error) => return Threw(error);
        }
      }
      exit := Ran;
    }

    method FetchRows() returns (exit: Exit)
      requires c.batch >= 1
      modifies this
      ensures (Now(), exit) == FetchAll(c, script, old(Now()), 0)
    {
      hide Query, Deliver;
      var pos, hasRows := 0, true;
      while hasRows
        invariant pos <= |c.rows|
        invariant hasRows ==> FetchAll(c, script, Now(), pos) == FetchAll(c, script, old(Now()), 0)
        invariant !hasRows ==>
          (Now(), if aborted then Threw(Canceled) else Ran) == FetchAll(c, script, old(Now()), 0)
        decreases if hasRows then |c.rows| - pos + 1 else 0
      {
        if aborted {
          return Threw(Canceled);
        }
        var reply := SendListening(Fetch);
        if reply.Rejected? {
          return Threw(reply.error);
        }
        if aborted {
          return Threw(Canceled);
        }
        var end := End(c, pos);
        hasRows := end - pos == c.batch;
        exit := YieldRows(c.rows[pos..end]);
        if !exit.Ran? {
          return;
        }
        pos := end;
      }
      exit := if aborted then Threw(Canceled) else Ran;
    }

    method ReadRows() returns (exit: Exit)
      requires c.batch >= 1
      modifies this
      ensures (Now(), exit) == Body(c, script, old(Now()))
    {
      hide Query, FetchAll;
      if c.OwnsTransaction() {
        var begun := SendListening(Begin);
        if begun.Rejected? {
          return Threw(begun.error);
        }
        transactionStarted := true;
      }
      var declared := SendListening(Declare);
      if declared.Rejected? {
        return Threw(declared.error);
      }
      cursorDeclared := true;
      exit := FetchRows();
    }

    method CleanUp(primary: Thrown) returns (error: Thrown)
      modifies this
      ensures (Now(), error) == Cleanup(c, script, old(Now()), primary)
    {
      error := Undefined;
      if !released && cursorDeclared && (primary.Undefined? || primary.Canceled?) {
        var closed := Send(Close);
        if closed.Rejected? {
          error := closed.error;
        }
      }
      if !released && c.OwnsTransaction() && transactionStarted {
        var ended := Send(if primary.Undefined? && error.Undefined? then Commit else Rollback);
        if ended.Answered? {
          safeToRelease := true;
        } else if error.Undefined? {
          error := ended.error;
        }
      }
    }

    /** What the final state promises is stated by `AcquiredReleasedOnce` and `RowsInOrder`. */
    method Consume() returns (outcome: Outcome, acquired: bool)
      requires Now() == Unstarted(c)
      modifies this
      ensures Run(Now(), outcome, acquired) == Stream(c, script)
    {
      hide Body, Cleanup;
      if c.batch < 1 {
        return BadBatch, false;
      }
      if c.abortedBefore {
        return Cancellation, false;
      }
      if c.OwnsClient() {
        if c.connect.reply.Rejected? {
          return NotConnected(c.connect.reply.error), false;
        }
        aborted := c.connect.aborts;
      }
      acquired := c.OwnsClient();
      if aborted {
        outcome := Cancellation;
      } else {
        var exit := ReadRows();
        var primary := if !exit.Threw? then Undefined else if aborted then Canceled else exit.error;
        var error := CleanUp(primary);
        outcome := OutcomeOf(exit, primary, error);
      }
      if c.OwnsClient() && !released {
        log := log + [Release(!safeToRelease)];
      }
    }
  }
}
