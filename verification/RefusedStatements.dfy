/** Why the condition of `CleanRuns` on Postgres trees is exact: where a refused statement may hurt, a script
    of replies with working cleanup lets it.  The script is built along the run, one command after another. */
module RefusedStatements {
  import opened Options
  import opened Savepoints
  import opened NestedTransactions
  import opened FailureRecord
  import opened SavedRows
  import opened CleanRuns

  // ------------------------------------------------------------------------------------------
  // A run depends on no reply but those to the commands it sends.

  ghost predicate SameReplies(a: Env, b: Env, from: nat, to: nat) {
    a.engine == b.engine && forall i: nat :: from <= i < to ==> a.At(i) == b.At(i)
  }

  lemma {:induction false} WorkLocal(a: Env, b: Env, work: Work, s: State)
    requires SameReplies(a, b, s.sent, RunWork(a, work, s).state.sent)
    ensures RunWork(b, work, s) == RunWork(a, work, s)
    decreases work, 0
  {
    hide Send, Mark;
    match work
    case Return =>
    case Throw(_) =>
    case Rethrow(_) =>
    case Write(row, next, failed) =>
      var (after, ok) := Exec(a, s, Insert(row), a.At(s.sent).write);
      WorkLocal(a, b, if ok then next else failed, if ok then after else Catch(after, Driver(StatementOp, s.sent)));
    case Nest(inner, abort, next, failed) =>
      hide RunNested;
      var n := RunNested(a, inner, abort, s);
      NestedLocal(a, b, inner, abort, s);
      WorkLocal(a, b, if n.outcome.Returned? then next else failed, Resume(n));
  }

  lemma {:induction false} NestedLocal(a: Env, b: Env, inner: Work, abort: Abort, s: State)
    requires SameReplies(a, b, s.sent, RunNested(a, inner, abort, s).state.sent)
    ensures RunNested(b, inner, abort, s) == RunNested(a, inner, abort, s)
    decreases inner, 3
  {
    hide *;
    var name, entered := s.depth, s.(depth := s.depth + 1);
    var (begun, ok) := Exec(a, entered, Establish(name), a.At(entered.sent).establish);
    ObservedLocal(a, b, inner, abort, s, entered);
    Windows(a, name, inner, abort, entered, begun, ok);
    SameWithin(a, b, s.sent, RunNested(a, inner, abort, s).state.sent);
    if !abort.BeforeSavepoint? && ok && RunsWork(abort) {
      WorkLocal(a, b, inner, begun);
      GuardedLocal(a, b, name, inner, abort, begun);
    }
    SavepointLocal(a, b, name, inner, abort, entered, begun, ok);
  }

  lemma SameWithin(a: Env, b: Env, from: nat, to: nat)
    requires SameReplies(a, b, from, to)
    ensures forall i: nat, j: nat :: from <= i && j <= to ==> SameReplies(a, b, i, j)
    ensures forall i: nat :: from <= i < to ==> a.At(i) == b.At(i)
    ensures a.engine == b.engine
  {
  }

  lemma ObservedLocal(a: Env, b: Env, inner: Work, abort: Abort, s: State, entered: State)
    requires entered == s.(depth := s.depth + 1)
    ensures RunNested(a, inner, abort, s).state.sent == RunSavepoint(a, s.depth, inner, abort, entered).state.sent
    ensures RunSavepoint(b, s.depth, inner, abort, entered) == RunSavepoint(a, s.depth, inner, abort, entered) ==>
              RunNested(b, inner, abort, s) == RunNested(a, inner, abort, s)
    ensures entered.sent == s.sent
  {
    hide RunSavepoint;
  }

  /** The commands of a nested call come one after the other. */
  lemma Windows(env: Env, name: nat, inner: Work, abort: Abort, s: State, begun: State, ok: bool)
    requires (begun, ok) == Exec(env, s, Establish(name), env.At(s.sent).establish)
    ensures var n := RunSavepoint(env, name, inner, abort, s);
            && begun.sent == s.sent + 1
            && (!abort.BeforeSavepoint? ==> begun.sent <= n.state.sent)
            && (!abort.BeforeSavepoint? && ok && RunsWork(abort) ==>
                  var r, g := RunWork(env, inner, begun), WorkThenRelease(env, name, inner, abort, begun);
                  begun.sent <= r.state.sent <= g.state.sent <= n.state.sent
                  && (g.outcome.Threw? ==> n.state.sent == Undo(env, name, g).state.sent))
            && (!abort.BeforeSavepoint? && ok && abort.AfterSavepoint? && !env.engine.Sqlite? ==>
                  n.state.sent == Undo(env, name, Run(begun, Threw(Canceled), Stopped)).state.sent)
  {
    hide Send, RunWork, RunSavepoint, Undo, WorkThenRelease;
    SavepointGoes(env, name, inner, abort, s);
    GuardedSends(env, name, inner, abort, begun);
  }

  lemma SavepointLocal(a: Env, b: Env, name: nat, inner: Work, abort: Abort, s: State, begun: State, ok: bool)
    requires a.engine == b.engine
    requires !abort.BeforeSavepoint? ==> a.At(s.sent) == b.At(s.sent)
    requires (begun, ok) == Exec(a, s, Establish(name), a.At(s.sent).establish)
    requires !abort.BeforeSavepoint? && ok && RunsWork(abort) ==>
               var g := WorkThenRelease(a, name, inner, abort, begun);
               && WorkThenRelease(b, name, inner, abort, begun) == g
               && (g.outcome.Threw? ==> SameReplies(a, b, g.state.sent, Undo(a, name, g).state.sent))
    requires !abort.BeforeSavepoint? && ok && abort.AfterSavepoint? && !a.engine.Sqlite? ==>
               SameReplies(a, b, begun.sent, Undo(a, name, Run(begun, Threw(Canceled), Stopped)).state.sent)
    ensures RunSavepoint(b, name, inner, abort, s) == RunSavepoint(a, name, inner, abort, s)
  {
    hide Send, RunWork, RunSavepoint, Undo, WorkThenRelease, SameReplies;
    SavepointGoes(a, name, inner, abort, s);
    SavepointGoes(b, name, inner, abort, s);
    if !abort.BeforeSavepoint? && ok {
      var g := WorkThenRelease(a, name, inner, abort, begun);
      if RunsWork(abort) && g.outcome.Threw? { UndoLocal(a, b, name, g); }
      if abort.AfterSavepoint? && !a.engine.Sqlite? { UndoLocal(a, b, name, Run(begun, Threw(Canceled), Stopped)); }
    }
  }

  lemma GuardedSends(env: Env, name: nat, inner: Work, abort: Abort, begun: State)
    ensures begun.sent <= RunWork(env, inner, begun).state.sent <= WorkThenRelease(env, name, inner, abort, begun).state.sent
  {
    hide RunWork, Send;
  }

  lemma GuardedLocal(a: Env, b: Env, name: nat, inner: Work, abort: Abort, begun: State)
    requires RunWork(b, inner, begun) == RunWork(a, inner, begun)
    requires SameReplies(a, b, RunWork(a, inner, begun).state.sent, WorkThenRelease(a, name, inner, abort, begun).state.sent)
    ensures WorkThenRelease(b, name, inner, abort, begun) == WorkThenRelease(a, name, inner, abort, begun)
  {
    hide RunWork, Send;
  }

  lemma UndoLocal(a: Env, b: Env, name: nat, r: Run)
    requires r.outcome.Threw? && SameReplies(a, b, r.state.sent, Undo(a, name, r).state.sent)
    ensures Undo(b, name, r) == Undo(a, name, r)
  {
    hide Send;
  }

  // ------------------------------------------------------------------------------------------
  // Harm done stays.

  /** A callback throws again only errors that it caught itself, and not past a nested call: the latest
      `mine` are its own. */
  predicate Direct(work: Work, mine: nat) {
    match work
    case Return => true
    case Throw(_) => true
    case Rethrow(back) => back < mine
    case Write(_, next, failed) => Direct(next, mine) && Direct(failed, mine + 1)
    case Nest(inner, _, next, failed) => Direct(inner, 0) && Direct(next, 0) && Direct(failed, 1)
  }

  ghost predicate NotAmong(caught: seq<Error>, mine: nat, f: Error) {
    mine <= |caught| && forall b :: 0 <= b < mine ==> Again(caught, b) != f
  }

  /** On record, and made by an earlier command. */
  ghost predicate OnRecord(s: State, f: Error) {
    s.failure == Some(f) && s.recovered == {} && Old(Some(f), s.sent)
  }

  lemma UndoKeepsFailure(env: Env, name: nat, g: Run, f: Error)
    requires g.outcome.Threw? && g.outcome != Threw(f) && OnRecord(g.state, f)
    ensures var n := Undo(env, name, g);
            && n.state.failure == Some(f) && n.outcome.Threw? && n.outcome != Threw(f) && Old(Some(f), n.state.sent)
            && (n.state.recovered == {} || n.state.recovered == {n.outcome.error})
  {
    hide Send;
    assert {} + {g.outcome.error} == {g.outcome.error};
  }

  lemma GuardedKeepsFailure(env: Env, name: nat, inner: Work, abort: Abort, begun: State, f: Error)
    requires var r := RunWork(env, inner, begun); OnRecord(r.state, f) && r.outcome != Threw(f)
    ensures var g := WorkThenRelease(env, name, inner, abort, begun); OnRecord(g.state, f) && g.outcome != Threw(f)
  {
    hide RunWork, Send;
  }

  lemma ObservedKeepsFailure(n: Scope, f: Error)
    requires n.state.failure == Some(f) && n.outcome != Threw(f) && Old(Some(f), n.state.sent)
    requires n.state.recovered == {} || (n.outcome.Threw? && n.state.recovered == {n.outcome.error})
    ensures OnRecord(if n.outcome.Threw? then ObserveNestedFailure(n.state, n.outcome.error) else n.state, f)
  {
    if n.outcome.Threw? {
      assert {n.outcome.error} - {n.outcome.error} == {};
      assert {} - {n.outcome.error} == {};
    }
  }

  /** A nested call with the failure on record: before it, or after the work inside. */
  lemma {:induction false} NestedKeepsFailure(env: Env, inner: Work, abort: Abort, s: State, f: Error)
    requires var (begun, ok) := Exec(env, s.(depth := s.depth + 1), Establish(s.depth), env.At(s.sent).establish);
             if ok && RunsWork(abort) then var r := RunWork(env, inner, begun); OnRecord(r.state, f) && r.outcome != Threw(f)
             else OnRecord(s, f)
    ensures var n := RunNested(env, inner, abort, s); OnRecord(n.state, f) && n.outcome != Threw(f)
  {
    hide Send, RunWork, RunSavepoint, Undo, WorkThenRelease, ObserveNestedFailure;
    var name, entered := s.depth, s.(depth := s.depth + 1);
    var (begun, ok) := Exec(env, entered, Establish(name), env.At(s.sent).establish);
    SavepointGoes(env, name, inner, abort, entered);
    if ok && RunsWork(abort) {
      GuardedKeepsFailure(env, name, inner, abort, begun, f);
      var g := WorkThenRelease(env, name, inner, abort, begun);
      if g.outcome.Threw? { UndoKeepsFailure(env, name, g, f); }
    } else if ok && abort.AfterSavepoint? {
      UndoKeepsFailure(env, name, Run(begun, Threw(Canceled), Stopped), f);
    }
    ObservedKeepsFailure(RunSavepoint(env, name, inner, abort, entered), f);
  }

  /** No later callback throws an error that it did not catch itself, so nobody recovers from it. */
  lemma {:induction false} NeverAgain(env: Env, work: Work, s: State, mine: nat, f: Error)
    requires Direct(work, mine) && OnRecord(s, f) && NotAmong(s.caught, mine, f)
    ensures var r := RunWork(env, work, s); OnRecord(r.state, f) && r.outcome != Threw(f)
    decreases work, 0
  {
    hide Send, Mark;
    match work
    case Return =>
    case Throw(_) =>
    case Rethrow(_) =>
    case Write(row, next, failed) =>
      var (after, ok) := Exec(env, s, Insert(row), env.At(s.sent).write);
      if ok { NeverAgain(env, next, after, mine, f); }
      else {
        CaughtElse(s.caught, mine, Driver(StatementOp, s.sent), f);
        NeverAgain(env, failed, Catch(after, Driver(StatementOp, s.sent)), mine + 1, f);
      }
    case Nest(inner, abort, next, failed) =>
      var begun := Exec(env, s.(depth := s.depth + 1), Establish(s.depth), env.At(s.sent).establish).0;
      NeverAgain(env, inner, begun, 0, f);
      NestedKeepsFailure(env, inner, abort, s, f);
      hide RunNested;
      var n := RunNested(env, inner, abort, s);
      if n.outcome.Returned? { NeverAgain(env, next, Resume(n), 0, f); }
      else {
        CaughtElse(n.state.caught, 0, n.outcome.error, f);
        NeverAgain(env, failed, Resume(n), 1, f);
      }
  }

  lemma CaughtElse(caught: seq<Error>, mine: nat, error: Error, f: Error)
    requires NotAmong(caught, mine, f) && error != f
    ensures NotAmong(caught + [error], mine + 1, f)
  {
    forall b | 0 <= b < mine + 1 ensures Again(caught + [error], b) != f {
      if b > 0 { assert Again(caught + [error], b) == Again(caught, b - 1); }
    }
  }

  // ------------------------------------------------------------------------------------------
  // Harm is done in an aborted transaction.

  /** A failure stays on record that the work does not end with, or the root returns from an aborted
      transaction. */
  ghost predicate Ruined(r: Run, top: bool) {
    || (r.state.failure.Some? && OnRecord(r.state, r.state.failure.value) && r.outcome != Threw(r.state.failure.value))
    || (top && r.outcome.Returned? && r.state.server.aborted)
  }

  /** `f` was caught `back` errors before the latest, and is not among the callback's other errors. */
  ghost predicate Only(caught: seq<Error>, mine: nat, back: nat, f: Error) {
    mine <= |caught| && forall b :: 0 <= b < mine && b != back ==> Again(caught, b) != f
  }

  lemma AbortedNestRecord(env: Env, inner: Work, abort: Abort, s: State)
    requires env.engine.Postgres? && s.server.aborted && !s.server.ended && s.recovered == {}
    ensures var n := RunNested(env, inner, abort, s);
            && n.state.recovered == {} && n.state.sent >= s.sent
            && (if abort.BeforeSavepoint? then n.outcome == Threw(Canceled) && n.state.failure == s.failure
                else n.outcome == Threw(Driver(SavepointOp, s.sent)) && n.state.sent > s.sent
                     && n.state.failure == if s.failure.Some? then s.failure else Some(n.outcome.error))
  {
    hide RunWork, RunSavepoint, Undo, WorkThenRelease;
    SavepointGoes(env, s.depth, inner, abort, s.(depth := s.depth + 1));
    assert {} - {Canceled} == {} && {} - {Driver(SavepointOp, s.sent)} == {};
  }

  lemma {:induction false} BreaksOff(env: Env, work: Work, s: State, mine: nat, back: nat, f: Error)
    requires env.engine.Postgres? && s.server.aborted && !s.server.ended && OnRecord(s, f)
    requires Direct(work, mine) && Only(s.caught, mine, back, f) && !PassesOn(work, back)
    ensures var r := RunWork(env, work, s); OnRecord(r.state, f) && r.outcome != Threw(f)
    decreases work
  {
    hide Send, Mark;
    match work
    case Return =>
    case Throw(_) =>
    case Rethrow(_) =>
    case Write(row, next, failed) =>
      var after := Exec(env, s, Insert(row), env.At(s.sent).write).0;
      AbortedWrite(env, s, row, env.At(s.sent).write, Stopped);
      CaughtOnly(s.caught, mine, back, Driver(StatementOp, s.sent), f);
      BreaksOff(env, failed, Catch(after, Driver(StatementOp, s.sent)), mine + 1, back + 1, f);
    case Nest(inner, abort, next, failed) =>
      AbortedNest(env, inner, abort, s);
      AbortedNestRecord(env, inner, abort, s);
      hide RunNested;
      var n := RunNested(env, inner, abort, s);
      CaughtOnly(s.caught, 0, back, n.outcome.error, f);
      BreaksOff(env, failed, Resume(n), 1, back + 1, f);
  }

  lemma CaughtOnly(caught: seq<Error>, mine: nat, back: nat, error: Error, f: Error)
    requires Only(caught, mine, back, f) && error != f
    ensures Only(caught + [error], mine + 1, back + 1, f)
  {
    forall b | 0 <= b < mine + 1 && b != back + 1 ensures Again(caught + [error], b) != f {
      if b > 0 { assert Again(caught + [error], b) == Again(caught, b - 1); }
    }
  }

  lemma {:induction false} StuckRuins(env: Env, work: Work, s: State, mine: nat, top: bool)
    requires env.engine.Postgres? && s.server.aborted && !s.server.ended && s.failure.None? && s.recovered == {}
    requires Direct(work, mine) && Stuck(work, top)
    ensures Ruined(RunWork(env, work, s), top)
    decreases work
  {
    hide Send, Mark;
    match work
    case Return =>
    case Write(row, next, failed) =>
      var after := Exec(env, s, Insert(row), env.At(s.sent).write).0;
      AbortedWrite(env, s, row, env.At(s.sent).write, Stopped);
      StuckRuins(env, failed, Catch(after, Driver(StatementOp, s.sent)), mine + 1, top);
    case Nest(inner, abort, next, failed) =>
      AbortedNest(env, inner, abort, s);
      AbortedNestRecord(env, inner, abort, s);
      hide RunNested;
      var n := RunNested(env, inner, abort, s);
      if abort.BeforeSavepoint? { StuckRuins(env, failed, Resume(n), 1, top); }
      else { BreaksOff(env, failed, Resume(n), 1, 0, n.outcome.error); }
  }

  // ------------------------------------------------------------------------------------------
  // Building the script.

  const MISSED := ACCEPT.(write := Miss)
  const REFUSED := ACCEPT.(write := Refuse)
  const UNRELEASED := ACCEPT.(release := Refuse)

  function On(script: seq<Replies>): Env {
    Env(Postgres, script)
  }

  /** Replies that only fail statements on the way and releases. */
  ghost predicate Mild(script: seq<Replies>) {
    forall i :: 0 <= i < |script| ==> script[i] in {ACCEPT, MISSED, UNRELEASED}
  }

  lemma MildIsClean(script: seq<Replies>)
    requires Mild(script)
    ensures CleanUp(On(script)) && NoRefusal(On(script))
  {
    forall i: nat ensures On(script).At(i) in {ACCEPT, MISSED, UNRELEASED} {}
  }

  /** The first `n` replies, where there are none accepted. */
  function Fill(script: seq<Replies>, n: nat): (r: seq<Replies>)
    requires |script| <= n
    ensures |r| == n && SameReplies(On(script), On(r), 0, n) && (Mild(script) ==> Mild(r))
  {
    script + seq(n - |script|, i => ACCEPT)
  }

  function Reply(script: seq<Replies>, n: nat, replies: Replies): (r: seq<Replies>)
    requires |script| <= n
    ensures |r| == n + 1 && SameReplies(On(script), On(r), 0, n) && On(r).At(n) == replies
    ensures Mild(script) && replies in {ACCEPT, MISSED, UNRELEASED} ==> Mild(r)
  {
    Fill(script, n) + [replies]
  }

  /** All is well on the Postgres server and on record. */
  ghost predicate Good(s: State, frames: seq<Rows>) {
    && Healthy(On([]), s, frames) && s.depth == |frames| + 1
    && !s.server.aborted && s.failure.None? && s.recovered == {}
  }

  /** `longer` answers as `script` does to the commands sent so far, and more. */
  ghost predicate Continues(script: seq<Replies>, longer: seq<Replies>, s: State) {
    SameReplies(On(script), On(longer), 0, s.sent)
  }

  lemma GoodWrite(script: seq<Replies>, s: State, frames: seq<Rows>, row: int)
    requires Good(s, frames) && On(script).At(s.sent).write in {Accept, Miss}
    ensures var verdict := On(script).At(s.sent).write;
            var (after, ok) := Exec(On(script), s, Insert(row), verdict);
            && ok == verdict.Accept? && after.sent == s.sent + 1
            && Good(after, frames) && Good(Catch(after, Driver(StatementOp, s.sent)), frames)
  {
    hide Shape, UniqueNames, Within;
  }

  lemma GoodEntry(script: seq<Replies>, s: State, frames: seq<Rows>)
    requires Good(s, frames) && On(script).At(s.sent).establish.Accept?
    ensures var (begun, ok) := Exec(On(script), s.(depth := s.depth + 1), Establish(s.depth), Accept);
            && ok && begun.sent == s.sent + 1 && Good(begun, frames + [s.server.rows])
  {
    hide Shape, UniqueNames, Within, Newest;
    EstablishStep(On(script), s.(depth := s.depth + 1), frames, Accept);
  }

  /** After a nested call that left nothing behind. */
  lemma GoodAfter(script: seq<Replies>, inner: Work, abort: Abort, s: State, frames: seq<Rows>)
    requires Mild(script) && Good(s, frames)
    ensures var n := RunNested(On(script), inner, abort, s); Good(n.state, frames) && Good(Resume(n), frames)
  {
    hide Healthy, RunNested, CleanUp, NoRefusal;
    var env := On(script);
    MildIsClean(script);
    GoodIs(env, s, frames);
    NestedClean(env, inner, abort, s, frames);
    NestedFlagIsFold(env, inner, abort, s);
    var n := RunNested(env, inner, abort, s);
    GoodFrom(env, n.state, frames);
    SoundServer(env, n.state, Resume(n), frames, n.state.server.rows);
    GoodFrom(env, Resume(n), frames);
  }

  lemma GoodIs(env: Env, s: State, frames: seq<Rows>)
    requires env.engine.Postgres? && Good(s, frames)
    ensures Healthy(env, s, frames)
  {
  }

  lemma GoodFrom(env: Env, s: State, frames: seq<Rows>)
    requires env.engine.Postgres? && Healthy(env, s, frames) && s.depth == |frames| + 1
    requires !s.server.aborted && s.failure.None? && s.recovered == {}
    ensures Good(s, frames)
  {
  }

  lemma NestedThrows(env: Env, inner: Work, s: State)
    requires env.engine.Postgres?
    requires var (begun, ok) := Exec(env, s.(depth := s.depth + 1), Establish(s.depth), env.At(s.sent).establish);
             ok && WorkThenRelease(env, s.depth, inner, Never, begun).outcome.Threw?
    ensures var begun := Exec(env, s.(depth := s.depth + 1), Establish(s.depth), env.At(s.sent).establish).0;
            var n := RunNested(env, inner, Never, s);
            n.outcome.Threw? && n.state.sent >= WorkThenRelease(env, s.depth, inner, Never, begun).state.sent
  {
    hide Send, RunWork, RunSavepoint, Undo, WorkThenRelease;
    var name, entered := s.depth, s.(depth := s.depth + 1);
    SavepointGoes(env, name, inner, Never, entered);
    var g := WorkThenRelease(env, name, inner, Never, Exec(env, entered, Establish(name), env.At(s.sent).establish).0);
    UndoThrows(env, name, g);
  }

  /** Work that returned, and its release accepted. */
  lemma ReleaseAccepted(env: Env, inner: Work, s: State, frames: seq<Rows>, begun: State)
    requires env.engine.Postgres? && s.depth == |frames| + 1
    requires (begun, true) == Exec(env, s.(depth := s.depth + 1), Establish(s.depth), env.At(s.sent).establish)
    requires var r := RunWork(env, inner, begun);
             && r.outcome.Returned? && !r.state.server.aborted && env.At(r.state.sent).release.Accept?
             && Healthy(env, r.state, frames + [s.server.rows])
    ensures var n := RunNested(env, inner, Never, s);
            n.outcome.Returned? && n.state.sent >= RunWork(env, inner, begun).state.sent
  {
    hide Shape, UniqueNames, Within, RunWork, RunSavepoint, Undo;
    var r := RunWork(env, inner, begun);
    assert |frames + [s.server.rows]| == s.depth && (frames + [s.server.rows])[..|frames|] == frames;
    ReleaseShape(env.engine, r.state.server, frames + [s.server.rows]);
    SavepointGoes(env, s.depth, inner, Never, s.(depth := s.depth + 1));
  }

  /** A nested call fails cleanly: its work throws, or its release is refused. */
  lemma MakeFail(script: seq<Replies>, inner: Work, abort: Abort, s: State, frames: seq<Rows>)
    returns (longer: seq<Replies>)
    requires Mild(script) && |script| <= s.sent && Good(s, frames)
    ensures Mild(longer) && Continues(script, longer, s)
    ensures var n := RunNested(On(longer), inner, abort, s);
            n.outcome.Threw? && |longer| <= n.state.sent && Good(Resume(n), frames)
  {
    hide Good, RunWork, RunNested, WorkThenRelease, Send;
    longer := script;
    NestedReturns(On(script), inner, abort, s);
    if abort.Never? {
      GoodEntry(script, s, frames);
      var begun := Exec(On(script), s.(depth := s.depth + 1), Establish(s.depth), Accept).0;
      var r := RunWork(On(script), inner, begun);
      if r.outcome.Returned? {
        longer := Reply(script, r.state.sent, UNRELEASED);
        WorkLocal(On(script), On(longer), inner, begun);
        Unreleased(On(longer), s.depth, inner, begun);
      } else {
        ThrownOn(On(script), s.depth, inner, begun);
      }
      NestedThrows(On(longer), inner, s);
    }
    GoodAfter(longer, inner, abort, s, frames);
  }

  lemma Unreleased(env: Env, name: nat, inner: Work, begun: State)
    requires var r := RunWork(env, inner, begun); r.outcome.Returned? && env.At(r.state.sent).release.Refuse?
    ensures var g := WorkThenRelease(env, name, inner, Never, begun);
            g.outcome.Threw? && g.state.sent == RunWork(env, inner, begun).state.sent + 1
  {
    hide RunWork;
  }

  lemma ThrownOn(env: Env, name: nat, inner: Work, begun: State)
    requires RunWork(env, inner, begun).outcome.Threw?
    ensures WorkThenRelease(env, name, inner, Never, begun) == RunWork(env, inner, begun)
  {
    hide RunWork;
  }

  /** Work that may return does. */
  lemma {:induction false} MakeReturn(script: seq<Replies>, work: Work, s: State, frames: seq<Rows>)
    returns (longer: seq<Replies>)
    requires Returns(work) && Mild(script) && |script| <= s.sent && Good(s, frames)
    ensures Mild(longer) && Continues(script, longer, s)
    ensures var r := RunWork(On(longer), work, s);
            r.outcome.Returned? && |longer| <= r.state.sent && Good(r.state, frames)
    decreases work, 0
  {
    hide Good, Send, Mark;
    match work
    case Return =>
      longer := script;
    case Write(row, next, failed) =>
      var replies := if Returns(next) then ACCEPT else MISSED;
      var started := Reply(script, s.sent, replies);
      GoodWrite(started, s, frames, row);
      var (after, ok) := Exec(On(started), s, Insert(row), replies.write);
      var resumed := if ok then after else Catch(after, Driver(StatementOp, s.sent));
      longer := MakeReturn(started, if ok then next else failed, resumed, frames);
      assert On(longer).At(s.sent) == replies;
    case Nest(inner, abort, next, failed) =>
      hide RunNested;
      var started;
      if abort.Never? && Returns(inner) && Returns(next) {
        started := MakeNestedReturn(script, inner, s, frames);
      } else {
        started := MakeFail(script, inner, abort, s, frames);
      }
      var n := RunNested(On(started), inner, abort, s);
      longer := MakeReturn(started, if n.outcome.Returned? then next else failed, Resume(n), frames);
      NestedLocal(On(started), On(longer), inner, abort, s);
  }

  lemma {:induction false} MakeNestedReturn(script: seq<Replies>, inner: Work, s: State, frames: seq<Rows>)
    returns (longer: seq<Replies>)
    requires Returns(inner) && Mild(script) && |script| <= s.sent && Good(s, frames)
    ensures Mild(longer) && Continues(script, longer, s)
    ensures var n := RunNested(On(longer), inner, Never, s);
            n.outcome.Returned? && |longer| <= n.state.sent && Good(Resume(n), frames)
    decreases inner, 1
  {
    hide Good, Send, RunWork, RunNested;
    var started := Fill(script, s.sent);
    GoodEntry(started, s, frames);
    var begun := Exec(On(started), s.(depth := s.depth + 1), Establish(s.depth), Accept).0;
    longer := MakeReturn(Fill(started, s.sent + 1), inner, begun, frames + [s.server.rows]);
    var r := RunWork(On(longer), inner, begun);
    GoodHolds(On(longer), r.state, frames + [s.server.rows]);
    GoodHolds(On(longer), s, frames);
    ReleaseAccepted(On(longer), inner, s, frames, begun);
    GoodAfter(longer, inner, Never, s, frames);
  }

  lemma GoodHolds(env: Env, s: State, frames: seq<Rows>)
    requires env.engine.Postgres? && Good(s, frames)
    ensures Healthy(env, s, frames) && s.depth == |frames| + 1
    ensures !s.server.aborted && s.failure.None? && s.recovered == {} && !s.server.ended
  {
  }

  // ------------------------------------------------------------------------------------------
  // The script that hurts.

  /** Where the tree may be hurt, some replies with working cleanup hurt it. */
  lemma {:induction false} FindHarm(
    script: seq<Replies>, work: Work, s: State, frames: seq<Rows>, mine: nat, top: bool)
    returns (longer: seq<Replies>)
    requires Hurts(work, top) && Direct(work, mine)
    requires Mild(script) && |script| <= s.sent && Good(s, frames)
    ensures CleanUp(On(longer)) && Continues(script, longer, s)
    ensures Ruined(RunWork(On(longer), work, s), top)
    decreases work, 0
  {
    hide Good, Send, Mark, CleanUp;
    match work
    case Write(row, next, failed) =>
      if !Hurts(next, top) && !Hurts(failed, top) {
        longer := Reply(script, s.sent, REFUSED);
        OneRefused(script, longer, s.sent);
        GoodRefused(longer, s, frames, row);
        var after := Exec(On(longer), s, Insert(row), Refuse).0;
        StuckRuins(On(longer), failed, Catch(after, Driver(StatementOp, s.sent)), mine + 1, top);
      } else {
        var replies := if Hurts(next, top) then ACCEPT else MISSED;
        var started := Reply(script, s.sent, replies);
        GoodWrite(started, s, frames, row);
        var (after, ok) := Exec(On(started), s, Insert(row), replies.write);
        if ok { longer := FindHarm(started, next, after, frames, mine, top); }
        else { longer := FindHarm(started, failed, Catch(after, Driver(StatementOp, s.sent)), frames, mine + 1, top); }
        assert On(longer).At(s.sent) == replies;
      }
    case Nest(inner, abort, next, failed) =>
      hide RunNested;
      if RunsWork(abort) && Hurts(inner, false) {
        longer := FindNestedHarm(script, inner, abort, s, frames);
        HarmStays(On(longer), work, s);
      } else {
        var started;
        if abort.Never? && Returns(inner) && Hurts(next, top) {
          started := MakeNestedReturn(script, inner, s, frames);
        } else {
          started := MakeFail(script, inner, abort, s, frames);
        }
        var n := RunNested(On(started), inner, abort, s);
        if n.outcome.Returned? { longer := FindHarm(started, next, Resume(n), frames, 0, top); }
        else { longer := FindHarm(started, failed, Resume(n), frames, 1, top); }
        NestedLocal(On(started), On(longer), inner, abort, s);
      }
  }

  lemma OneRefused(script: seq<Replies>, longer: seq<Replies>, n: nat)
    requires Mild(script) && |longer| == n + 1 && SameReplies(On(script), On(longer), 0, n) && longer[n] == REFUSED
    ensures CleanUp(On(longer))
  {
    forall i: nat ensures On(longer).At(i) in {ACCEPT, MISSED, UNRELEASED, REFUSED} {
      if i < n { assert On(longer).At(i) == On(script).At(i); }
    }
  }

  lemma GoodRefused(script: seq<Replies>, s: State, frames: seq<Rows>, row: int)
    requires Good(s, frames)
    ensures var (after, ok) := Exec(On(script), s, Insert(row), Refuse);
            !ok && after.server.aborted && !after.server.ended && after.failure.None? && after.recovered == {}
  {
    hide Shape, UniqueNames, Within;
  }

  /** A nested call in whose work harm is done leaves it on record. */
  lemma {:induction false} FindNestedHarm(
    script: seq<Replies>, inner: Work, abort: Abort, s: State, frames: seq<Rows>)
    returns (longer: seq<Replies>)
    requires RunsWork(abort) && Hurts(inner, false) && Direct(inner, 0)
    requires Mild(script) && |script| <= s.sent && Good(s, frames)
    ensures CleanUp(On(longer)) && Continues(script, longer, s)
    ensures var n := RunNested(On(longer), inner, abort, s);
            n.state.failure.Some? && OnRecord(n.state, n.state.failure.value) && n.outcome != Threw(n.state.failure.value)
    decreases inner, 1
  {
    hide Good, Send, RunWork, RunNested, CleanUp;
    var started := Fill(script, s.sent);
    GoodEntry(started, s, frames);
    var begun := Exec(On(started), s.(depth := s.depth + 1), Establish(s.depth), Accept).0;
    longer := FindHarm(Fill(started, s.sent + 1), inner, begun, frames + [s.server.rows], 0, false);
    assert On(longer).At(s.sent) == ACCEPT;
    NestedKeepsFailure(On(longer), inner, abort, s, RunWork(On(longer), inner, begun).state.failure.value);
  }

  lemma {:induction false} HarmStays(env: Env, work: Work, s: State)
    requires work.Nest? && Direct(work.next, 0) && Direct(work.failed, 1)
    requires var n := RunNested(env, work.inner, work.abort, s);
             n.state.failure.Some? && OnRecord(n.state, n.state.failure.value) && n.outcome != Threw(n.state.failure.value)
    ensures Ruined(RunWork(env, work, s), false)
  {
    hide RunNested;
    var n := RunNested(env, work.inner, work.abort, s);
    var f := n.state.failure.value;
    if n.outcome.Returned? { NeverAgain(env, work.next, Resume(n), 0, f); }
    else {
      CaughtElse(n.state.caught, 0, n.outcome.error, f);
      NeverAgain(env, work.failed, Resume(n), 1, f);
    }
  }

  lemma RuinedRoot(env: Env, work: Work, durable: Rows)
    requires env.engine.Postgres? && Ruined(RunWork(env, work, Fresh(durable)), true)
    ensures !AsWorkEnds(Transaction(env, SMOOTH, work, durable), durable)
  {
    hide RunWork, Surviving;
  }

  /** On Postgres the root commits as its work ends, whatever statements fail, exactly when no refused
      statement within reach leaves its callback stuck. */
  lemma CommitsAsWorkEndsExactly(work: Work, durable: Rows)
    requires Direct(work, 0)
    ensures (forall env: Env :: env.engine.Postgres? && CleanUp(env) ==>
              AsWorkEnds(Transaction(env, SMOOTH, work, durable), durable)) <==> !Hurts(work, true)
  {
    hide CleanUp, Transaction, AsWorkEnds, RunWork;
    if Hurts(work, true) {
      FreshGood(durable);
      var longer := FindHarm([], work, Fresh(durable), [], 0, true);
      RuinedRoot(On(longer), work, durable);
    } else {
      forall env: Env | env.engine.Postgres? && CleanUp(env)
        ensures AsWorkEnds(Transaction(env, SMOOTH, work, durable), durable)
      {
        CommitsWhenWorkReturns(env, work, durable);
      }
    }
  }

  lemma FreshGood(durable: Rows)
    ensures Good(Fresh(durable), [])
  {
  }

  /** A nested callback that catches the error of a statement, tries a nested call, catches its error as well,
      and returns. */
  function CatchingBoth(row: int): Work {
    var tried := Nest(Return, Never, Return, Return);
    Nest(Write(row, Return, tried), Never, Return, Return)
  }

  lemma CaughtRefusalCostsCommit(row: int, durable: Rows) returns (env: Env)
    ensures env.engine.Postgres? && CleanUp(env)
    ensures !AsWorkEnds(Transaction(env, SMOOTH, CatchingBoth(row), durable), durable)
  {
    var tried := Nest(Return, Never, Return, Return);
    assert !PassesOn(Return, 0);
    assert Stuck(tried, false);
    assert Hurts(Write(row, Return, tried), false);
    assert Hurts(CatchingBoth(row), true);
    assert Direct(tried, 1) && Direct(Write(row, Return, tried), 0);
    assert Direct(CatchingBoth(row), 0);
    hide *;
    CommitsAsWorkEndsExactly(CatchingBoth(row), durable);
    env :| env.engine.Postgres? && CleanUp(env)
           && !AsWorkEnds(Transaction(env, SMOOTH, CatchingBoth(row), durable), durable);
  }
}
