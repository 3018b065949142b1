/** Named savepoints as the three servers resolve them, and what becomes of a command.

    A savepoint `entitykit_sp_<depth>` is named here by its depth: the decimal spelling of a
    depth is injective, so nothing is lost.  Rows are the log of the writes made so far. */
module Savepoints {

  type Rows = seq<int>

  datatype Engine = Sqlite | MySql | Postgres

  datatype Savepoint = Savepoint(name: nat, rows: Rows)

  /** The open transaction on the server; the newest savepoint is last, and `base` are the rows that were
      durable when it began.  After a command it refused, a Postgres transaction is aborted: it refuses
      everything but a rollback.  A MySQL transaction may have ended with a failed statement: everything was
      rolled back, no savepoint can be set, and each later statement is durable at once. */
  datatype Server = Server(rows: Rows, stack: seq<Savepoint>, base: Rows, aborted: bool, ended: bool)

  /** What becomes of one command: executed and acknowledged; refused by the server; never seen by the
      server, and reported as an error; executed although the driver reports an error; or refused by a MySQL
      server that ends the transaction, as on a deadlock. */
  datatype Verdict = Accept | Refuse | Miss | Lose | Doom

  datatype Command = Insert(row: int) | Establish(name: nat) | Release(name: nat) | RollbackTo(name: nat)

  /** The newest savepoint called `name`, or -1. */
  function Newest(stack: seq<Savepoint>, name: nat): (i: int)
    ensures -1 <= i < |stack|
    ensures i >= 0 ==> stack[i].name == name
    ensures forall j :: i < j < |stack| ==> stack[j].name != name
  {
    if |stack| == 0 then -1
    else if stack[|stack| - 1].name == name then |stack| - 1
    else Newest(stack[..|stack| - 1], name)
  }

  function Without(stack: seq<Savepoint>, i: nat): seq<Savepoint>
    requires i < |stack|
  {
    stack[..i] + stack[i + 1..]
  }

  /** Whether the server can resolve the name a command mentions. */
  predicate Resolves(server: Server, command: Command) {
    command.Insert? || command.Establish? || Newest(server.stack, command.name) >= 0
  }

  /** Whether the server can execute a command at all. */
  predicate Admits(server: Server, command: Command) {
    Resolves(server, command) && (server.aborted ==> command.RollbackTo?)
  }

  /** The effect of an executed command.  MySQL replaces an older savepoint of the same name and
      releases only the one named; SQLite and Postgres shadow it and release it with everything newer. */
  function Execute(engine: Engine, server: Server, command: Command): Server
    requires Resolves(server, command)
  {
    match command
    case Insert(row) => server.(rows := server.rows + [row])
    case Establish(name) =>
      if server.ended then server
      else server.(stack := KeptUnder(engine, server.stack, name) + [Savepoint(name, server.rows)])
    case Release(name) =>
      var i := Newest(server.stack, name);
      server.(stack := if engine.MySql? then Without(server.stack, i) else server.stack[..i])
    case RollbackTo(name) =>
      var i := Newest(server.stack, name);
      server.(rows := server.stack[i].rows, stack := server.stack[..i + 1], aborted := false)
  }

  /** What stays on the stack under a new savepoint called `name`. */
  function KeptUnder(engine: Engine, stack: seq<Savepoint>, name: nat): seq<Savepoint> {
    var i := Newest(stack, name);
    if engine.MySql? && i >= 0 then Without(stack, i) else stack
  }

  /** Only a statement ends a transaction, and only one that is still open. */
  predicate Ends(engine: Engine, server: Server, command: Command, verdict: Verdict) {
    verdict.Doom? && engine.MySql? && command.Insert? && !server.ended
  }

  /** One command under one verdict: the new server and whether the caller sees success.  A command
      the server does not admit is refused, unless it never gets there. */
  function Send(engine: Engine, server: Server, command: Command, verdict: Verdict): (Server, bool) {
    if verdict.Miss? then (server, false)
    else if Ends(engine, server, command, verdict) then (server.(rows := server.base, stack := [], ended := true), false)
    else if verdict.Refuse? || verdict.Doom? || !Admits(server, command) then
      (server.(aborted := server.aborted || engine.Postgres?), false)
    else (Execute(engine, server, command), verdict.Accept?)
  }

  // ------------------------------------------------------------------------------------------
  // The shape of the stack while scopes 1..n are open: each scope's own savepoint is the newest of
  // its name and only deeper names lie above it.

  ghost predicate Deeper(stack: seq<Savepoint>, name: nat) {
    forall j :: 0 <= j < |stack| ==> stack[j].name > name
  }

  ghost predicate Within(stack: seq<Savepoint>, name: nat) {
    forall j :: 0 <= j < |stack| ==> stack[j].name <= name
  }

  ghost predicate UniqueNames(stack: seq<Savepoint>) {
    forall i, j :: 0 <= i < j < |stack| ==> stack[i].name != stack[j].name
  }

  /** `frames[k]` are the rows saved by the open scope whose savepoint is called k + 1. */
  ghost predicate Shape(engine: Engine, stack: seq<Savepoint>, frames: seq<Rows>)
    decreases |frames|
  {
    var n := |frames|;
    if n == 0 then Deeper(stack, 0)
    else
      var i := Newest(stack, n);
      && i >= 0
      && stack[i].rows == frames[n - 1]
      && Deeper(stack[i + 1..], n)
      && (engine.Postgres? ==> Within(stack[..i], n - 1))
      && Shape(engine, stack[..i], frames[..n - 1])
  }

  lemma NewestIs(stack: seq<Savepoint>, name: nat, i: int)
    requires -1 <= i < |stack|
    requires i >= 0 ==> stack[i].name == name
    requires forall j :: i < j < |stack| ==> stack[j].name != name
    ensures Newest(stack, name) == i
  {
    var k := Newest(stack, name);
    assert !(0 <= k < i);
  }

  /** Taking a stack apart at the savepoint of its innermost open scope, and putting it together. */
  lemma Open(engine: Engine, stack: seq<Savepoint>, frames: seq<Rows>)
    returns (below: seq<Savepoint>, own: Savepoint, above: seq<Savepoint>)
    requires |frames| > 0 && Shape(engine, stack, frames)
    ensures stack == below + [own] + above && own == Savepoint(|frames|, frames[|frames| - 1])
    ensures Deeper(above, |frames|) && Shape(engine, below, frames[..|frames| - 1])
    ensures engine.Postgres? ==> Within(below, |frames| - 1)
    ensures Newest(stack, |frames|) == |below|
  {
    var i := Newest(stack, |frames|);
    below, own, above := stack[..i], stack[i], stack[i + 1..];
  }

  lemma Close(engine: Engine, below: seq<Savepoint>, above: seq<Savepoint>, frames: seq<Rows>)
    requires |frames| > 0
    requires Deeper(above, |frames|) && Shape(engine, below, frames[..|frames| - 1])
    requires engine.Postgres? ==> Within(below, |frames| - 1)
    ensures Shape(engine, below + [Savepoint(|frames|, frames[|frames| - 1])] + above, frames)
  {
    var stack := below + [Savepoint(|frames|, frames[|frames| - 1])] + above;
    var i := |below|;
    forall j | i < j < |stack| ensures stack[j].name != |frames| {
      assert stack[j] == above[j - i - 1];
    }
    NewestIs(stack, |frames|, i);
    assert stack[..i] == below && stack[i + 1..] == above;
  }

  /** Deeper savepoints on top do not disturb the open scopes. */
  lemma {:induction false} ShapeAppend(engine: Engine, stack: seq<Savepoint>, more: seq<Savepoint>, frames: seq<Rows>)
    requires Shape(engine, stack, frames) && Deeper(more, |frames|)
    ensures Shape(engine, stack + more, frames)
  {
    hide Newest, Within;
    if |frames| > 0 {
      var below, own, above := Open(engine, stack, frames);
      hide Shape;
      Close(engine, below, above + more, frames);
      assert stack + more == below + [own] + (above + more);
    }
  }

  lemma WithoutAround(below: seq<Savepoint>, own: Savepoint, above: seq<Savepoint>, k: nat)
    requires k < |below + [own] + above| && k != |below|
    ensures k < |below| ==> Without(below + [own] + above, k) == Without(below, k) + [own] + above
    ensures k > |below| ==> Without(below + [own] + above, k) == below + [own] + Without(above, k - |below| - 1)
  {
  }

  lemma DeeperWithout(above: seq<Savepoint>, k: nat, name: nat)
    requires k < |above| && Deeper(above, name)
    ensures Deeper(Without(above, k), name)
  {
  }

  /** Nor does deleting a deeper savepoint anywhere. */
  lemma {:induction false} ShapeWithout(engine: Engine, stack: seq<Savepoint>, k: nat, frames: seq<Rows>)
    requires Shape(engine, stack, frames) && k < |stack| && stack[k].name > |frames|
    ensures Shape(engine, Without(stack, k), frames)
    decreases |frames|
  {
    if |frames| == 0 {
      DeeperWithout(stack, k, 0);
    } else {
      var below, own, above := Open(engine, stack, frames);
      if k < |below| {
        assert below[k] == stack[k];
        ShapeWithout(engine, below, k, frames[..|frames| - 1]);
        assert !engine.Postgres?;
        Close(engine, Without(below, k), above, frames);
      } else {
        var j := k - |below| - 1;
        DeeperWithout(above, j, |frames|);
        Close(engine, below, Without(above, j), frames);
      }
      WithoutAround(below, own, above, k);
    }
  }

  /** Closing the innermost scope leaves the outer ones in shape, wherever its savepoint went. */
  lemma ShapeOuter(engine: Engine, stack: seq<Savepoint>, frames: seq<Rows>)
    requires |frames| > 0 && Shape(engine, stack, frames)
    ensures Shape(engine, stack, frames[..|frames| - 1])
  {
    var below, own, above := Open(engine, stack, frames);
    ShapeAppend(engine, below, [own] + above, frames[..|frames| - 1]);
    assert stack == below + ([own] + above);
  }

  lemma UniqueWithout(stack: seq<Savepoint>, i: nat)
    requires i < |stack| && UniqueNames(stack)
    ensures UniqueNames(Without(stack, i)) && Newest(Without(stack, i), stack[i].name) < 0
  {
    var rest := Without(stack, i);
    forall j | 0 <= j < |rest| ensures rest[j] == stack[if j < i then j else j + 1] {}
    var k := Newest(rest, stack[i].name);
    assert !(0 <= k);
  }

  lemma UniqueAppend(stack: seq<Savepoint>, savepoint: Savepoint)
    requires UniqueNames(stack) && Newest(stack, savepoint.name) < 0
    ensures UniqueNames(stack + [savepoint])
  {
  }

  lemma {:induction false} KeptShape(engine: Engine, stack: seq<Savepoint>, frames: seq<Rows>)
    requires Shape(engine, stack, frames) && (engine.MySql? ==> UniqueNames(stack))
    ensures var kept := KeptUnder(engine, stack, |frames| + 1);
            && Shape(engine, kept, frames)
            && (engine.MySql? ==> UniqueNames(kept) && Newest(kept, |frames| + 1) < 0)
  {
    var i := Newest(stack, |frames| + 1);
    if engine.MySql? && i >= 0 {
      ShapeWithout(engine, stack, i, frames);
      hide Shape;
      UniqueWithout(stack, i);
    }
  }

  lemma {:induction false} OneMore(engine: Engine, kept: seq<Savepoint>, frames: seq<Rows>, rows: Rows)
    requires Shape(engine, kept, frames)
    requires engine.MySql? ==> UniqueNames(kept) && Newest(kept, |frames| + 1) < 0
    requires engine.Postgres? ==> Within(kept, |frames|)
    ensures var after := kept + [Savepoint(|frames| + 1, rows)];
            && Shape(engine, after, frames + [rows])
            && (engine.MySql? ==> UniqueNames(after))
            && (engine.Postgres? ==> Within(after, |frames| + 1))
  {
    hide Shape, Newest;
    assert (frames + [rows])[..|frames|] == frames;
    Close(engine, kept, [], frames + [rows]);
    assert kept + [Savepoint(|frames| + 1, rows)] + [] == kept + [Savepoint(|frames| + 1, rows)];
    if engine.MySql? { UniqueAppend(kept, Savepoint(|frames| + 1, rows)); }
  }

  lemma {:induction false} EstablishShape(engine: Engine, server: Server, frames: seq<Rows>)
    requires Shape(engine, server.stack, frames) && !server.ended
    requires engine.Postgres? ==> Within(server.stack, |frames|)
    requires engine.MySql? ==> UniqueNames(server.stack)
    ensures var after := Execute(engine, server, Establish(|frames| + 1));
            && after.rows == server.rows
            && Shape(engine, after.stack, frames + [server.rows])
            && (engine.MySql? ==> UniqueNames(after.stack))
            && (engine.Postgres? ==> Within(after.stack, |frames| + 1))
  {
    hide Shape, UniqueNames, Newest, Without;
    var kept := KeptUnder(engine, server.stack, |frames| + 1);
    KeptShape(engine, server.stack, frames);
    OneMore(engine, kept, frames, server.rows);
  }

  lemma ReleaseShape(engine: Engine, server: Server, frames: seq<Rows>)
    requires |frames| > 0 && Shape(engine, server.stack, frames)
    ensures Newest(server.stack, |frames|) >= 0
    ensures var after := Execute(engine, server, Release(|frames|));
            && after.rows == server.rows
            && Shape(engine, after.stack, frames[..|frames| - 1])
            && (engine.MySql? && UniqueNames(server.stack) ==> UniqueNames(after.stack))
            && (engine.MySql? && UniqueNames(server.stack) ==> Newest(after.stack, |frames|) < 0)
            && (engine.Postgres? ==> Newest(after.stack, |frames|) < 0)
            && (engine.Postgres? ==> Within(after.stack, |frames| - 1))
  {
    var below, own, above := Open(engine, server.stack, frames);
    hide Shape, Newest;
    var i := |below|;
    assert server.stack[i] == own;
    if engine.MySql? {
      ShapeAppend(engine, below, above, frames[..|frames| - 1]);
      assert Without(server.stack, i) == below + above;
      if UniqueNames(server.stack) { UniqueWithout(server.stack, i); }
    } else {
      assert server.stack[..i] == below;
      var after := Execute(engine, server, Release(|frames|));
      assert after.stack == below;
      if engine.Postgres? {
        var k := Newest(after.stack, |frames|);
        assert !(0 <= k);
      }
    }
  }

  lemma RollbackToShape(engine: Engine, server: Server, frames: seq<Rows>)
    requires |frames| > 0 && Shape(engine, server.stack, frames)
    ensures Newest(server.stack, |frames|) >= 0
    ensures var after := Execute(engine, server, RollbackTo(|frames|));
            && after.rows == frames[|frames| - 1]
            && Shape(engine, after.stack, frames)
            && after.stack != [] && after.stack[|after.stack| - 1].name == |frames|
            && (engine.MySql? && UniqueNames(server.stack) ==> UniqueNames(after.stack))
  {
    var below, own, above := Open(engine, server.stack, frames);
    Close(engine, below, [], frames);
    assert server.stack[..|below| + 1] == below + [own] + [];
  }

  lemma {:induction false} ShapeTake(stack: seq<Savepoint>, frames: seq<Rows>, k: nat)
    requires Shape(Postgres, stack, frames) && k < |stack| && stack[k].name > |frames|
    ensures Shape(Postgres, stack[..k], frames) && Shape(Postgres, stack[..k + 1], frames)
  {
    if |frames| > 0 {
      var below, own, above := Open(Postgres, stack, frames);
      hide Shape;
      var n := |below|;
      assert forall j :: 0 <= j < n ==> stack[j] == below[j];
      assert stack[n] == own;
      assert k > n;
      assert stack[..k] == below + [own] + above[..k - n - 1];
      assert stack[..k + 1] == below + [own] + above[..k - n];
      Close(Postgres, below, above[..k - n - 1], frames);
      Close(Postgres, below, above[..k - n], frames);
    }
  }

  /** On Postgres no command on a deeper name disturbs the open scopes, whatever it finds. */
  lemma {:induction false} DeeperKeepsOuter(server: Server, command: Command, verdict: Verdict, frames: seq<Rows>)
    requires Shape(Postgres, server.stack, frames) && (command.Insert? || command.name > |frames|)
    ensures var after := Send(Postgres, server, command, verdict).0;
            Shape(Postgres, after.stack, frames) && after.ended == server.ended
  {
    hide Shape;
    match command {
      case Insert(_) =>
      case Establish(name) =>
        ShapeAppend(Postgres, server.stack, [Savepoint(name, server.rows)], frames);
      case Release(name) =>
        var i := Newest(server.stack, name);
        if i >= 0 { ShapeTake(server.stack, frames, i); }
      case RollbackTo(name) =>
        var i := Newest(server.stack, name);
        if i >= 0 { ShapeTake(server.stack, frames, i); }
    }
  }
}
