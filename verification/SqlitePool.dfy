/** Reusing idle SQLite handles between exclusive leases.

    The steps are the stretches of code between two awaits.  An operation of a lease settles first on
    the handle, and is observed by the lease later; anything may happen in between. */
module SqlitePool {
  import opened Options
  import opened SqliteStatement

  /** A statement or a stream has a text; a session has none; a transaction keeps the handle in one
      until it settles. */
  datatype Work = Statement(text: string) | Session | Transaction

  /** An operation in flight; once settled it is known whether it succeeded. */
  datatype Op = Op(transaction: bool, settled: Option<bool>)

  datatype Lease = Lease(handle: nat, reusable: bool, disposed: bool, closing: bool, pending: seq<Op>)

  /** The texts that ran on a native handle, and whether an operation on it ever failed. */
  datatype Handle = Handle(texts: seq<string>, failed: bool, closed: bool)

  datatype Pool = Pool(
    max: nat, idle: seq<nat>, active: int, disposed: bool, leases: seq<Lease>, handles: seq<Handle>)

  datatype Event =
    | Create(opens: bool)
    | Start(lease: nat, work: Work)
    | Settle(lease: nat, op: nat, ok: bool)
    | Observe(lease: nat, op: nat)
    | DisposeLease(lease: nat)
    | Closed(lease: nat)
    | DisposeSource

  // ------------------------------------------------------------------------------------------
  // The steps.

  function Lend(p: Pool, handle: nat): Pool {
    p.(active := p.active + 1, leases := p.leases + [Lease(handle, true, false, false, [])])
  }

  function CreateConnection(p: Pool, opens: bool): Pool {
    if p.disposed then p
    else if p.idle != [] then Lend(p.(idle := p.idle[..|p.idle| - 1]), p.idle[|p.idle| - 1])
    else if opens then Lend(p.(handles := p.handles + [Handle([], false, false)]), |p.handles|)
    else p
  }

  function StartWork(p: Pool, l: nat, work: Work): Pool
    requires l < |p.leases| && p.leases[l].handle < |p.handles|
  {
    var lease := p.leases[l];
    var handle := p.handles[lease.handle];
    var started := lease.(
      pending := lease.pending + [Op(work.Transaction?, None)],
      reusable := lease.reusable && (work.Statement? ==> Plain(work.text)));
    p.(leases := p.leases[l := started],
       handles := p.handles[lease.handle :=
         if work.Statement? then handle.(texts := handle.texts + [work.text]) else handle])
  }

  function SettleOp(p: Pool, l: nat, k: nat, ok: bool): Pool
    requires l < |p.leases| && p.leases[l].handle < |p.handles| && k < |p.leases[l].pending|
  {
    var lease := p.leases[l];
    var handle := p.handles[lease.handle];
    var op := lease.pending[k];
    p.(leases := p.leases[l := lease.(pending := lease.pending[k := op.(settled := Some(ok))])],
       handles := p.handles[lease.handle := handle.(failed := handle.failed || !ok)])
  }

  function ObserveOp(p: Pool, l: nat, k: nat): Pool
    requires l < |p.leases| && k < |p.leases[l].pending| && p.leases[l].pending[k].settled.Some?
  {
    var lease := p.leases[l];
    p.(leases := p.leases[l := lease.(
         pending := lease.pending[..k] + lease.pending[k + 1..],
         reusable := lease.reusable && lease.pending[k].settled.value)])
  }

  predicate InTransaction(lease: Lease) {
    exists k :: 0 <= k < |lease.pending| && lease.pending[k].transaction && lease.pending[k].settled.None?
  }

  /** The handle of a disposed lease goes back to the idle ones. */
  predicate Parks(p: Pool, l: nat)
    requires l < |p.leases|
  {
    p.leases[l].reusable && !InTransaction(p.leases[l]) && |p.idle| < p.max
  }

  function ReturnHandle(p: Pool, l: nat): Pool
    requires l < |p.leases| && p.leases[l].handle < |p.handles|
  {
    var lease := p.leases[l];
    if Parks(p, l) then
      p.(idle := p.idle + [lease.handle], active := p.active - 1, leases := p.leases[l := lease.(disposed := true)])
    else
      p.(leases := p.leases[l := lease.(disposed := true, closing := true)],
         handles := p.handles[lease.handle := p.handles[lease.handle].(closed := true)])
  }

  function CloseAll(handles: seq<Handle>, which: seq<nat>): (r: seq<Handle>)
    ensures |r| == |handles|
    ensures forall h :: 0 <= h < |handles| ==>
      r[h] == if h in which then handles[h].(closed := true) else handles[h]
  {
    seq(|handles|, h requires 0 <= h < |handles| =>
      if h in which then handles[h].(closed := true) else handles[h])
  }

  function DisposeAll(p: Pool): Pool {
    if p.active > 0 || p.disposed then p
    else p.(disposed := true, idle := [], handles := CloseAll(p.handles, p.idle))
  }

  /** An event that is not enabled is refused and changes nothing. */
  predicate Enabled(p: Pool, e: Event) {
    match e
    case Create(_) => true
    case Start(l, _) => l < |p.leases| && !p.leases[l].disposed && p.leases[l].handle < |p.handles|
    case Settle(l, k, _) =>
      && l < |p.leases| && p.leases[l].handle < |p.handles|
      && k < |p.leases[l].pending| && p.leases[l].pending[k].settled.None?
    case Observe(l, k) =>
      l < |p.leases| && k < |p.leases[l].pending| && p.leases[l].pending[k].settled.Some?
    case DisposeLease(l) => l < |p.leases| && !p.leases[l].disposed && p.leases[l].handle < |p.handles|
    case Closed(l) => l < |p.leases| && p.leases[l].closing
    case DisposeSource => true
  }

  function Step(p: Pool, e: Event): Pool {
    if !Enabled(p, e) then p
    else match e
      case Create(opens) => CreateConnection(p, opens)
      case Start(l, work) => StartWork(p, l, work)
      case Settle(l, k, ok) => SettleOp(p, l, k, ok)
      case Observe(l, k) => ObserveOp(p, l, k)
      case DisposeLease(l) => ReturnHandle(p, l)
      case Closed(l) => p.(active := p.active - 1, leases := p.leases[l := p.leases[l].(closing := false)])
      case DisposeSource => DisposeAll(p)
  }

  function Run(p: Pool, events: seq<Event>): Pool {
    if events == [] then p else Step(Run(p, events[..|events| - 1]), events[|events| - 1])
  }

  function Fresh(max: nat): Pool {
    Pool(max, [], 0, false, [], [])
  }

  // ------------------------------------------------------------------------------------------
  // Every handle has one home.

  predicate Live(lease: Lease) {
    !lease.disposed || lease.closing
  }

  function LiveCount(leases: seq<Lease>): nat {
    if leases == [] then 0 else LiveCount(leases[..|leases| - 1]) + if Live(leases[|leases| - 1]) then 1 else 0
  }

  ghost predicate Holds(p: Pool, l: nat, h: nat) {
    l < |p.leases| && p.leases[l].handle == h && !p.leases[l].disposed
  }

  ghost predicate Leased(p: Pool, h: nat) {
    exists l: nat :: Holds(p, l, h)
  }

  ghost predicate InRange(p: Pool) {
    && (forall l :: 0 <= l < |p.leases| ==> p.leases[l].handle < |p.handles|)
    && (forall i :: 0 <= i < |p.idle| ==> p.idle[i] < |p.handles|)
  }

  /** Idle handles are open, idle once, and never leased. */
  ghost predicate IdleApart(p: Pool)
    requires InRange(p)
  {
    && |p.idle| <= p.max
    && (forall i, j :: 0 <= i < j < |p.idle| ==> p.idle[i] != p.idle[j])
    && (forall i :: 0 <= i < |p.idle| ==> !p.handles[p.idle[i]].closed)
    && (forall i, l: nat :: 0 <= i < |p.idle| ==> !Holds(p, l, p.idle[i]))
  }

  /** Leased handles are open and leased once. */
  ghost predicate LeasesApart(p: Pool)
    requires InRange(p)
  {
    && (forall l: nat, h: nat :: Holds(p, l, h) ==> !p.handles[h].closed)
    && (forall l: nat, m: nat, h: nat :: Holds(p, l, h) && Holds(p, m, h) ==> l == m)
  }

  ghost predicate NoneLost(p: Pool)
    requires InRange(p)
  {
    forall h: nat :: h < |p.handles| ==> p.handles[h].closed || h in p.idle || Leased(p, h)
  }

  ghost predicate OneHome(p: Pool) {
    && InRange(p) && IdleApart(p) && LeasesApart(p) && NoneLost(p)
    && p.active == LiveCount(p.leases)
    && (p.disposed ==> p.active == 0 && p.idle == [])
  }

  lemma {:induction false} LiveUpdate(leases: seq<Lease>, l: nat, lease: Lease)
    requires l < |leases|
    ensures LiveCount(leases[l := lease]) ==
            LiveCount(leases) + (if Live(lease) then 1 else 0) - (if Live(leases[l]) then 1 else 0)
  {
    var n := |leases| - 1;
    if l < n {
      LiveUpdate(leases[..n], l, lease);
      assert leases[l := lease][..n] == leases[..n][l := lease];
    } else {
      assert leases[l := lease][..n] == leases[..n];
    }
  }

  lemma {:induction false} NoneLive(leases: seq<Lease>, l: nat)
    requires l < |leases| && LiveCount(leases) == 0
    ensures !Live(leases[l])
  {
    if l < |leases| - 1 { NoneLive(leases[..|leases| - 1], l); }
  }

  /** All is in order but for `handle`, which is open and has no home yet. */
  ghost predicate Homeless(p: Pool, handle: nat) {
    && InRange(p) && IdleApart(p) && LeasesApart(p)
    && p.active == LiveCount(p.leases) && !p.disposed
    && handle < |p.handles| && !p.handles[handle].closed && handle !in p.idle
    && (forall l: nat :: !Holds(p, l, handle))
    && forall h: nat :: h < |p.handles| && h != handle ==> p.handles[h].closed || h in p.idle || Leased(p, h)
  }

  lemma {:induction false} PoppedHomeless(p: Pool)
    requires OneHome(p) && p.idle != [] && !p.disposed
    ensures Homeless(p.(idle := p.idle[..|p.idle| - 1]), p.idle[|p.idle| - 1])
  {
    hide LiveCount;
    var own := p.idle[|p.idle| - 1];
    var q := p.(idle := p.idle[..|p.idle| - 1]);
    assert p.idle == q.idle + [own];
    assert forall l: nat, h: nat :: Holds(p, l, h) <==> Holds(q, l, h);
    forall h: nat | h < |q.handles| && h != own ensures q.handles[h].closed || h in q.idle || Leased(q, h) {
      if Leased(p, h) { var l: nat :| Holds(p, l, h); assert Holds(q, l, h); }
    }
  }

  lemma {:induction false} OpenedHomeless(p: Pool)
    requires OneHome(p) && !p.disposed
    ensures Homeless(p.(handles := p.handles + [Handle([], false, false)]), |p.handles|)
  {
    hide LiveCount;
    var q := p.(handles := p.handles + [Handle([], false, false)]);
    assert forall l: nat, h: nat :: Holds(p, l, h) <==> Holds(q, l, h);
    forall h: nat | h < |q.handles| && h != |p.handles| ensures q.handles[h].closed || h in q.idle || Leased(q, h) {
      if Leased(p, h) { var l: nat :| Holds(p, l, h); assert Holds(q, l, h); }
    }
  }

  lemma {:induction false} LendHouses(p: Pool, handle: nat)
    requires Homeless(p, handle)
    ensures OneHome(Lend(p, handle))
  {
    var q := Lend(p, handle);
    var n := |p.leases|;
    assert q.active == LiveCount(q.leases) by { assert q.leases[..n] == p.leases; }
    hide LiveCount;
    assert forall l: nat, h: nat :: Holds(q, l, h) <==> Holds(p, l, h) || (l == n && h == handle);
    forall h: nat | h < |q.handles| ensures q.handles[h].closed || h in q.idle || Leased(q, h) {
      if h == handle { assert Holds(q, n, handle); }
      else if Leased(p, h) { var l: nat :| Holds(p, l, h); assert Holds(q, l, h); }
    }
  }

  lemma {:induction false} CreateKeepsHome(p: Pool, opens: bool)
    requires OneHome(p)
    ensures OneHome(CreateConnection(p, opens))
  {
    hide OneHome, Homeless, Lend;
    if !p.disposed {
      if p.idle != [] {
        PoppedHomeless(p);
        LendHouses(p.(idle := p.idle[..|p.idle| - 1]), p.idle[|p.idle| - 1]);
      } else if opens {
        OpenedHomeless(p);
        LendHouses(p.(handles := p.handles + [Handle([], false, false)]), |p.handles|);
      }
    }
  }

  /** A step that only works on a lease, or closes nothing, changes no home. */
  ghost predicate SameHomes(p: Pool, q: Pool) {
    && q.max == p.max && q.idle == p.idle && q.active == p.active && q.disposed == p.disposed
    && |q.leases| == |p.leases| && |q.handles| == |p.handles|
    && (forall l :: 0 <= l < |p.leases| ==>
          && q.leases[l].handle == p.leases[l].handle && q.leases[l].disposed == p.leases[l].disposed
          && q.leases[l].closing == p.leases[l].closing)
    && (forall h :: 0 <= h < |p.handles| ==> q.handles[h].closed == p.handles[h].closed)
  }

  lemma {:induction false} LiveSame(a: seq<Lease>, b: seq<Lease>)
    requires |a| == |b| && forall l :: 0 <= l < |a| ==> Live(a[l]) == Live(b[l])
    ensures LiveCount(a) == LiveCount(b)
  {
    if a != [] { LiveSame(a[..|a| - 1], b[..|b| - 1]); }
  }

  lemma {:induction false} SameHomesKeeps(p: Pool, q: Pool)
    requires OneHome(p) && SameHomes(p, q)
    ensures OneHome(q)
  {
    LiveSame(p.leases, q.leases);
    hide LiveCount;
    assert forall l: nat, h: nat :: Holds(p, l, h) <==> Holds(q, l, h);
    forall h: nat | h < |q.handles| ensures q.handles[h].closed || h in q.idle || Leased(q, h) {
      if Leased(p, h) { var l: nat :| Holds(p, l, h); assert Holds(q, l, h); }
    }
  }

  /** Only disposed leases are being closed. */
  ghost predicate ClosingDisposed(p: Pool) {
    forall l :: 0 <= l < |p.leases| && p.leases[l].closing ==> p.leases[l].disposed
  }

  lemma {:induction false} DisposeLeaseKeepsHome(p: Pool, l: nat)
    requires OneHome(p) && ClosingDisposed(p) && l < |p.leases| && !p.leases[l].disposed
    ensures OneHome(ReturnHandle(p, l))
  {
    var q := ReturnHandle(p, l);
    var own := p.leases[l].handle;
    LiveUpdate(p.leases, l, q.leases[l]);
    assert q.leases == p.leases[l := q.leases[l]];
    hide LiveCount;
    assert Holds(p, l, own);
    if p.disposed { LiveOne(p, l); }
    assert forall m: nat, h: nat :: Holds(q, m, h) <==> Holds(p, m, h) && m != l;
    assert own !in p.idle;
    forall i | 0 <= i < |q.idle| ensures !q.handles[q.idle[i]].closed {
      if i < |p.idle| { assert q.idle[i] == p.idle[i]; }
    }
    assert IdleApart(q);
    assert LeasesApart(q);
    assert q.active == LiveCount(q.leases);
    forall h: nat | h < |q.handles| ensures q.handles[h].closed || h in q.idle || Leased(q, h) {
      if h == own { if Parks(p, l) { assert q.idle[|p.idle|] == own; } }
      else if h in p.idle { assert h in q.idle; }
      else if Leased(p, h) { var m: nat :| Holds(p, m, h); assert Holds(q, m, h); }
    }
  }

  lemma LiveOne(p: Pool, l: nat)
    requires l < |p.leases| && Live(p.leases[l])
    ensures LiveCount(p.leases) > 0
  {
    if LiveCount(p.leases) == 0 { NoneLive(p.leases, l); }
  }

  lemma {:induction false} ClosedKeepsHome(p: Pool, l: nat)
    requires OneHome(p) && ClosingDisposed(p) && Enabled(p, Closed(l))
    ensures OneHome(Step(p, Closed(l)))
  {
    var q := Step(p, Closed(l));
    LiveUpdate(p.leases, l, q.leases[l]);
    if p.disposed { LiveOne(p, l); }
    hide LiveCount;
    assert forall m: nat, h: nat :: Holds(q, m, h) <==> Holds(p, m, h);
    forall h: nat | h < |q.handles| ensures q.handles[h].closed || h in q.idle || Leased(q, h) {
      if Leased(p, h) { var m: nat :| Holds(p, m, h); assert Holds(q, m, h); }
    }
  }

  lemma {:induction false} DisposeSourceKeepsHome(p: Pool)
    requires OneHome(p)
    ensures OneHome(DisposeAll(p))
  {
    var q := DisposeAll(p);
    if q != p {
      forall l: nat, h: nat ensures !Holds(p, l, h) {
        if Holds(p, l, h) { NoneLive(p.leases, l); }
      }
      assert forall l: nat, h: nat :: Holds(q, l, h) <==> Holds(p, l, h);
    }
  }

  lemma {:induction false} StepKeepsHome(p: Pool, e: Event)
    requires OneHome(p) && ClosingDisposed(p)
    ensures OneHome(Step(p, e)) && ClosingDisposed(Step(p, e))
  {
    hide OneHome;
    var q := Step(p, e);
    assert ClosingDisposed(q);
    if Enabled(p, e) {
      match e {
        case Create(opens) => CreateKeepsHome(p, opens);
        case Start(l, work) => assert SameHomes(p, q); SameHomesKeeps(p, q);
        case Settle(l, k, ok) => assert SameHomes(p, q); SameHomesKeeps(p, q);
        case Observe(l, k) => assert SameHomes(p, q); SameHomesKeeps(p, q);
        case DisposeLease(l) => DisposeLeaseKeepsHome(p, l);
        case Closed(l) => ClosedKeepsHome(p, l);
        case DisposeSource => DisposeSourceKeepsHome(p);
      }
    }
  }

  /** In every run each native handle is leased by one owner, idle, or closed, and never two of these;
      idle ones never exceed the limit; a disposed source has no idle handle and no open one. */
  lemma {:induction false} EveryHandleHasOneHome(max: nat, events: seq<Event>)
    ensures var p := Run(Fresh(max), events);
            && OneHome(p) && ClosingDisposed(p) && p.max == max
            && (p.disposed ==> forall h :: 0 <= h < |p.handles| ==> p.handles[h].closed)
  {
    var p := Run(Fresh(max), events);
    if events != [] {
      EveryHandleHasOneHome(max, events[..|events| - 1]);
      StepKeepsHome(Run(Fresh(max), events[..|events| - 1]), events[|events| - 1]);
    }
    if p.disposed { DisposedHoldsNothing(p); }
  }

  lemma {:induction false} DisposedHoldsNothing(p: Pool)
    requires OneHome(p) && p.disposed
    ensures forall h :: 0 <= h < |p.handles| ==> p.handles[h].closed
  {
    forall h: nat | h < |p.handles| ensures p.handles[h].closed {
      if Leased(p, h) {
        var l: nat :| Holds(p, l, h);
        LiveOne(p, l);
      }
    }
  }

  /** Nor does it ever gain one. */
  lemma {:induction false} DisposedGainsNothing(p: Pool, events: seq<Event>)
    requires p.disposed
    ensures var q := Run(p, events);
            q.disposed && |q.handles| == |p.handles| && |q.leases| == |p.leases|
  {
    if events != [] {
      DisposedGainsNothing(p, events[..|events| - 1]);
    }
  }

  // ------------------------------------------------------------------------------------------
  // What an idle handle has been through.

  predicate AllPlain(texts: seq<string>) {
    forall i :: 0 <= i < |texts| ==> Plain(texts[i])
  }

  /** What makes a handle fit to be lent again, and a live lease fit to give it back. */
  ghost predicate IdlePlain(p: Pool)
    requires InRange(p)
  {
    && (forall i :: 0 <= i < |p.idle| ==> AllPlain(p.handles[p.idle[i]].texts))
    && (forall l :: 0 <= l < |p.leases| && !p.leases[l].disposed && p.leases[l].reusable ==>
          AllPlain(p.handles[p.leases[l].handle].texts))
  }

  lemma StartKeepsPlain(p: Pool, l: nat, work: Work)
    requires OneHome(p) && IdlePlain(p) && Enabled(p, Start(l, work))
    ensures var q := StartWork(p, l, work); InRange(q) && IdlePlain(q)
  {
    hide Plain, LiveCount;
    var own := p.leases[l].handle;
    assert Holds(p, l, own);
    var q := StartWork(p, l, work);
    forall i | 0 <= i < |q.idle| ensures AllPlain(q.handles[q.idle[i]].texts) { assert p.idle[i] != own; }
    forall m: nat | m < |q.leases| && !q.leases[m].disposed && q.leases[m].reusable
      ensures AllPlain(q.handles[q.leases[m].handle].texts)
    {
      assert Holds(p, m, p.leases[m].handle);
    }
  }

  lemma CreateKeepsPlain(p: Pool, opens: bool)
    requires InRange(p) && IdlePlain(p)
    ensures var q := CreateConnection(p, opens); InRange(q) && IdlePlain(q)
  {
    hide Plain;
    var q := CreateConnection(p, opens);
    if q != p && p.idle != [] { assert p.idle[|p.idle| - 1] == q.leases[|p.leases|].handle; }
  }

  lemma StepKeepsPlain(p: Pool, e: Event)
    requires OneHome(p) && IdlePlain(p)
    ensures var q := Step(p, e); InRange(q) && IdlePlain(q)
  {
    hide Plain, LiveCount, AllPlain, NoneLost, IdleApart, LeasesApart, InTransaction;
    var q := Step(p, e);
    if Enabled(p, e) {
      match e {
        case Create(opens) => CreateKeepsPlain(p, opens);
        case Start(l, work) => StartKeepsPlain(p, l, work);
        case _ =>
          assert forall h :: 0 <= h < |p.handles| ==> q.handles[h].texts == p.handles[h].texts;
      }
    }
  }

  /** In every run, whatever fails and whenever leases are disposed, no idle handle ever ran anything but
      plain single statements. */
  lemma {:induction false} IdleRanOnlyPlain(max: nat, events: seq<Event>)
    ensures var p := Run(Fresh(max), events);
            InRange(p) && IdlePlain(p)
  {
    if events != [] {
      var init := events[..|events| - 1];
      EveryHandleHasOneHome(max, init);
      IdleRanOnlyPlain(max, init);
      StepKeepsPlain(Run(Fresh(max), init), events[|events| - 1]);
    }
  }

  /** Ran nothing that may change the session, and never failed. */
  predicate Clean(handle: Handle) {
    AllPlain(handle.texts) && !handle.failed
  }

  /** Every operation in flight has succeeded and only waits to be observed. */
  predicate AllDone(lease: Lease) {
    forall k :: 0 <= k < |lease.pending| ==> lease.pending[k].settled == Some(true)
  }

  /** A failure the lease has not seen yet. */
  ghost predicate Unseen(lease: Lease) {
    exists k :: 0 <= k < |lease.pending| && lease.pending[k].settled == Some(false)
  }

  /** What is known of a lease and the handle it uses or used. */
  ghost predicate Accounted(lease: Lease, handle: Handle) {
    && (Unseen(lease) ==> handle.failed)
    && (lease.disposed && !handle.closed ==> AllDone(lease))
    && (!lease.disposed && lease.reusable ==> AllPlain(handle.texts) && (handle.failed ==> Unseen(lease)))
  }

  ghost predicate IdleClean(p: Pool)
    requires InRange(p)
  {
    && (forall i :: 0 <= i < |p.idle| ==> Clean(p.handles[p.idle[i]]))
    && (forall l :: 0 <= l < |p.leases| ==> Accounted(p.leases[l], p.handles[p.leases[l].handle]))
  }

  /** No lease is disposed, its handle to be kept, while an operation of it may still fail or has failed. */
  predicate Calm(p: Pool, e: Event) {
    e.DisposeLease? && Enabled(p, e) && Parks(p, e.lease) ==> AllDone(p.leases[e.lease])
  }

  predicate CalmRun(p: Pool, events: seq<Event>) {
    events == [] ||
      (CalmRun(p, events[..|events| - 1]) && Calm(Run(p, events[..|events| - 1]), events[|events| - 1]))
  }

  lemma CreateKeepsClean(p: Pool, opens: bool)
    requires OneHome(p) && IdleClean(p)
    ensures var q := CreateConnection(p, opens); InRange(q) && IdleClean(q)
  {
    hide Plain, LiveCount;
    var q := CreateConnection(p, opens);
    if q != p && p.idle != [] { assert p.idle[|p.idle| - 1] == q.leases[|p.leases|].handle; }
    forall l | 0 <= l < |q.leases| ensures Accounted(q.leases[l], q.handles[q.leases[l].handle]) {
      if l < |p.leases| { assert Accounted(p.leases[l], p.handles[p.leases[l].handle]); }
    }
  }

  /** A step of one live lease: its handle is not idle and nobody else's. */
  lemma OwnStepKeepsClean(p: Pool, q: Pool, l: nat)
    requires OneHome(p) && IdleClean(p) && l < |p.leases| && !p.leases[l].disposed
    requires SameHomes(p, q)
    requires forall m :: 0 <= m < |p.leases| && m != l ==> q.leases[m] == p.leases[m]
    requires forall h :: 0 <= h < |p.handles| && h != p.leases[l].handle ==> q.handles[h] == p.handles[h]
    requires p.handles[p.leases[l].handle].failed ==> q.handles[p.leases[l].handle].failed
    requires Accounted(q.leases[l], q.handles[q.leases[l].handle])
    ensures InRange(q) && IdleClean(q)
  {
    hide Plain, LiveCount;
    var own := p.leases[l].handle;
    assert Holds(p, l, own);
    forall i | 0 <= i < |q.idle| ensures Clean(q.handles[q.idle[i]]) { assert p.idle[i] != own; }
    forall m: nat | m < |q.leases| ensures Accounted(q.leases[m], q.handles[q.leases[m].handle]) {
      if m != l {
        assert Accounted(p.leases[m], p.handles[p.leases[m].handle]);
        assert p.leases[m].disposed || Holds(p, m, p.leases[m].handle);
      }
    }
  }

  lemma StartAccounted(lease: Lease, handle: Handle, work: Work)
    requires Accounted(lease, handle) && !lease.disposed
    ensures var started := lease.(
              pending := lease.pending + [Op(work.Transaction?, None)],
              reusable := lease.reusable && (work.Statement? ==> Plain(work.text)));
            Accounted(started, if work.Statement? then handle.(texts := handle.texts + [work.text]) else handle)
  {
    hide Plain;
    var ops := lease.pending + [Op(work.Transaction?, None)];
    assert forall k :: 0 <= k < |lease.pending| ==> ops[k] == lease.pending[k];
  }

  lemma SettleAccounted(lease: Lease, handle: Handle, k: nat, ok: bool)
    requires Accounted(lease, handle) && !lease.disposed && k < |lease.pending| && lease.pending[k].settled.None?
    ensures var settled := lease.(pending := lease.pending[k := lease.pending[k].(settled := Some(ok))]);
            Accounted(settled, handle.(failed := handle.failed || !ok))
  {
    hide AllPlain;
    var ops := lease.pending[k := lease.pending[k].(settled := Some(ok))];
    assert ops[k].settled == Some(ok);
    assert forall j :: 0 <= j < |ops| && j != k ==> ops[j] == lease.pending[j];
  }

  lemma ObserveAccounted(lease: Lease, handle: Handle, k: nat)
    requires Accounted(lease, handle) && k < |lease.pending| && lease.pending[k].settled.Some?
    ensures var observed := lease.(
              pending := lease.pending[..k] + lease.pending[k + 1..],
              reusable := lease.reusable && lease.pending[k].settled.value);
            Accounted(observed, handle)
  {
    hide AllPlain;
    var ops := lease.pending[..k] + lease.pending[k + 1..];
    assert forall j :: 0 <= j < |ops| ==> ops[j] == lease.pending[if j < k then j else j + 1];
    if j :| 0 <= j < |lease.pending| && lease.pending[j].settled == Some(false) {
      if j != k { assert ops[if j < k then j else j - 1] == lease.pending[j]; }
    }
  }

  /** A disposed lease still finishes what is in flight, on a handle that is closed or whose operations
      have all succeeded. */
  lemma LateObserveKeepsClean(p: Pool, l: nat, k: nat)
    requires OneHome(p) && IdleClean(p) && Enabled(p, Observe(l, k))
    ensures var q := ObserveOp(p, l, k); InRange(q) && IdleClean(q)
  {
    hide Plain, LiveCount;
    ObserveAccounted(p.leases[l], p.handles[p.leases[l].handle], k);
    var q := ObserveOp(p, l, k);
    forall m | 0 <= m < |q.leases| ensures Accounted(q.leases[m], q.handles[q.leases[m].handle]) {
      if m != l { assert Accounted(p.leases[m], p.handles[p.leases[m].handle]); }
    }
  }

  lemma LateSettleKeepsClean(p: Pool, l: nat, k: nat, ok: bool)
    requires OneHome(p) && IdleClean(p) && Enabled(p, Settle(l, k, ok)) && p.leases[l].disposed
    ensures var q := SettleOp(p, l, k, ok); InRange(q) && IdleClean(q)
  {
    hide Plain, LiveCount;
    var own := p.leases[l].handle;
    assert Accounted(p.leases[l], p.handles[own]);
    assert p.handles[own].closed;
    var q := SettleOp(p, l, k, ok);
    forall i | 0 <= i < |q.idle| ensures Clean(q.handles[q.idle[i]]) { assert p.idle[i] != own; }
    forall m: nat | m < |q.leases| ensures Accounted(q.leases[m], q.handles[q.leases[m].handle]) {
      assert Accounted(p.leases[m], p.handles[p.leases[m].handle]);
      assert p.leases[m].disposed || Holds(p, m, p.leases[m].handle);
    }
  }

  lemma DisposeLeaseKeepsClean(p: Pool, l: nat)
    requires OneHome(p) && IdleClean(p) && Enabled(p, DisposeLease(l)) && Calm(p, DisposeLease(l))
    ensures var q := ReturnHandle(p, l); InRange(q) && IdleClean(q)
  {
    hide Plain, LiveCount;
    var q := ReturnHandle(p, l);
    var own := p.leases[l].handle;
    assert Holds(p, l, own);
    assert Accounted(p.leases[l], p.handles[own]);
    forall i | 0 <= i < |q.idle| ensures Clean(q.handles[q.idle[i]]) {
      if i < |p.idle| { assert p.idle[i] != own; }
    }
    forall m: nat | m < |q.leases| ensures Accounted(q.leases[m], q.handles[q.leases[m].handle]) {
      assert Accounted(p.leases[m], p.handles[p.leases[m].handle]);
      assert p.leases[m].disposed || Holds(p, m, p.leases[m].handle);
    }
  }

  lemma StepKeepsClean(p: Pool, e: Event)
    requires OneHome(p) && ClosingDisposed(p) && IdleClean(p) && Calm(p, e)
    ensures var q := Step(p, e); InRange(q) && IdleClean(q)
  {
    hide Plain, LiveCount, AllPlain, AllDone, Unseen;
    var q := Step(p, e);
    if Enabled(p, e) {
      match e {
        case Create(opens) => CreateKeepsClean(p, opens);
        case Start(l, work) =>
          StartAccounted(p.leases[l], p.handles[p.leases[l].handle], work);
          OwnStepKeepsClean(p, q, l);
        case Settle(l, k, ok) =>
          if p.leases[l].disposed { LateSettleKeepsClean(p, l, k, ok); }
          else {
            SettleAccounted(p.leases[l], p.handles[p.leases[l].handle], k, ok);
            OwnStepKeepsClean(p, q, l);
          }
        case Observe(l, k) => LateObserveKeepsClean(p, l, k);
        case DisposeLease(l) => DisposeLeaseKeepsClean(p, l);
        case Closed(l) =>
          forall m: nat | m < |q.leases| ensures Accounted(q.leases[m], q.handles[q.leases[m].handle]) {
            assert Accounted(p.leases[m], p.handles[p.leases[m].handle]);
            if m == l { ClosedAccounted(p.leases[l], p.handles[p.leases[l].handle]); }
          }
        case DisposeSource =>
      }
    }
  }

  lemma ClosedAccounted(lease: Lease, handle: Handle)
    requires Accounted(lease, handle)
    ensures Accounted(lease.(closing := false), handle)
  {
    hide AllPlain;
    assert lease.(closing := false).pending == lease.pending;
    assert Unseen(lease.(closing := false)) <==> Unseen(lease);
  }

  /** In a run whose disposals are calm no idle handle ever failed either. */
  lemma {:induction false} CalmRunsKeepIdleClean(max: nat, events: seq<Event>)
    requires CalmRun(Fresh(max), events)
    ensures var p := Run(Fresh(max), events);
            InRange(p) && IdleClean(p)
  {
    if events != [] {
      var init := events[..|events| - 1];
      EveryHandleHasOneHome(max, init);
      CalmRunsKeepIdleClean(max, init);
      StepKeepsClean(Run(Fresh(max), init), events[|events| - 1]);
    }
  }

  /** The operations of one lease run to their end. */
  predicate OwnOutcomes(l: nat, events: seq<Event>) {
    forall i :: 0 <= i < |events| ==>
      (events[i].Settle? || events[i].Observe?) && events[i].lease == l
  }

  lemma {:induction false} DoneStays(p: Pool, l: nat, events: seq<Event>)
    requires l < |p.leases| && p.leases[l].handle < |p.handles|
    requires AllDone(p.leases[l]) && OwnOutcomes(l, events)
    ensures var q := Run(p, events);
            && q.handles == p.handles && |q.leases| == |p.leases| && q.idle == p.idle
            && q.leases[l].handle == p.leases[l].handle && AllDone(q.leases[l])
  {
    if events != [] {
      var init, last := events[..|events| - 1], events[|events| - 1];
      DoneStays(p, l, init);
      assert last == events[|events| - 1];
      var q := Run(p, init);
      if Enabled(q, last) {
        assert last.Observe?;
        var ops := q.leases[l].pending;
        var left := ops[..last.op] + ops[last.op + 1..];
        assert forall j :: 0 <= j < |left| ==> left[j] == ops[if j < last.op then j else j + 1];
      }
    }
  }

  ghost predicate NeverSpoilt(p: Pool, l: nat, h: nat) {
    forall events :: OwnOutcomes(l, events) ==> HandleClean(Run(p, events), h)
  }

  ghost predicate HandleClean(p: Pool, h: nat) {
    h < |p.handles| && Clean(p.handles[h])
  }

  /** A handle kept when its lease is disposed stays clean whatever becomes of the operations in flight
      exactly when all of them have already succeeded: a failure that comes later, or has come but was
      not observed, is never seen by the source. */
  lemma {:induction false} KeptHandleStaysCleanExactly(p: Pool, l: nat)
    requires OneHome(p) && IdleClean(p) && Enabled(p, DisposeLease(l)) && Parks(p, l)
    ensures NeverSpoilt(ReturnHandle(p, l), l, p.leases[l].handle) <==> AllDone(p.leases[l])
  {
    hide Plain, LiveCount;
    var q := ReturnHandle(p, l);
    var h := p.leases[l].handle;
    assert Accounted(p.leases[l], p.handles[h]);
    if AllDone(p.leases[l]) {
      assert AllDone(q.leases[l]);
      forall events | OwnOutcomes(l, events) ensures HandleClean(Run(q, events), h) {
        DoneStays(q, l, events);
      }
    } else {
      var k :| 0 <= k < |p.leases[l].pending| && p.leases[l].pending[k].settled != Some(true);
      var settled := p.leases[l].pending[k].settled;
      if settled.Some? {
        assert settled == Some(false) by { assert !settled.value; }
        assert Unseen(p.leases[l]);
        assert OwnOutcomes(l, []) && Run(q, []) == q;
        assert !HandleClean(Run(q, []), h);
      } else {
        LateFailure(q, l, k);
      }
    }
  }

  lemma {:induction false} LateFailure(q: Pool, l: nat, k: nat)
    requires Enabled(q, Settle(l, k, false))
    ensures !NeverSpoilt(q, l, q.leases[l].handle)
  {
    var events := [Settle(l, k, false)];
    assert events[..0] == [] && Run(q, []) == q;
    assert Run(q, events) == SettleOp(q, l, k, false);
    assert OwnOutcomes(l, events) && !HandleClean(Run(q, events), q.leases[l].handle);
  }

  /** One such run: the lease is disposed while its only statement is under way. */
  lemma {:induction false} DisposedTooEarly(text: string)
    requires Plain(text)
    ensures var p := Run(Fresh(1), [Create(true), Start(0, Statement(text)), DisposeLease(0), Settle(0, 0, false)]);
            p.idle == [0] && p.handles == [Handle([text], true, false)]
  {
    hide Plain;
    var events := [Create(true), Start(0, Statement(text)), DisposeLease(0), Settle(0, 0, false)];
    assert events[..3][..2] == events[..2] && events[..2][..1] == events[..1] && events[..1][..0] == [];
    var p0 := Fresh(1);
    var p1 := Pool(1, [], 1, false, [Lease(0, true, false, false, [])], [Handle([], false, false)]);
    var op := Op(false, None);
    var p2 := p1.(leases := [Lease(0, true, false, false, [op])], handles := [Handle([text], false, false)]);
    var p3 := p2.(idle := [0], active := 0, leases := [Lease(0, true, true, false, [op])]);
    assert Step(p0, events[0]) == p1;
    assert [] + [op] == [op] && [] + [text] == [text];
    assert Step(p1, events[1]) == p2;
    assert Step(p2, events[2]) == p3;
    assert Run(p0, events[..1]) == p1;
    assert Run(p0, events[..2]) == p2;
    assert Run(p0, events[..3]) == p3;
  }

  // ------------------------------------------------------------------------------------------
  // No idle handle is in a transaction.

  ghost predicate LeftNoTransaction(p: Pool)
    requires InRange(p)
  {
    forall l :: 0 <= l < |p.leases| && p.leases[l].disposed && !p.handles[p.leases[l].handle].closed ==>
      !InTransaction(p.leases[l])
  }

  lemma StepLeavesNoTransaction(p: Pool, e: Event)
    requires OneHome(p) && LeftNoTransaction(p)
    ensures var q := Step(p, e); InRange(q) && LeftNoTransaction(q)
  {
    hide Plain, LiveCount;
    var q := Step(p, e);
    assert InRange(q);
    forall l | 0 <= l < |q.leases| && q.leases[l].disposed && !q.handles[q.leases[l].handle].closed
      ensures !InTransaction(q.leases[l])
    {
      LeaseAfter(p, e, l);
    }
  }

  lemma LeaseAfter(p: Pool, e: Event, l: nat)
    requires OneHome(p) && LeftNoTransaction(p)
    requires var q := Step(p, e);
             && l < |q.leases| && q.leases[l].handle < |q.handles|
             && q.leases[l].disposed && !q.handles[q.leases[l].handle].closed
    ensures !InTransaction(Step(p, e).leases[l])
  {
    hide Plain, LiveCount;
    var q := Step(p, e);
    if Enabled(p, e) {
      match e {
        case Settle(m, k, ok) =>
        case Observe(m, k) =>
          if m == l {
            var ops := p.leases[l].pending;
            assert forall j :: 0 <= j < |ops| - 1 ==> q.leases[l].pending[j] == ops[if j < k then j else j + 1];
          }
        case DisposeLease(m) =>
          if m == l { assert q.leases[l].pending == p.leases[l].pending; }
        case Closed(m) =>
          if m == l { assert q.leases[l].pending == p.leases[l].pending; }
        case _ =>
      }
    }
  }

  /** In every run, calm or not: an idle handle has no transaction of any lease still under way. */
  lemma {:induction false} IdleNotInTransaction(max: nat, events: seq<Event>)
    ensures var p := Run(Fresh(max), events);
            && InRange(p) && LeftNoTransaction(p)
            && forall i, l :: 0 <= i < |p.idle| && 0 <= l < |p.leases| && p.leases[l].handle == p.idle[i] ==>
                 !InTransaction(p.leases[l])
  {
    if events != [] {
      var init := events[..|events| - 1];
      EveryHandleHasOneHome(max, init);
      IdleNotInTransaction(max, init);
      StepLeavesNoTransaction(Run(Fresh(max), init), events[|events| - 1]);
    }
    EveryHandleHasOneHome(max, events);
    var p := Run(Fresh(max), events);
    forall i, l: nat | 0 <= i < |p.idle| && l < |p.leases| && p.leases[l].handle == p.idle[i]
      ensures !InTransaction(p.leases[l])
    {
      assert !Holds(p, l, p.idle[i]);
    }
  }

  // ------------------------------------------------------------------------------------------
  // What each call does.

  /** A live transaction, said without the lease's own test. */
  ghost predicate Transacting(lease: Lease) {
    exists op :: op in lease.pending && op.transaction && op.settled.None?
  }

  lemma TransactingExactly(lease: Lease)
    ensures InTransaction(lease) <==> Transacting(lease)
  {
    if op :| op in lease.pending && op.transaction && op.settled.None? {
      var k :| 0 <= k < |lease.pending| && lease.pending[k] == op;
    }
  }

  /** In every run, no transaction is under way on an idle handle, by whichever lease. */
  lemma IdleHandlesRest(max: nat, events: seq<Event>, i: nat, l: nat)
    ensures var p := Run(Fresh(max), events);
            i < |p.idle| && l < |p.leases| && p.leases[l].handle == p.idle[i] ==> !Transacting(p.leases[l])
  {
    IdleNotInTransaction(max, events);
    var p := Run(Fresh(max), events);
    if l < |p.leases| { TransactingExactly(p.leases[l]); }
  }

  /** Creating a lease lends the handle retired last, else opens one; it fails exactly if the source is disposed
      or no handle can be had. */
  lemma CreateExactly(p: Pool, opens: bool)
    ensures var q := Step(p, Create(opens));
            && (p.disposed || (p.idle == [] && !opens) ==> q == p)
            && (!p.disposed && p.idle != [] ==>
                  && q.leases == p.leases + [Lease(p.idle[|p.idle| - 1], true, false, false, [])]
                  && p.idle == q.idle + [p.idle[|p.idle| - 1]] && q.handles == p.handles && q.active == p.active + 1)
            && (!p.disposed && p.idle == [] && opens ==>
                  && q.leases == p.leases + [Lease(|p.handles|, true, false, false, [])]
                  && q.handles == p.handles + [Handle([], false, false)] && q.active == p.active + 1)
  {
  }

  /** Disposing a live lease keeps its handle exactly if every observed operation succeeded and no text may have
      changed the session, no transaction is under way, and there is room; otherwise the handle is closed. */
  lemma DisposeLeaseExactly(p: Pool, l: nat)
    requires OneHome(p) && ClosingDisposed(p) && l < |p.leases| && !p.leases[l].disposed
    ensures var q, lease := Step(p, DisposeLease(l)), p.leases[l];
            && q.leases[l].disposed
            && (if lease.reusable && !Transacting(lease) && |p.idle| < p.max
                then q.idle == p.idle + [lease.handle] && q.handles == p.handles && q.active == p.active - 1
                     && !q.leases[l].closing
                else q.idle == p.idle && q.handles[lease.handle].closed && q.leases[l].closing && q.active == p.active)
  {
    hide LiveCount;
    TransactingExactly(p.leases[l]);
  }

  /** Disposing the source is refused exactly while a lease is live; afterwards it is disposed, and every idle
      handle was closed. */
  lemma DisposeSourceExactly(p: Pool)
    requires OneHome(p)
    ensures var q := Step(p, DisposeSource);
            && (LiveCount(p.leases) > 0 ==> q == p)
            && (LiveCount(p.leases) == 0 ==>
                  && q.disposed && q.idle == [] && q.leases == p.leases && |q.handles| == |p.handles|
                  && forall h :: 0 <= h < |p.handles| ==>
                       q.handles[h] == if h in p.idle then p.handles[h].(closed := true) else p.handles[h])
  {
    hide LiveCount;
  }

  /** A lease refuses work once disposed; a text retires it exactly if it may change the session. */
  lemma StartExactly(p: Pool, l: nat, work: Work)
    requires OneHome(p) && l < |p.leases|
    ensures var q := Step(p, Start(l, work));
            && (p.leases[l].disposed ==> q == p)
            && (!p.leases[l].disposed ==>
                  && q.leases[l].pending == p.leases[l].pending + [Op(work.Transaction?, None)]
                  && q.leases[l].reusable == (p.leases[l].reusable && (work.Statement? ==> Plain(work.text)))
                  && q.handles[p.leases[l].handle].texts ==
                     p.handles[p.leases[l].handle].texts + if work.Statement? then [work.text] else [])
  {
    hide LiveCount, Plain;
    var texts := p.handles[p.leases[l].handle].texts;
    assert texts + [] == texts;
  }

  /** An operation that failed retires its lease when it is observed, and not before. */
  lemma OutcomesExactly(p: Pool, l: nat, k: nat, ok: bool)
    requires OneHome(p) && l < |p.leases| && k < |p.leases[l].pending|
    ensures p.leases[l].pending[k].settled.None? ==>
              var q := Step(p, Settle(l, k, ok));
              && q.leases[l].reusable == p.leases[l].reusable
              && q.leases[l].pending == p.leases[l].pending[k := p.leases[l].pending[k].(settled := Some(ok))]
              && q.handles[p.leases[l].handle].failed == (p.handles[p.leases[l].handle].failed || !ok)
    ensures p.leases[l].pending[k].settled.Some? ==>
              var q := Step(p, Observe(l, k));
              && q.leases[l].reusable == (p.leases[l].reusable && p.leases[l].pending[k].settled.value)
              && q.leases[l].pending == p.leases[l].pending[..k] + p.leases[l].pending[k + 1..]
              && q.handles == p.handles
  {
    hide LiveCount;
  }

  // ------------------------------------------------------------------------------------------
  // The source and its leases as objects that change in place.

  class ReusableSource {
    const maxIdleConnections: nat
    var idle: seq<nat>
    var active: int
    var disposed: bool
    var disposal: Option<int>
    var leases: seq<Lease>
    var handles: seq<Handle>

    ghost function Now(): Pool
      reads this
    {
      Pool(maxIdleConnections, idle, active, disposed, leases, handles)
    }

    ghost predicate Valid()
      reads this
    {
      OneHome(Now()) && ClosingDisposed(Now())
    }

    constructor (maxIdleConnections: nat)
      ensures Now() == Fresh(maxIdleConnections) && Valid()
    {
      this.maxIdleConnections := maxIdleConnections;
      idle, active, disposed, disposal, leases, handles := [], 0, false, None, [], [];
    }

    /** `None` when the source was disposed or the handle could not be opened. */
    method CreateConnection(opens: bool) returns (lease: Option<nat>)
      requires Valid()
      modifies this
      ensures Valid() && Now() == Step(old(Now()), Create(opens))
      ensures lease.None? <==> old(disposed) || (old(idle) == [] && !opens)
      ensures lease.Some? ==> lease.value == old(|leases|) && Live(leases[lease.value])
    {
      hide OneHome, ClosingDisposed;
      ghost var before := Now();
      if disposed || (idle == [] && !opens) {
        return None;
      }
      var connection;
      if idle != [] {
        connection := idle[|idle| - 1];
        idle := idle[..|idle| - 1];
      } else {
        connection := |handles|;
        handles := handles + [Handle([], false, false)];
      }
      active := active + 1;
      lease := Some(|leases|);
      leases := leases + [Lease(connection, true, false, false, [])];
      StepKeepsHome(before, Create(opens));
    }

    /** `query`, `stream`, `session` or `transaction` on a lease; refused once the lease is disposed. */
    method StartOperation(l: nat, work: Work) returns (accepted: bool)
      requires Valid() && l < |leases|
      modifies this
      ensures Valid() && Now() == Step(old(Now()), Start(l, work)) && (accepted <==> !old(leases[l].disposed))
    {
      ghost var before := Now();
      accepted := !leases[l].disposed;
      if accepted {
        var lease := leases[l];
        var handle := handles[lease.handle];
        if work.Statement? {
          if !Plain(work.text) {
            lease := lease.(reusable := false);
          }
          handles := handles[lease.handle := handle.(texts := handle.texts + [work.text])];
        }
        leases := leases[l := lease.(pending := lease.pending + [Op(work.Transaction?, None)])];
        assert handles[lease.handle := handles[lease.handle]] == handles;
      }
      StepKeepsHome(before, Start(l, work));
    }

    /** The lease learns how an operation ended. */
    method ObserveOutcome(l: nat, k: nat)
      requires Valid() && Enabled(Now(), Observe(l, k))
      modifies this
      ensures Valid() && Now() == Step(old(Now()), Observe(l, k))
    {
      ghost var before := Now();
      var lease := leases[l];
      if !lease.pending[k].settled.value {
        lease := lease.(reusable := false);
      }
      leases := leases[l := lease.(pending := lease.pending[..k] + lease.pending[k + 1..])];
      StepKeepsHome(before, Observe(l, k));
    }

    /** Disposing a lease a second time does nothing. */
    method DisposeConnection(l: nat)
      requires Valid() && l < |leases|
      modifies this
      ensures Valid() && Now() == Step(old(Now()), DisposeLease(l))
    {
      ghost var before := Now();
      if !leases[l].disposed {
        var lease := leases[l].(disposed := true);
        if lease.reusable && !InTransaction(lease) && |idle| < maxIdleConnections {
          idle := idle + [lease.handle];
          active := active - 1;
        } else {
          lease := lease.(closing := true);
          handles := handles[lease.handle := handles[lease.handle].(closed := true)];
        }
        leases := leases[l := lease];
      }
      StepKeepsHome(before, DisposeLease(l));
    }

    method FinishClosing(l: nat)
      requires Valid() && Enabled(Now(), Closed(l))
      modifies this
      ensures Valid() && Now() == Step(old(Now()), Closed(l))
    {
      ghost var before := Now();
      active := active - 1;
      leases := leases[l := leases[l].(closing := false)];
      StepKeepsHome(before, Closed(l));
    }

    /** Refused while a lease is live.  The first call tries to close every idle handle, `outcomes` being what
        becomes of each; this call and all later ones report the first failure. */
    method Dispose(outcomes: seq<Option<int>>) returns (accepted: bool, failure: Option<int>)
      requires Valid() && |outcomes| == |idle|
      modifies this
      ensures Valid() && Now() == Step(old(Now()), DisposeSource)
      ensures accepted <==> old(active) == 0
      ensures accepted ==> idle == [] && forall h :: 0 <= h < |handles| ==> handles[h].closed
      ensures failure == if accepted then disposal else None
      ensures if accepted && !old(disposed) then IsFirstFailure(outcomes, disposal) else disposal == old(disposal)
    {
      ghost var before := Now();
      accepted := active <= 0;
      failure := None;
      if accepted {
        if !disposed {
          disposed := true;
          handles := CloseAll(handles, idle);
          idle := [];
          disposal := FirstFailure(outcomes);
        }
        failure := disposal;
      }
      StepKeepsHome(before, DisposeSource);
      if accepted { DisposedHoldsNothing(Now()); }
    }
  }

  predicate IsFirstFailure(outcomes: seq<Option<int>>, r: Option<int>) {
    if r.None? then AllClosed(outcomes)
    else exists i :: 0 <= i < |outcomes| && outcomes[i] == r && AllClosed(outcomes[..i])
  }

  predicate AllClosed(outcomes: seq<Option<int>>) {
    forall i :: 0 <= i < |outcomes| ==> outcomes[i].None?
  }

  method FirstFailure(outcomes: seq<Option<int>>) returns (r: Option<int>)
    ensures IsFirstFailure(outcomes, r)
  {
    for i := 0 to |outcomes|
      invariant AllClosed(outcomes[..i])
    {
      if outcomes[i].Some? {
        return outcomes[i];
      }
    }
    r := None;
  }
}
