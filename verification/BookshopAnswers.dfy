/** Who gets an answer: every repeated request, every new one that the stock can serve, every delivered event;
    and what else a client, a receiver or a publisher may end with. */
module BookshopAnswers {
  import opened BookshopTables
  import opened BookshopRuns

  // ------------------------------------------------------------------------------------------
  // Reading the receipt.

  /** The order recorded under a request was placed by this actor, for this sku and quantity. */
  ghost predicate SameRequest(t: Tables, c: Client) {
    var requestKey := RequestKey(c.tenantId, c.command.requestId);
    requestKey in t.receipts &&
    var key := OrderKey(c.tenantId, t.receipts[requestKey].orderId);
    && key in t.orders && t.orders[key] == Order(c.command.sku, c.command.quantity)
    && exists a :: HasAudit(t, key, a) && t.audit[AuditKey(c.tenantId, a)].actorId == c.actorId
  }

  /** A client that finds a receipt under its request is answered with the recorded response exactly if the
      recorded order is its own, and fails otherwise. */
  lemma ReceiptAnswersExactly(initial: map<StockKey, Inventory>, t: Tables, c: Client, orderId: Id, auditId: Id)
    requires Consistent(initial, t) && (c.pc.FindReceipt? || c.pc.FindReplay?)
    requires RequestKey(c.tenantId, c.command.requestId) in t.receipts
    ensures var receipt := t.receipts[RequestKey(c.tenantId, c.command.requestId)];
            var (u, after) := MoveClient(t, c, Read(orderId, auditId));
            && u == t && after == c.(pc := after.pc)
            && after.pc == if SameRequest(t, c) then Answered(receipt.response) else ClientPc.Failed
  {
    var requestKey := RequestKey(c.tenantId, c.command.requestId);
    var receipt := t.receipts[requestKey];
    var key := OrderKey(c.tenantId, receipt.orderId);
    assert key in t.orders;
    var a :| HasAudit(t, key, a);
    assert t.audit[AuditKey(c.tenantId, a)].actorId == receipt.fingerprint.actorId;
    if SameRequest(t, c) {
      var b :| HasAudit(t, key, b) && t.audit[AuditKey(c.tenantId, b)].actorId == c.actorId;
      assert a == b;
    }
  }

  /** Without a receipt, a client that looks for a replay fails; one that starts goes on to the stock, and draws
      up its order exactly if there is enough. */
  lemma NoReceiptReads(t: Tables, c: Client, orderId: Id, auditId: Id)
    requires RequestKey(c.tenantId, c.command.requestId) !in t.receipts
    ensures c.pc.FindReplay? ==> MoveClient(t, c, Read(orderId, auditId)) == (t, c.(pc := ClientPc.Failed))
    ensures c.pc.FindReceipt? ==> MoveClient(t, c, Read(orderId, auditId)) == (t, c.(pc := FindStock))
    ensures c.pc.FindStock? ==>
              var key := StockKey(c.tenantId, c.command.sku);
              MoveClient(t, c, Read(orderId, auditId)) ==
              (t, c.(pc := if key in t.inventory && t.inventory[key].available >= c.command.quantity
                           then Saving(Draft(c.tenantId, c.actorId, c.command, t.inventory[key], orderId, auditId))
                           else ClientPc.Failed))
  {
  }

  // ------------------------------------------------------------------------------------------
  // Saving.

  /** A save that happens places the order exactly if no identifier is taken and the stock is as it was read.
      It starts over after a conflict, at most twice, and looks for the receipt after a duplicate. */
  lemma SaveExactly(t: Tables, c: Client, acknowledged: bool)
    requires c.pc.Saving? && Drafted(t, c.pc.draft)
    requires c.pc.draft.tenantId == c.tenantId && c.pc.draft.command == c.command
    ensures var d := c.pc.draft;
            var (u, after) := MoveClient(t, c, Save(acknowledged));
            var stale := t.inventory[StockKey(d.tenantId, d.command.sku)] != d.stock;
            var taken := OrderKey(d.tenantId, d.orderId) in t.orders || AuditKey(d.tenantId, d.auditId) in t.audit
                         || RequestKey(d.tenantId, d.command.requestId) in t.receipts;
            && (!stale && !taken ==>
                  && u == Place(t, d) && OrderKey(d.tenantId, d.orderId) in u.orders
                  && after.pc == (if acknowledged
                       then Answered(ResultOf(d.tenantId, d.orderId, Order(c.command.sku, c.command.quantity)))
                       else ClientPc.Failed))
            && (stale || taken ==> u == t)
            && (stale && c.attempt < 3 ==> after == c.(attempt := c.attempt + 1, pc := FindReceipt))
            && (stale && c.attempt >= 3 ==> after == c.(pc := ClientPc.Failed))
            && (!stale && taken ==> after == c.(pc := FindReplay))
  {
  }

  /** A client fails for nothing but these. */
  lemma FailsOnlyFor(initial: map<StockKey, Inventory>, t: Tables, c: Client, move: ClientMove)
    requires Consistent(initial, t) && ClientOk(t, c) && !c.pc.Failed? && MoveClient(t, c, move).1.pc.Failed?
    ensures var requestKey, stockKey := RequestKey(c.tenantId, c.command.requestId), StockKey(c.tenantId, c.command.sku);
            || move.Crash?
            || (move.Fault? && (!move.transient || c.retry >= 3))
            || (move.Save? && !move.acknowledged && c.pc.Saving? && CanPlace(t, c.pc.draft))
            || (c.pc.Saving? && c.attempt >= 3
                && (move.RefuseAsConflict? || (move.Save? && t.inventory[stockKey] != c.pc.draft.stock)))
            || (move.Read? && requestKey in t.receipts && !SameRequest(t, c))
            || (move.Read? && requestKey !in t.receipts && c.pc.FindReplay?)
            || (move.Read? && c.pc.FindStock?
                && (stockKey !in t.inventory || t.inventory[stockKey].available < c.command.quantity))
  {
    if move.Read? && RequestKey(c.tenantId, c.command.requestId) in t.receipts && !c.pc.FindStock? && !c.pc.Saving?
       && !c.pc.Answered?
    {
      ReceiptAnswersExactly(initial, t, c, move.orderId, move.auditId);
    }
    hide Consistent;
  }

  /** A command for one to ten thousand pieces starts by looking for a receipt; any other fails at once. */
  lemma BeginsExactly(tenant: Id, actor: Id, command: Command)
    ensures Begin(tenant, actor, command).pc ==
            if command.quantity < 1 || command.quantity > 10_000 then Failed else FindReceipt
  {
  }

  function Conflicts(c: Client, times: nat): Client {
    if times == 0 then c else Conflict(Conflicts(c, times - 1))
  }

  function Faults(c: Client, times: nat): Client {
    if times == 0 then c else Transient(Faults(c, times - 1))
  }

  /** A client with a valid command gives up at the third conflict in a row, and at the third fault. */
  lemma {:induction false} GivesUpExactly(tenant: Id, actor: Id, command: Command, times: nat)
    requires ValidCommand(command)
    ensures Conflicts(Begin(tenant, actor, command), times).pc.Failed? <==> times >= 3
    ensures Faults(Begin(tenant, actor, command), times).pc.Failed? <==> times >= 3
    ensures times < 3 ==> Conflicts(Begin(tenant, actor, command), times).attempt == times + 1
    ensures times < 3 ==> Faults(Begin(tenant, actor, command), times).retry == times + 1
    ensures times >= 3 ==> Conflicts(Begin(tenant, actor, command), times).attempt == 3
    ensures times >= 3 ==> Faults(Begin(tenant, actor, command), times).retry == 3
  {
    if times > 0 { GivesUpExactly(tenant, actor, command, times - 1); }
  }

  /** Starting over is bounded: a client has had at most three attempts in each of at most three retries. */
  lemma MoveBounded(t: Tables, c: Client, move: ClientMove)
    requires 1 <= c.attempt <= 3 && 1 <= c.retry <= 3
    ensures var after := MoveClient(t, c, move).1;
            && 1 <= after.attempt <= 3 && c.retry <= after.retry <= 3
            && (after.retry == c.retry ==> c.attempt <= after.attempt)
            && (after.pc.FindReceipt? && !c.pc.FindReceipt? ==>
                  after.retry > c.retry || (after.retry == c.retry && after.attempt > c.attempt))
            && (move.Fault? && move.transient && c.retry < 3 && !c.pc.Answered? && !c.pc.Failed? ==>
                  after.retry == c.retry + 1 && after.attempt == 1 && after.pc.FindReceipt?)
            && (move.RefuseAsConflict? && c.pc.Saving? && c.attempt < 3 ==>
                  after.attempt == c.attempt + 1 && after.pc.FindReceipt?)
            && (move.RefuseAsDuplicate? && c.pc.Saving? ==> after == c.(pc := FindReplay))
  {
  }

  // ------------------------------------------------------------------------------------------
  // Whole requests.

  lemma {:induction false} RunConcat(s: Shop, a: seq<Step>, b: seq<Step>)
    ensures Run(s, a + b) == Run(Run(s, a), b)
    decreases |a|
  {
    if a == [] {
      assert a + b == b;
    } else {
      hide Next;
      RunConcat(Next(s, a[0]), a[1..], b);
      assert (a + b)[0] == a[0] && (a + b)[1..] == a[1..] + b;
    }
  }

  lemma RunOne(s: Shop, step: Step)
    ensures Run(s, [step]) == Next(s, step)
  {
    assert [step][1..] == [];
  }

  lemma RunTwo(s: Shop, a: Step, b: Step)
    ensures Run(s, [a, b]) == Next(Next(s, a), b)
  {
    hide Next;
    RunOne(Next(s, a), b);
    assert [a, b][1..] == [b];
  }

  lemma RunFour(s: Shop, a: Step, b: Step, c: Step, d: Step)
    ensures Run(s, [a, b, c, d]) == Next(Next(Next(Next(s, a), b), c), d)
  {
    hide Next;
    RunTwo(s, a, b);
    RunTwo(Next(Next(s, a), b), c, d);
    RunConcat(s, [a, b], [c, d]);
    assert [a, b] + [c, d] == [a, b, c, d];
  }

  /** A new request that the stock can serve, on its own and with fresh identifiers, is placed and answered. */
  lemma NewRequestAnswered(
    s: Shop, id: nat, tenant: Id, actor: Id, command: Command, orderId: Id, auditId: Id, o: Id, a: Id)
    requires id !in s.clients && ValidCommand(command)
    requires RequestKey(tenant, command.requestId) !in s.tables.receipts
    requires var key := StockKey(tenant, command.sku);
             key in s.tables.inventory && s.tables.inventory[key].available >= command.quantity
    requires OrderKey(tenant, orderId) !in s.tables.orders && AuditKey(tenant, auditId) !in s.tables.audit
    ensures var u := Run(s, [Arrive(id, tenant, actor, command), OnClient(id, Read(o, a)),
                             OnClient(id, Read(orderId, auditId)), OnClient(id, Save(true))]);
            var stock := s.tables.inventory[StockKey(tenant, command.sku)];
            && id in u.clients
            && u.clients[id].pc == Answered(CheckoutResult(tenant, orderId, command.sku, command.quantity))
            && u.tables == Place(s.tables, Draft(tenant, actor, command, stock, orderId, auditId))
  {
    hide Place;
    RunFour(s, Arrive(id, tenant, actor, command), OnClient(id, Read(o, a)),
            OnClient(id, Read(orderId, auditId)), OnClient(id, Save(true)));
    var c := Begin(tenant, actor, command);
    NoReceiptReads(s.tables, c, o, a);
    NoReceiptReads(s.tables, c.(pc := FindStock), orderId, auditId);
  }

  /** A repeated request is answered with the first answer, whatever else has happened since. */
  lemma RepeatedRequestAnswered(
    initial: map<StockKey, Inventory>, before: seq<Step>, first: nat, id: nat, o: Id, a: Id)
    requires Stocked(initial)
    requires var s := Run(Opened(initial), before);
             first in s.clients && s.clients[first].pc.Answered? && id !in s.clients
    ensures var s := Run(Opened(initial), before);
            var c := s.clients[first];
            var u := Run(s, [Arrive(id, c.tenantId, c.actorId, c.command), OnClient(id, Read(o, a))]);
            && id in u.clients && u.clients[id].pc == c.pc && u.tables == s.tables
  {
    var s := Run(Opened(initial), before);
    EveryRunConsistent(initial, before);
    var c := s.clients[first];
    assert ClientOk(s.tables, c);
    hide Run, Inv;
    RunTwo(s, Arrive(id, c.tenantId, c.actorId, c.command), OnClient(id, Read(o, a)));
  }

  // ------------------------------------------------------------------------------------------
  // Receivers and publishers.

  /** What a receiver finds: it is done exactly if its event was delivered, and goes on to save exactly if the
      event is that of an order, and is rejected otherwise. */
  lemma ReceiverReadsExactly(initial: map<StockKey, Inventory>, t: Tables, r: Receiver)
    requires Consistent(initial, t)
    ensures var (u, after) := MoveReceiver(t, r, ReadRow);
            var key := OrderKey(r.event.tenantId, r.event.orderId);
            && u == t && after == r.(pc := after.pc)
            && (r.pc.FindDelivery? ==>
                  after.pc == if Delivered(t, r.event) then Fulfilled
                              else if key in t.deliveries then ReceiverPc.Rejected else FindOrder)
            && (r.pc.FindOrder? ==> after.pc == if EventMatches(t, r.event) then SavingShipment else ReceiverPc.Rejected)
            && (r.pc.FindDeliveryReplay? ==> after.pc == if Delivered(t, r.event) then Fulfilled else ReceiverPc.Rejected)
  {
  }

  /** How a receiver ends without finding its delivery: it crashes, its save is not acknowledged, or a fault is
      not transient or was the third; any other fault, and a save that was refused, makes it look again. */
  lemma ReceiverEnds(t: Tables, r: Receiver, transient: bool)
    requires !r.pc.Fulfilled? && !r.pc.Rejected?
    ensures MoveReceiver(t, r, CrashReceiver) == (t, r.(pc := ReceiverPc.Rejected))
    ensures var (u, after) := MoveReceiver(t, r, FaultReceiver(transient));
            && u == t
            && (!transient || r.retry >= 3 ==> after == r.(pc := ReceiverPc.Rejected))
            && (transient && r.retry < 3 ==> after == r.(retry := r.retry + 1, pc := FindDelivery))
    ensures r.pc.SavingShipment? ==>
              && MoveReceiver(t, r, RefuseShipment) == (t, r.(pc := FindDeliveryReplay))
              && (!CanShip(t, r.event) ==>
                    forall told :: MoveReceiver(t, r, SaveShipment(told)) == (t, r.(pc := FindDeliveryReplay)))
              && (CanShip(t, r.event) ==> MoveReceiver(t, r, SaveShipment(false)).1 == r.(pc := ReceiverPc.Rejected))
  {
  }

  /** A receiver that is done stays so, and one that is not about to save saves nothing. */
  lemma ReceiverStays(t: Tables, r: Receiver, move: ReceiverMove)
    requires r.pc.Fulfilled? || r.pc.Rejected? || (!r.pc.SavingShipment? && (move.SaveShipment? || move.RefuseShipment?))
             || (r.pc.SavingShipment? && move.ReadRow?)
    ensures MoveReceiver(t, r, move) == (t, r)
  {
  }

  /** A publisher that is done stays so; one that is stopped, or whose acknowledgement is not confirmed, stops. */
  lemma PublisherEnds(s: Shop, p: Publisher, move: PublisherMove)
    ensures p.pc.Finished? || p.pc.Stopped? ==> MovePublisher(s, p, move) == (s.tables, s.receivers, p)
    ensures !p.pc.Finished? ==> MovePublisher(s, p, StopPublisher) == (s.tables, s.receivers, p.(pc := Stopped))
    ensures p.pc.Acknowledging? && p.pc.next < |p.batch| ==>
              MovePublisher(s, p, Acknowledged(false)) ==
              (Acknowledge(s.tables, p.batch[p.pc.next].id), s.receivers, p.(pc := Stopped))
  {
  }

  /** Nobody arrives under a number that is taken, nobody moves who did not arrive, and a batch is of one to 256
      rows. */
  lemma NothingHappens(s: Shop, step: Step)
    requires match step
             case Arrive(id, _, _, _) => id in s.clients
             case OnClient(id, _) => id !in s.clients
             case Deliver(id, _) => id in s.receivers
             case OnReceiver(id, _) => id !in s.receivers
             case Publish(id, limit) => id in s.publishers || limit < 1 || limit > 256
             case OnPublisher(id, _) => id !in s.publishers
    ensures Next(s, step) == s
  {
  }

  /** One move of a receiver, as a step of the shop. */
  lemma ReceiverStep(s: Shop, id: nat, move: ReceiverMove)
    requires id in s.receivers
    ensures var (t, r) := MoveReceiver(s.tables, s.receivers[id], move);
            Next(s, OnReceiver(id, move)) == s.(tables := t, receivers := s.receivers[id := r])
  {
  }

  /** A shipment saved by a receiver that found the order. */
  lemma SaveShips(initial: map<StockKey, Inventory>, t: Tables, r: Receiver)
    requires Consistent(initial, t) && r.pc.SavingShipment? && EventMatches(t, r.event) && !Delivered(t, r.event)
    ensures var (u, after) := MoveReceiver(t, r, SaveShipment(true));
            u == Ship(t, r.event) && after == r.(pc := Fulfilled) && Delivered(u, r.event) && u.outbox == t.outbox
  {
    assert ShipmentsMatch(t);
    hide Consistent;
  }

  ghost predicate OnlyFulfilled(s: Shop, u: Shop, id: nat)
    requires id in s.receivers
  {
    && u.publishers == s.publishers && u.clients == s.clients
    && u.receivers == s.receivers[id := s.receivers[id].(pc := Fulfilled)]
    && Delivered(u.tables, s.receivers[id].event) && u.tables.outbox == s.tables.outbox
  }

  /** A receiver on its own: it fulfils the event of an order, at once if that was delivered before. */
  lemma FulfilAlone(initial: map<StockKey, Inventory>, s: Shop, id: nat) returns (steps: seq<Step>)
    requires Inv(initial, s) && id in s.receivers && s.receivers[id].pc.FindDelivery?
    requires EventMatches(s.tables, s.receivers[id].event)
    ensures Inv(initial, Run(s, steps)) && OnlyFulfilled(s, Run(s, steps), id)
  {
    var t, r := s.tables, s.receivers[id];
    var read, save := OnReceiver(id, ReadRow), OnReceiver(id, SaveShipment(true));
    assert Consistent(initial, t) && ShipmentsMatch(t);
    hide Consistent, Inv, Next, MoveReceiver, Ship;
    ReceiverReadsExactly(initial, t, r);
    ReceiverStep(s, id, ReadRow);
    if Delivered(t, r.event) {
      steps := [read];
      RunOne(s, read);
    } else {
      var found := s.(receivers := s.receivers[id := r.(pc := FindOrder)]);
      assert s.receivers[id := r.(pc := FindOrder)][id := r.(pc := SavingShipment)]
             == s.receivers[id := r.(pc := SavingShipment)];
      ReceiverReadsExactly(initial, t, r.(pc := FindOrder));
      ReceiverStep(found, id, ReadRow);
      var saving := s.(receivers := s.receivers[id := r.(pc := SavingShipment)]);
      SaveShips(initial, t, r.(pc := SavingShipment));
      ReceiverStep(saving, id, SaveShipment(true));
      assert saving.receivers[id := r.(pc := Fulfilled)] == s.receivers[id := r.(pc := Fulfilled)];
      steps := [read, read] + [save];
      RunTwo(s, read, read);
      RunOne(saving, save);
      RunConcat(s, [read, read], [save]);
    }
    RunKeeps(initial, s, steps);
  }

  /** The event of a row still to be sent is that of an order. */
  lemma RowMatches(initial: map<StockKey, Inventory>, s: Shop, id: nat)
    requires Inv(initial, s) && id in s.publishers && s.publishers[id].pc.Sending?
    ensures var p := s.publishers[id];
            p.pc.next < |p.batch| && EventMatches(s.tables, p.batch[p.pc.next].event)
  {
    assert PublisherOk(s.tables, s.receivers, s.publishers[id]);
    assert RowsMatch(s.tables);
  }

  lemma SendRow(s: Shop, id: nat, unused: nat)
    requires id in s.publishers && s.publishers[id].pc.Sending? && unused !in s.receivers
    requires s.publishers[id].pc.next < |s.publishers[id].batch|
    ensures var p := s.publishers[id];
            Next(s, OnPublisher(id, Send(unused))) ==
            s.(receivers := s.receivers[unused := Receiver(p.batch[p.pc.next].event, 1, FindDelivery)],
               publishers := s.publishers[id := p.(pc := Waiting(p.pc.next, unused))])
  {
  }

  /** A publisher waits for a receiver, and acknowledges the row exactly if it fulfilled; else it stops. */
  lemma AwaitRow(s: Shop, id: nat)
    requires id in s.publishers && s.publishers[id].pc.Waiting? && s.publishers[id].pc.receiver in s.receivers
    ensures var p := s.publishers[id];
            var reply := s.receivers[p.pc.receiver].pc;
            Next(s, OnPublisher(id, AwaitReply)) ==
            s.(publishers := s.publishers[id := p.(pc :=
                 if reply.Fulfilled? then Acknowledging(p.pc.next)
                 else if reply.Rejected? then PublisherPc.Stopped else p.pc)])
  {
  }

  lemma AcknowledgeRow(s: Shop, id: nat)
    requires id in s.publishers && s.publishers[id].pc.Acknowledging? && s.publishers[id].pc.next < |s.publishers[id].batch|
    ensures var u, p := Next(s, OnPublisher(id, Acknowledged(true))), s.publishers[id];
            && id in u.publishers && u.publishers[id] == Continue(p, p.pc.next + 1)
            && u.tables == Acknowledge(s.tables, p.batch[p.pc.next].id)
  {
  }

  /** The next row of the batch is sent, and its receiver fulfils it. */
  lemma SendAndFulfil(initial: map<StockKey, Inventory>, s: Shop, id: nat, unused: nat) returns (steps: seq<Step>)
    requires Inv(initial, s) && id in s.publishers && s.publishers[id].pc.Sending? && unused !in s.receivers
    ensures var u, p := Run(s, steps), s.publishers[id];
            && p.pc.next < |p.batch| && Inv(initial, u)
            && id in u.publishers && u.publishers[id] == p.(pc := Waiting(p.pc.next, unused))
            && unused in u.receivers && u.receivers[unused].pc.Fulfilled?
  {
    RowMatches(initial, s, id);
    hide Inv, Run, Next, Delivered, EventMatches;
    var send := OnPublisher(id, Send(unused));
    SendRow(s, id, unused);
    NextKeeps(initial, s, send);
    RunOne(s, send);
    var fulfil := FulfilAlone(initial, Next(s, send), unused);
    RunConcat(s, [send], fulfil);
    steps := [send] + fulfil;
  }

  /** One row of a batch, sent, fulfilled, awaited and acknowledged. */
  lemma PublishRow(initial: map<StockKey, Inventory>, s: Shop, id: nat, unused: nat) returns (steps: seq<Step>)
    requires Inv(initial, s) && id in s.publishers && s.publishers[id].pc.Sending? && unused !in s.receivers
    ensures var u, p := Run(s, steps), s.publishers[id];
            && Inv(initial, u) && id in u.publishers
            && p.pc.next < |p.batch| && u.publishers[id] == Continue(p, p.pc.next + 1)
  {
    hide *;
    var first := SendAndFulfil(initial, s, id, unused);
    var done, end := Run(s, first), [OnPublisher(id, AwaitReply), OnPublisher(id, Acknowledged(true))];
    AwaitRow(done, id);
    AcknowledgeRow(Next(done, end[0]), id);
    RunTwo(done, end[0], end[1]);
    RunConcat(s, first, end);
    RunKeeps(initial, done, end);
    SameContinuation(s.publishers[id], unused);
    steps := first + end;
  }

  lemma SameContinuation(p: Publisher, r: nat)
    requires p.pc.Sending?
    ensures Continue(p.(pc := Acknowledging(p.pc.next)), p.pc.next + 1) == Continue(p, p.pc.next + 1)
  {
  }

  /** From its batch, a publisher that is not disturbed finishes: every row can be sent, received and
      acknowledged. */
  lemma {:induction false} PublisherFinishes(initial: map<StockKey, Inventory>, s: Shop, id: nat) returns (steps: seq<Step>)
    requires Inv(initial, s) && id in s.publishers && s.publishers[id].pc.Sending?
    ensures var u := Run(s, steps);
            id in u.publishers && u.publishers[id].pc.Finished? && u.publishers[id].batch == s.publishers[id].batch
    decreases |s.publishers[id].batch| - s.publishers[id].pc.next
  {
    var unused := NewKey(s.receivers.Keys);
    steps := PublishRow(initial, s, id, unused);
    hide Inv, Run;
    var u := Run(s, steps);
    if u.publishers[id].pc.Sending? {
      var more := PublisherFinishes(initial, u, id);
      RunConcat(s, steps, more);
      steps := steps + more;
    }
  }

  lemma {:induction false} NewKey(keys: set<nat>) returns (unused: nat)
    ensures unused !in keys
  {
    unused := Above(keys);
  }

  lemma {:induction false} Above(keys: set<nat>) returns (bound: nat)
    ensures forall k :: k in keys ==> k < bound
    decreases |keys|
  {
    bound := 0;
    if keys != {} {
      var k :| k in keys;
      var rest := Above(keys - {k});
      bound := if k < rest then rest else k + 1;
      assert forall j :: j in keys ==> j == k || j in keys - {k};
    }
  }
}
