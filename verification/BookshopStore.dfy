/** The bookshop programs run without interference or crashes, as the sources write them: each
    updates the shared tables in place, and a dispatch run makes progress. */
module BookshopStore {
  import opened Options
  import opened BookshopTables
  import opened BookshopRuns

  /** Outbox rows still to be delivered. */
  function Undelivered(outbox: seq<OutboxRow>): nat {
    if outbox == [] then 0 else (if outbox[0].delivered then 0 else 1) + Undelivered(outbox[1..])
  }

  lemma {:induction false} UndeliveredSuffix(outbox: seq<OutboxRow>, from: nat)
    requires from < |outbox|
    ensures Undelivered(outbox[from..]) == (if outbox[from].delivered then 0 else 1) + Undelivered(outbox[from + 1..])
  {
    assert outbox[from..][1..] == outbox[from + 1..];
  }

  lemma {:induction false} MarkingLowersUndelivered(outbox: seq<OutboxRow>, row: nat)
    requires row < |outbox| && !outbox[row].delivered
    ensures Undelivered(outbox[row := outbox[row].(delivered := true)]) == Undelivered(outbox) - 1
  {
    var marked := outbox[row := outbox[row].(delivered := true)];
    if row > 0 {
      MarkingLowersUndelivered(outbox[1..], row - 1);
      assert marked[1..] == outbox[1..][row - 1 := outbox[1..][row - 1].(delivered := true)];
    } else {
      assert marked[1..] == outbox[1..];
    }
  }

  /** A batch holds as many undelivered rows as there are up to the limit, by rising id. */
  lemma {:induction false} PendingFills(outbox: seq<OutboxRow>, from: nat, limit: nat)
    requires from <= |outbox|
    ensures var rows := Pending(outbox, from, limit);
            var open := Undelivered(outbox[from..]);
            && |rows| == (if open < limit then open else limit)
            && (forall j, k :: 0 <= j < k < |rows| ==> rows[j].id < rows[k].id)
    decreases |outbox| - from
  {
    if limit > 0 && from < |outbox| {
      UndeliveredSuffix(outbox, from);
      PendingFills(outbox, from + 1, if outbox[from].delivered then limit else limit - 1);
    }
  }

  ghost predicate Holds(rows: seq<Row>, id: nat) {
    exists k :: 0 <= k < |rows| && rows[k].id == id
  }

  /** The rows it leaves out are younger than all it holds. */
  lemma {:induction false} PendingIsOldest(outbox: seq<OutboxRow>, from: nat, limit: nat, id: nat)
    requires from <= id < |outbox| && !outbox[id].delivered
    ensures var rows := Pending(outbox, from, limit);
            Holds(rows, id) || (|rows| == limit && forall k :: 0 <= k < |rows| ==> rows[k].id < id)
    decreases |outbox| - from
  {
    var rows := Pending(outbox, from, limit);
    if limit > 0 {
      if outbox[from].delivered {
        PendingIsOldest(outbox, from + 1, limit, id);
      } else if from == id {
        assert rows[0].id == id;
      } else {
        PendingIsOldest(outbox, from + 1, limit - 1, id);
        var rest := Pending(outbox, from + 1, limit - 1);
        if Holds(rest, id) {
          var k :| 0 <= k < |rest| && rest[k].id == id;
          assert rows[k + 1].id == id;
        }
      }
    }
  }

  /** The identifiers drawn for an order are new in their tables. */
  predicate Unused(t: Tables, tenant: Id, orderId: Id, auditId: Id) {
    OrderKey(tenant, orderId) !in t.orders && AuditKey(tenant, auditId) !in t.audit
  }

  datatype Placement = Placed(result: CheckoutResult) | Replayed(result: CheckoutResult) | Refused

  class Store {
    var tables: Tables

    constructor (initial: map<StockKey, Inventory>)
      requires forall k :: k in initial ==> initial[k].available >= 0
      ensures tables == Opening(initial) && Consistent(initial, tables)
    {
      tables := Opening(initial);
      OpeningConsistent(initial);
    }

    /** One checkout transaction with identifiers drawn for it.  A second call with the same command
        changes nothing and repeats the first answer. */
    method PlaceOrder(tenant: Id, actor: Id, command: Command, orderId: Id, auditId: Id,
                      ghost initial: map<StockKey, Inventory>)
      returns (placement: Placement)
      requires Consistent(initial, tables)
      modifies this
      ensures Consistent(initial, tables) && Later(old(tables), tables)
      ensures placement.Placed? ==>
        && StockKey(tenant, command.sku) in old(tables).inventory
        && CanPlace(old(tables), Draft(tenant, actor, command,
             old(tables).inventory[StockKey(tenant, command.sku)], orderId, auditId))
        && tables == Place(old(tables), Draft(tenant, actor, command,
             old(tables).inventory[StockKey(tenant, command.sku)], orderId, auditId))
      ensures placement.Placed? <==>
        && ValidCommand(command)
        && RequestKey(tenant, command.requestId) !in old(tables).receipts
        && StockKey(tenant, command.sku) in old(tables).inventory
        && old(tables).inventory[StockKey(tenant, command.sku)].available >= command.quantity
        && Unused(old(tables), tenant, orderId, auditId)
      ensures !placement.Placed? ==> tables == old(tables)
      ensures !placement.Refused? ==>
        && RequestKey(tenant, command.requestId) in tables.receipts
        && tables.receipts[RequestKey(tenant, command.requestId)].response == placement.result
        && placement.result.sku == command.sku && placement.result.quantity == command.quantity
      ensures placement.Replayed? <==>
        && ValidCommand(command)
        && RequestKey(tenant, command.requestId) in old(tables).receipts
        && old(tables).receipts[RequestKey(tenant, command.requestId)].fingerprint == FingerprintOf(tenant, actor, command)
    {
      LaterThanItself(tables);
      if !ValidCommand(command) {
        return Refused;
      }
      var requestKey := RequestKey(tenant, command.requestId);
      if requestKey in tables.receipts {
        var receipt := tables.receipts[requestKey];
        assert RowsMatch(tables);
        if receipt.fingerprint != FingerprintOf(tenant, actor, command) {
          return Refused;
        }
        return Replayed(receipt.response);
      }
      var stockKey := StockKey(tenant, command.sku);
      if stockKey !in tables.inventory || tables.inventory[stockKey].available < command.quantity {
        return Refused;
      }
      var draft := Draft(tenant, actor, command, tables.inventory[stockKey], orderId, auditId);
      if !CanPlace(tables, draft) {
        return Refused;
      }
      PlaceKeeps(initial, tables, draft);
      tables := Place(tables, draft);
      placement := Placed(CheckoutResult(tenant, orderId, command.sku, command.quantity));
    }

    /** One fulfilment transaction.  It succeeds exactly for the event of an order. */
    method FulfillOrder(event: OrderPlaced, ghost initial: map<StockKey, Inventory>) returns (ok: bool)
      requires Consistent(initial, tables)
      modifies this
      ensures Consistent(initial, tables) && Later(old(tables), tables)
      ensures ok <==> EventMatches(old(tables), event)
      ensures ok ==> Delivered(tables, event)
      ensures tables == if ok && CanShip(old(tables), event) then Ship(old(tables), event) else old(tables)
    {
      LaterThanItself(tables);
      var key := OrderKey(event.tenantId, event.orderId);
      assert ShipmentsMatch(tables);
      if key in tables.deliveries {
        return tables.deliveries[key] == event;
      }
      if key !in tables.orders {
        return false;
      }
      var order := tables.orders[key];
      if order.sku != event.sku || order.quantity != event.quantity {
        return false;
      }
      ShipKeeps(initial, tables, event);
      tables := Ship(tables, event);
      return true;
    }

    /** Sending one row of a batch, then acknowledging it. */
    method SendAndAcknowledge(row: Row, ghost initial: map<StockKey, Inventory>)
      requires Consistent(initial, tables)
      requires row.id < |tables.outbox| && !tables.outbox[row.id].delivered
      requires tables.outbox[row.id].payload == row.event
      modifies this
      ensures Consistent(initial, tables) && Later(old(tables), tables)
      ensures tables.outbox == old(tables).outbox[row.id := OutboxRow(row.event, true)]
      ensures Undelivered(tables.outbox) == Undelivered(old(tables).outbox) - 1
    {
      ghost var t := tables;
      assert EventMatches(tables, row.event) by { assert RowsMatch(tables); }
      hide Consistent, Later;
      var ok := FulfillOrder(row.event, initial);
      ghost var u := tables;
      assert u.outbox == t.outbox;
      MarkingLowersUndelivered(tables.outbox, row.id);
      AcknowledgeKeeps(initial, tables, row.id);
      tables := Acknowledge(tables, row.id);
      LaterTransitive(t, u, tables);
    }

    /** One crash-free dispatch run: it delivers exactly the oldest undelivered rows, so the number
        left falls by the batch, strictly until it is zero. */
    method DispatchPending(limit: int, ghost initial: map<StockKey, Inventory>) returns (delivered: Option<nat>)
      requires Consistent(initial, tables)
      modifies this
      ensures Consistent(initial, tables) && Later(old(tables), tables)
      ensures delivered.None? <==> !(1 <= limit <= 256)
      ensures delivered.None? ==> tables == old(tables)
      ensures delivered.Some? ==>
        var before := Undelivered(old(tables).outbox);
        && delivered.value == (if before < limit then before else limit)
        && Undelivered(tables.outbox) == before - delivered.value
        && (before > 0 ==> Undelivered(tables.outbox) < before)
        && RowsDelivered(tables, Pending(old(tables).outbox, 0, limit), delivered.value)
    {
      hide Consistent, Later;
      LaterThanItself(tables);
      if !(1 <= limit <= 256) {
        return None;
      }
      ghost var t := tables;
      var batch := Pending(tables.outbox, 0, limit);
      PendingFills(tables.outbox, 0, limit);
      assert tables.outbox[0..] == tables.outbox;
      var count := 0;
      for next := 0 to |batch|
        invariant count == next
        invariant Consistent(initial, tables) && Later(t, tables)
        invariant |tables.outbox| == |t.outbox|
        invariant Undelivered(tables.outbox) == Undelivered(t.outbox) - next
        invariant forall k :: 0 <= k < |batch| ==>
          tables.outbox[batch[k].id] == OutboxRow(batch[k].event, k < next)
      {
        ghost var u := tables;
        SendAndAcknowledge(batch[next], initial);
        LaterTransitive(t, u, tables);
        count := count + 1;
      }
      delivered := Some(count);
    }
  }
}
