/** The tables of the bookshop and the three writes its programs make: an order, a shipment, an
    acknowledgement.  Identifiers are numbers; the decimal, UUID, JSON and SHA-256 spellings are
    taken to be injective, so a fingerprint is the value it was computed from. */
module BookshopTables {
  type Id = nat

  datatype Command = Command(requestId: Id, sku: Id, quantity: int)

  datatype CheckoutResult = CheckoutResult(tenantId: Id, orderId: Id, sku: Id, quantity: int)

  /** `Bookshop.OrderPlaced.v1`; its event id `<orderId>.placed.1` is named by the order id. */
  datatype OrderPlaced = OrderPlaced(tenantId: Id, orderId: Id, sku: Id, quantity: int)

  datatype StockKey = StockKey(tenantId: Id, sku: Id)
  datatype OrderKey = OrderKey(tenantId: Id, orderId: Id)
  datatype RequestKey = RequestKey(tenantId: Id, requestId: Id)
  datatype AuditKey = AuditKey(tenantId: Id, auditId: Id)

  datatype Inventory = Inventory(available: int, version: int)
  datatype Order = Order(sku: Id, quantity: int)
  datatype Fingerprint = Fingerprint(tenantId: Id, actorId: Id, sku: Id, quantity: int)
  datatype Receipt = Receipt(fingerprint: Fingerprint, orderId: Id, response: CheckoutResult)
  datatype Audit = Audit(orderId: Id, actorId: Id)
  datatype OutboxRow = OutboxRow(payload: OrderPlaced, delivered: bool)
  datatype Shipment = Shipment(sku: Id, quantity: int)

  datatype Tables = Tables(
    inventory: map<StockKey, Inventory>, orders: map<OrderKey, Order>,
    receipts: map<RequestKey, Receipt>, audit: map<AuditKey, Audit>,
    outbox: seq<OutboxRow>,
    shipments: map<OrderKey, Shipment>, deliveries: map<OrderKey, OrderPlaced>)

  predicate ValidCommand(command: Command) {
    1 <= command.quantity <= 10_000
  }

  function FingerprintOf(tenant: Id, actor: Id, command: Command): Fingerprint {
    Fingerprint(tenant, actor, command.sku, command.quantity)
  }

  function ResultOf(tenant: Id, orderId: Id, order: Order): CheckoutResult {
    CheckoutResult(tenant, orderId, order.sku, order.quantity)
  }

  function EventOf(key: OrderKey, order: Order): OrderPlaced {
    OrderPlaced(key.tenantId, key.orderId, order.sku, order.quantity)
  }

  // ------------------------------------------------------------------------------------------
  // Writes.  Each is the whole effect of one committed transaction.

  /** What a checkout has read and drawn before it saves. */
  datatype Draft = Draft(tenantId: Id, actorId: Id, command: Command, stock: Inventory, orderId: Id, auditId: Id)

  /** The update finds the version it read, and every inserted key is fresh. */
  predicate CanPlace(t: Tables, d: Draft) {
    var stockKey := StockKey(d.tenantId, d.command.sku);
    && stockKey in t.inventory
    && t.inventory[stockKey].version == d.stock.version
    && OrderKey(d.tenantId, d.orderId) !in t.orders
    && AuditKey(d.tenantId, d.auditId) !in t.audit
    && RequestKey(d.tenantId, d.command.requestId) !in t.receipts
  }

  function Place(t: Tables, d: Draft): Tables {
    var order := Order(d.command.sku, d.command.quantity);
    var key := OrderKey(d.tenantId, d.orderId);
    t.(inventory := t.inventory[StockKey(d.tenantId, d.command.sku) :=
         Inventory(d.stock.available - d.command.quantity, d.stock.version + 1)],
       orders := t.orders[key := order],
       audit := t.audit[AuditKey(d.tenantId, d.auditId) := Audit(d.orderId, d.actorId)],
       receipts := t.receipts[RequestKey(d.tenantId, d.command.requestId) :=
         Receipt(FingerprintOf(d.tenantId, d.actorId, d.command), d.orderId, ResultOf(d.tenantId, d.orderId, order))],
       outbox := t.outbox + [OutboxRow(EventOf(key, order), false)])
  }

  predicate CanShip(t: Tables, event: OrderPlaced) {
    var key := OrderKey(event.tenantId, event.orderId);
    key !in t.shipments && key !in t.deliveries
  }

  function Ship(t: Tables, event: OrderPlaced): Tables {
    var key := OrderKey(event.tenantId, event.orderId);
    t.(shipments := t.shipments[key := Shipment(event.sku, event.quantity)],
       deliveries := t.deliveries[key := event])
  }

  function Acknowledge(t: Tables, row: nat): Tables {
    if row < |t.outbox| then t.(outbox := t.outbox[row := t.outbox[row].(delivered := true)]) else t
  }

  // ------------------------------------------------------------------------------------------
  // Stock and orders.

  /** Copies ordered of a sku by a tenant, and the number of such orders, over a set of order keys. */
  ghost function Ordered(orders: map<OrderKey, Order>, keys: set<OrderKey>, stock: StockKey): (int, int)
    requires keys <= orders.Keys
    decreases |keys|
  {
    if keys == {} then (0, 0)
    else
      var k :| k in keys;
      var (copies, count) := Ordered(orders, keys - {k}, stock);
      var (q, n) := Share(k, orders[k], stock);
      (copies + q, count + n)
  }

  function Share(key: OrderKey, order: Order, stock: StockKey): (int, int) {
    if key.tenantId == stock.tenantId && order.sku == stock.sku then (order.quantity, 1) else (0, 0)
  }

  lemma {:induction false} OrderedSplit(orders: map<OrderKey, Order>, keys: set<OrderKey>, stock: StockKey, key: OrderKey)
    requires keys <= orders.Keys && key in keys
    ensures var (copies, count) := Ordered(orders, keys, stock);
            var (restCopies, restCount) := Ordered(orders, keys - {key}, stock);
            var (q, n) := Share(key, orders[key], stock);
            copies == restCopies + q && count == restCount + n
    decreases |keys|
  {
    var k :| k in keys && Ordered(orders, keys, stock) ==
                          (var (c, n) := Ordered(orders, keys - {k}, stock);
                           var (q, m) := Share(k, orders[k], stock);
                           (c + q, n + m));
    if k != key {
      OrderedSplit(orders, keys - {k}, stock, key);
      OrderedSplit(orders, keys - {key}, stock, k);
      assert keys - {k} - {key} == keys - {key} - {k};
    }
  }

  lemma {:induction false} OrderedFrame(
    orders: map<OrderKey, Order>, more: map<OrderKey, Order>, keys: set<OrderKey>, stock: StockKey)
    requires keys <= orders.Keys && keys <= more.Keys
    requires forall k :: k in keys ==> orders[k] == more[k]
    ensures Ordered(orders, keys, stock) == Ordered(more, keys, stock)
    decreases |keys|
  {
    if keys != {} {
      var k :| k in keys;
      OrderedSplit(orders, keys, stock, k);
      OrderedSplit(more, keys, stock, k);
      OrderedFrame(orders, more, keys - {k}, stock);
    }
  }

  lemma OrderedInsert(orders: map<OrderKey, Order>, key: OrderKey, order: Order, stock: StockKey)
    requires key !in orders
    ensures var more := orders[key := order];
            var (copies, count) := Ordered(orders, orders.Keys, stock);
            var (q, n) := Share(key, order, stock);
            Ordered(more, more.Keys, stock) == (copies + q, count + n)
  {
    var more := orders[key := order];
    OrderedSplit(more, more.Keys, stock, key);
    assert more.Keys - {key} == orders.Keys;
    OrderedFrame(orders, more, orders.Keys, stock);
  }

  /** Conservation: what is left plus what was ordered is what there was; every order bumped the version. */
  ghost predicate StockConserved(initial: map<StockKey, Inventory>, t: Tables) {
    && t.inventory.Keys == initial.Keys
    && forall k :: k in initial ==>
         var (copies, count) := Ordered(t.orders, t.orders.Keys, k);
         && t.inventory[k].available + copies == initial[k].available
         && t.inventory[k].version == initial[k].version + count
         && t.inventory[k].available >= 0
  }

  // ------------------------------------------------------------------------------------------
  // One order, one receipt, one audit row, one event.

  ghost predicate HasReceipt(t: Tables, key: OrderKey, requestId: Id) {
    RequestKey(key.tenantId, requestId) in t.receipts
    && t.receipts[RequestKey(key.tenantId, requestId)].orderId == key.orderId
  }

  ghost predicate HasAudit(t: Tables, key: OrderKey, auditId: Id) {
    AuditKey(key.tenantId, auditId) in t.audit && t.audit[AuditKey(key.tenantId, auditId)].orderId == key.orderId
  }

  ghost predicate HasEvent(t: Tables, key: OrderKey, row: nat) {
    row < |t.outbox| && OrderKey(t.outbox[row].payload.tenantId, t.outbox[row].payload.orderId) == key
  }

  ghost predicate OneReceiptEach(t: Tables) {
    && (forall key :: key in t.orders ==> exists r :: HasReceipt(t, key, r))
    && (forall key, r, r' :: HasReceipt(t, key, r) && HasReceipt(t, key, r') ==> r == r')
  }

  ghost predicate OneAuditEach(t: Tables) {
    && (forall key :: key in t.orders ==> exists a :: HasAudit(t, key, a))
    && (forall key, a, a' :: HasAudit(t, key, a) && HasAudit(t, key, a') ==> a == a')
  }

  ghost predicate OneEventEach(t: Tables) {
    && (forall key :: key in t.orders ==> exists i :: HasEvent(t, key, i))
    && (forall key, i, j :: HasEvent(t, key, i) && HasEvent(t, key, j) ==> i == j)
  }

  /** Every order has a receipt, an audit row and an event, and no two of any. */
  ghost predicate OrdersPaired(t: Tables) {
    OneReceiptEach(t) && OneAuditEach(t) && OneEventEach(t)
  }

  /** Rows agree with the order they mention, and mention one that exists. */
  ghost predicate RowsMatch(t: Tables) {
    && (forall k :: k in t.receipts ==>
          var receipt, key := t.receipts[k], OrderKey(k.tenantId, t.receipts[k].orderId);
          && key in t.orders
          && receipt.response == ResultOf(k.tenantId, receipt.orderId, t.orders[key])
          && receipt.fingerprint.tenantId == k.tenantId
          && receipt.fingerprint.sku == t.orders[key].sku
          && receipt.fingerprint.quantity == t.orders[key].quantity)
    && (forall k :: k in t.audit ==> OrderKey(k.tenantId, t.audit[k].orderId) in t.orders)
    && (forall k, m :: k in t.receipts && m in t.audit && k.tenantId == m.tenantId
                       && t.receipts[k].orderId == t.audit[m].orderId ==>
          t.audit[m].actorId == t.receipts[k].fingerprint.actorId)
    && (forall i :: 0 <= i < |t.outbox| ==> EventMatches(t, t.outbox[i].payload))
  }

  predicate EventMatches(t: Tables, event: OrderPlaced) {
    var key := OrderKey(event.tenantId, event.orderId);
    key in t.orders && event == EventOf(key, t.orders[key])
  }

  /** Shipments and delivery receipts go together and match the order. */
  ghost predicate ShipmentsMatch(t: Tables) {
    && t.shipments.Keys == t.deliveries.Keys
    && (forall k :: k in t.shipments ==>
          && k in t.orders
          && t.shipments[k] == Shipment(t.orders[k].sku, t.orders[k].quantity)
          && t.deliveries[k] == EventOf(k, t.orders[k]))
  }

  /** A row is marked delivered only after its shipment and delivery receipt were committed. */
  ghost predicate DeliveredShipped(t: Tables) {
    forall i :: 0 <= i < |t.outbox| && t.outbox[i].delivered ==> Delivered(t, t.outbox[i].payload)
  }

  predicate Delivered(t: Tables, event: OrderPlaced) {
    var key := OrderKey(event.tenantId, event.orderId);
    key in t.shipments && key in t.deliveries && t.deliveries[key] == event
  }

  ghost predicate Consistent(initial: map<StockKey, Inventory>, t: Tables) {
    && StockConserved(initial, t)
    && OrdersPaired(t)
    && RowsMatch(t)
    && ShipmentsMatch(t)
    && DeliveredShipped(t)
  }

  function Opening(initial: map<StockKey, Inventory>): Tables {
    Tables(initial, map[], map[], map[], [], map[], map[])
  }

  lemma OpeningConsistent(initial: map<StockKey, Inventory>)
    requires forall k :: k in initial ==> initial[k].available >= 0
    ensures Consistent(initial, Opening(initial))
  {
  }

  // ------------------------------------------------------------------------------------------
  // What later transactions may assume about earlier reads.

  /** Nothing is forgotten: rows persist, and stock with an unchanged version is unchanged. */
  ghost predicate Later(t: Tables, u: Tables) {
    && t.inventory.Keys == u.inventory.Keys
    && (forall k :: k in t.inventory ==>
          && t.inventory[k].version <= u.inventory[k].version
          && (t.inventory[k].version == u.inventory[k].version ==> t.inventory[k] == u.inventory[k]))
    && (forall k :: k in t.orders ==> k in u.orders && u.orders[k] == t.orders[k])
    && (forall k :: k in t.receipts ==> k in u.receipts && u.receipts[k] == t.receipts[k])
    && (forall k :: k in t.audit ==> k in u.audit && u.audit[k] == t.audit[k])
    && (forall k :: k in t.deliveries ==> k in u.deliveries && u.deliveries[k] == t.deliveries[k])
    && (forall k :: k in t.shipments ==> k in u.shipments && u.shipments[k] == t.shipments[k])
    && |t.outbox| <= |u.outbox|
    && (forall i :: 0 <= i < |t.outbox| ==>
          u.outbox[i].payload == t.outbox[i].payload && (t.outbox[i].delivered ==> u.outbox[i].delivered))
  }

  /** A draft taken from a read of the stock some time ago. */
  ghost predicate Drafted(t: Tables, d: Draft) {
    var k := StockKey(d.tenantId, d.command.sku);
    && ValidCommand(d.command)
    && d.stock.available >= d.command.quantity
    && k in t.inventory
    && d.stock.version <= t.inventory[k].version
    && (d.stock.version == t.inventory[k].version ==> d.stock == t.inventory[k])
  }

  lemma PlaceConservesStock(initial: map<StockKey, Inventory>, t: Tables, d: Draft)
    requires StockConserved(initial, t) && Drafted(t, d) && CanPlace(t, d)
    ensures StockConserved(initial, Place(t, d))
  {
    var u := Place(t, d);
    var key, order := OrderKey(d.tenantId, d.orderId), Order(d.command.sku, d.command.quantity);
    forall k | k in initial
      ensures var (copies, count) := Ordered(u.orders, u.orders.Keys, k);
              && u.inventory[k].available + copies == initial[k].available
              && u.inventory[k].version == initial[k].version + count
              && u.inventory[k].available >= 0
    {
      OrderedInsert(t.orders, key, order, k);
    }
  }

  lemma PlaceOneReceiptEach(t: Tables, d: Draft)
    requires OneReceiptEach(t) && RowsMatch(t) && CanPlace(t, d)
    ensures OneReceiptEach(Place(t, d))
  {
    var u := Place(t, d);
    var placed := OrderKey(d.tenantId, d.orderId);
    assert HasReceipt(u, placed, d.command.requestId);
    forall key | key in t.orders
      ensures exists r :: HasReceipt(u, key, r)
    {
      var r :| HasReceipt(t, key, r);
      assert HasReceipt(u, key, r);
    }
    forall key, r | HasReceipt(u, key, r)
      ensures if key == placed then r == d.command.requestId else HasReceipt(t, key, r) {}
  }

  lemma PlaceOneAuditEach(t: Tables, d: Draft)
    requires OneAuditEach(t) && RowsMatch(t) && CanPlace(t, d)
    ensures OneAuditEach(Place(t, d))
  {
    var u := Place(t, d);
    var placed := OrderKey(d.tenantId, d.orderId);
    assert HasAudit(u, placed, d.auditId);
    forall key | key in t.orders
      ensures exists a :: HasAudit(u, key, a)
    {
      var a :| HasAudit(t, key, a);
      assert HasAudit(u, key, a);
    }
    forall key, a | HasAudit(u, key, a)
      ensures if key == placed then a == d.auditId else HasAudit(t, key, a) {}
  }

  lemma PlaceOneEventEach(t: Tables, d: Draft)
    requires OneEventEach(t) && RowsMatch(t) && CanPlace(t, d)
    ensures OneEventEach(Place(t, d))
  {
    var u := Place(t, d);
    var placed := OrderKey(d.tenantId, d.orderId);
    assert HasEvent(u, placed, |t.outbox|);
    forall key | key in t.orders
      ensures exists i :: HasEvent(u, key, i)
    {
      var i :| HasEvent(t, key, i);
      assert HasEvent(u, key, i);
    }
    forall key, i: nat | HasEvent(u, key, i)
      ensures if key == placed then i == |t.outbox| else HasEvent(t, key, i) {}
  }

  lemma PlaceMatches(t: Tables, d: Draft)
    requires RowsMatch(t) && ShipmentsMatch(t) && DeliveredShipped(t) && CanPlace(t, d)
    ensures RowsMatch(Place(t, d)) && ShipmentsMatch(Place(t, d)) && DeliveredShipped(Place(t, d))
  {
  }

  lemma PlaceIsLater(t: Tables, d: Draft)
    requires CanPlace(t, d)
    ensures Later(t, Place(t, d))
  {
    var u := Place(t, d);
    var k := StockKey(d.tenantId, d.command.sku);
    assert u.inventory.Keys == t.inventory.Keys;
  }

  lemma ShipIsLater(t: Tables, event: OrderPlaced)
    requires CanShip(t, event)
    ensures Later(t, Ship(t, event))
  {
  }

  lemma AcknowledgeIsLater(t: Tables, row: nat)
    ensures Later(t, Acknowledge(t, row))
  {
  }

  /** A committed checkout keeps every table consistent and invalidates no earlier read. */
  lemma PlaceKeeps(initial: map<StockKey, Inventory>, t: Tables, d: Draft)
    requires Consistent(initial, t) && Drafted(t, d) && CanPlace(t, d)
    ensures Consistent(initial, Place(t, d)) && Later(t, Place(t, d))
  {
    PlaceConservesStock(initial, t, d);
    PlaceOneReceiptEach(t, d);
    PlaceOneAuditEach(t, d);
    PlaceOneEventEach(t, d);
    PlaceMatches(t, d);
    PlaceIsLater(t, d);
  }

  lemma ShipMatches(t: Tables, event: OrderPlaced)
    requires ShipmentsMatch(t) && DeliveredShipped(t) && RowsMatch(t) && EventMatches(t, event) && CanShip(t, event)
    ensures var u := Ship(t, event); ShipmentsMatch(u) && DeliveredShipped(u) && RowsMatch(u) && Delivered(u, event)
  {
  }

  lemma StockFrame(initial: map<StockKey, Inventory>, t: Tables, u: Tables)
    requires StockConserved(initial, t) && t.inventory == u.inventory && t.orders == u.orders
    ensures StockConserved(initial, u)
  {
  }

  lemma ShipKeeps(initial: map<StockKey, Inventory>, t: Tables, event: OrderPlaced)
    requires Consistent(initial, t) && EventMatches(t, event) && CanShip(t, event)
    ensures Consistent(initial, Ship(t, event)) && Later(t, Ship(t, event)) && Delivered(Ship(t, event), event)
  {
    var u := Ship(t, event);
    StockFrame(initial, t, u);
    PairedFrame(t, u);
    ShipMatches(t, event);
    ShipIsLater(t, event);
  }

  lemma AcknowledgeMatches(t: Tables, row: nat)
    requires ShipmentsMatch(t) && DeliveredShipped(t) && RowsMatch(t)
    requires row < |t.outbox| ==> Delivered(t, t.outbox[row].payload)
    ensures var u := Acknowledge(t, row); ShipmentsMatch(u) && DeliveredShipped(u) && RowsMatch(u)
  {
  }

  lemma AcknowledgeKeeps(initial: map<StockKey, Inventory>, t: Tables, row: nat)
    requires Consistent(initial, t)
    requires row < |t.outbox| ==> Delivered(t, t.outbox[row].payload)
    ensures Consistent(initial, Acknowledge(t, row)) && Later(t, Acknowledge(t, row))
  {
    var u := Acknowledge(t, row);
    StockFrame(initial, t, u);
    PairedFrame(t, u);
    AcknowledgeMatches(t, row);
    AcknowledgeIsLater(t, row);
  }

  lemma PairedFrame(t: Tables, u: Tables)
    requires OrdersPaired(t) && t.orders == u.orders && t.receipts == u.receipts && t.audit == u.audit
    requires |t.outbox| == |u.outbox|
    requires forall i :: 0 <= i < |t.outbox| ==> t.outbox[i].payload == u.outbox[i].payload
    ensures OrdersPaired(u)
  {
    forall key, r ensures HasReceipt(t, key, r) == HasReceipt(u, key, r) {}
    forall key, a ensures HasAudit(t, key, a) == HasAudit(u, key, a) {}
    forall key, i: nat ensures HasEvent(t, key, i) == HasEvent(u, key, i) {}
  }

  /** "Nothing is forgotten" composes. */
  lemma LaterTransitive(t: Tables, u: Tables, v: Tables)
    requires Later(t, u) && Later(u, v)
    ensures Later(t, v)
  {
  }
}
