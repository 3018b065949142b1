/** Any number of checkouts, receivers and publishers over the bookshop's tables.  A schedule is an
    arbitrary sequence of steps; every await is a step boundary, and a process may crash or meet a
    failing operation at each of them. */
module BookshopRuns {
  import opened BookshopTables

  // ------------------------------------------------------------------------------------------
  // Checkout: `executeWithRetry` around up to three attempts, each one transaction.

  const MAX_ATTEMPTS := 3

  datatype ClientPc =
    | FindReceipt
    | FindStock
    | Saving(draft: Draft)
    | FindReplay
    | Answered(result: CheckoutResult)
    | Failed

  datatype Client = Client(tenantId: Id, actorId: Id, command: Command, attempt: nat, retry: nat, pc: ClientPc)

  /** What the world does to a client: it lets a read happen (drawing identifiers that may collide), it
      lets a save happen and acknowledges it or loses the acknowledgement, it refuses a save as a
      conflict or a duplicate, it fails an operation without effect, or it kills the process. */
  datatype ClientMove =
    | Read(orderId: Id, auditId: Id)
    | Save(acknowledged: bool)
    | RefuseAsConflict
    | RefuseAsDuplicate
    | Fault(transient: bool)
    | Crash

  function Begin(tenant: Id, actor: Id, command: Command): Client {
    Client(tenant, actor, command, 1, 1, if ValidCommand(command) then FindReceipt else Failed)
  }

  function Conflict(c: Client): Client {
    if c.attempt >= MAX_ATTEMPTS then c.(pc := Failed) else c.(attempt := c.attempt + 1, pc := FindReceipt)
  }

  function Transient(c: Client): Client {
    if c.retry >= MAX_ATTEMPTS then c.(pc := Failed)
    else c.(attempt := 1, retry := c.retry + 1, pc := FindReceipt)
  }

  /** `replayReceipt`: the stored answer, or an error. */
  function Replay(c: Client, receipt: Receipt): ClientPc {
    if receipt.fingerprint != FingerprintOf(c.tenantId, c.actorId, c.command) then Failed
    else if receipt.response.tenantId != c.tenantId || receipt.response.orderId != receipt.orderId
         || receipt.response.sku != c.command.sku || receipt.response.quantity != c.command.quantity then Failed
    else Answered(receipt.response)
  }

  function MoveClient(t: Tables, c: Client, move: ClientMove): (Tables, Client) {
    var requestKey := RequestKey(c.tenantId, c.command.requestId);
    var stockKey := StockKey(c.tenantId, c.command.sku);
    if c.pc.Answered? || c.pc.Failed? then (t, c)
    else match move
      case Crash => (t, c.(pc := Failed))
      case Fault(transient) => (t, if transient then Transient(c) else c.(pc := Failed))
      case Read(orderId, auditId) =>
        (t, match c.pc
            case FindReceipt =>
              if requestKey in t.receipts then c.(pc := Replay(c, t.receipts[requestKey])) else c.(pc := FindStock)
            case FindStock =>
              if stockKey !in t.inventory || t.inventory[stockKey].available < c.command.quantity then c.(pc := Failed)
              else c.(pc := Saving(Draft(c.tenantId, c.actorId, c.command, t.inventory[stockKey], orderId, auditId)))
            case FindReplay =>
              c.(pc := if requestKey in t.receipts then Replay(c, t.receipts[requestKey]) else Failed)
            case _ => c)
      case Save(acknowledged) =>
        if !c.pc.Saving? then (t, c)
        else
          var d := c.pc.draft;
          if CanPlace(t, d) then
            (Place(t, d), c.(pc := if acknowledged
               then Answered(CheckoutResult(d.tenantId, d.orderId, d.command.sku, d.command.quantity)) else Failed))
          else if stockKey !in t.inventory || t.inventory[stockKey].version != d.stock.version then (t, Conflict(c))
          else (t, c.(pc := FindReplay))
      case RefuseAsConflict => (t, if c.pc.Saving? then Conflict(c) else c)
      case RefuseAsDuplicate => (t, if c.pc.Saving? then c.(pc := FindReplay) else c)
  }

  /** The answer of a client is the one stored under its request id. */
  ghost predicate AnswerRecorded(t: Tables, c: Client, result: CheckoutResult) {
    var key := RequestKey(c.tenantId, c.command.requestId);
    && key in t.receipts
    && t.receipts[key].response == result
    && t.receipts[key].fingerprint == FingerprintOf(c.tenantId, c.actorId, c.command)
  }

  ghost predicate ClientOk(t: Tables, c: Client) {
    && (!c.pc.Failed? ==> ValidCommand(c.command))
    && match c.pc
       case Saving(d) =>
         d.tenantId == c.tenantId && d.actorId == c.actorId && d.command == c.command && Drafted(t, d)
       case Answered(result) => AnswerRecorded(t, c, result)
       case _ => true
  }

  lemma LaterThanItself(t: Tables)
    ensures Later(t, t)
  {
  }

  /** A move that saves nothing. */
  lemma MoveClientReads(t: Tables, c: Client, move: ClientMove)
    requires RowsMatch(t) && ClientOk(t, c)
    requires !(c.pc.Saving? && move.Save? && CanPlace(t, c.pc.draft))
    ensures MoveClient(t, c, move).0 == t && ClientOk(t, MoveClient(t, c, move).1)
  {
  }

  lemma MoveClientSaves(t: Tables, c: Client, move: ClientMove)
    requires ClientOk(t, c) && c.pc.Saving? && move.Save? && CanPlace(t, c.pc.draft)
    ensures var (u, after) := MoveClient(t, c, move); u == Place(t, c.pc.draft) && ClientOk(u, after)
  {
  }

  lemma MoveClientKeeps(initial: map<StockKey, Inventory>, t: Tables, c: Client, move: ClientMove)
    requires Consistent(initial, t) && ClientOk(t, c)
    ensures var (u, after) := MoveClient(t, c, move);
            Consistent(initial, u) && Later(t, u) && ClientOk(u, after)
  {
    if c.pc.Saving? && move.Save? && CanPlace(t, c.pc.draft) {
      hide Consistent, Later;
      PlaceKeeps(initial, t, c.pc.draft);
      MoveClientSaves(t, c, move);
    } else {
      assert RowsMatch(t);
      hide Consistent, Later;
      MoveClientReads(t, c, move);
      LaterThanItself(t);
    }
  }

  lemma ClientLater(t: Tables, u: Tables, c: Client)
    requires ClientOk(t, c) && Later(t, u)
    ensures ClientOk(u, c)
  {
  }

  // ------------------------------------------------------------------------------------------
  // Fulfilment.  A receiver may be handed any event at all, real, repeated or forged.

  datatype ReceiverPc = FindDelivery | FindOrder | SavingShipment | FindDeliveryReplay | Fulfilled | Rejected

  datatype Receiver = Receiver(event: OrderPlaced, retry: nat, pc: ReceiverPc)

  datatype ReceiverMove =
    | ReadRow
    | SaveShipment(acknowledged: bool)
    | RefuseShipment
    | FaultReceiver(transient: bool)
    | CrashReceiver

  function MoveReceiver(t: Tables, r: Receiver, move: ReceiverMove): (Tables, Receiver) {
    var key := OrderKey(r.event.tenantId, r.event.orderId);
    if r.pc.Fulfilled? || r.pc.Rejected? then (t, r)
    else match move
      case CrashReceiver => (t, r.(pc := Rejected))
      case FaultReceiver(transient) =>
        (t, if transient && r.retry < MAX_ATTEMPTS then r.(retry := r.retry + 1, pc := FindDelivery) else r.(pc := Rejected))
      case ReadRow =>
        (t, match r.pc
            case FindDelivery =>
              if key in t.deliveries then r.(pc := if t.deliveries[key] == r.event then Fulfilled else Rejected)
              else r.(pc := FindOrder)
            case FindOrder =>
              r.(pc := if key in t.orders && t.orders[key].sku == r.event.sku && t.orders[key].quantity == r.event.quantity
                       then SavingShipment else Rejected)
            case FindDeliveryReplay =>
              r.(pc := if key in t.deliveries && t.deliveries[key] == r.event then Fulfilled else Rejected)
            case _ => r)
      case SaveShipment(acknowledged) =>
        if !r.pc.SavingShipment? then (t, r)
        else if CanShip(t, r.event) then (Ship(t, r.event), r.(pc := if acknowledged then Fulfilled else Rejected))
        else (t, r.(pc := FindDeliveryReplay))
      case RefuseShipment => (t, if r.pc.SavingShipment? then r.(pc := FindDeliveryReplay) else r)
  }

  ghost predicate ReceiverOk(t: Tables, r: Receiver) {
    && (r.pc.SavingShipment? ==> EventMatches(t, r.event))
    && (r.pc.Fulfilled? ==> Delivered(t, r.event))
  }

  lemma MoveReceiverReads(t: Tables, r: Receiver, move: ReceiverMove)
    requires ShipmentsMatch(t) && ReceiverOk(t, r)
    requires !(r.pc.SavingShipment? && move.SaveShipment? && CanShip(t, r.event))
    ensures var (u, after) := MoveReceiver(t, r, move); u == t && ReceiverOk(t, after) && after.event == r.event
  {
  }

  lemma MoveReceiverSaves(t: Tables, r: Receiver, move: ReceiverMove)
    requires r.pc.SavingShipment? && move.SaveShipment? && CanShip(t, r.event)
    ensures var (u, after) := MoveReceiver(t, r, move);
            && u == Ship(t, r.event) && after.event == r.event
            && (Delivered(u, r.event) ==> ReceiverOk(u, after))
  {
  }

  lemma MoveReceiverKeeps(initial: map<StockKey, Inventory>, t: Tables, r: Receiver, move: ReceiverMove)
    requires Consistent(initial, t) && ReceiverOk(t, r)
    ensures var (u, after) := MoveReceiver(t, r, move);
            Consistent(initial, u) && Later(t, u) && ReceiverOk(u, after) && after.event == r.event
  {
    if r.pc.SavingShipment? && move.SaveShipment? && CanShip(t, r.event) {
      assert EventMatches(t, r.event);
      hide Consistent, Later, MoveReceiver, Ship;
      ShipKeeps(initial, t, r.event);
      MoveReceiverSaves(t, r, move);
    } else {
      assert ShipmentsMatch(t);
      hide Consistent, Later;
      MoveReceiverReads(t, r, move);
      LaterThanItself(t);
    }
  }

  lemma ReceiverLater(t: Tables, u: Tables, r: Receiver)
    requires ReceiverOk(t, r) && Later(t, u)
    ensures ReceiverOk(u, r)
  {
  }

  // ------------------------------------------------------------------------------------------
  // Publishing: read a batch, then send first and acknowledge second, row by row.

  datatype Row = Row(id: nat, event: OrderPlaced)

  datatype PublisherPc =
    | ReadingBatch
    | Sending(next: nat)
    | Waiting(next: nat, receiver: nat)
    | Acknowledging(next: nat)
    | Finished
    | Stopped

  datatype Publisher = Publisher(limit: nat, batch: seq<Row>, pc: PublisherPc)

  datatype PublisherMove = ReadBatch | Send(receiver: nat) | AwaitReply | Acknowledged(confirmed: bool) | StopPublisher

  /** The first `limit` undelivered rows from `from` on, by id. */
  function Pending(outbox: seq<OutboxRow>, from: nat, limit: nat): (rows: seq<Row>)
    requires from <= |outbox|
    ensures |rows| <= limit
    ensures forall k :: 0 <= k < |rows| ==>
      from <= rows[k].id < |outbox| && !outbox[rows[k].id].delivered && rows[k].event == outbox[rows[k].id].payload
    decreases |outbox| - from
  {
    if limit == 0 || from == |outbox| then []
    else if outbox[from].delivered then Pending(outbox, from + 1, limit)
    else [Row(from, outbox[from].payload)] + Pending(outbox, from + 1, limit - 1)
  }

  function Continue(p: Publisher, next: nat): Publisher {
    p.(pc := if next < |p.batch| then Sending(next) else Finished)
  }

  datatype Shop = Shop(
    tables: Tables, clients: map<nat, Client>, receivers: map<nat, Receiver>, publishers: map<nat, Publisher>)

  function MovePublisher(s: Shop, p: Publisher, move: PublisherMove): (Tables, map<nat, Receiver>, Publisher) {
    var same := (s.tables, s.receivers, p);
    if p.pc.Finished? || p.pc.Stopped? then same
    else match move
      case StopPublisher => (s.tables, s.receivers, p.(pc := Stopped))
      case ReadBatch =>
        if !p.pc.ReadingBatch? then same
        else (s.tables, s.receivers, Continue(p.(batch := Pending(s.tables.outbox, 0, p.limit)), 0))
      case Send(receiver) =>
        if !p.pc.Sending? || p.pc.next >= |p.batch| || receiver in s.receivers then same
        else (s.tables, s.receivers[receiver := Receiver(p.batch[p.pc.next].event, 1, FindDelivery)],
              p.(pc := Waiting(p.pc.next, receiver)))
      case AwaitReply =>
        if !p.pc.Waiting? || p.pc.receiver !in s.receivers then same
        else
          var reply := s.receivers[p.pc.receiver].pc;
          if reply.Fulfilled? then (s.tables, s.receivers, p.(pc := Acknowledging(p.pc.next)))
          else if reply.Rejected? then (s.tables, s.receivers, p.(pc := Stopped))
          else same
      case Acknowledged(confirmed) =>
        if !p.pc.Acknowledging? || p.pc.next >= |p.batch| then same
        else (Acknowledge(s.tables, p.batch[p.pc.next].id), s.receivers,
              if confirmed then Continue(p, p.pc.next + 1) else p.(pc := Stopped))
  }

  ghost predicate RowsDelivered(t: Tables, batch: seq<Row>, n: nat) {
    n <= |batch| && forall k :: 0 <= k < n ==> batch[k].id < |t.outbox| && t.outbox[batch[k].id].delivered
  }

  ghost predicate PublisherOk(t: Tables, receivers: map<nat, Receiver>, p: Publisher) {
    && (forall k :: 0 <= k < |p.batch| ==>
          p.batch[k].id < |t.outbox| && t.outbox[p.batch[k].id].payload == p.batch[k].event)
    && match p.pc
       case Sending(next) => next < |p.batch| && RowsDelivered(t, p.batch, next)
       case Waiting(next, r) =>
         && next < |p.batch| && RowsDelivered(t, p.batch, next)
         && r in receivers && receivers[r].event == p.batch[next].event
       case Acknowledging(next) =>
         next < |p.batch| && RowsDelivered(t, p.batch, next) && Delivered(t, p.batch[next].event)
       case Finished => RowsDelivered(t, p.batch, |p.batch|)
       case _ => true
  }

  /** Receivers are only added, and keep the event they were handed. */
  ghost predicate ReceiversGrow(receivers: map<nat, Receiver>, more: map<nat, Receiver>) {
    forall r :: r in receivers ==> r in more && more[r].event == receivers[r].event
  }

  lemma MovePublisherReads(s: Shop, p: Publisher, move: PublisherMove)
    requires PublisherOk(s.tables, s.receivers, p)
    requires forall r :: r in s.receivers ==> ReceiverOk(s.tables, s.receivers[r])
    requires !(p.pc.Acknowledging? && move.Acknowledged?)
    ensures var (u, receivers, after) := MovePublisher(s, p, move);
            && u == s.tables
            && PublisherOk(u, receivers, after)
            && ReceiversGrow(s.receivers, receivers)
            && (forall r :: r in receivers ==> ReceiverOk(u, receivers[r]))
  {
  }

  lemma MovePublisherAcknowledges(s: Shop, p: Publisher, move: PublisherMove)
    requires PublisherOk(s.tables, s.receivers, p) && p.pc.Acknowledging? && move.Acknowledged?
    requires Later(s.tables, Acknowledge(s.tables, p.batch[p.pc.next].id))
    ensures var (u, receivers, after) := MovePublisher(s, p, move);
            && u == Acknowledge(s.tables, p.batch[p.pc.next].id)
            && PublisherOk(u, receivers, after)
            && receivers == s.receivers
  {
  }

  lemma MovePublisherKeeps(initial: map<StockKey, Inventory>, s: Shop, p: Publisher, move: PublisherMove)
    requires Consistent(initial, s.tables) && PublisherOk(s.tables, s.receivers, p)
    requires forall r :: r in s.receivers ==> ReceiverOk(s.tables, s.receivers[r])
    ensures var (u, receivers, after) := MovePublisher(s, p, move);
            && Consistent(initial, u) && Later(s.tables, u)
            && PublisherOk(u, receivers, after)
            && ReceiversGrow(s.receivers, receivers)
            && (forall r :: r in receivers ==> ReceiverOk(u, receivers[r]))
  {
    hide Consistent, Later;
    if p.pc.Acknowledging? && move.Acknowledged? {
      var u := Acknowledge(s.tables, p.batch[p.pc.next].id);
      AcknowledgeKeeps(initial, s.tables, p.batch[p.pc.next].id);
      MovePublisherAcknowledges(s, p, move);
      forall r | r in s.receivers ensures ReceiverOk(u, s.receivers[r]) {
        ReceiverLater(s.tables, u, s.receivers[r]);
      }
    } else {
      MovePublisherReads(s, p, move);
      LaterThanItself(s.tables);
    }
  }

  lemma PublisherLater(t: Tables, u: Tables, receivers: map<nat, Receiver>, more: map<nat, Receiver>, p: Publisher)
    requires PublisherOk(t, receivers, p) && Later(t, u) && ReceiversGrow(receivers, more)
    ensures PublisherOk(u, more, p)
  {
  }

  // ------------------------------------------------------------------------------------------
  // Schedules.

  datatype Step =
    | Arrive(id: nat, tenantId: Id, actorId: Id, command: Command)
    | OnClient(id: nat, clientMove: ClientMove)
    | Deliver(id: nat, event: OrderPlaced)
    | OnReceiver(id: nat, receiverMove: ReceiverMove)
    | Publish(id: nat, limit: nat)
    | OnPublisher(id: nat, publisherMove: PublisherMove)

  function Next(s: Shop, step: Step): Shop {
    match step
    case Arrive(id, tenant, actor, command) =>
      if id in s.clients then s else s.(clients := s.clients[id := Begin(tenant, actor, command)])
    case OnClient(id, move) =>
      if id !in s.clients then s
      else
        var (tables, c) := MoveClient(s.tables, s.clients[id], move);
        s.(tables := tables, clients := s.clients[id := c])
    case Deliver(id, event) =>
      if id in s.receivers then s else s.(receivers := s.receivers[id := Receiver(event, 1, FindDelivery)])
    case OnReceiver(id, move) =>
      if id !in s.receivers then s
      else
        var (tables, r) := MoveReceiver(s.tables, s.receivers[id], move);
        s.(tables := tables, receivers := s.receivers[id := r])
    case Publish(id, limit) =>
      if id in s.publishers || !(1 <= limit <= 256) then s
      else s.(publishers := s.publishers[id := Publisher(limit, [], ReadingBatch)])
    case OnPublisher(id, move) =>
      if id !in s.publishers then s
      else
        var (tables, receivers, p) := MovePublisher(s, s.publishers[id], move);
        Shop(tables, s.clients, receivers, s.publishers[id := p])
  }

  function Run(s: Shop, steps: seq<Step>): Shop
    decreases |steps|
  {
    if steps == [] then s else Run(Next(s, steps[0]), steps[1..])
  }

  function Opened(initial: map<StockKey, Inventory>): Shop {
    Shop(Opening(initial), map[], map[], map[])
  }

  ghost predicate Inv(initial: map<StockKey, Inventory>, s: Shop) {
    && Consistent(initial, s.tables)
    && (forall c :: c in s.clients ==> ClientOk(s.tables, s.clients[c]))
    && (forall r :: r in s.receivers ==> ReceiverOk(s.tables, s.receivers[r]))
    && (forall p :: p in s.publishers ==> PublisherOk(s.tables, s.receivers, s.publishers[p]))
  }

  /** Processes that did not move survive whatever the one that moved committed. */
  lemma OthersKeep(s: Shop, u: Shop)
    requires Later(s.tables, u.tables) && ReceiversGrow(s.receivers, u.receivers)
    ensures forall c :: c in s.clients && ClientOk(s.tables, s.clients[c]) ==> ClientOk(u.tables, s.clients[c])
    ensures forall r :: r in s.receivers && ReceiverOk(s.tables, s.receivers[r]) ==> ReceiverOk(u.tables, s.receivers[r])
    ensures forall p :: p in s.publishers && PublisherOk(s.tables, s.receivers, s.publishers[p]) ==>
              PublisherOk(u.tables, u.receivers, s.publishers[p])
  {
    forall c | c in s.clients && ClientOk(s.tables, s.clients[c]) ensures ClientOk(u.tables, s.clients[c]) {
      ClientLater(s.tables, u.tables, s.clients[c]);
    }
    forall r | r in s.receivers && ReceiverOk(s.tables, s.receivers[r]) ensures ReceiverOk(u.tables, s.receivers[r]) {
      ReceiverLater(s.tables, u.tables, s.receivers[r]);
    }
    forall p | p in s.publishers && PublisherOk(s.tables, s.receivers, s.publishers[p])
      ensures PublisherOk(u.tables, u.receivers, s.publishers[p])
    {
      PublisherLater(s.tables, u.tables, s.receivers, u.receivers, s.publishers[p]);
    }
  }

  lemma NewcomersOk(t: Tables, tenant: Id, actor: Id, command: Command, event: OrderPlaced, limit: nat, receivers: map<nat, Receiver>)
    ensures ClientOk(t, Begin(tenant, actor, command))
    ensures ReceiverOk(t, Receiver(event, 1, FindDelivery))
    ensures PublisherOk(t, receivers, Publisher(limit, [], ReadingBatch))
  {
  }

  lemma NextKeeps(initial: map<StockKey, Inventory>, s: Shop, step: Step)
    requires Inv(initial, s)
    ensures Inv(initial, Next(s, step))
  {
    hide Consistent, Later, ClientOk, ReceiverOk, PublisherOk;
    var u := Next(s, step);
    match step
    case OnClient(id, move) =>
      if id in s.clients {
        MoveClientKeeps(initial, s.tables, s.clients[id], move);
        OthersKeep(s, u);
      }
    case OnReceiver(id, move) =>
      if id in s.receivers {
        MoveReceiverKeeps(initial, s.tables, s.receivers[id], move);
        OthersKeep(s, u);
      }
    case OnPublisher(id, move) =>
      if id in s.publishers {
        MovePublisherKeeps(initial, s, s.publishers[id], move);
        OthersKeep(s, u);
      }
    case Arrive(_, tenant, actor, command) =>
      NewcomersOk(s.tables, tenant, actor, command, OrderPlaced(0, 0, 0, 0), 1, s.receivers);
    case Deliver(_, event) =>
      LaterThanItself(s.tables);
      NewcomersOk(s.tables, 0, 0, Command(0, 0, 0), event, 1, s.receivers);
      OthersKeep(s, u);
    case Publish(_, limit) =>
      NewcomersOk(s.tables, 0, 0, Command(0, 0, 0), OrderPlaced(0, 0, 0, 0), limit, s.receivers);
  }

  lemma {:induction false} RunKeeps(initial: map<StockKey, Inventory>, s: Shop, steps: seq<Step>)
    requires Inv(initial, s)
    ensures Inv(initial, Run(s, steps))
    decreases |steps|
  {
    if steps != [] {
      NextKeeps(initial, s, steps[0]);
      RunKeeps(initial, Next(s, steps[0]), steps[1..]);
    }
  }

  // ------------------------------------------------------------------------------------------
  // The promises, in every state of every run.

  ghost predicate Stocked(initial: map<StockKey, Inventory>) {
    forall k :: k in initial ==> initial[k].available >= 0 && initial[k].version == 1
  }

  lemma EveryRunConsistent(initial: map<StockKey, Inventory>, steps: seq<Step>)
    requires Stocked(initial)
    ensures Inv(initial, Run(Opened(initial), steps))
  {
    OpeningConsistent(initial);
    RunKeeps(initial, Opened(initial), steps);
  }

  /** Stock is conserved, its version counts the orders, and it never goes negative, although no
      check constraint is modelled. */
  lemma StockNeverOversold(initial: map<StockKey, Inventory>, steps: seq<Step>, key: StockKey)
    requires Stocked(initial) && key in initial
    ensures var t := Run(Opened(initial), steps).tables;
            var (copies, count) := Ordered(t.orders, t.orders.Keys, key);
            && key in t.inventory
            && t.inventory[key].available + copies == initial[key].available
            && t.inventory[key].version == 1 + count
            && 0 <= t.inventory[key].available
  {
    EveryRunConsistent(initial, steps);
  }

  /** A request id owns at most one order, that order has exactly one receipt, audit row and event,
      and all clients answered under the id were given that order and nothing else. */
  lemma OneAnswerPerRequest(initial: map<StockKey, Inventory>, steps: seq<Step>, a: nat, b: nat)
    requires Stocked(initial)
    ensures var s := Run(Opened(initial), steps);
            && OrdersPaired(s.tables)
            && (a in s.clients && s.clients[a].pc.Answered? ==>
                  var c := s.clients[a];
                  var key := OrderKey(c.tenantId, c.pc.result.orderId);
                  && key in s.tables.orders
                  && HasReceipt(s.tables, key, c.command.requestId)
                  && c.pc.result == CheckoutResult(c.tenantId, key.orderId, c.command.sku, c.command.quantity)
                  && s.tables.orders[key] == Order(c.command.sku, c.command.quantity))
            && (a in s.clients && b in s.clients && s.clients[a].pc.Answered? && s.clients[b].pc.Answered?
                && s.clients[a].tenantId == s.clients[b].tenantId
                && s.clients[a].command.requestId == s.clients[b].command.requestId ==>
                  s.clients[a].pc.result == s.clients[b].pc.result
                  && s.clients[a].actorId == s.clients[b].actorId
                  && s.clients[a].command == s.clients[b].command)
  {
    EveryRunConsistent(initial, steps);
    var s := Run(Opened(initial), steps);
    if a in s.clients { assert ClientOk(s.tables, s.clients[a]); }
    if b in s.clients { assert ClientOk(s.tables, s.clients[b]); }
  }

  /** Answers are final: a longer run still shows every answer given before. */
  lemma {:induction false} AnswersStay(s: Shop, steps: seq<Step>, a: nat)
    requires a in s.clients && s.clients[a].pc.Answered?
    ensures a in Run(s, steps).clients && Run(s, steps).clients[a] == s.clients[a]
    decreases |steps|
  {
    if steps != [] { AnswersStay(Next(s, steps[0]), steps[1..], a); }
  }

  /** An order has at most one shipment and it matches the order; a row marked delivered has its
      shipment and delivery receipt; a publisher that finished has delivered its whole batch. */
  lemma DeliveriesMatchOrders(initial: map<StockKey, Inventory>, steps: seq<Step>)
    requires Stocked(initial)
    ensures var s := Run(Opened(initial), steps);
            && (forall k :: k in s.tables.shipments ==>
                  k in s.tables.orders && s.tables.shipments[k] == Shipment(s.tables.orders[k].sku, s.tables.orders[k].quantity))
            && (forall i :: 0 <= i < |s.tables.outbox| && s.tables.outbox[i].delivered ==>
                  Delivered(s.tables, s.tables.outbox[i].payload))
            && (forall p :: p in s.publishers && s.publishers[p].pc.Finished? ==>
                  RowsDelivered(s.tables, s.publishers[p].batch, |s.publishers[p].batch|))
            && (forall r :: r in s.receivers && s.receivers[r].pc.Fulfilled? ==>
                  Delivered(s.tables, s.receivers[r].event))
  {
    EveryRunConsistent(initial, steps);
  }
}
