/** Publishing makes progress although others run in between, place new orders and publish as well. */
module BookshopProgress {
  import opened BookshopTables
  import opened BookshopRuns
  import opened BookshopStore

  /** Every row stays where it is, and what was delivered stays delivered. */
  ghost predicate Grows(before: seq<OutboxRow>, after: seq<OutboxRow>) {
    && |before| <= |after|
    && forall i :: 0 <= i < |before| && before[i].delivered ==> after[i].delivered
  }

  lemma {:induction false} RunIsLater(initial: map<StockKey, Inventory>, s: Shop, steps: seq<Step>)
    requires Inv(initial, s)
    ensures Grows(s.tables.outbox, Run(s, steps).tables.outbox)
    decreases |steps|
  {
    if steps != [] {
      NextGrows(initial, s, steps[0]);
      NextKeeps(initial, s, steps[0]);
      hide Inv, Run;
      RunIsLater(initial, Next(s, steps[0]), steps[1..]);
      RunStep(s, steps);
    }
  }

  lemma RunStep(s: Shop, steps: seq<Step>)
    requires steps != []
    ensures Run(s, steps) == Run(Next(s, steps[0]), steps[1..])
  {
  }

  lemma NextGrows(initial: map<StockKey, Inventory>, s: Shop, step: Step)
    requires Inv(initial, s)
    ensures Grows(s.tables.outbox, Next(s, step).tables.outbox)
  {
    hide Consistent, ClientOk, ReceiverOk, PublisherOk, MoveClient, MoveReceiver, MovePublisher;
    match step
    case OnClient(id, move) =>
      if id in s.clients { MoveClientKeeps(initial, s.tables, s.clients[id], move); }
    case OnReceiver(id, move) =>
      if id in s.receivers { MoveReceiverKeeps(initial, s.tables, s.receivers[id], move); }
    case OnPublisher(id, move) =>
      if id in s.publishers { MovePublisherKeeps(initial, s, s.publishers[id], move); }
    case _ =>
  }

  /** A batch once read is never read again. */
  lemma {:induction false} BatchStays(s: Shop, steps: seq<Step>, id: nat)
    requires id in s.publishers && !s.publishers[id].pc.ReadingBatch?
    ensures var u := Run(s, steps);
            && id in u.publishers && !u.publishers[id].pc.ReadingBatch?
            && u.publishers[id].batch == s.publishers[id].batch
    decreases |steps|
  {
    if steps != [] {
      hide MoveClient, MoveReceiver;
      BatchStays(Next(s, steps[0]), steps[1..], id);
    }
  }

  /** All rows of a batch are delivered by now. */
  ghost predicate AllDelivered(rows: seq<Row>, outbox: seq<OutboxRow>) {
    forall k :: 0 <= k < |rows| ==> rows[k].id < |outbox| && outbox[rows[k].id].delivered
  }

  lemma PendingUnfolds(outbox: seq<OutboxRow>, from: nat, limit: nat)
    requires from < |outbox|
    ensures limit == 0 ==> Pending(outbox, from, limit) == [] && Pending(outbox, from + 1, limit) == []
    ensures limit > 0 && outbox[from].delivered ==> Pending(outbox, from, limit) == Pending(outbox, from + 1, limit)
    ensures limit > 0 && !outbox[from].delivered ==>
              Pending(outbox, from, limit) == [Row(from, outbox[from].payload)] + Pending(outbox, from + 1, limit - 1)
  {
  }

  lemma AllButFirst(first: Row, rest: seq<Row>, outbox: seq<OutboxRow>)
    requires AllDelivered([first] + rest, outbox)
    ensures first.id < |outbox| && outbox[first.id].delivered && AllDelivered(rest, outbox)
  {
    assert ([first] + rest)[0] == first;
    assert forall k :: 0 <= k < |rest| ==> rest[k] == ([first] + rest)[k + 1];
  }

  /** Rows of a batch that were delivered since are fewer to deliver. */
  lemma {:induction false} BatchCounts(before: seq<OutboxRow>, after: seq<OutboxRow>, from: nat, limit: nat)
    requires |before| == |after| && Grows(before, after) && from <= |before|
    requires AllDelivered(Pending(before, from, limit), after)
    ensures Undelivered(after[from..]) + |Pending(before, from, limit)| <= Undelivered(before[from..])
    decreases |before| - from
  {
    if from < |before| {
      UndeliveredSuffix(before, from);
      UndeliveredSuffix(after, from);
      PendingUnfolds(before, from, limit);
      hide Undelivered, Pending, AllDelivered;
      if limit > 0 && !before[from].delivered {
        AllButFirst(Row(from, before[from].payload), Pending(before, from + 1, limit - 1), after);
        BatchCounts(before, after, from + 1, limit - 1);
      } else {
        BatchCounts(before, after, from + 1, limit);
      }
    }
  }

  /** In a consistent shop, the rows of a finished batch are delivered. */
  lemma FinishedBatch(initial: map<StockKey, Inventory>, u: Shop, id: nat, n: nat)
    requires Inv(initial, u) && id in u.publishers && u.publishers[id].pc.Finished? && n <= |u.tables.outbox|
    requires forall k :: 0 <= k < |u.publishers[id].batch| ==> u.publishers[id].batch[k].id < n
    ensures AllDelivered(u.publishers[id].batch, u.tables.outbox[..n])
  {
    hide Consistent, ClientOk, ReceiverOk;
    assert PublisherOk(u.tables, u.receivers, u.publishers[id]);
  }

  /** From the batch to its end. */
  lemma FinishedCounts(initial: map<StockKey, Inventory>, outbox: seq<OutboxRow>, u: Shop, id: nat, limit: nat)
    requires Inv(initial, u) && Grows(outbox, u.tables.outbox)
    requires id in u.publishers && u.publishers[id].pc.Finished? && u.publishers[id].batch == Pending(outbox, 0, limit)
    ensures var open := Undelivered(outbox);
            Undelivered(u.tables.outbox[..|outbox|]) <= if open < limit then 0 else open - limit
  {
    hide Inv, Undelivered;
    var after := u.tables.outbox[..|outbox|];
    FinishedBatch(initial, u, id, |outbox|);
    hide Pending;
    PendingFills(outbox, 0, limit);
    assert outbox[0..] == outbox && after[0..] == after;
    BatchCounts(outbox, after, 0, limit);
  }

  /** Between reading its batch and finishing, a publisher brings the rows still to be delivered, of those
      that existed when it read, down by at least its batch: as many as the limit, or all there were. */
  lemma PublishingProgresses(initial: map<StockKey, Inventory>, before: seq<Step>, id: nat, steps: seq<Step>)
    requires Stocked(initial)
    requires var s := Run(Opened(initial), before); id in s.publishers && s.publishers[id].pc.ReadingBatch?
    ensures var s := Run(Opened(initial), before);
            var u := Run(Next(s, OnPublisher(id, ReadBatch)), steps);
            var n, open, limit := |s.tables.outbox|, Undelivered(s.tables.outbox), s.publishers[id].limit;
            && n <= |u.tables.outbox| && id in u.publishers
            && (u.publishers[id].pc.Finished? ==>
                  Undelivered(u.tables.outbox[..n]) <= if open < limit then 0 else open - limit)
  {
    hide Inv, Run, Undelivered, Pending;
    var s := Run(Opened(initial), before);
    var read := Next(s, OnPublisher(id, ReadBatch));
    var u := Run(read, steps);
    EveryRunConsistent(initial, before);
    NextKeeps(initial, s, OnPublisher(id, ReadBatch));
    RunIsLater(initial, read, steps);
    RunKeeps(initial, read, steps);
    BatchStays(read, steps, id);
    if u.publishers[id].pc.Finished? { FinishedCounts(initial, s.tables.outbox, u, id, s.publishers[id].limit); }
  }
}
