// The transactional outbox: rows leased by relays, sent outside the transaction, then marked.
module Outbox {
  import opened Text
  import opened Naming

  datatype EventStatus = Pending | Dispatched | Failed

  datatype Payload = Payload(job: HexId, correlation: nat, key: string)

  // A row is known by its position: rows are listed in creation order and never removed. Its payload is None
  // when it has other keys than the three expected, a value that is no text, or an identifier that is no UUID.
  datatype Row = Row(eventType: string, aggregate: HexId, correlation: nat, payload: Option<Payload>,
                     status: EventStatus, attempts: nat, availableAt: int,
                     lockedBy: Option<string>, leaseEnd: Option<int>)

  // What the sender insists on before it enqueues.
  predicate WellFormed(r: Row) {
    && r.eventType == "publish.dispatch"
    && r.payload.Some? && r.payload.value.job == r.aggregate && r.payload.value.correlation == r.correlation
  }

  predicate Claimable(r: Row, now: int) {
    && r.status == Pending && r.availableAt <= now
    && (r.lockedBy == None || (r.leaseEnd.Some? && r.leaseEnd.value <= now))
  }

  function Lock(r: Row, worker: string, leaseEnd: int): Row {
    r.(lockedBy := Some(worker), leaseEnd := Some(leaseEnd))
  }

  // The first `limit` claimable positions.
  function ClaimIds(rows: seq<Row>, limit: nat, now: int): (ids: seq<nat>)
    ensures |ids| <= limit
    ensures forall k | 0 <= k < |ids| :: ids[k] < |rows| && Claimable(rows[ids[k]], now)
    ensures forall j, k | 0 <= j < k < |ids| :: ids[j] < ids[k]
  {
    if rows == [] then []
    else
      var last := |rows| - 1;
      var before := ClaimIds(rows[..last], limit, now);
      if |before| < limit && Claimable(rows[last], now) then before + [last] else before
  }

  function Claim(rows: seq<Row>, limit: nat, worker: string, now: int, lease: int): (r: seq<Row>)
    ensures |r| == |rows|
    ensures forall i {:trigger r[i]} | 0 <= i < |rows| ::
              r[i] == if i in ClaimIds(rows, limit, now) then Lock(rows[i], worker, now + lease) else rows[i]
  {
    var ids := ClaimIds(rows, limit, now);
    seq(|rows|, i requires 0 <= i < |rows| => if i in ids then Lock(rows[i], worker, now + lease) else rows[i])
  }

  function Done(r: Row): Row {
    r.(status := Dispatched, lockedBy := None, leaseEnd := None)
  }

  function Retried(r: Row, retryAt: int, maxAttempts: nat): Row {
    var attempts := r.attempts + 1;
    r.(attempts := attempts, status := if attempts >= maxAttempts then Failed else Pending,
       availableAt := retryAt, lockedBy := None, leaseEnd := None)
  }

  function MarkDispatched(rows: seq<Row>, id: nat): seq<Row>
    requires id < |rows|
  {
    rows[id := Done(rows[id])]
  }

  function MarkFailed(rows: seq<Row>, id: nat, retryAt: int, maxAttempts: nat): seq<Row>
    requires id < |rows|
  {
    rows[id := Retried(rows[id], retryAt, maxAttempts)]
  }

  function Pow2(n: nat): nat { if n == 0 then 1 else 2 * Pow2(n - 1) }

  function RetryDelay(attempts: nat): nat {
    Pow2(if attempts + 1 < 8 then attempts + 1 else 8)
  }

  class OutboxTable {
    var rows: seq<Row>

    constructor (rows: seq<Row>)
      ensures this.rows == rows
    {
      this.rows := rows;
    }

    method ClaimPending(limit: nat, worker: string, now: int, lease: int) returns (ids: seq<nat>)
      modifies this
      ensures ids == ClaimIds(old(rows), limit, now) && rows == Claim(old(rows), limit, worker, now, lease)
    {
      ghost var before := rows;
      ids := [];
      for i := 0 to |rows|
        invariant |rows| == |before|
        invariant ids == ClaimIds(before[..i], limit, now)
        invariant forall k | 0 <= k < |rows| ::
                    rows[k] == if k in ids then Lock(before[k], worker, now + lease) else before[k]
      {
        assert before[..i + 1][..i] == before[..i];
        if |ids| < limit && Claimable(rows[i], now) {
          rows := rows[i := Lock(rows[i], worker, now + lease)];
          ids := ids + [i];
        }
      }
      assert before[..|before|] == before;
    }

    method Dispatched(id: nat)
      requires id < |rows|
      modifies this
      ensures rows == MarkDispatched(old(rows), id)
    {
      var record := rows[id];
      rows := rows[id := record.(status := EventStatus.Dispatched, lockedBy := None, leaseEnd := None)];
    }

    method FailedDelivery(id: nat, retryAt: int, maxAttempts: nat)
      requires id < |rows|
      modifies this
      ensures rows == MarkFailed(old(rows), id, retryAt, maxAttempts)
    {
      var record := rows[id].(attempts := rows[id].attempts + 1);
      record := record.(status := if record.attempts >= maxAttempts then Failed else Pending);
      rows := rows[id := record.(availableAt := retryAt, lockedBy := None, leaseEnd := None)];
    }
  }

  // An enqueue returns, or raises with the message lost or queued all the same.
  datatype SendFault = Sent | SendLost | SendApplied

  function FaultFor(r: Row, faults: seq<SendFault>): SendFault {
    if !WellFormed(r) then SendLost else if faults == [] then Sent else faults[0]
  }

  function FaultsAfter(r: Row, faults: seq<SendFault>): seq<SendFault> {
    if !WellFormed(r) || faults == [] then faults else faults[1..]
  }

  datatype Poll = Poll(rows: seq<Row>, queue: seq<nat>, faults: seq<SendFault>, dispatched: nat, failed: nat)

  function Settle(rows: seq<Row>, id: nat, r: Row, ok: bool, now: int, maxAttempts: nat): (s: seq<Row>)
    requires id < |rows|
    ensures |s| == |rows| && forall i | 0 <= i < |rows| && i != id :: s[i] == rows[i]
  {
    if ok then MarkDispatched(rows, id) else MarkFailed(rows, id, now + RetryDelay(r.attempts), maxAttempts)
  }

  function DeliverOne(p: Poll, id: nat, r: Row, now: int, maxAttempts: nat): Poll
    requires id < |p.rows|
  {
    var fault := FaultFor(r, p.faults);
    Poll(Settle(p.rows, id, r, fault.Sent?, now, maxAttempts),
         if fault.SendLost? then p.queue else p.queue + [id],
         FaultsAfter(r, p.faults),
         if fault.Sent? then p.dispatched + 1 else p.dispatched,
         if fault.Sent? then p.failed else p.failed + 1)
  }

  // Delivering the claimed rows one by one; `held` are the rows as they were claimed.
  function Deliver(p: Poll, ids: seq<nat>, held: seq<Row>, now: int, maxAttempts: nat): (q: Poll)
    requires |ids| == |held| && forall k | 0 <= k < |ids| :: ids[k] < |p.rows|
    ensures |q.rows| == |p.rows|
    decreases |ids|
  {
    if ids == [] then p
    else
      var last := |ids| - 1;
      DeliverOne(Deliver(p, ids[..last], held[..last], now, maxAttempts), ids[last], held[last], now, maxAttempts)
  }

  function Held(rows: seq<Row>, ids: seq<nat>): seq<Row>
    requires forall k | 0 <= k < |ids| :: ids[k] < |rows|
  {
    seq(|ids|, k requires 0 <= k < |ids| => rows[ids[k]])
  }

  function RelayOnce(rows: seq<Row>, queue: seq<nat>, faults: seq<SendFault>, limit: nat, worker: string,
                     now: int, lease: int, maxAttempts: nat): Poll
  {
    var ids := ClaimIds(rows, limit, now);
    var locked := Claim(rows, limit, worker, now, lease);
    Deliver(Poll(locked, queue, faults, 0, 0), ids, Held(locked, ids), now, maxAttempts)
  }

  class TaskQueue {
    var messages: seq<nat>
    var faults: seq<SendFault>

    constructor (faults: seq<SendFault>)
      ensures messages == [] && this.faults == faults
    {
      messages, this.faults := [], faults;
    }

    // The relay's _send: check the payload, then enqueue.
    method Send(id: nat, r: Row) returns (ok: bool)
      modifies this
      ensures ok == FaultFor(r, old(faults)).Sent?
      ensures messages == if FaultFor(r, old(faults)).SendLost? then old(messages) else old(messages) + [id]
      ensures faults == FaultsAfter(r, old(faults))
    {
      if r.eventType != "publish.dispatch" || r.payload == None {
        return false;
      }
      if r.payload.value.job != r.aggregate || r.payload.value.correlation != r.correlation {
        return false;
      }
      var fault := Sent;
      if faults != [] {
        fault, faults := faults[0], faults[1..];
      }
      if !fault.SendLost? {
        messages := messages + [id];
      }
      ok := fault.Sent?;
    }
  }

  class PublishOutboxRelay {
    const table: OutboxTable
    const queue: TaskQueue
    const worker: string
    const batchSize: nat
    const maxAttempts: nat
    const lease: int

    constructor (table: OutboxTable, queue: TaskQueue, worker: string, batchSize: nat, maxAttempts: nat, lease: int)
      ensures this.table == table && this.queue == queue && this.worker == worker
      ensures this.batchSize == batchSize && this.maxAttempts == maxAttempts && this.lease == lease
    {
      this.table, this.queue, this.worker := table, queue, worker;
      this.batchSize, this.maxAttempts, this.lease := batchSize, maxAttempts, lease;
    }

    // One event: send it outside the transaction, then count and record the outcome.
    method DeliverNext(id: nat, r: Row, now: int, dispatched: nat, failed: nat) returns (dispatched': nat, failed': nat)
      requires id < |table.rows|
      modifies table, queue
      ensures Poll(table.rows, queue.messages, queue.faults, dispatched', failed')
           == DeliverOne(Poll(old(table.rows), old(queue.messages), old(queue.faults), dispatched, failed),
                         id, r, now, maxAttempts)
    {
      dispatched', failed' := dispatched, failed;
      var ok := queue.Send(id, r);
      if ok {
        dispatched' := dispatched + 1;
        table.Dispatched(id);
      } else {
        failed' := failed + 1;
        table.FailedDelivery(id, now + RetryDelay(r.attempts), maxAttempts);
      }
    }

    method DeliverAll(ids: seq<nat>, held: seq<Row>, now: int) returns (dispatched: nat, failed: nat)
      requires |ids| == |held| && forall k | 0 <= k < |ids| :: ids[k] < |table.rows|
      modifies table, queue
      ensures Poll(table.rows, queue.messages, queue.faults, dispatched, failed)
           == Deliver(Poll(old(table.rows), old(queue.messages), old(queue.faults), 0, 0), ids, held, now, maxAttempts)
    {
      ghost var start := Poll(table.rows, queue.messages, queue.faults, 0, 0);
      dispatched, failed := 0, 0;
      for i := 0 to |ids|
        invariant Poll(table.rows, queue.messages, queue.faults, dispatched, failed)
               == Deliver(start, ids[..i], held[..i], now, maxAttempts)
      {
        assert ids[..i + 1][..i] == ids[..i] && held[..i + 1][..i] == held[..i];
        dispatched, failed := DeliverNext(ids[i], held[i], now, dispatched, failed);
      }
      assert ids[..|ids|] == ids && held[..|held|] == held;
    }

    method RunOnce(now: int) returns (claimed: nat, dispatched: nat, failed: nat)
      modifies table, queue
      ensures claimed == |ClaimIds(old(table.rows), batchSize, now)|
      ensures Poll(table.rows, queue.messages, queue.faults, dispatched, failed)
           == RelayOnce(old(table.rows), old(queue.messages), old(queue.faults), batchSize, worker, now, lease, maxAttempts)
    {
      var ids := table.ClaimPending(batchSize, worker, now, lease);
      var held := Held(table.rows, ids);
      claimed := |ids|;
      dispatched, failed := DeliverAll(ids, held, now);
    }
  }

  ghost predicate Accounted(p: Poll, q: Poll, ids: seq<nat>) {
    && |q.rows| == |p.rows| && p.queue <= q.queue
    && q.dispatched + q.failed == p.dispatched + p.failed + |ids|
    && (forall i | 0 <= i < |p.rows| && i !in ids :: q.rows[i] == p.rows[i])
    && (forall i | i in ids && i < |q.rows| && q.rows[i].status == EventStatus.Dispatched :: i in q.queue[|p.queue|..])
  }

  // One more event: what was accounted for stays so, and the event joins it.
  lemma OneMoreAccounted(p: Poll, q: Poll, ids: seq<nat>, id: nat, r: Row, now: int, maxAttempts: nat)
    requires Accounted(p, q, ids) && id < |q.rows|
    ensures Accounted(p, DeliverOne(q, id, r, now, maxAttempts), ids + [id])
  {
    var s := DeliverOne(q, id, r, now, maxAttempts);
    var sent := if s.queue == q.queue then [] else [id];
    assert s.queue[|p.queue|..] == q.queue[|p.queue|..] + sent;
    assert forall i :: i in ids + [id] <==> i in ids || i == id;
  }

  // Every claimed event is counted once, every one marked dispatched is among the messages this poll added, the
  // queue only grows and no other row is touched.
  lemma {:induction false} DeliverCounts(p: Poll, ids: seq<nat>, held: seq<Row>, now: int, maxAttempts: nat)
    requires |ids| == |held| && forall k | 0 <= k < |ids| :: ids[k] < |p.rows|
    ensures Accounted(p, Deliver(p, ids, held, now, maxAttempts), ids)
    decreases |ids|
  {
    if ids != [] {
      var last := |ids| - 1;
      DeliverCounts(p, ids[..last], held[..last], now, maxAttempts);
      OneMoreAccounted(p, Deliver(p, ids[..last], held[..last], now, maxAttempts), ids[..last], ids[last], held[last],
                       now, maxAttempts);
      assert ids[..last] + [ids[last]] == ids;
    }
  }
}
