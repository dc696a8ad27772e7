// What one poll of a relay does to every event, by what the queue answers.
module OutboxProgress {
  import opened Text
  import opened Outbox

  // ---- which events a poll takes ----

  // A claimable event is left out only when the batch was filled by older ones.
  lemma {:induction false} OldestFirst(rows: seq<Row>, limit: nat, now: int, i: nat)
    requires i < |rows| && Claimable(rows[i], now) && i !in ClaimIds(rows, limit, now)
    ensures |ClaimIds(rows, limit, now)| == limit && forall k | k in ClaimIds(rows, limit, now) :: k < i
  {
    var last := |rows| - 1;
    if i < last {
      OldestFirst(rows[..last], limit, now, i);
    }
  }

  // ---- how long a failed event sleeps ----

  // 2 s after the first failure, twice as long after each further one, and never more than 256 s.
  lemma BackoffDoubles(attempts: nat)
    ensures RetryDelay(0) == 2 && RetryDelay(attempts) <= 256
    ensures RetryDelay(attempts + 1) == if RetryDelay(attempts) == 256 then 256 else 2 * RetryDelay(attempts)
  {
    Powers();
  }

  lemma Powers()
    ensures Pow2(1) == 2 && Pow2(2) == 4 && Pow2(3) == 8 && Pow2(4) == 16
    ensures Pow2(5) == 32 && Pow2(6) == 64 && Pow2(7) == 128 && Pow2(8) == 256
  {
    assert Pow2(1) == 2 && Pow2(2) == 2 * Pow2(1) && Pow2(3) == 2 * Pow2(2) && Pow2(4) == 2 * Pow2(3);
    assert Pow2(5) == 2 * Pow2(4) && Pow2(6) == 2 * Pow2(5) && Pow2(7) == 2 * Pow2(6) && Pow2(8) == 2 * Pow2(7);
  }

  // ---- what becomes of each event ----

  // An event the sender lets through to the queue.
  predicate Sendable(r: Row) {
    match r.payload
    case None => false
    case Some(p) => r.eventType == "publish.dispatch" && p.job == r.aggregate && p.correlation == r.correlation
  }

  function Sendables(rows: seq<Row>): nat {
    if rows == [] then 0
    else Sendables(rows[..|rows| - 1]) + if Sendable(rows[|rows| - 1]) then 1 else 0
  }

  function AnswerAt(faults: seq<SendFault>, k: nat): SendFault {
    if k < |faults| then faults[k] else Sent
  }

  // What the queue answers for event k: one fault for every event let through before it; an event that is not let
  // through uses up none and is lost.
  function MetAt(held: seq<Row>, faults: seq<SendFault>, k: nat): SendFault
    requires k < |held|
  {
    if Sendable(held[k]) then AnswerAt(faults, Sendables(held[..k])) else SendLost
  }

  function Answers(held: seq<Row>, faults: seq<SendFault>): seq<SendFault> {
    seq(|held|, k requires 0 <= k < |held| => MetAt(held, faults, k))
  }

  // The events whose message exists now, in order, and how many answers were of one kind.
  function Queued(ids: seq<nat>, answers: seq<SendFault>): seq<nat>
    requires |ids| == |answers|
  {
    if ids == [] then []
    else
      var last := |ids| - 1;
      Queued(ids[..last], answers[..last]) + if answers[last].SendLost? then [] else [ids[last]]
  }

  function Returned(answers: seq<SendFault>): nat {
    if answers == [] then 0
    else Returned(answers[..|answers| - 1]) + if answers[|answers| - 1].Sent? then 1 else 0
  }

  // An event whose enqueue returned is done. Any other counts an attempt, and is pending again after its delay or
  // has failed for good with its last attempt. Either way nobody holds it.
  predicate SettledBy(before: Row, after: Row, answer: SendFault, now: int, maxAttempts: nat) {
    && after == before.(status := after.status, attempts := after.attempts, availableAt := after.availableAt,
                        lockedBy := None, leaseEnd := None)
    && if answer.Sent? then
         after.status == Dispatched && after.attempts == before.attempts && after.availableAt == before.availableAt
       else
         && after.attempts == before.attempts + 1 && after.availableAt == now + RetryDelay(before.attempts)
         && after.status == if after.attempts < maxAttempts then Pending else Failed
  }

  // After delivering the events held, by their answers: the rows, and what was queued, counted and used up.
  predicate AllSettled(before: seq<Row>, after: seq<Row>, ids: seq<nat>, held: seq<Row>, answers: seq<SendFault>, now: int,
                       maxAttempts: nat)
    requires |ids| == |held| == |answers|
  {
    && |after| == |before| && (forall i | 0 <= i < |before| && i !in ids :: after[i] == before[i])
    && forall k | 0 <= k < |ids| :: ids[k] < |after| && SettledBy(held[k], after[ids[k]], answers[k], now, maxAttempts)
  }

  predicate Counted(p: Poll, q: Poll, ids: seq<nat>, answers: seq<SendFault>)
    requires |ids| == |answers|
  {
    && q.queue == p.queue + Queued(ids, answers)
    && q.dispatched == p.dispatched + Returned(answers) && q.failed + Returned(answers) == p.failed + |ids|
  }

  function Unused(faults: seq<SendFault>, used: nat): seq<SendFault> {
    if used < |faults| then faults[used..] else []
  }

  ghost predicate Delivered(p: Poll, q: Poll, ids: seq<nat>, held: seq<Row>, answers: seq<SendFault>, now: int,
                            maxAttempts: nat)
    requires |ids| == |held| == |answers|
  {
    && AllSettled(p.rows, q.rows, ids, held, answers, now, maxAttempts) && Counted(p, q, ids, answers)
    && q.faults == Unused(p.faults, Sendables(held))
  }

  lemma NextAnswer(held: seq<Row>, faults: seq<SendFault>)
    requires held != []
    ensures var last := |held| - 1;
            var left := Unused(faults, Sendables(held[..last]));
            && FaultFor(held[last], left) == MetAt(held, faults, last)
            && FaultsAfter(held[last], left) == Unused(faults, Sendables(held))
  {
    var used := Sendables(held[..|held| - 1]);
    if used < |faults| {
      assert faults[used..][0] == faults[used] && faults[used..][1..] == faults[used + 1..];
    }
  }

  lemma NextSettled(before: seq<Row>, middle: seq<Row>, ids: seq<nat>, held: seq<Row>, answers: seq<SendFault>, now: int,
                    maxAttempts: nat)
    requires |ids| == |held| == |answers| && ids != []
    requires forall j, k | 0 <= j < k < |ids| :: ids[j] != ids[k]
    requires var last := |ids| - 1; ids[last] < |middle| && held[last] == middle[ids[last]]
    requires var last := |ids| - 1;
             AllSettled(before, middle, ids[..last], held[..last], answers[..last], now, maxAttempts)
    ensures var last := |ids| - 1;
            AllSettled(before, Settle(middle, ids[last], held[last], answers[last].Sent?, now, maxAttempts), ids, held, answers,
                       now, maxAttempts)
  {
    var last := |ids| - 1;
    var after := Settle(middle, ids[last], held[last], answers[last].Sent?, now, maxAttempts);
    forall i | 0 <= i < |before| && i !in ids ensures after[i] == before[i] {
      assert i !in ids[..last] && i != ids[last];
    }
    forall k | 0 <= k < |ids| ensures ids[k] < |after| && SettledBy(held[k], after[ids[k]], answers[k], now, maxAttempts) {
      if k < last { assert ids[..last][k] == ids[k] && held[..last][k] == held[k] && answers[..last][k] == answers[k]; }
    }
  }

  lemma NextCounted(p: Poll, q: Poll, s: Poll, ids: seq<nat>, answers: seq<SendFault>)
    requires |ids| == |answers| && ids != [] && Counted(p, q, ids[..|ids| - 1], answers[..|ids| - 1])
    requires var last := |ids| - 1;
             && s.queue == (if answers[last].SendLost? then q.queue else q.queue + [ids[last]])
             && s.dispatched == (if answers[last].Sent? then q.dispatched + 1 else q.dispatched)
             && s.failed == if answers[last].Sent? then q.failed else q.failed + 1
    ensures Counted(p, s, ids, answers)
  {
    var last := |ids| - 1;
    var more := if answers[last].SendLost? then [] else [ids[last]];
    assert Queued(ids, answers) == Queued(ids[..last], answers[..last]) + more;
    assert s.queue == p.queue + Queued(ids[..last], answers[..last]) + more;
  }

  lemma OneMoreDelivered(p: Poll, q: Poll, ids: seq<nat>, held: seq<Row>, now: int, maxAttempts: nat)
    requires |ids| == |held| && ids != []
    requires forall j, k | 0 <= j < k < |ids| :: ids[j] != ids[k]
    requires var last := |ids| - 1; ids[last] < |q.rows| && held[last] == q.rows[ids[last]]
    requires var last := |ids| - 1;
             Delivered(p, q, ids[..last], held[..last], Answers(held, p.faults)[..last], now, maxAttempts)
    ensures var last := |ids| - 1;
            Delivered(p, DeliverOne(q, ids[last], held[last], now, maxAttempts), ids, held, Answers(held, p.faults), now,
                      maxAttempts)
  {
    var last, answers := |ids| - 1, Answers(held, p.faults);
    NextAnswer(held, p.faults);
    NextSettled(p.rows, q.rows, ids, held, answers, now, maxAttempts);
    NextCounted(p, q, DeliverOne(q, ids[last], held[last], now, maxAttempts), ids, answers);
  }

  lemma AnswersSoFar(held: seq<Row>, faults: seq<SendFault>, n: nat)
    requires n <= |held|
    ensures Answers(held, faults)[..n] == Answers(held[..n], faults)
  {
    forall k | 0 <= k < n ensures Answers(held, faults)[..n][k] == Answers(held[..n], faults)[k] {
      assert held[..n][..k] == held[..k];
    }
  }

  lemma {:induction false} DeliversExactly(p: Poll, ids: seq<nat>, held: seq<Row>, now: int, maxAttempts: nat)
    requires |ids| == |held| && forall k | 0 <= k < |ids| :: ids[k] < |p.rows| && held[k] == p.rows[ids[k]]
    requires forall j, k | 0 <= j < k < |ids| :: ids[j] != ids[k]
    ensures Delivered(p, Deliver(p, ids, held, now, maxAttempts), ids, held, Answers(held, p.faults), now, maxAttempts)
    decreases |ids|
  {
    if ids != [] {
      var last := |ids| - 1;
      DeliversExactly(p, ids[..last], held[..last], now, maxAttempts);
      AnswersSoFar(held, p.faults, last);
      var q := Deliver(p, ids[..last], held[..last], now, maxAttempts);
      assert ids[last] !in ids[..last];
      OneMoreDelivered(p, q, ids, held, now, maxAttempts);
    }
  }

  // A lease changes nothing about how an event is settled.
  lemma LockSettles(plain: Row, held: Row, after: Row, answer: SendFault, worker: string, until: int, now: int,
                    maxAttempts: nat)
    requires held == Lock(plain, worker, until) && SettledBy(held, after, answer, now, maxAttempts)
    ensures SettledBy(plain, after, answer, now, maxAttempts)
  {
  }

  // Event k of the batch is settled by its answer; row i was not in the batch.
  predicate SettledAt(before: seq<Row>, after: seq<Row>, ids: seq<nat>, answers: seq<SendFault>, k: nat, now: int,
                      maxAttempts: nat)
    requires k < |ids| == |answers|
  {
    && ids[k] < |before| && ids[k] < |after|
    && SettledBy(before[ids[k]], after[ids[k]], answers[k], now, maxAttempts)
  }

  predicate KeptAt(before: seq<Row>, after: seq<Row>, ids: seq<nat>, i: nat)
    requires i < |before| == |after|
  {
    i in ids || after[i] == before[i]
  }

  ghost predicate Polled(rows: seq<Row>, q: Poll, queue: seq<nat>, ids: seq<nat>, answers: seq<SendFault>, now: int,
                         maxAttempts: nat)
  {
    && |answers| == |ids| && |q.rows| == |rows| && q.queue == queue + Queued(ids, answers)
    && q.dispatched == Returned(answers) && q.dispatched + q.failed == |ids|
    && (forall i | 0 <= i < |rows| :: KeptAt(rows, q.rows, ids, i))
    && forall k | 0 <= k < |ids| :: SettledAt(rows, q.rows, ids, answers, k, now, maxAttempts)
  }

  lemma FromLocked(rows: seq<Row>, start: Poll, q: Poll, ids: seq<nat>, held: seq<Row>, answers: seq<SendFault>,
                   worker: string, until: int, now: int, maxAttempts: nat)
    requires |ids| == |held| == |answers| && |start.rows| == |rows| && start.dispatched == 0 && start.failed == 0
    requires forall i | 0 <= i < |rows| && i !in ids :: start.rows[i] == rows[i]
    requires forall k | 0 <= k < |ids| :: ids[k] < |rows| && held[k] == Lock(rows[ids[k]], worker, until)
    requires Delivered(start, q, ids, held, answers, now, maxAttempts)
    ensures Polled(rows, q, start.queue, ids, answers, now, maxAttempts)
  {
    forall k | 0 <= k < |ids| ensures SettledAt(rows, q.rows, ids, answers, k, now, maxAttempts) {
      LockSettles(rows[ids[k]], held[k], q.rows[ids[k]], answers[k], worker, until, now, maxAttempts);
    }
  }

  // The claimed rows carry this lease and the others are as before.
  predicate LockedAt(rows: seq<Row>, locked: seq<Row>, ids: seq<nat>, worker: string, until: int, k: nat)
    requires k < |ids|
  {
    ids[k] < |rows| && ids[k] < |locked| && locked[ids[k]] == Lock(rows[ids[k]], worker, until)
  }

  predicate Increasing(ids: seq<nat>) { forall j, k | 0 <= j < k < |ids| :: ids[j] < ids[k] }

  predicate Locked(rows: seq<Row>, locked: seq<Row>, ids: seq<nat>, worker: string, until: int) {
    && |locked| == |rows| && Increasing(ids) && (forall i | 0 <= i < |rows| :: KeptAt(rows, locked, ids, i))
    && forall k | 0 <= k < |ids| :: LockedAt(rows, locked, ids, worker, until, k)
  }

  lemma ClaimLocks(rows: seq<Row>, ids: seq<nat>, limit: nat, worker: string, now: int, lease: int)
    requires ids == ClaimIds(rows, limit, now)
    ensures Locked(rows, Claim(rows, limit, worker, now, lease), ids, worker, now + lease)
  {
    var locked, until := Claim(rows, limit, worker, now, lease), now + lease;
    forall k | 0 <= k < |ids| ensures LockedAt(rows, locked, ids, worker, until, k) {
      assert ids[k] in ids;
    }
  }

  lemma LockedPoll(rows: seq<Row>, start: Poll, plain: seq<Row>, held: seq<Row>, ids: seq<nat>, worker: string, until: int,
                   now: int, maxAttempts: nat)
    requires Locked(rows, start.rows, ids, worker, until) && start.dispatched == 0 && start.failed == 0
    requires (forall k | 0 <= k < |ids| :: ids[k] < |rows|) && plain == Held(rows, ids) && held == Held(start.rows, ids)
    ensures Polled(rows, Deliver(start, ids, held, now, maxAttempts), start.queue, ids, Answers(plain, start.faults), now,
                   maxAttempts)
  {
    forall k | 0 <= k < |ids| ensures held[k] == Lock(rows[ids[k]], worker, until) {
      assert LockedAt(rows, start.rows, ids, worker, until, k);
    }
    forall i | 0 <= i < |rows| && i !in ids ensures start.rows[i] == rows[i] {
      assert KeptAt(rows, start.rows, ids, i);
    }
    DeliversExactly(start, ids, held, now, maxAttempts);
    SameAnswers(plain, held, start.faults, worker, until);
    FromLocked(rows, start, Deliver(start, ids, held, now, maxAttempts), ids, held, Answers(held, start.faults), worker,
               until, now, maxAttempts);
  }

  lemma RelayDelivers(rows: seq<Row>, queue: seq<nat>, faults: seq<SendFault>, limit: nat, worker: string, now: int,
                      lease: int, maxAttempts: nat, ids: seq<nat>, start: Poll)
    requires ids == ClaimIds(rows, limit, now) && start == Poll(Claim(rows, limit, worker, now, lease), queue, faults, 0, 0)
    ensures RelayOnce(rows, queue, faults, limit, worker, now, lease, maxAttempts)
         == Deliver(start, ids, Held(start.rows, ids), now, maxAttempts)
  {
  }

  // A whole poll, by the rows it found and what the queue answers: the oldest claimable events are settled each by
  // its own answer, in order, and nothing else changes.
  lemma PollExactly(rows: seq<Row>, queue: seq<nat>, faults: seq<SendFault>, limit: nat, worker: string, now: int,
                    lease: int, maxAttempts: nat, ids: seq<nat>, q: Poll)
    requires ids == ClaimIds(rows, limit, now)
    requires q == RelayOnce(rows, queue, faults, limit, worker, now, lease, maxAttempts)
    ensures Polled(rows, q, queue, ids, Answers(Held(rows, ids), faults), now, maxAttempts)
  {
    var start := Poll(Claim(rows, limit, worker, now, lease), queue, faults, 0, 0);
    ClaimLocks(rows, ids, limit, worker, now, lease);
    LockedPoll(rows, start, Held(rows, ids), Held(start.rows, ids), ids, worker, now + lease, now, maxAttempts);
    RelayDelivers(rows, queue, faults, limit, worker, now, lease, maxAttempts, ids, start);
  }

  lemma {:induction false} SameSendables(plain: seq<Row>, held: seq<Row>, worker: string, until: int)
    requires |plain| == |held| && forall k | 0 <= k < |plain| :: held[k] == Lock(plain[k], worker, until)
    ensures Sendables(plain) == Sendables(held)
  {
    if plain != [] {
      SameSendables(plain[..|plain| - 1], held[..|held| - 1], worker, until);
    }
  }

  lemma SameAnswers(plain: seq<Row>, held: seq<Row>, faults: seq<SendFault>, worker: string, until: int)
    requires |plain| == |held| && forall k | 0 <= k < |plain| :: held[k] == Lock(plain[k], worker, until)
    ensures Answers(plain, faults) == Answers(held, faults)
  {
    forall k | 0 <= k < |plain| ensures MetAt(plain, faults, k) == MetAt(held, faults, k) {
      SameSendables(plain[..k], held[..k], worker, until);
    }
  }

  // ---- how long a failed event is left alone ----

  // A row settled by a failure can be claimed exactly when its delay is over and it has an attempt left; one that
  // was sent never.
  lemma ClaimableAgain(before: Row, after: Row, answer: SendFault, now: int, maxAttempts: nat, later: int)
    requires SettledBy(before, after, answer, now, maxAttempts)
    ensures Claimable(after, later) <==>
              && !answer.Sent? && before.attempts + 1 < maxAttempts && later >= now + RetryDelay(before.attempts)
  {
  }
}
