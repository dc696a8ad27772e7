// Several relays over one outbox: any interleaving of claims, sends, marks and crashes.
module OutboxSafety {
  import opened Text
  import opened Outbox

  datatype Stage = Waiting | SentOk | SentBad

  // One relay's unfinished business with one event: the row as it claimed it, and how far it got.
  datatype Hold = Hold(seen: Row, since: int, leaseEnd: int, stage: Stage)

  // A row with its history: how often it was claimed, how many enqueues returned, how many messages exist.
  datatype Slot = Slot(row: Row, claims: nat, sent: nat, copies: nat, holds: seq<Hold>)

  datatype Fleet = Fleet(slots: seq<Slot>, clock: int)

  datatype Action =
    | Arrive(event: Row)
    | Tick(seconds: nat)
    | Lease(worker: string, limit: nat, lease: int)
    | Enqueue(id: nat, hold: nat, fault: SendFault)
    | Mark(id: nat, hold: nat)
    | Abandon(id: nat, hold: nat)

  function Rows(slots: seq<Slot>): (rows: seq<Row>)
    ensures |rows| == |slots| && forall i | 0 <= i < |slots| :: rows[i] == slots[i].row
  {
    seq(|slots|, i requires 0 <= i < |slots| => slots[i].row)
  }

  function Leased(s: Slot, worker: string, now: int, lease: int): Slot {
    var r := Lock(s.row, worker, now + lease);
    s.(row := r, claims := s.claims + 1, holds := s.holds + [Hold(r, now, now + lease, Waiting)])
  }

  function Enqueued(s: Slot, h: nat, fault: SendFault): Slot
    requires h < |s.holds|
  {
    var hold := s.holds[h];
    var outcome := if WellFormed(hold.seen) then fault else SendLost;
    if !hold.stage.Waiting? then s
    else s.(sent := if outcome.Sent? then s.sent + 1 else s.sent,
            copies := if outcome.SendLost? then s.copies else s.copies + 1,
            holds := s.holds[h := hold.(stage := if outcome.Sent? then SentOk else SentBad)])
  }

  function Marked(s: Slot, h: nat, maxAttempts: nat): Slot
    requires h < |s.holds|
  {
    var hold := s.holds[h];
    match hold.stage
    case Waiting => s
    case SentOk => s.(row := Done(s.row), holds := Without(s.holds, h))
    case SentBad =>
      s.(row := Retried(s.row, hold.since + RetryDelay(hold.seen.attempts), maxAttempts), holds := Without(s.holds, h))
  }

  function Born(r: Row): Slot {
    Slot(r.(status := Pending, attempts := 0, lockedBy := None, leaseEnd := None), 0, 0, 0, [])
  }

  // What an action does to an existing slot.
  function Touch(s: Slot, i: nat, a: Action, claimed: bool, clock: int, maxAttempts: nat): Slot {
    match a
    case Arrive(_) => s
    case Tick(_) => s
    case Lease(worker, _, lease) => if claimed then Leased(s, worker, clock, lease) else s
    case Enqueue(id, h, fault) => if id == i && h < |s.holds| then Enqueued(s, h, fault) else s
    case Mark(id, h) => if id == i && h < |s.holds| then Marked(s, h, maxAttempts) else s
    case Abandon(id, h) => if id == i && h < |s.holds| then s.(holds := Without(s.holds, h)) else s
  }

  function Claimed(f: Fleet, a: Action): (ids: seq<nat>)
    ensures forall k | 0 <= k < |ids| :: ids[k] < |f.slots| && Claimable(f.slots[ids[k]].row, f.clock)
  {
    if a.Lease? then ClaimIds(Rows(f.slots), a.limit, f.clock) else []
  }

  function Step(f: Fleet, a: Action, maxAttempts: nat): (g: Fleet)
    ensures |g.slots| == |f.slots| + if a.Arrive? then 1 else 0
    ensures forall i | 0 <= i < |f.slots| ::
              g.slots[i] == Touch(f.slots[i], i, a, i in Claimed(f, a), f.clock, maxAttempts)
    ensures a.Arrive? ==> g.slots[|f.slots|] == Born(a.event)
    ensures g.clock == f.clock + if a.Tick? then a.seconds else 0
  {
    var ids := Claimed(f, a);
    var touched := seq(|f.slots|, i requires 0 <= i < |f.slots| =>
                         Touch(f.slots[i], i, a, i in ids, f.clock, maxAttempts));
    Fleet(if a.Arrive? then touched + [Born(a.event)] else touched, f.clock + if a.Tick? then a.seconds else 0)
  }

  function Run(f: Fleet, acts: seq<Action>, maxAttempts: nat): (g: Fleet)
    ensures |g.slots| >= |f.slots|
  {
    if acts == [] then f else Step(Run(f, acts[..|acts| - 1], maxAttempts), acts[|acts| - 1], maxAttempts)
  }

  lemma RunOneMore(f: Fleet, acts: seq<Action>, a: Action, maxAttempts: nat)
    ensures Run(f, acts + [a], maxAttempts) == Step(Run(f, acts, maxAttempts), a, maxAttempts)
  {
    assert (acts + [a])[..|acts|] == acts;
  }

  const EMPTY := Fleet([], 0)

  // ---- Whatever the relays do: crashes, late marks, lost and doubled messages ----

  predicate SameEvent(r: Row, s: Row) {
    && r.eventType == s.eventType && r.aggregate == s.aggregate && r.correlation == s.correlation
    && r.payload == s.payload
  }

  ghost predicate Evidence(s: Slot, maxAttempts: nat) {
    && (s.row.status == Dispatched ==> s.sent >= 1)
    && (s.row.status == Failed ==> s.row.attempts >= maxAttempts)
    && s.sent <= s.copies
    && (s.row.lockedBy.Some? ==> s.row.leaseEnd.Some?)
    && forall h | 0 <= h < |s.holds| :: s.holds[h].stage.SentOk? ==> s.sent >= 1
  }

  // From this moment on a pending row can be claimed.
  function Wake(r: Row): int {
    if r.leaseEnd.Some? && r.leaseEnd.value > r.availableAt then r.leaseEnd.value else r.availableAt
  }

  lemma TouchKeepsEvidence(s: Slot, i: nat, a: Action, claimed: bool, clock: int, maxAttempts: nat)
    requires Evidence(s, maxAttempts)
    ensures Evidence(Touch(s, i, a, claimed, clock, maxAttempts), maxAttempts)
    ensures SameEvent(Touch(s, i, a, claimed, clock, maxAttempts).row, s.row)
  {
  }

  ghost predicate AllEvidence(f: Fleet, maxAttempts: nat) {
    forall i | 0 <= i < |f.slots| :: Evidence(f.slots[i], maxAttempts)
  }

  // No event disappears or changes its content; a DISPATCHED one was enqueued, a FAILED one used up its
  // attempts, and a PENDING one is never stuck: from Wake on every relay may claim it.
  lemma {:induction false} NothingLost(f: Fleet, acts: seq<Action>, maxAttempts: nat)
    requires AllEvidence(f, maxAttempts)
    ensures AllEvidence(Run(f, acts, maxAttempts), maxAttempts)
    ensures forall i | 0 <= i < |f.slots| :: SameEvent(Run(f, acts, maxAttempts).slots[i].row, f.slots[i].row)
    ensures forall i, now | 0 <= i < |Run(f, acts, maxAttempts).slots| ::
              var r := Run(f, acts, maxAttempts).slots[i].row;
              r.status == Pending && Wake(r) <= now ==> Claimable(r, now)
    decreases |acts|
  {
    if acts != [] {
      var before := Run(f, acts[..|acts| - 1], maxAttempts);
      var a := acts[|acts| - 1];
      NothingLost(f, acts[..|acts| - 1], maxAttempts);
      forall i | 0 <= i < |before.slots|
        ensures Evidence(Step(before, a, maxAttempts).slots[i], maxAttempts)
        ensures SameEvent(Step(before, a, maxAttempts).slots[i].row, before.slots[i].row)
      {
        TouchKeepsEvidence(before.slots[i], i, a, i in Claimed(before, a), before.clock, maxAttempts);
      }
    }
  }

  // ---- Relays that mark before their lease ends and do not crash ----

  ghost predicate InTime(f: Fleet) {
    forall i, h | 0 <= i < |f.slots| && 0 <= h < |f.slots[i].holds| :: f.clock < f.slots[i].holds[h].leaseEnd
  }

  ghost predicate Timely(f: Fleet, acts: seq<Action>, maxAttempts: nat)
    decreases |acts|
  {
    acts == [] || (Timely(f, acts[..|acts| - 1], maxAttempts) && !acts[|acts| - 1].Abandon?
                   && InTime(Run(f, acts, maxAttempts)))
  }

  function Delivered(s: Slot): nat {
    if s.row.status == Dispatched || (s.holds != [] && s.holds[0].stage.SentOk?) then 1 else 0
  }

  function InDoubt(s: Slot): nat { if s.holds != [] && s.holds[0].stage.SentBad? then 1 else 0 }

  // At most one relay holds the row, and it holds it as it is; everything that ever happened to it adds up.
  ghost predicate Exclusive(s: Slot, clock: int, maxAttempts: nat) {
    && |s.holds| <= 1
    && (s.holds != [] ==> s.row.status == Pending && s.holds[0].seen == s.row
                          && s.row.leaseEnd == Some(s.holds[0].leaseEnd) && clock < s.holds[0].leaseEnd)
    && (s.row.lockedBy == None <==> s.holds == [])
    && (s.row.status == Pending ==> s.row.attempts < maxAttempts)
    && (s.row.status == Failed ==> s.row.attempts == maxAttempts)
    && (s.row.status == Dispatched ==> s.row.attempts < maxAttempts)
    && s.sent == Delivered(s)
    && s.sent <= s.copies <= s.sent + s.row.attempts + InDoubt(s)
    && s.claims == s.row.attempts + |s.holds| + if s.row.status == Dispatched then 1 else 0
  }

  ghost predicate AllExclusive(f: Fleet, maxAttempts: nat) {
    forall i | 0 <= i < |f.slots| :: Exclusive(f.slots[i], f.clock, maxAttempts)
  }

  lemma LeaseKeepsExclusive(s: Slot, worker: string, lease: int, clock: int, clock': int, maxAttempts: nat)
    requires Exclusive(s, clock, maxAttempts) && Claimable(s.row, clock) && clock' < clock + lease
    ensures Exclusive(Leased(s, worker, clock, lease), clock', maxAttempts)
  {
  }

  lemma EnqueueKeepsExclusive(s: Slot, h: nat, fault: SendFault, clock: int, clock': int, maxAttempts: nat)
    requires Exclusive(s, clock, maxAttempts) && h < |s.holds| && clock' < s.holds[h].leaseEnd
    ensures Exclusive(Enqueued(s, h, fault), clock', maxAttempts)
  {
  }

  lemma MarkKeepsExclusive(s: Slot, h: nat, clock: int, clock': int, maxAttempts: nat)
    requires Exclusive(s, clock, maxAttempts) && h < |s.holds|
    requires s.holds[h].stage.Waiting? ==> clock' < s.holds[h].leaseEnd
    ensures Exclusive(Marked(s, h, maxAttempts), clock', maxAttempts)
  {
    assert Without(s.holds, h) == [];
  }

  lemma TouchKeepsExclusive(s: Slot, i: nat, a: Action, claimed: bool, clock: int, clock': int, maxAttempts: nat)
    requires Exclusive(s, clock, maxAttempts) && !a.Abandon? && clock <= clock'
    requires claimed ==> a.Lease? && Claimable(s.row, clock)
    requires var t := Touch(s, i, a, claimed, clock, maxAttempts);
             forall h | 0 <= h < |t.holds| :: clock' < t.holds[h].leaseEnd
    ensures Exclusive(Touch(s, i, a, claimed, clock, maxAttempts), clock', maxAttempts)
    ensures s.row.status != Pending ==> Touch(s, i, a, claimed, clock, maxAttempts) == s
  {
    var t := Touch(s, i, a, claimed, clock, maxAttempts);
    if t.holds != [] { assert clock' < t.holds[0].leaseEnd; }
    match a
    case Lease(worker, _, lease) => if claimed { LeaseKeepsExclusive(s, worker, lease, clock, clock', maxAttempts); }
    case Enqueue(id, h, fault) =>
      if id == i && h < |s.holds| { EnqueueKeepsExclusive(s, h, fault, clock, clock', maxAttempts); }
    case Mark(id, h) => if id == i && h < |s.holds| { MarkKeepsExclusive(s, h, clock, clock', maxAttempts); }
    case _ =>
  }

  // Exactly once: DISPATCHED and FAILED events never change again, and an event is claimed at most
  // maxAttempts times and sent successfully exactly when it is dispatched or about to be marked so.
  lemma {:induction false} TimelyRelays(f: Fleet, acts: seq<Action>, maxAttempts: nat)
    requires maxAttempts >= 1 && AllExclusive(f, maxAttempts) && Timely(f, acts, maxAttempts)
    ensures AllExclusive(Run(f, acts, maxAttempts), maxAttempts)
    ensures forall i | 0 <= i < |f.slots| && f.slots[i].row.status != Pending ::
              Run(f, acts, maxAttempts).slots[i] == f.slots[i]
    decreases |acts|
  {
    if acts != [] {
      var before := Run(f, acts[..|acts| - 1], maxAttempts);
      var a := acts[|acts| - 1];
      var after := Run(f, acts, maxAttempts);
      TimelyRelays(f, acts[..|acts| - 1], maxAttempts);
      forall i | 0 <= i < |before.slots|
        ensures Exclusive(after.slots[i], after.clock, maxAttempts)
        ensures before.slots[i].row.status != Pending ==> after.slots[i] == before.slots[i]
      {
        TouchKeepsExclusive(before.slots[i], i, a, i in Claimed(before, a), before.clock, after.clock, maxAttempts);
      }
    }
  }

  lemma ExactlyOnce(acts: seq<Action>, maxAttempts: nat, i: nat)
    requires maxAttempts >= 1 && Timely(EMPTY, acts, maxAttempts) && i < |Run(EMPTY, acts, maxAttempts).slots|
    ensures var s := Run(EMPTY, acts, maxAttempts).slots[i];
            && (s.row.status == Dispatched ==> s.sent == 1)
            && (s.row.status == Failed ==> s.sent == 0 && s.row.attempts == maxAttempts)
            && s.row.attempts <= maxAttempts && s.claims <= maxAttempts && s.copies <= maxAttempts
  {
    TimelyRelays(EMPTY, acts, maxAttempts);
  }

  function Left(s: Slot, maxAttempts: nat): int {
    if s.row.status == Pending then maxAttempts - s.row.attempts else 0
  }

  function Budget(slots: seq<Slot>, maxAttempts: nat): int {
    if slots == [] then 0 else Budget(slots[..|slots| - 1], maxAttempts) + Left(slots[|slots| - 1], maxAttempts)
  }

  lemma {:induction false} BudgetAt(before: seq<Slot>, after: seq<Slot>, i: nat, maxAttempts: nat)
    requires i < |before| == |after|
    requires forall j | 0 <= j < |before| && j != i ::
               before[j].row.status == after[j].row.status && before[j].row.attempts == after[j].row.attempts
    ensures Budget(after, maxAttempts) - Budget(before, maxAttempts) == Left(after[i], maxAttempts) - Left(before[i], maxAttempts)
  {
    var last := |before| - 1;
    if i == last {
      BudgetSame(before[..last], after[..last], maxAttempts);
    } else {
      BudgetAt(before[..last], after[..last], i, maxAttempts);
    }
  }

  lemma {:induction false} BudgetSame(before: seq<Slot>, after: seq<Slot>, maxAttempts: nat)
    requires |before| == |after|
    requires forall j | 0 <= j < |before| ::
               before[j].row.status == after[j].row.status && before[j].row.attempts == after[j].row.attempts
    ensures Budget(after, maxAttempts) == Budget(before, maxAttempts)
  {
    if before != [] {
      var last := |before| - 1;
      assert before[last].row.status == after[last].row.status && before[last].row.attempts == after[last].row.attempts;
      BudgetSame(before[..last], after[..last], maxAttempts);
    }
  }

  lemma MarkSpends(s: Slot, h: nat, clock: int, maxAttempts: nat)
    requires h < |s.holds| && Exclusive(s, clock, maxAttempts)
    ensures var drop := Left(s, maxAttempts) - Left(Marked(s, h, maxAttempts), maxAttempts);
            drop >= 0 && (s.holds[h].stage.SentBad? ==> drop == 1)
  {
  }

  lemma TouchSpendsNothing(s: Slot, i: nat, a: Action, claimed: bool, clock: int, maxAttempts: nat)
    requires a.Mark? ==> a.id != i || a.hold >= |s.holds|
    ensures var t := Touch(s, i, a, claimed, clock, maxAttempts);
            t.row.status == s.row.status && t.row.attempts == s.row.attempts
  {
  }

  lemma MarkSlots(f: Fleet, i: nat, h: nat, maxAttempts: nat)
    requires i < |f.slots| && h < |f.slots[i].holds|
    ensures Step(f, Mark(i, h), maxAttempts).slots == f.slots[i := Marked(f.slots[i], h, maxAttempts)]
  {
    assert Step(f, Mark(i, h), maxAttempts).slots[i] == Marked(f.slots[i], h, maxAttempts);
  }

  lemma MarkDrops(slots: seq<Slot>, i: nat, h: nat, clock: int, maxAttempts: nat)
    requires i < |slots| && h < |slots[i].holds| && Exclusive(slots[i], clock, maxAttempts)
    ensures var drop := Budget(slots, maxAttempts)
                        - Budget(slots[i := Marked(slots[i], h, maxAttempts)], maxAttempts);
            drop >= 0 && (slots[i].holds[h].stage.SentBad? ==> drop == 1)
  {
    MarkSpends(slots[i], h, clock, maxAttempts);
    BudgetAt(slots, slots[i := Marked(slots[i], h, maxAttempts)], i, maxAttempts);
  }

  lemma OthersSpendNothing(f: Fleet, a: Action, maxAttempts: nat)
    requires !a.Arrive? && (a.Mark? ==> a.id >= |f.slots| || a.hold >= |f.slots[a.id].holds|)
    ensures Budget(Step(f, a, maxAttempts).slots, maxAttempts) == Budget(f.slots, maxAttempts)
  {
    var slots := Step(f, a, maxAttempts).slots;
    forall j | 0 <= j < |f.slots|
      ensures f.slots[j].row.status == slots[j].row.status && f.slots[j].row.attempts == slots[j].row.attempts
    {
      TouchSpendsNothing(f.slots[j], j, a, j in Claimed(f, a), f.clock, maxAttempts);
    }
    BudgetSame(f.slots, slots, maxAttempts);
  }

  // Every failed claim uses up one of the remaining attempts; nothing but a new event ever adds to them.
  lemma BudgetDrops(f: Fleet, a: Action, maxAttempts: nat)
    requires maxAttempts >= 1 && AllExclusive(f, maxAttempts) && !a.Abandon? && !a.Arrive?
    ensures Budget(Step(f, a, maxAttempts).slots, maxAttempts) <= Budget(f.slots, maxAttempts)
    ensures a.Mark? && a.id < |f.slots| && a.hold < |f.slots[a.id].holds| && f.slots[a.id].holds[a.hold].stage.SentBad?
            ==> Budget(Step(f, a, maxAttempts).slots, maxAttempts) == Budget(f.slots, maxAttempts) - 1
  {
    if a.Mark? && a.id < |f.slots| && a.hold < |f.slots[a.id].holds| {
      MarkSlots(f, a.id, a.hold, maxAttempts);
      MarkDrops(f.slots, a.id, a.hold, f.clock, maxAttempts);
    } else {
      OthersSpendNothing(f, a, maxAttempts);
    }
  }

  // ---- One poll of the relay is a run of this machine ----

  lemma DeliverySteps(f: Fleet, id: nat, h: nat, fault: SendFault, maxAttempts: nat)
    requires id < |f.slots| && h < |f.slots[id].holds|
    ensures Step(Step(f, Enqueue(id, h, fault), maxAttempts), Mark(id, h), maxAttempts)
         == Fleet(f.slots[id := Marked(Enqueued(f.slots[id], h, fault), h, maxAttempts)], f.clock)
  {
    var e := Step(f, Enqueue(id, h, fault), maxAttempts);
    var g := Step(e, Mark(id, h), maxAttempts);
    assert e.slots[id] == Enqueued(f.slots[id], h, fault);
    assert forall i | 0 <= i < |f.slots| && i != id :: e.slots[i] == f.slots[i] && g.slots[i] == e.slots[i];
    assert g.slots == f.slots[id := Marked(Enqueued(f.slots[id], h, fault), h, maxAttempts)];
  }

  // Sending and marking a freshly claimed slot.
  function Finished(s: Slot, fault: SendFault, maxAttempts: nat): Slot
    requires s.holds != []
  {
    var h := |s.holds| - 1;
    Marked(Enqueued(s, h, fault), h, maxAttempts)
  }

  lemma FinishedEffect(s: Slot, worker: string, fault: SendFault, now: int, lease: int, maxAttempts: nat)
    ensures var l := Leased(s, worker, now, lease);
            var t := Finished(l, fault, maxAttempts);
            var outcome := if WellFormed(l.row) then fault else SendLost;
            && t.row == (if outcome.Sent? then Done(l.row)
                         else Retried(l.row, now + RetryDelay(l.row.attempts), maxAttempts))
            && t.copies == s.copies + (if outcome.SendLost? then 0 else 1)
            && t.holds == s.holds
  {
    var l := Leased(s, worker, now, lease);
    var h := |s.holds|;
    var e := Enqueued(l, h, fault);
    assert e.holds[..h] == s.holds && e.holds[h + 1..] == [];
  }

  // How far the fleet has come when the relay has delivered the claimed ids up to some point.
  ghost predicate Matches(f: Fleet, locked: Fleet, g: Fleet, done: seq<nat>, queue: seq<nat>, p: Poll) {
    && |f.slots| == |locked.slots| == |g.slots| && f.clock == locked.clock == g.clock
    && Rows(g.slots) == p.rows
    && (forall i | 0 <= i < |f.slots| && i !in done :: g.slots[i] == locked.slots[i])
    && (forall i | 0 <= i < |f.slots| && i in done :: g.slots[i].holds == f.slots[i].holds)
    && (forall i | 0 <= i < |f.slots| :: g.slots[i].copies + multiset(queue)[i] == f.slots[i].copies + multiset(p.queue)[i])
  }

  lemma MatchesOneMore(f: Fleet, locked: Fleet, g: Fleet, done: seq<nat>, id: nat, worker: string, lease: int,
                       queue: seq<nat>, p: Poll, fault: SendFault, maxAttempts: nat)
    requires Matches(f, locked, g, done, queue, p) && id < |f.slots| && id !in done
    requires locked.slots[id] == Leased(f.slots[id], worker, f.clock, lease)
    requires fault == (if p.faults == [] then Sent else p.faults[0])
    ensures |locked.slots[id].holds| == |f.slots[id].holds| + 1
    ensures Matches(f, locked, Fleet(g.slots[id := Finished(locked.slots[id], fault, maxAttempts)], f.clock),
                    done + [id], queue, DeliverOne(p, id, locked.slots[id].row, f.clock, maxAttempts))
  {
    FinishedEffect(f.slots[id], worker, fault, f.clock, lease, maxAttempts);
    var r := locked.slots[id].row;
    var q := DeliverOne(p, id, r, f.clock, maxAttempts);
    var t := Finished(locked.slots[id], fault, maxAttempts);
    var slots := g.slots[id := t];
    assert FaultFor(r, p.faults) == if WellFormed(r) then fault else SendLost;
    assert p.rows[id] == r;
    assert Rows(slots) == q.rows;
  }

  // The fleet right after the claim: every claimed slot is leased, no other has moved.
  ghost predicate JustClaimed(f: Fleet, locked: Fleet, ids: seq<nat>, worker: string, lease: int) {
    && |f.slots| == |locked.slots| && f.clock == locked.clock
    && (forall k | 0 <= k < |ids| :: ids[k] < |f.slots| && locked.slots[ids[k]] == Leased(f.slots[ids[k]], worker, f.clock, lease))
    && (forall i | 0 <= i < |f.slots| && i !in ids :: locked.slots[i] == f.slots[i])
    && forall j, k | 0 <= j < k < |ids| :: ids[j] != ids[k]
  }

  lemma ClaimIsStep(f: Fleet, limit: nat, worker: string, lease: int, maxAttempts: nat)
    ensures var ids := ClaimIds(Rows(f.slots), limit, f.clock);
            var locked := Step(f, Lease(worker, limit, lease), maxAttempts);
            && JustClaimed(f, locked, ids, worker, lease)
            && Rows(locked.slots) == Claim(Rows(f.slots), limit, worker, f.clock, lease)
  {
    var claim := Lease(worker, limit, lease);
    assert Claimed(f, claim) == ClaimIds(Rows(f.slots), limit, f.clock);
    assert Rows(Step(f, claim, maxAttempts).slots) == Claim(Rows(f.slots), limit, worker, f.clock, lease);
  }

  lemma DeliverPrefix(p: Poll, ids: seq<nat>, held: seq<Row>, now: int, maxAttempts: nat, k: nat)
    requires |ids| == |held| && k < |ids| && forall j | 0 <= j < |ids| :: ids[j] < |p.rows|
    ensures Deliver(p, ids[..k + 1], held[..k + 1], now, maxAttempts)
         == DeliverOne(Deliver(p, ids[..k], held[..k], now, maxAttempts), ids[k], held[k], now, maxAttempts)
  {
    assert ids[..k + 1][..k] == ids[..k] && held[..k + 1][..k] == held[..k];
  }

  lemma ClaimMatches(f: Fleet, locked: Fleet, ids: seq<nat>, worker: string, lease: int, start: Poll)
    requires JustClaimed(f, locked, ids, worker, lease) && Rows(locked.slots) == start.rows
    ensures Matches(f, locked, locked, [], start.queue, start)
  {
    forall i | 0 <= i < |f.slots| ensures locked.slots[i].copies == f.slots[i].copies {
      if i in ids {
        var k :| 0 <= k < |ids| && ids[k] == i;
        assert locked.slots[ids[k]] == Leased(f.slots[ids[k]], worker, f.clock, lease);
      }
    }
  }

  lemma NextClaim(f: Fleet, locked: Fleet, ids: seq<nat>, worker: string, lease: int, k: nat)
    requires JustClaimed(f, locked, ids, worker, lease) && k < |ids|
    ensures ids[k] < |f.slots| && locked.slots[ids[k]] == Leased(f.slots[ids[k]], worker, f.clock, lease)
    ensures ids[k] !in ids[..k] && ids[..k] + [ids[k]] == ids[..k + 1]
  {
  }

  lemma {:induction false} DeliverIsRun(f: Fleet, claim: Action, locked: Fleet, ids: seq<nat>, held: seq<Row>,
                     worker: string, lease: int, start: Poll, maxAttempts: nat, k: nat) returns (acts: seq<Action>)
    requires JustClaimed(f, locked, ids, worker, lease) && Run(f, [claim], maxAttempts) == locked
    requires k <= |ids| == |held| && Rows(locked.slots) == start.rows
    requires forall j | 0 <= j < |ids| :: held[j] == locked.slots[ids[j]].row
    ensures Matches(f, locked, Run(f, acts, maxAttempts), ids[..k], start.queue,
                    Deliver(start, ids[..k], held[..k], f.clock, maxAttempts))
    decreases k
  {
    if k == 0 {
      acts := [claim];
      ClaimMatches(f, locked, ids, worker, lease, start);
      assert ids[..k] == [];
    } else {
      var j := k - 1;
      var id, done := ids[j], ids[..j];
      NextClaim(f, locked, ids, worker, lease, j);
      var before := DeliverIsRun(f, claim, locked, ids, held, worker, lease, start, maxAttempts, j);
      var p := Deliver(start, done, held[..j], f.clock, maxAttempts);
      acts := DeliverNextIsRun(f, before, locked, done, id, worker, lease, start.queue, p, maxAttempts);
      DeliverPrefix(start, ids, held, f.clock, maxAttempts, j);
    }
  }

  lemma DeliverNextIsRun(f: Fleet, acts: seq<Action>, locked: Fleet, done: seq<nat>, id: nat, worker: string,
                         lease: int, queue: seq<nat>, p: Poll, maxAttempts: nat) returns (acts': seq<Action>)
    requires Matches(f, locked, Run(f, acts, maxAttempts), done, queue, p)
    requires id < |f.slots| && id !in done && locked.slots[id] == Leased(f.slots[id], worker, f.clock, lease)
    ensures Matches(f, locked, Run(f, acts', maxAttempts), done + [id], queue,
                    DeliverOne(p, id, locked.slots[id].row, f.clock, maxAttempts))
  {
    var g := Run(f, acts, maxAttempts);
    var fault := if p.faults == [] then Sent else p.faults[0];
    var h := |f.slots[id].holds|;
    MatchesOneMore(f, locked, g, done, id, worker, lease, queue, p, fault, maxAttempts);
    DeliverySteps(g, id, h, fault, maxAttempts);
    RunOneMore(f, acts, Enqueue(id, h, fault), maxAttempts);
    RunOneMore(f, acts + [Enqueue(id, h, fault)], Mark(id, h), maxAttempts);
    acts' := acts + [Enqueue(id, h, fault)] + [Mark(id, h)];
  }

  lemma Landed(f: Fleet, locked: Fleet, g: Fleet, ids: seq<nat>, worker: string, lease: int, queue: seq<nat>, p: Poll)
    requires JustClaimed(f, locked, ids, worker, lease) && Matches(f, locked, g, ids, queue, p)
    ensures Agrees(f, g, queue, p)
  {
  }

  ghost predicate Agrees(f: Fleet, g: Fleet, queue: seq<nat>, p: Poll) {
    && Rows(g.slots) == p.rows && g.clock == f.clock && |g.slots| == |f.slots|
    && forall i | 0 <= i < |f.slots| ::
         g.slots[i].holds == f.slots[i].holds
         && g.slots[i].copies + multiset(queue)[i] == f.slots[i].copies + multiset(p.queue)[i]
  }

  lemma AllDelivered(f: Fleet, claim: Action, locked: Fleet, ids: seq<nat>, held: seq<Row>, worker: string, lease: int,
                     start: Poll, maxAttempts: nat) returns (acts: seq<Action>)
    requires JustClaimed(f, locked, ids, worker, lease) && Run(f, [claim], maxAttempts) == locked
    requires |ids| == |held| && Rows(locked.slots) == start.rows
    requires forall j | 0 <= j < |ids| :: held[j] == locked.slots[ids[j]].row
    ensures Agrees(f, Run(f, acts, maxAttempts), start.queue, Deliver(start, ids, held, f.clock, maxAttempts))
  {
    acts := DeliverIsRun(f, claim, locked, ids, held, worker, lease, start, maxAttempts, |ids|);
    assert ids[..|ids|] == ids && held[..|held|] == held;
    Landed(f, locked, Run(f, acts, maxAttempts), ids, worker, lease, start.queue,
           Deliver(start, ids, held, f.clock, maxAttempts));
  }

  lemma FirstStep(f: Fleet, claim: Action, maxAttempts: nat)
    ensures Run(f, [claim], maxAttempts) == Step(f, claim, maxAttempts)
  {
    assert [claim][..0] == [];
  }

  // The relay's whole poll, claim to last mark: a sequence of these actions leads to the same rows and, event
  // by event, to the same number of new messages, and leaves no hold behind.
  lemma RelayIsRun(f: Fleet, queue: seq<nat>, faults: seq<SendFault>, limit: nat, worker: string, lease: int,
                   maxAttempts: nat) returns (acts: seq<Action>)
    ensures Agrees(f, Run(f, acts, maxAttempts), queue,
                   RelayOnce(Rows(f.slots), queue, faults, limit, worker, f.clock, lease, maxAttempts))
  {
    var ids := ClaimIds(Rows(f.slots), limit, f.clock);
    var rows := Claim(Rows(f.slots), limit, worker, f.clock, lease);
    var held, start := Held(rows, ids), Poll(rows, queue, faults, 0, 0);
    var p := RelayOnce(Rows(f.slots), queue, faults, limit, worker, f.clock, lease, maxAttempts);
    assert p == Deliver(start, ids, held, f.clock, maxAttempts);
    ClaimIsStep(f, limit, worker, lease, maxAttempts);
    var claim := Lease(worker, limit, lease);
    FirstStep(f, claim, maxAttempts);
    acts := AllDelivered(f, claim, Step(f, claim, maxAttempts), ids, held, worker, lease, start, maxAttempts);
  }

  // ---- The marks are not fenced: what a late relay does ----

  // A dispatched row leaves DISPATCHED exactly when a relay still holding it marks its own failed send.
  lemma UnfencedMark(f: Fleet, a: Action, maxAttempts: nat, i: nat)
    requires i < |f.slots| && f.slots[i].row.status == Dispatched
    ensures Step(f, a, maxAttempts).slots[i].row.status == Dispatched
       <==> !(a.Mark? && a.id == i && a.hold < |f.slots[i].holds| && f.slots[i].holds[a.hold].stage.SentBad?)
  {
    var claimed := i in Claimed(f, a);
    TouchDispatched(f.slots[i], i, a, claimed, f.clock, maxAttempts);
    assert Step(f, a, maxAttempts).slots[i] == Touch(f.slots[i], i, a, claimed, f.clock, maxAttempts);
  }

  lemma TouchDispatched(s: Slot, i: nat, a: Action, claimed: bool, clock: int, maxAttempts: nat)
    requires s.row.status == Dispatched && (claimed ==> Claimable(s.row, clock))
    ensures Touch(s, i, a, claimed, clock, maxAttempts).row.status == Dispatched
       <==> !(a.Mark? && a.id == i && a.hold < |s.holds| && s.holds[a.hold].stage.SentBad?)
  {
  }

  lemma {:induction false} AllClaimed(rows: seq<Row>, limit: nat, now: int, i: nat)
    requires i < |rows| <= limit && Claimable(rows[i], now)
    ensures i in ClaimIds(rows, limit, now)
  {
    var last := |rows| - 1;
    ClaimBound(rows[..last], limit, now);
    if i < last {
      AllClaimed(rows[..last], limit, now, i);
    }
  }

  lemma {:induction false} ClaimBound(rows: seq<Row>, limit: nat, now: int)
    ensures |ClaimIds(rows, limit, now)| <= |rows|
  {
    if rows != [] {
      ClaimBound(rows[..|rows| - 1], limit, now);
    }
  }

  // A slot after one more action of a run.
  lemma TouchedBy(f: Fleet, acts: seq<Action>, a: Action, i: nat, maxAttempts: nat)
    requires i < |Run(f, acts, maxAttempts).slots|
    ensures var before, after := Run(f, acts, maxAttempts), Run(f, acts + [a], maxAttempts);
            && i < |after.slots|
            && after.slots[i] == Touch(before.slots[i], i, a, i in Claimed(before, a), before.clock, maxAttempts)
  {
    RunOneMore(f, acts, a, maxAttempts);
  }

  lemma ThenClaim(f: Fleet, acts: seq<Action>, g: Fleet, i: nat, maxAttempts: nat)
    requires g == Run(f, acts, maxAttempts) && i < |g.slots| && Claimable(g.slots[i].row, g.clock)
    ensures At(Run(f, acts + [Lease("late", |g.slots|, 60)], maxAttempts), i, Leased(g.slots[i], "late", g.clock, 60))
  {
    AllClaimed(Rows(g.slots), |g.slots|, g.clock, i);
    TouchedBy(f, acts, Lease("late", |g.slots|, 60), i, maxAttempts);
  }

  predicate At(f: Fleet, i: nat, s: Slot) { i < |f.slots| && f.slots[i] == s }

  predicate ReadyToSend(s: Slot, h: nat) {
    h < |s.holds| && s.holds[h].stage.Waiting? && WellFormed(s.holds[h].seen)
  }

  lemma ThenSend(f: Fleet, acts: seq<Action>, i: nat, s: Slot, h: nat, maxAttempts: nat)
    requires At(Run(f, acts, maxAttempts), i, s) && ReadyToSend(s, h)
    ensures At(Run(f, acts + [Enqueue(i, h, Sent)], maxAttempts), i, Enqueued(s, h, Sent))
  {
    TouchedBy(f, acts, Enqueue(i, h, Sent), i, maxAttempts);
  }

  lemma ThenMark(f: Fleet, acts: seq<Action>, i: nat, s: Slot, h: nat, maxAttempts: nat)
    requires At(Run(f, acts, maxAttempts), i, s) && h < |s.holds|
    ensures At(Run(f, acts + [Mark(i, h)], maxAttempts), i, Marked(s, h, maxAttempts))
  {
    TouchedBy(f, acts, Mark(i, h), i, maxAttempts);
  }

  lemma MarkedSent(s: Slot, h: nat, maxAttempts: nat)
    requires h < |s.holds| && s.holds[h].stage.SentOk?
    ensures Marked(s, h, maxAttempts).row.status == Dispatched && Marked(s, h, maxAttempts).sent == s.sent
  {
  }

  // Once the row can be claimed again, both holders may send.
  lemma BothSend(f: Fleet, before: seq<Action>, g: Fleet, i: nat, h: nat, maxAttempts: nat) returns (acts: seq<Action>)
    requires g == Run(f, before, maxAttempts) && i < |g.slots|
    requires Claimable(g.slots[i].row, g.clock) && WellFormed(g.slots[i].row) && ReadyToSend(g.slots[i], h)
    ensures SentTwice(g.slots[i], Run(f, acts, maxAttempts), i)
  {
    var other := |g.slots[i].holds|;
    ThenClaim(f, before, g, i, maxAttempts);
    acts := before + [Lease("late", |g.slots|, 60)];
    var s := Leased(g.slots[i], "late", g.clock, 60);
    ThenSend(f, acts, i, s, h, maxAttempts);
    acts, s := acts + [Enqueue(i, h, Sent)], Enqueued(s, h, Sent);
    ThenSend(f, acts, i, s, other, maxAttempts);
    acts, s := acts + [Enqueue(i, other, Sent)], Enqueued(s, other, Sent);
    ThenMark(f, acts, i, s, h, maxAttempts);
    MarkedSent(s, h, maxAttempts);
    acts := acts + [Mark(i, h)];
  }

  ghost predicate SentTwice(before: Slot, f: Fleet, i: nat) {
    i < |f.slots| && f.slots[i].sent == before.sent + 2 && f.slots[i].row.status == Dispatched
  }

  lemma Passes(f: Fleet, seconds: nat, maxAttempts: nat)
    ensures Run(f, [Tick(seconds)], maxAttempts) == Fleet(f.slots, f.clock + seconds)
  {
    RunOneMore(f, [], Tick(seconds), maxAttempts);
    assert [] + [Tick(seconds)] == [Tick(seconds)];
    assert Step(f, Tick(seconds), maxAttempts).slots == f.slots;
  }

  // In every state in which a relay is about to send a pending event there is a way for it to be sent twice: the
  // relay outlives its lease, and the event is claimed and sent by another one. So the deadline of timely relays
  // cannot be dropped.
  lemma LateRelaySendsTwice(f: Fleet, i: nat, h: nat, maxAttempts: nat) returns (acts: seq<Action>)
    requires i < |f.slots| && f.slots[i].row.status == Pending && WellFormed(f.slots[i].row)
    requires f.slots[i].row.lockedBy.Some? ==> f.slots[i].row.leaseEnd.Some?
    requires ReadyToSend(f.slots[i], h)
    ensures SentTwice(f.slots[i], Run(f, acts, maxAttempts), i)
  {
    var wake := Wake(f.slots[i].row);
    var late := if wake < f.clock then 0 else wake - f.clock;
    Passes(f, late, maxAttempts);
    acts := BothSend(f, [Tick(late)], Fleet(f.slots, f.clock + late), i, h, maxAttempts);
  }

  // Such states are reached: one event, claimed by one relay.
  lemma ClaimedIsReached(event: Row, maxAttempts: nat) returns (acts: seq<Action>)
    requires WellFormed(event) && event.availableAt <= 0
    ensures var f := Run(EMPTY, acts, maxAttempts);
            && |f.slots| > 0 && f.slots[0].row.status == Pending && WellFormed(f.slots[0].row)
            && f.slots[0].row.leaseEnd.Some? && ReadyToSend(f.slots[0], 0)
  {
    acts := [Arrive(event)];
    RunOneMore(EMPTY, [], Arrive(event), maxAttempts);
    assert [] + acts == acts;
    var f := Run(EMPTY, acts, maxAttempts);
    ThenClaim(EMPTY, acts, f, 0, maxAttempts);
    acts := acts + [Lease("late", |f.slots|, 60)];
  }
}
