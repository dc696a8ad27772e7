// The life of every command under any sequence of issues, heartbeats and acknowledgements.
module AgentLeases {
  import opened Text
  import opened AgentCommands

  // A stored command with its history: when it was issued, and when it was handed out.
  datatype Slot = Slot(command: Command, issuedAt: int, claims: seq<int>)

  datatype Store = Store(slots: seq<Slot>, clock: int)

  datatype Action =
    | Issue(agent: nat, id: nat, ttl: int, now: int)
    | Heartbeat(agent: nat, now: int)
    | Ack(agent: nat, id: nat, now: int)

  function Rows(slots: seq<Slot>): (rows: seq<Command>)
    ensures |rows| == |slots| && forall i | 0 <= i < |slots| :: rows[i] == slots[i].command
  {
    seq(|slots|, i requires 0 <= i < |slots| => slots[i].command)
  }

  // The server clock never runs backwards.
  predicate Enabled(s: Store, a: Action) {
    a.now >= s.clock && (a.Issue? ==> 0 < a.ttl <= MAX_COMMAND_TTL)
  }

  // What one committed action leaves of a slot.
  function Touch(slot: Slot, a: Action, hit: bool): Slot {
    if !hit then slot
    else match a
      case Issue(_, _, _, _) => slot
      case Heartbeat(_, now) => slot.(command := Lease(slot.command, now + COMMAND_LEASE), claims := slot.claims + [now])
      case Ack(_, _, now) =>
        var (row, ok) := AckRow(slot.command, now);
        if ok then slot.(command := row) else slot
  }

  // Whether the action changes slot i.
  predicate Hit(s: Store, a: Action, i: nat)
    requires i < |s.slots|
  {
    match a
    case Issue(_, _, _, _) => false
    case Heartbeat(agent, now) => Picked(Rows(s.slots), agent, now, BATCH_SIZE, i)
    case Ack(agent, id, now) => IndexOf(Rows(s.slots), agent, id) == Some(i)
  }

  function Step(s: Store, a: Action): (t: Store)
    ensures |t.slots| == |s.slots| + if a.Issue? then 1 else 0
    ensures forall i {:trigger t.slots[i]} | 0 <= i < |s.slots| :: t.slots[i] == Touch(s.slots[i], a, Hit(s, a, i))
    ensures a.Issue? ==>
              t.slots[|s.slots|] == Slot(Command(a.id, a.agent, a.now + a.ttl, Pending, None, 0), a.now, [])
    ensures t.clock == a.now
  {
    var touched := seq(|s.slots|, i requires 0 <= i < |s.slots| => Touch(s.slots[i], a, Hit(s, a, i)));
    var added := if a.Issue? then [Slot(Command(a.id, a.agent, a.now + a.ttl, Pending, None, 0), a.now, [])] else [];
    Store(touched + added, a.now)
  }

  // The step is what the stored rows go through in CommandDesk.
  lemma StepRows(s: Store, a: Action)
    ensures a.Heartbeat? ==>
              Rows(Step(s, a).slots) == Claim(Rows(s.slots), a.agent, a.now, COMMAND_LEASE, BATCH_SIZE)
    ensures a.Ack? ==> Rows(Step(s, a).slots) == AckedRows(Rows(s.slots), a.agent, a.id, a.now)
  {
    if a.Heartbeat? {
      ClaimedRow(s, a.agent, a.now);
    } else if a.Ack? {
      AckedRow(s, a);
    }
  }

  lemma ClaimedRow(s: Store, agent: nat, now: int)
    ensures Rows(Step(s, Heartbeat(agent, now)).slots) == Claim(Rows(s.slots), agent, now, COMMAND_LEASE, BATCH_SIZE)
  {
    var a := Heartbeat(agent, now);
    var rows, claimed := Rows(Step(s, a).slots), Claim(Rows(s.slots), agent, now, COMMAND_LEASE, BATCH_SIZE);
    forall i | 0 <= i < |s.slots| ensures rows[i] == claimed[i] {
      assert Step(s, a).slots[i] == Touch(s.slots[i], a, Hit(s, a, i));
    }
  }

  // The rows an acknowledgement leaves behind: committed or rolled back.
  function AckedRows(rows: seq<Command>, agent: nat, id: nat, now: int): (r: seq<Command>)
    ensures |r| == |rows|
  {
    var (after, ok) := AckRows(rows, agent, id, now);
    if ok then after else rows
  }

  lemma AckedRow(s: Store, a: Action)
    requires a.Ack?
    ensures Rows(Step(s, a).slots) == AckedRows(Rows(s.slots), a.agent, a.id, a.now)
  {
    var rows, t := Rows(s.slots), Rows(Step(s, a).slots);
    var at, after := IndexOf(rows, a.agent, a.id), AckedRows(rows, a.agent, a.id, a.now);
    forall i | 0 <= i < |rows| ensures t[i] == after[i] {
      if at == Some(i) {
        assert t[i] == (if AckRow(rows[i], a.now).1 then AckRow(rows[i], a.now).0 else rows[i]);
      } else {
        assert t[i] == rows[i];
      }
    }
  }

  function Run(s: Store, acts: seq<Action>): (t: Store)
    ensures |t.slots| >= |s.slots|
  {
    if acts == [] then s else Step(Run(s, acts[..|acts| - 1]), acts[|acts| - 1])
  }

  predicate Possible(s: Store, acts: seq<Action>)
    decreases |acts|
  {
    acts == [] || (Possible(s, acts[..|acts| - 1]) && Enabled(Run(s, acts[..|acts| - 1]), acts[|acts| - 1]))
  }

  // Consecutive claims are at least one lease apart.
  ghost predicate Spaced(claims: seq<int>) {
    forall k | 0 <= k < |claims| - 1 :: NotSooner(claims, k)
  }

  predicate NotSooner(claims: seq<int>, k: nat)
    requires k + 1 < |claims|
  {
    claims[k + 1] >= claims[k] + COMMAND_LEASE
  }

  ghost predicate SlotOk(s: Slot, clock: int) {
    var c, n := s.command, |s.claims|;
    && c.attempts == n && Spaced(s.claims) && c.status != Expired
    && s.issuedAt <= clock && s.issuedAt < c.expiresAt <= s.issuedAt + MAX_COMMAND_TTL
    && (n > 0 ==> s.issuedAt <= s.claims[0] && s.claims[n - 1] <= clock && s.claims[n - 1] < c.expiresAt)
    && (c.status == Pending <==> n == 0)
    && c.leaseUntil == (if c.status == Leased then Some(s.claims[n - 1] + COMMAND_LEASE) else None)
  }

  // Who gets a command, which one it is and how long it lives never change.
  predicate SameCommand(s: Slot, t: Slot) {
    && s.command.id == t.command.id && s.command.agent == t.command.agent
    && s.command.expiresAt == t.command.expiresAt && s.issuedAt == t.issuedAt && s.claims <= t.claims
  }

  ghost predicate StoreOk(s: Store) {
    forall i | 0 <= i < |s.slots| :: SlotOk(s.slots[i], s.clock)
  }

  lemma TouchOk(s: Slot, a: Action, hit: bool, clock: int)
    requires SlotOk(s, clock) && a.now >= clock
    requires a.Heartbeat? && hit ==> Claimable(s.command, a.agent, a.now)
    ensures SlotOk(Touch(s, a, hit), a.now) && SameCommand(s, Touch(s, a, hit))
    ensures s.command.status == Acknowledged ==> Touch(s, a, hit) == s
  {
    if a.Heartbeat? && hit {
      var claims := s.claims + [a.now];
      forall k: nat | k < |claims| - 1 ensures NotSooner(claims, k) {
        if k < |s.claims| - 1 {
          assert NotSooner(s.claims, k);
        }
      }
    }
  }

  // Claims keep a lease apart, EXPIRED never becomes durable, and an acknowledged command never changes again:
  // it is not handed out any more, and further acknowledgements of it succeed without effect.
  lemma {:induction false} CommandLife(s: Store, acts: seq<Action>)
    requires StoreOk(s) && Possible(s, acts)
    ensures StoreOk(Run(s, acts))
    ensures forall i | 0 <= i < |s.slots| && s.slots[i].command.status == Acknowledged ::
              Run(s, acts).slots[i] == s.slots[i]
    ensures forall i | 0 <= i < |s.slots| :: SameCommand(s.slots[i], Run(s, acts).slots[i])
    decreases |acts|
  {
    if acts != [] {
      var before, a := Run(s, acts[..|acts| - 1]), acts[|acts| - 1];
      CommandLife(s, acts[..|acts| - 1]);
      forall i | 0 <= i < |before.slots|
        ensures SlotOk(Step(before, a).slots[i], a.now)
        ensures before.slots[i].command.status == Acknowledged ==> Step(before, a).slots[i] == before.slots[i]
        ensures SameCommand(before.slots[i], Step(before, a).slots[i])
      {
        TouchOk(before.slots[i], a, Hit(before, a, i), before.clock);
      }
    }
  }

  // A command that may be handed to this agent now: its own, alive, and not with the agent already.
  predicate Due(c: Command, agent: nat, now: int) {
    && c.agent == agent && now < c.expiresAt
    && match c.status
       case Pending => true
       case Leased => c.leaseUntil.Some? && c.leaseUntil.value <= now
       case _ => false
  }

  function DueCount(rows: seq<Command>, agent: nat, now: int): nat {
    if rows == [] then 0
    else DueCount(rows[..|rows| - 1], agent, now) + if Due(rows[|rows| - 1], agent, now) then 1 else 0
  }

  lemma {:induction false} ClaimCounts(rows: seq<Command>, agent: nat, now: int, limit: nat)
    ensures var due := DueCount(rows, agent, now);
            |ClaimIds(rows, agent, now, limit)| == if due < limit then due else limit
  {
    if rows != [] {
      ClaimCounts(rows[..|rows| - 1], agent, now, limit);
    }
  }

  // A heartbeat hands out exactly the 16 oldest commands due to its agent, each for 30 s.
  lemma HandedOutExactly(s: Store, agent: nat, now: int, i: nat)
    requires i < |s.slots|
    ensures var c, rows := s.slots[i].command, Rows(s.slots);
            Step(s, Heartbeat(agent, now)).slots[i].command
            == if Due(c, agent, now) && DueCount(rows[..i], agent, now) < 16
               then c.(status := Leased, leaseUntil := Some(now + 30_000_000), attempts := c.attempts + 1) else c
  {
    ClaimCounts(Rows(s.slots)[..i], agent, now, BATCH_SIZE);
  }

  predicate Names(c: Command, agent: nat, id: nat) { c.agent == agent && c.id == id }

  lemma {:induction false} FirstNamed(rows: seq<Command>, agent: nat, id: nat, i: nat)
    requires i < |rows|
    ensures IndexOf(rows, agent, id) == Some(i)
            <==> Names(rows[i], agent, id) && forall j | 0 <= j < i :: !Names(rows[j], agent, id)
  {
    var last := |rows| - 1;
    if i < last {
      FirstNamed(rows[..last], agent, id, i);
    }
  }

  // An acknowledgement changes exactly the command it names, while that one's lease and life both run.
  lemma AcknowledgedExactly(s: Store, agent: nat, id: nat, now: int, i: nat)
    requires i < |s.slots|
    ensures var c := s.slots[i].command;
            Step(s, Ack(agent, id, now)).slots[i].command
            == if && Names(c, agent, id) && (forall j | 0 <= j < i :: !Names(s.slots[j].command, agent, id))
                  && c.status == Leased && now < c.expiresAt && (c.leaseUntil.Some? ==> now <= c.leaseUntil.value)
               then c.(status := Acknowledged, leaseUntil := None) else c
  {
    FirstNamed(Rows(s.slots), agent, id, i);
  }

  lemma {:induction false} LastClaim(claims: seq<int>, n: nat)
    requires Spaced(claims) && 0 < n <= |claims|
    ensures claims[n - 1] >= claims[0] + (n - 1) * COMMAND_LEASE
  {
    if n > 1 {
      LastClaim(claims, n - 1);
      assert NotSooner(claims, n - 2);
    }
  }

  // The time the leases take fits into the command's life, so no command is delivered more than 30 times.
  lemma AtMostThirtyDeliveries(s: Slot, clock: int)
    requires SlotOk(s, clock)
    ensures s.command.attempts > 0 ==>
              (s.command.attempts - 1) * COMMAND_LEASE < s.command.expiresAt - s.issuedAt
    ensures s.command.attempts <= 30
  {
    if s.command.attempts > 0 {
      LastClaim(s.claims, s.command.attempts);
    }
  }

  // An acknowledgement is accepted exactly while the latest lease and the command's life both run,
  // and ever after once it was.
  lemma AcceptedWindow(s: Slot, clock: int, now: int)
    requires SlotOk(s, clock) && now >= clock
    ensures AckRow(s.command, now).1 <==>
              s.command.status == Acknowledged
              || (s.command.status == Leased && now < s.command.expiresAt
                  && now <= s.claims[|s.claims| - 1] + COMMAND_LEASE)
  {
  }

  // Every run from the empty store.
  lemma CommandRuns(clock: int, acts: seq<Action>, i: nat)
    requires Possible(Store([], clock), acts) && i < |Run(Store([], clock), acts).slots|
    ensures var s := Run(Store([], clock), acts).slots[i];
            && SlotOk(s, Run(Store([], clock), acts).clock) && s.command.attempts == |s.claims| <= 30
            && (s.command.status == Acknowledged ==> s.claims != [])
  {
    CommandLife(Store([], clock), acts);
    AtMostThirtyDeliveries(Run(Store([], clock), acts).slots[i], Run(Store([], clock), acts).clock);
  }

  lemma RunOneMore(s: Store, acts: seq<Action>, a: Action)
    ensures Run(s, acts + [a]) == Step(Run(s, acts), a)
    ensures Possible(s, acts + [a]) <==> Possible(s, acts) && Enabled(Run(s, acts), a)
  {
    assert (acts + [a])[..|acts|] == acts;
  }

  lemma OnlyCommandClaimed(s: Store, now: int)
    requires |s.slots| == 1 && Claimable(s.slots[0].command, 0, now)
    ensures Step(s, Heartbeat(0, now)).slots == [Touch(s.slots[0], Heartbeat(0, now), true)]
  {
    assert Rows(s.slots)[..0] == [];
    assert Hit(s, Heartbeat(0, now), 0);
  }

  ghost predicate Polled(s: Store, times: nat) {
    && |s.slots| == 1 && s.slots[0].command.attempts == times && s.slots[0].command.agent == 0
    && s.slots[0].command.expiresAt == MAX_COMMAND_TTL && s.clock <= times * COMMAND_LEASE
    && s.slots[0].command.status == (if times == 0 then Pending else Leased)
    && (times > 0 ==> s.slots[0].command.leaseUntil == Some(times * COMMAND_LEASE))
  }

  lemma PollOnce(s: Store, times: nat)
    requires Polled(s, times) && times < 30
    ensures Enabled(s, Heartbeat(0, times * COMMAND_LEASE))
    ensures Polled(Step(s, Heartbeat(0, times * COMMAND_LEASE)), times + 1)
  {
    OnlyCommandClaimed(s, times * COMMAND_LEASE);
  }

  // The bound is reached: an agent that polls whenever a lease ends and never acknowledges gets 30 deliveries.
  lemma {:induction false} ThirtyReached(times: nat) returns (acts: seq<Action>)
    requires times <= 30
    ensures Possible(Store([], 0), acts) && Polled(Run(Store([], 0), acts), times)
  {
    if times == 0 {
      acts := [Issue(0, 0, MAX_COMMAND_TTL, 0)];
      assert acts[..0] == [];
    } else {
      acts := ThirtyReached(times - 1);
      var poll := Heartbeat(0, (times - 1) * COMMAND_LEASE);
      PollOnce(Run(Store([], 0), acts), times - 1);
      RunOneMore(Store([], 0), acts, poll);
      acts := acts + [poll];
    }
  }
}
