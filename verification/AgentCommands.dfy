// Signed agent commands on the server: leased by heartbeats, acknowledged by the agent that holds the lease.
module AgentCommands {
  import opened Text

  // Times are counted in microseconds.
  const SECOND := 1_000_000
  const COMMAND_LEASE := 30 * SECOND
  const BATCH_SIZE: nat := 16
  const MAX_COMMAND_TTL := 900 * SECOND

  datatype CommandStatus = Pending | Leased | Acknowledged | Expired

  datatype Command = Command(id: nat, agent: nat, expiresAt: int, status: CommandStatus,
                             leaseUntil: Option<int>, attempts: nat)

  predicate Claimable(c: Command, agent: nat, now: int) {
    && c.agent == agent && c.expiresAt > now
    && (c.status == Pending || (c.status == Leased && c.leaseUntil.Some? && c.leaseUntil.value <= now))
  }

  // The first `limit` claimable positions; rows are listed in creation order.
  function ClaimIds(rows: seq<Command>, agent: nat, now: int, limit: nat): (ids: seq<nat>)
    ensures |ids| <= limit
    ensures forall k | 0 <= k < |ids| :: ids[k] < |rows| && Claimable(rows[ids[k]], agent, now)
    ensures forall j, k | 0 <= j < k < |ids| :: ids[j] < ids[k]
  {
    if rows == [] then []
    else
      var last := |rows| - 1;
      var before := ClaimIds(rows[..last], agent, now, limit);
      if |before| < limit && Claimable(rows[last], agent, now) then before + [last] else before
  }

  function Lease(c: Command, until: int): Command {
    c.(status := Leased, leaseUntil := Some(until), attempts := c.attempts + 1)
  }

  // The claim reaches row i while there is room left in the batch.
  predicate Picked(rows: seq<Command>, agent: nat, now: int, limit: nat, i: nat)
    requires i < |rows|
  {
    Claimable(rows[i], agent, now) && |ClaimIds(rows[..i], agent, now, limit)| < limit
  }

  function Claim(rows: seq<Command>, agent: nat, now: int, lease: int, limit: nat): (r: seq<Command>)
    ensures |r| == |rows|
  {
    seq(|rows|, i requires 0 <= i < |rows| => if Picked(rows, agent, now, limit, i) then Lease(rows[i], now + lease) else rows[i])
  }

  lemma ClaimOneMore(rows: seq<Command>, agent: nat, now: int, limit: nat, i: nat)
    requires i < |rows|
    ensures var before := ClaimIds(rows[..i], agent, now, limit);
            ClaimIds(rows[..i + 1], agent, now, limit)
            == before + if |before| < limit && Claimable(rows[i], agent, now) then [i] else []
  {
    assert rows[..i + 1][..i] == rows[..i];
  }

  function Positions(ids: seq<nat>): set<nat> { set k | k in ids }

  lemma OneMorePosition(ids: seq<nat>, i: nat)
    ensures Positions(ids + [i]) == Positions(ids) + {i}
  {
  }

  // Exactly the claimed positions change.
  lemma {:induction false} PickedIsClaimed(rows: seq<Command>, agent: nat, now: int, limit: nat, i: nat)
    requires i < |rows|
    ensures Picked(rows, agent, now, limit, i) <==> i in ClaimIds(rows, agent, now, limit)
  {
    var last := |rows| - 1;
    if i < last {
      PickedIsClaimed(rows[..last], agent, now, limit, i);
      assert rows[..last][..i] == rows[..i];
    } else {
      assert forall k | k in ClaimIds(rows[..last], agent, now, limit) :: k < last;
    }
  }

  lemma ClaimedRows(rows: seq<Command>, after: seq<Command>, agent: nat, now: int, lease: int, limit: nat)
    requires |after| == |rows|
    requires forall k | 0 <= k < |rows| ::
               after[k] == if k in Positions(ClaimIds(rows, agent, now, limit)) then Lease(rows[k], now + lease) else rows[k]
    ensures after == Claim(rows, agent, now, lease, limit)
  {
    forall k | 0 <= k < |rows| ensures after[k] == Claim(rows, agent, now, lease, limit)[k] {
      PickedIsClaimed(rows, agent, now, limit, k);
    }
  }

  // A command left out of a full-length claim was not claimable, or the batch was already full before it.
  lemma {:induction false} ClaimIsFair(rows: seq<Command>, agent: nat, now: int, limit: nat, i: nat)
    requires i < |rows| && Claimable(rows[i], agent, now)
    requires i !in ClaimIds(rows, agent, now, limit)
    ensures |ClaimIds(rows, agent, now, limit)| == limit
    ensures forall k | k in ClaimIds(rows, agent, now, limit) :: k < i
  {
    var last := |rows| - 1;
    if i < last {
      ClaimIsFair(rows[..last], agent, now, limit, i);
    }
  }

  function IndexOf(rows: seq<Command>, agent: nat, id: nat): (at: Option<nat>)
    ensures at.Some? ==> at.value < |rows| && rows[at.value].id == id && rows[at.value].agent == agent
    ensures at == None ==> forall i | 0 <= i < |rows| :: rows[i].id != id || rows[i].agent != agent
  {
    if rows == [] then None
    else
      var last := |rows| - 1;
      var before := IndexOf(rows[..last], agent, id);
      if before.Some? then before
      else if rows[last].id == id && rows[last].agent == agent then Some(last)
      else None
  }

  predicate LeaseRunning(c: Command, now: int) {
    c.status == Leased && c.expiresAt > now && (c.leaseUntil.Some? ==> c.leaseUntil.value >= now)
  }

  // The row after an acknowledgement, and whether it was accepted.
  function AckRow(c: Command, now: int): (r: (Command, bool))
    ensures r.1 <==> c.status == Acknowledged || LeaseRunning(c, now)
    ensures r.1 ==> r.0.status == Acknowledged
    ensures c.status == Acknowledged ==> r.0 == c
  {
    if c.status == Acknowledged then (c, true)
    else if c.expiresAt <= now then (c.(status := Expired, leaseUntil := None), false)
    else if c.status != Leased then (c, false)
    else if c.leaseUntil.Some? && c.leaseUntil.value < now then (c, false)
    else (c.(status := Acknowledged, leaseUntil := None), true)
  }

  function AckRows(rows: seq<Command>, agent: nat, id: nat, now: int): (r: (seq<Command>, bool))
    ensures |r.0| == |rows|
  {
    match IndexOf(rows, agent, id)
    case None => (rows, false)
    case Some(at) =>
      var (row, ok) := AckRow(rows[at], now);
      (rows[at := row], ok)
  }

  datatype ClaimResult = Claimed(commands: seq<Command>) | BadLimit | BadLease

  // The rows as one session sees and changes them.
  class CommandSession {
    var rows: seq<Command>

    constructor (rows: seq<Command>)
      ensures this.rows == rows
    {
      this.rows := rows;
    }

    method ClaimForAgent(agent: nat, now: int, lease: int, limit: int) returns (result: ClaimResult)
      modifies this
      ensures limit <= 0 ==> result == BadLimit && rows == old(rows)
      ensures limit > 0 && lease <= 0 ==> result == BadLease && rows == old(rows)
      ensures limit > 0 && lease > 0 ==>
                && rows == Claim(old(rows), agent, now, lease, limit)
                && result.Claimed?
                && var ids := ClaimIds(old(rows), agent, now, limit);
                   |result.commands| == |ids|
                   && forall k | 0 <= k < |ids| :: result.commands[k] == rows[ids[k]]
    {
      if limit <= 0 {
        return BadLimit;
      }
      if lease <= 0 {
        return BadLease;
      }
      ghost var before := rows;
      var commands := LeaseRows(agent, now, lease, limit);
      ClaimedRows(before, rows, agent, now, lease, limit);
      result := Claimed(commands);
    }

    // The claiming loop.
    method LeaseRows(agent: nat, now: int, lease: int, limit: nat) returns (commands: seq<Command>)
      modifies this
      ensures |rows| == |old(rows)|
      ensures forall k | 0 <= k < |rows| ::
                rows[k] == if k in Positions(ClaimIds(old(rows), agent, now, limit)) then Lease(old(rows)[k], now + lease)
                           else old(rows)[k]
      ensures |commands| == |ClaimIds(old(rows), agent, now, limit)|
      ensures forall k | 0 <= k < |commands| :: commands[k] == rows[ClaimIds(old(rows), agent, now, limit)[k]]
    {
      ghost var before := rows;
      ghost var ids, picked: set<nat> := [], {};
      commands := [];
      for i := 0 to |rows|
        invariant |rows| == |before| && |commands| == |ids|
        invariant ids == ClaimIds(before[..i], agent, now, limit) && picked == Positions(ids)
        invariant forall k | 0 <= k < |rows| :: rows[k] == if k in picked then Lease(before[k], now + lease) else before[k]
        invariant forall k | k in picked :: k < i
        invariant forall k | 0 <= k < |ids| :: ids[k] < i && commands[k] == rows[ids[k]]
      {
        ClaimOneMore(before, agent, now, limit, i);
        OneMorePosition(ids, i);
        if |commands| < limit && Claimable(rows[i], agent, now) {
          var record := Lease(rows[i], now + lease);
          rows := rows[i := record];
          commands := commands + [record];
          ids, picked := ids + [i], picked + {i};
        }
      }
      assert before[..|before|] == before;
    }

    method Acknowledge(agent: nat, id: nat, now: int) returns (ok: bool)
      modifies this
      ensures (rows, ok) == AckRows(old(rows), agent, id, now)
    {
      var at := IndexOf(rows, agent, id);
      if at == None {
        return false;
      }
      var record := rows[at.value];
      assert rows[at.value := record] == rows;
      if record.status == Acknowledged {
        return true;
      }
      if record.expiresAt <= now {
        rows := rows[at.value := record.(status := Expired, leaseUntil := None)];
        return false;
      }
      if record.status != Leased {
        return false;
      }
      if record.leaseUntil.Some? && record.leaseUntil.value < now {
        return false;
      }
      rows := rows[at.value := record.(status := Acknowledged, leaseUntil := None)];
      ok := true;
    }
  }

  datatype IssueResult = Issued(command: Command) | UnsupportedCommand | BadTtl | AgentNotFound

  datatype AckResult = Accepted | Unauthorized | Rejected

  // The use cases: each works on a session and either commits its rows or leaves the stored ones alone.
  class CommandDesk {
    var stored: seq<Command>

    constructor ()
      ensures stored == []
    {
      stored := [];
    }

    // `agent` is the active binding the request resolved to, if any; `id` is the fresh command id.
    method Issue(agent: Option<nat>, name: string, ttl: int, now: int, id: nat) returns (result: IssueResult)
      modifies this
      ensures result.Issued? <==> name == "refresh_process_snapshot" && 0 < ttl <= MAX_COMMAND_TTL && agent.Some?
      ensures result.Issued? ==>
                && result.command == Command(id, agent.value, now + ttl, Pending, None, 0)
                && stored == old(stored) + [result.command]
      ensures !result.Issued? ==> stored == old(stored)
    {
      if name != "refresh_process_snapshot" {
        return UnsupportedCommand;
      }
      if ttl <= 0 || ttl > MAX_COMMAND_TTL {
        return BadTtl;
      }
      if agent == None {
        return AgentNotFound;
      }
      var command := Command(id, agent.value, now + ttl, Pending, None, 0);
      stored := stored + [command];
      result := Issued(command);
    }

    // An accepted acknowledgement is committed; a rejected one is rolled back, EXPIRED mark and all.
    method Acknowledge(agent: Option<nat>, id: nat, now: int) returns (result: AckResult)
      modifies this
      ensures agent == None ==> result == Unauthorized && stored == old(stored)
      ensures agent.Some? ==>
                var (rows, ok) := AckRows(old(stored), agent.value, id, now);
                result == (if ok then Accepted else Rejected) && stored == (if ok then rows else old(stored))
    {
      if agent == None {
        return Unauthorized;
      }
      var session := new CommandSession(stored);
      var ok := session.Acknowledge(agent.value, id, now);
      if !ok {
        return Rejected;
      }
      stored := session.rows;
      result := Accepted;
    }

    // The claim inside a heartbeat.
    method Deliver(agent: nat, now: int) returns (commands: seq<Command>)
      modifies this
      ensures stored == Claim(old(stored), agent, now, COMMAND_LEASE, BATCH_SIZE)
      ensures var ids := ClaimIds(old(stored), agent, now, BATCH_SIZE);
              |commands| == |ids| && forall k | 0 <= k < |ids| :: commands[k] == stored[ids[k]]
    {
      var session := new CommandSession(stored);
      var result := session.ClaimForAgent(agent, now, COMMAND_LEASE, BATCH_SIZE);
      stored := session.rows;
      commands := result.commands;
    }
  }
}
