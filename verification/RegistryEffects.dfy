// What each use case of the registry leaves, for which caller, and what it leaves alone.
module RegistryEffects {
  import opened Text
  import L = Lifecycle
  import C = AgentCommands
  import opened RegistrySafety

  // ---- credentials ----

  // The credential is that of a binding that is not revoked, on an enabled and undeleted station.
  ghost predicate Accepted(db: L.Db, credential: nat, agent: L.Agent) {
    && agent in db.agents && agent.credential == L.Digest(credential) && agent.revokedAt == None
    && L.Active(db, agent.station) && db.stations[agent.station].enabled
  }

  lemma OneCredential(agents: seq<L.Agent>, drawn: set<nat>, retired: set<nat>, a: L.Agent, b: L.Agent)
    requires CredentialsOk(agents, drawn, retired) && a in agents && b in agents && a.credential == b.credential
    ensures a == b
  {
    var i, j :| 0 <= i < |agents| && 0 <= j < |agents| && agents[i] == a && agents[j] == b;
  }

  // A credential acts for an agent exactly when it is accepted.
  lemma AuthorizedExactly(s: System, credential: nat, agent: L.Agent)
    requires SystemOk(s)
    ensures L.Authorized(s.db, credential) == Some(agent) <==> Accepted(s.db, credential, agent)
  {
    if Accepted(s.db, credential, agent) {
      var found := L.ByCredential(s.db, L.Digest(credential));
      var i :| 0 <= i < |s.db.agents| && s.db.agents[i] == agent;
      assert found.Some?;
      OneCredential(s.db.agents, s.drawn, s.retired, agent, found.value);
    }
  }

  // ---- heartbeat ----

  // What a heartbeat of this agent leaves: its station online, its claimable commands leased, all else as it was.
  ghost predicate HeartbeatRecorded(before: L.Db, after: L.Db, agent: L.Agent, now: int) {
    && after.agents == before.agents && after.enrollment == before.enrollment && after.provisioning == before.provisioning
    && after.stations.Keys == before.stations.Keys && agent.station in before.stations
    && after.stations[agent.station] == before.stations[agent.station].(state := L.Online)
    && (forall k | k in before.stations && k != agent.station :: after.stations[k] == before.stations[k])
    && |after.commands| == |before.commands|
    && forall i | 0 <= i < |before.commands| ::
         var c := before.commands[i];
         after.commands[i] == if i in C.ClaimIds(before.commands, agent.id, now, C.BATCH_SIZE)
                              then C.Lease(c, now + C.COMMAND_LEASE) else c
  }

  // A heartbeat succeeds exactly when its clock is within five minutes of the server's and its credential is
  // accepted for this station; then the station is online. Otherwise nothing changes.
  lemma HeartbeatExactly(s: System, credential: nat, station: nat, capturedAt: int, now: int)
    requires SystemOk(s)
    ensures var (after, outcome) := L.Heartbeat(s.db, credential, station, capturedAt, now);
            && (outcome.Done? <==> -300 * C.SECOND <= now - capturedAt <= 300 * C.SECOND
                                   && exists a :: Accepted(s.db, credential, a) && a.station == station)
            && (outcome.Rejected? <==> now - capturedAt > 300 * C.SECOND || capturedAt - now > 300 * C.SECOND)
            && (outcome.Done? || outcome.Rejected? || outcome.Unauthorized?)
            && (forall a | Accepted(s.db, credential, a) && outcome.Done? :: HeartbeatRecorded(s.db, after, a, now))
            && (!outcome.Done? ==> after == s.db)
  {
    var (after, outcome) := L.Heartbeat(s.db, credential, station, capturedAt, now);
    HeartbeatKeeps(s, credential, station, capturedAt, now);
    var agent := L.Authorized(s.db, credential);
    if agent.Some? {
      AuthorizedExactly(s, credential, agent.value);
    }
    forall a | Accepted(s.db, credential, a) ensures agent == Some(a) {
      AuthorizedExactly(s, credential, a);
    }
    if outcome.Done? {
      LeasedRows(s.db.commands, agent.value.id, now);
    }
  }

  lemma LeasedRows(rows: seq<C.Command>, agent: nat, now: int)
    ensures var after := C.Claim(rows, agent, now, C.COMMAND_LEASE, C.BATCH_SIZE);
            forall i | 0 <= i < |rows| ::
              after[i] == if i in C.ClaimIds(rows, agent, now, C.BATCH_SIZE)
                          then C.Lease(rows[i], now + C.COMMAND_LEASE) else rows[i]
  {
    forall i | 0 <= i < |rows|
      ensures C.Picked(rows, agent, now, C.BATCH_SIZE, i) <==> i in C.ClaimIds(rows, agent, now, C.BATCH_SIZE)
    {
      C.PickedIsClaimed(rows, agent, now, C.BATCH_SIZE, i);
    }
  }

  // ---- tokens ----

  // A token with this secret may be claimed, for this station if it names one.
  ghost predicate Redeemable(tokens: seq<L.Token>, secret: nat, station: Option<nat>, now: int) {
    exists t :: t in tokens && t.hash == L.Digest(secret) && t.station == station && L.Usable(t, now)
  }

  lemma OneToken(tokens: seq<L.Token>, t: L.Token, u: L.Token)
    requires L.HashesApart(tokens) && t in tokens && u in tokens && t.hash == u.hash
    ensures t == u
  {
    var i, j :| 0 <= i < |tokens| && 0 <= j < |tokens| && tokens[i] == t && tokens[j] == u;
  }

  // The claim finds exactly the redeemable token.
  lemma ClaimFinds(tokens: seq<L.Token>, secret: nat, station: Option<nat>, now: int)
    requires L.HashesApart(tokens)
    ensures var at := L.Claimable(tokens, L.Digest(secret), now);
            Redeemable(tokens, secret, station, now) <==> at.Some? && tokens[at.value].station == station
  {
    var at := L.Claimable(tokens, L.Digest(secret), now);
    var first := L.First(tokens, (t: L.Token) => t.hash == L.Digest(secret));
    if Redeemable(tokens, secret, station, now) {
      var t :| t in tokens && t.hash == L.Digest(secret) && t.station == station && L.Usable(t, now);
      var i :| 0 <= i < |tokens| && tokens[i] == t;
      assert first.Some?;
      OneToken(tokens, t, tokens[first.value]);
    }
    if at.Some? {
      assert tokens[at.value] in tokens;
    }
  }

  // A new token is redeemable until its life ends, whatever else is in the table.
  lemma NewTokenLives(tokens: seq<L.Token>, secret: nat, station: Option<nat>, expiresAt: int, drawn: set<nat>, later: int)
    requires HashesDrawn(tokens, drawn) && secret !in drawn
    ensures var after := tokens + [L.Token(L.Digest(secret), station, expiresAt, None, None)];
            Redeemable(after, secret, station, later) <==> later < expiresAt
  {
    var t := L.Token(L.Digest(secret), station, expiresAt, None, None);
    var after := tokens + [t];
    assert t in after;
    assert forall u | u in tokens :: u.hash.secret in drawn && u.hash != t.hash;
  }

  // ---- stations ----

  predicate OthersAlone(before: map<nat, L.Station>, after: map<nat, L.Station>, station: nat) {
    after.Keys == before.Keys + {station} && forall k | k in before && k != station :: after[k] == before[k]
  }

  // Creation leaves an enabled, offline station of the given role and a token for it that lives ten minutes.
  lemma CreateExactly(s: System, station: nat, role: L.Role, token: nat, now: int, later: int)
    requires SystemOk(s) && token !in s.drawn
    ensures var (after, outcome) := L.Create(s.db, station, role, token, now);
            outcome.Done? ==>
              && OthersAlone(s.db.stations, after.stations, station)
              && after.stations[station] == L.Station(role, L.Offline, true, None)
              && after == s.db.(stations := after.stations, enrollment := after.enrollment)
              && s.db.enrollment <= after.enrollment && |after.enrollment| == |s.db.enrollment| + 1
              && (Redeemable(after.enrollment, token, Some(station), later) <==> later < now + 600 * C.SECOND)
  {
    var (after, outcome) := L.Create(s.db, station, role, token, now);
    if outcome.Done? {
      NewTokenLives(s.db.enrollment, token, Some(station), now + L.ENROLLMENT_TOKEN_TTL, s.drawn, later);
    }
  }

  lemma ProvisioningExactly(s: System, token: nat, now: int, later: int)
    requires SystemOk(s) && token !in s.drawn
    ensures var (after, outcome) := L.NewProvisioning(s.db, token, now);
            && outcome.Done? && after == s.db.(provisioning := after.provisioning)
            && s.db.provisioning <= after.provisioning && |after.provisioning| == |s.db.provisioning| + 1
            && (Redeemable(after.provisioning, token, None, later) <==> later < now + 900 * C.SECOND)
  {
    NewProvisioningKeeps(s, token, now);
    NewTokenLives(s.db.provisioning, token, None, now + L.PROVISIONING_TOKEN_TTL, s.drawn, later);
  }

  // An edit sets role and flag; a disabled station is in no other state, and one that is enabled again is offline.
  // Its agent is accepted afterwards exactly if the flag is up.
  lemma UpdateExactly(s: System, station: nat, role: L.Role, enabled: bool, credential: nat, agent: L.Agent)
    requires SystemOk(s)
    ensures var (after, outcome) := L.Update(s.db, station, role, enabled);
            outcome.Done? ==>
              && station in s.db.stations && OthersAlone(s.db.stations, after.stations, station)
              && after == s.db.(stations := after.stations)
              && after.stations[station].role == role && after.stations[station].enabled == enabled
              && after.stations[station].deletedAt == None
              && (after.stations[station].state == L.Disabled <==> !enabled)
              && (enabled && s.db.stations[station].state != L.Disabled ==>
                    after.stations[station].state == s.db.stations[station].state)
              && (enabled && s.db.stations[station].state == L.Disabled ==> after.stations[station].state == L.Offline)
              && (agent in s.db.agents && agent.station == station && agent.credential == L.Digest(credential)
                  && agent.revokedAt == None ==>
                    (L.Authorized(after, credential) == Some(agent) <==> enabled))
  {
    var (after, outcome) := L.Update(s.db, station, role, enabled);
    UpdateKeeps(s, station, role, enabled);
    if outcome.Done? {
      AuthorizedExactly(System(after, s.bindings, s.drawn, s.retired), credential, agent);
    }
  }

  // Deletion removes this station's agent and its commands and nobody else's, revokes its unrevoked tokens and no
  // other, and marks the station.
  lemma DeleteExactly(s: System, station: nat, now: int)
    requires SystemOk(s)
    ensures var (after, outcome) := L.Delete(s.db, station, now);
            outcome.Done? ==>
              && station in s.db.stations && OthersAlone(s.db.stations, after.stations, station)
              && after.stations[station]
                 == s.db.stations[station].(state := L.Disabled, enabled := false, deletedAt := Some(now))
              && (forall a :: a in after.agents <==> a in s.db.agents && a.station != station)
              && (forall c :: c in after.commands
                              <==> c in s.db.commands && forall a | a in s.db.agents && a.station == station :: c.agent != a.id)
              && |after.enrollment| == |s.db.enrollment| && after.provisioning == s.db.provisioning
              && forall i | 0 <= i < |s.db.enrollment| ::
                   var t := s.db.enrollment[i];
                   after.enrollment[i] == if t.station == Some(station) && t.revokedAt == None
                                          then t.(revokedAt := Some(now)) else t
  {
    DeleteKeeps(s, station, now);
    if L.Active(s.db, station) {
      var gone := L.AgentIds(s.db.agents, station);
      forall c: C.Command
        ensures c.agent !in gone <==> forall a | a in s.db.agents && a.station == station :: c.agent != a.id
      {
        if c.agent in gone {
          var a :| a in s.db.agents && a.station == station && a.id == c.agent;
        }
      }
    }
  }

  // ---- bindings ----

  // The database after a binding: the agent is new and everything else about agents is as it was.
  predicate Bound1(before: L.Db, after: L.Db, agent: L.Agent) {
    && after.agents == before.agents + [agent] && after.commands == before.commands
  }

  // One token of the table is stamped as used and no longer redeemable.
  ghost predicate SpentToken(before: seq<L.Token>, after: seq<L.Token>, secret: nat, now: int) {
    && |after| == |before|
    && (forall i | 0 <= i < |before| ::
          after[i] == if before[i].hash == L.Digest(secret) then before[i].(usedAt := Some(now)) else before[i])
    && forall station, later :: !Redeemable(after, secret, station, later)
  }

  lemma SpendSpends(tokens: seq<L.Token>, secret: nat, now: int)
    requires L.HashesApart(tokens) && L.Claimable(tokens, L.Digest(secret), now).Some?
    ensures SpentToken(tokens, L.Spend(tokens, L.Claimable(tokens, L.Digest(secret), now).value, now), secret, now)
  {
    var at := L.Claimable(tokens, L.Digest(secret), now).value;
    var after := L.Spend(tokens, at, now);
    forall i | 0 <= i < |tokens| && i != at ensures tokens[i].hash != L.Digest(secret) {
      assert tokens[i].hash != tokens[at].hash;
    }
    forall u | u in after && u.hash == L.Digest(secret) ensures u.usedAt.Some? {
      var i :| 0 <= i < |after| && after[i] == u;
    }
  }

  // Enrollment binds the agent to the token's station with its new credential, which is accepted at once if the
  // station is enabled, and uses the token up.
  lemma EnrollExactly(s: System, token: nat, uuid: nat, credential: nat, id: nat, now: int)
    requires SystemOk(s) && credential !in s.drawn
    ensures var (after, outcome) := L.Enroll(s.db, token, uuid, credential, id, now);
            outcome.Done? ==>
              var agent := after.agents[|after.agents| - 1];
              && agent == L.Agent(id, agent.station, uuid, L.Digest(credential), None)
              && Redeemable(s.db.enrollment, token, Some(agent.station), now)
              && Bound1(s.db, after, agent) && after.stations == s.db.stations
              && after.provisioning == s.db.provisioning
              && SpentToken(s.db.enrollment, after.enrollment, token, now)
              && (L.Authorized(after, credential) == Some(agent) <==> s.db.stations[agent.station].enabled)
  {
    var (after, outcome) := L.Enroll(s.db, token, uuid, credential, id, now);
    EnrollKeeps(s, token, uuid, credential, id, now);
    if outcome.Done? {
      var agent := after.agents[|after.agents| - 1];
      ClaimFinds(s.db.enrollment, token, Some(agent.station), now);
      SpendSpends(s.db.enrollment, token, now);
      AuthorizedExactly(System(after, s.bindings + 1, s.drawn + {credential}, s.retired), credential, agent);
    }
  }

  // Bootstrap binds the agent to its own station, which is offline and enabled if it was not registered before,
  // and uses the token up.
  lemma BootstrapExactly(s: System, token: nat, station: nat, role: L.Role, uuid: nat, credential: nat, id: nat, now: int)
    requires SystemOk(s) && credential !in s.drawn
    ensures var (after, outcome) := L.Bootstrap(s.db, token, station, role, uuid, credential, id, now);
            outcome.Done? ==>
              var agent := L.Agent(id, station, uuid, L.Digest(credential), None);
              && Bound1(s.db, after, agent) && OthersAlone(s.db.stations, after.stations, station)
              && after.stations[station] == (if L.Active(s.db, station) then s.db.stations[station]
                                             else L.Station(L.Client, L.Offline, true, None))
              && after.enrollment == s.db.enrollment
              && SpentToken(s.db.provisioning, after.provisioning, token, now)
              && (L.Authorized(after, credential) == Some(agent) <==> after.stations[station].enabled)
  {
    var (after, outcome) := L.Bootstrap(s.db, token, station, role, uuid, credential, id, now);
    BootstrapKeeps(s, token, station, role, uuid, credential, id, now);
    if outcome.Done? {
      var agent := L.Agent(id, station, uuid, L.Digest(credential), None);
      SpendSpends(s.db.provisioning, token, now);
      AuthorizedExactly(System(after, s.bindings + 1, s.drawn + {credential}, s.retired), credential, agent);
    }
  }

  // Which refusal a registration gets that does not come to a binding: a token that cannot be redeemed, or one for
  // a station that is gone; for a bootstrap also another role or identity, and then what is bound already.
  lemma RefusalsExactly(s: System, token: nat, station: nat, role: L.Role, uuid: nat, credential: nat, id: nat, now: int)
    requires SystemOk(s)
    ensures var enrolled := L.Enroll(s.db, token, uuid, credential, id, now).1;
            && (enrolled.Rejected? <==> forall k | k in s.db.stations :: !Redeemable(s.db.enrollment, token, Some(k), now))
            && (enrolled.Done? || enrolled.Rejected? || enrolled.Integrity?)
    ensures var started := L.Bootstrap(s.db, token, station, role, uuid, credential, id, now).1;
            && (started.Rejected? <==> || role != L.Client || station != uuid
                                       || forall k :: !Redeemable(s.db.provisioning, token, k, now))
            && (started.Conflict? <==>
                  && !started.Rejected?
                  && ((exists a :: a in s.db.agents && (a.uuid == uuid || (a.station == station && L.Active(s.db, station))))
                      || (L.Active(s.db, station) && s.db.stations[station].role != role)))
  {
    var at := L.Claimable(s.db.enrollment, L.Digest(token), now);
    forall k: nat ensures Redeemable(s.db.enrollment, token, Some(k), now)
                          <==> at.Some? && s.db.enrollment[at.value].station == Some(k) {
      ClaimFinds(s.db.enrollment, token, Some(k), now);
    }
    var with := L.Claimable(s.db.provisioning, L.Digest(token), now);
    forall k ensures Redeemable(s.db.provisioning, token, k, now)
                     <==> with.Some? && s.db.provisioning[with.value].station == k {
      ClaimFinds(s.db.provisioning, token, k, now);
    }
    if with.Some? {
      assert Redeemable(s.db.provisioning, token, s.db.provisioning[with.value].station, now);
    }
    forall a | a in s.db.agents ensures a.station in s.db.stations {
      assert Live(s.db.stations, a.station);
    }
  }

  // ---- commands ----

  // A command is issued exactly for the supported name, a time to live of at most fifteen minutes and an agent
  // that would be accepted; it can be delivered to that agent alone, and only while it lives.
  lemma IssueExactly(s: System, uuid: nat, name: string, ttl: int, id: nat, now: int, reader: nat, later: int)
    requires SystemOk(s)
    ensures var (after, outcome) := L.Issue(s.db, uuid, name, ttl, id, now);
            && (outcome.Done? <==>
                  && name == "refresh_process_snapshot" && 0 < ttl <= 900 * C.SECOND
                  && exists a :: a in s.db.agents && a.uuid == uuid && L.CanAccept(s.db, a))
            && (outcome.Rejected? <==> name != "refresh_process_snapshot" || ttl <= 0 || ttl > 900 * C.SECOND)
            && (outcome.Done? || outcome.Rejected? || outcome.NotFound?)
            && (outcome.Done? ==>
                  && |after.commands| == |s.db.commands| + 1 && s.db.commands <= after.commands
                  && after == s.db.(commands := after.commands)
                  && var c := after.commands[|s.db.commands|];
                     && c.id == id && c.attempts == 0
                     && forall a | a in s.db.agents && a.uuid == uuid ::
                          C.Claimable(c, reader, later) <==> reader == a.id && later < now + ttl)
  {
    IssueKeeps(s, uuid, name, ttl, id, now);
    var agent := L.ByUuid(s.db, uuid);
    forall a | a in s.db.agents && a.uuid == uuid ensures agent == Some(a) {
      assert Live(s.db.stations, a.station);
      SameUuid(s.db.agents, a, agent.value);
    }
  }

  lemma SameUuid(agents: seq<L.Agent>, a: L.Agent, b: L.Agent)
    requires L.AgentsApart(agents) && a in agents && b in agents && a.uuid == b.uuid
    ensures a == b
  {
    var i, j :| 0 <= i < |agents| && 0 <= j < |agents| && agents[i] == a && agents[j] == b;
  }

  // An acknowledgement is taken exactly from the accepted agent whose command it is, if the command is
  // acknowledged already or its lease and life run; it changes that command's status and lease only. The id is
  // the commands' primary key.
  lemma AcknowledgeExactly(s: System, credential: nat, id: nat, now: int)
    requires SystemOk(s)
    requires forall i, j | 0 <= i < j < |s.db.commands| :: s.db.commands[i].id != s.db.commands[j].id
    ensures var (after, outcome) := L.Acknowledge(s.db, credential, id, now);
            && (outcome.Done? <==>
                  exists a, i :: Accepted(s.db, credential, a) && 0 <= i < |s.db.commands|
                    && s.db.commands[i].id == id && s.db.commands[i].agent == a.id
                    && (s.db.commands[i].status == C.Acknowledged || C.LeaseRunning(s.db.commands[i], now)))
            && (outcome.Unauthorized? <==> forall a :: !Accepted(s.db, credential, a))
            && (outcome.Done? || outcome.Rejected? || outcome.Unauthorized?)
            && (outcome.Done? ==>
                  && after == s.db.(commands := after.commands) && |after.commands| == |s.db.commands|
                  && forall i | 0 <= i < |s.db.commands| ::
                       var c := s.db.commands[i];
                       after.commands[i] == if c.id == id && c.status != C.Acknowledged
                                            then c.(status := C.Acknowledged, leaseUntil := None) else c)
  {
    AcknowledgeKeeps(s, credential, id, now);
    var agent := L.Authorized(s.db, credential);
    if agent.Some? {
      AuthorizedExactly(s, credential, agent.value);
    }
    forall a | Accepted(s.db, credential, a) ensures agent == Some(a) {
      AuthorizedExactly(s, credential, a);
    }
  }
}
