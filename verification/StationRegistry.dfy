// The repositories and use cases that change the registry, transaction by transaction.
module StationRegistry {
  import opened Text
  import opened Lifecycle
  import C = AgentCommands

  // The rows as one transaction sees them; nothing is durable before Registry.db is assigned.
  class Session {
    var db: Db

    constructor (db: Db)
      ensures this.db == db
    {
      this.db := db;
    }

    method AddStation(station: nat, s: Station)
      modifies this
      ensures db == old(db).(stations := old(db).stations[station := s])
    {
      db := db.(stations := db.stations[station := s]);
    }

    // Only a deleted station can be restored.
    method Restore(station: nat, s: Station) returns (ok: bool)
      modifies this
      ensures ok <==> station in old(db).stations && !Active(old(db), station)
      ensures db == if ok then old(db).(stations := old(db).stations[station := s]) else old(db)
    {
      if station !in db.stations || db.stations[station].deletedAt == None {
        return false;
      }
      db := db.(stations := db.stations[station := s]);
      ok := true;
    }

    method UpdateDetails(station: nat, role: Role, enabled: bool) returns (ok: bool)
      modifies this
      ensures ok <==> Active(old(db), station)
      ensures !ok ==> db == old(db)
      ensures ok ==>
                var s := old(db).stations[station];
                db == old(db).(stations := old(db).stations[station := Station(
                  role, if !enabled then Disabled else if s.state == Disabled then Offline else s.state, enabled, None)])
    {
      if station !in db.stations || db.stations[station].deletedAt.Some? {
        return false;
      }
      var record := db.stations[station].(role := role, enabled := enabled);
      if enabled && record.state == Disabled {
        record := record.(state := Offline);
      } else if !enabled {
        record := record.(state := Disabled);
      }
      db := db.(stations := db.stations[station := record]);
      ok := true;
    }

    method DeleteStation(station: nat, deletedAt: int) returns (ok: bool)
      modifies this
      ensures ok <==> Active(old(db), station)
      ensures db == if ok then Cascade(old(db), station, deletedAt) else old(db)
    {
      if station !in db.stations || db.stations[station].deletedAt.Some? {
        return false;
      }
      var gone := AgentIds(db.agents, station);
      db := db.(commands := Keep(db.commands, (c: C.Command) => c.agent !in gone));
      db := db.(agents := Keep(db.agents, (a: Agent) => a.station != station));
      db := db.(enrollment := Revoke(db.enrollment, station, deletedAt));
      var record := db.stations[station].(enabled := false, state := Disabled, deletedAt := Some(deletedAt));
      db := db.(stations := db.stations[station := record]);
      ok := true;
    }

    // A token needs its station's row.
    method AddEnrollmentToken(token: Token) returns (ok: bool)
      modifies this
      ensures ok <==> token.station.Some? && token.station.value in old(db).stations
      ensures db == if ok then old(db).(enrollment := old(db).enrollment + [token]) else old(db)
    {
      ok := token.station.Some? && token.station.value in db.stations;
      if ok {
        db := db.(enrollment := db.enrollment + [token]);
      }
    }

    method AddProvisioningToken(token: Token)
      modifies this
      ensures db == old(db).(provisioning := old(db).provisioning + [token])
    {
      db := db.(provisioning := db.provisioning + [token]);
    }

    method ConsumeEnrollment(hash: Digest, now: int) returns (token: Option<Token>)
      modifies this
      ensures var at := Claimable(old(db).enrollment, hash, now);
              if at.Some? then token == Some(old(db).enrollment[at.value])
                               && db == old(db).(enrollment := Spend(old(db).enrollment, at.value, now))
              else token == None && db == old(db)
    {
      var at := First(db.enrollment, (t: Token) => t.hash == hash);
      if at == None || !Usable(db.enrollment[at.value], now) {
        return None;
      }
      token := Some(db.enrollment[at.value]);
      db := db.(enrollment := db.enrollment[at.value := token.value.(usedAt := Some(now))]);
    }

    method ConsumeProvisioning(hash: Digest, now: int) returns (ok: bool)
      modifies this
      ensures var at := Claimable(old(db).provisioning, hash, now);
              ok == at.Some?
              && db == if ok then old(db).(provisioning := Spend(old(db).provisioning, at.value, now)) else old(db)
    {
      var at := First(db.provisioning, (t: Token) => t.hash == hash);
      if at == None || !Usable(db.provisioning[at.value], now) {
        return false;
      }
      db := db.(provisioning := db.provisioning[at.value := db.provisioning[at.value].(usedAt := Some(now))]);
      ok := true;
    }

    method AddAgent(agent: Agent) returns (ok: bool)
      modifies this
      ensures ok <==> agent.station in old(db).stations
      ensures db == if ok then old(db).(agents := old(db).agents + [agent]) else old(db)
    {
      ok := agent.station in db.stations;
      if ok {
        db := db.(agents := db.agents + [agent]);
      }
    }

    // A missing binding raises; a disabled or deleted station keeps its state.
    method RecordHeartbeat(agent: Agent) returns (ok: bool)
      modifies this
      ensures ok <==> agent in old(db).agents && agent.station in old(db).stations
      ensures db == if ok && old(db).stations[agent.station].enabled && old(db).stations[agent.station].deletedAt == None
                    then old(db).(stations := old(db).stations[agent.station :=
                                    old(db).stations[agent.station].(state := Online)])
                    else old(db)
    {
      if agent !in db.agents || agent.station !in db.stations {
        return false;
      }
      var station := db.stations[agent.station];
      if station.enabled && station.deletedAt == None {
        db := db.(stations := db.stations[agent.station := station.(state := Online)]);
      }
      ok := true;
    }
  }

  class Registry {
    var db: Db

    constructor ()
      ensures db == Db(map[], [], [], [], [])
    {
      db := Db(map[], [], [], [], []);
    }

    // Commit makes a session durable if the database accepts it, and otherwise rolls it back.
    method CommitSession(session: Session) returns (outcome: Outcome)
      modifies this
      ensures (db, outcome) == Commit(old(db), session.db)
    {
      if !Constraints(session.db) {
        return Integrity;
      }
      db := session.db;
      outcome := Done;
    }

    method CreateStation(station: nat, role: Role, token: nat, now: int) returns (outcome: Outcome)
      modifies this
      ensures (db, outcome) == Create(old(db), station, role, token, now)
    {
      var session := new Session(db);
      var s := Station(role, Offline, true, None);
      if station !in session.db.stations {
        session.AddStation(station, s);
      } else if session.db.stations[station].deletedAt == None {
        return Conflict;
      } else {
        var restored := session.Restore(station, s);
      }
      var t := Token(Digest(token), Some(station), now + ENROLLMENT_TOKEN_TTL, None, None);
      var added := session.AddEnrollmentToken(t);
      outcome := CommitSession(session);
    }

    method CreateProvisioningToken(token: nat, now: int) returns (outcome: Outcome)
      modifies this
      ensures (db, outcome) == NewProvisioning(old(db), token, now)
    {
      var session := new Session(db);
      var t := Token(Digest(token), None, now + PROVISIONING_TOKEN_TTL, None, None);
      session.AddProvisioningToken(t);
      outcome := CommitSession(session);
    }

    method UpdateStation(station: nat, role: Role, enabled: bool) returns (outcome: Outcome)
      modifies this
      ensures (db, outcome) == Update(old(db), station, role, enabled)
    {
      var session := new Session(db);
      var ok := session.UpdateDetails(station, role, enabled);
      if !ok {
        return NotFound;
      }
      outcome := CommitSession(session);
    }

    method DeleteStation(station: nat, now: int) returns (outcome: Outcome)
      modifies this
      ensures (db, outcome) == Delete(old(db), station, now)
    {
      var session := new Session(db);
      var ok := session.DeleteStation(station, now);
      if !ok {
        return NotFound;
      }
      outcome := CommitSession(session);
    }

    method EnrollAgent(token: nat, uuid: nat, credential: nat, id: nat, now: int) returns (outcome: Outcome)
      modifies this
      ensures (db, outcome) == Enroll(old(db), token, uuid, credential, id, now)
    {
      var session := new Session(db);
      var claimed := session.ConsumeEnrollment(Digest(token), now);
      if claimed == None || claimed.value.station == None {
        return Rejected;
      }
      var ok := session.AddAgent(Agent(id, claimed.value.station.value, uuid, Digest(credential), None));
      if !ok {
        return Rejected;
      }
      outcome := CommitSession(session);
    }

    method BootstrapAgent(token: nat, station: nat, role: Role, uuid: nat, credential: nat, id: nat, now: int)
      returns (outcome: Outcome)
      modifies this
      ensures (db, outcome) == Bootstrap(old(db), token, station, role, uuid, credential, id, now)
    {
      if role != Client || station != uuid {
        return Rejected;
      }
      var session := new Session(db);
      var claimed := session.ConsumeProvisioning(Digest(token), now);
      if !claimed {
        return Rejected;
      }
      if ByUuid(session.db, uuid).Some? {
        return Conflict;
      }
      var s := Station(role, Offline, true, None);
      if station !in session.db.stations {
        session.AddStation(station, s);
      } else if session.db.stations[station].deletedAt.Some? {
        var restored := session.Restore(station, s);
      } else {
        if session.db.stations[station].role != role || ByStation(session.db, station).Some? {
          return Conflict;
        }
        assert session.db.stations[station := session.db.stations[station]] == session.db.stations;
      }
      var added := session.AddAgent(Agent(id, station, uuid, Digest(credential), None));
      outcome := CommitSession(session);
    }

    method ReceiveHeartbeat(credential: nat, station: nat, capturedAt: int, now: int)
      returns (outcome: Outcome, commands: seq<C.Command>)
      modifies this
      ensures (db, outcome) == Heartbeat(old(db), credential, station, capturedAt, now)
      ensures !outcome.Done? ==> commands == []
      ensures outcome.Done? ==>
                var agent := Authorized(old(db), credential).value;
                var ids := C.ClaimIds(old(db).commands, agent.id, now, C.BATCH_SIZE);
                |commands| == |ids| && forall k | 0 <= k < |ids| :: commands[k] == db.commands[ids[k]]
    {
      commands := [];
      if now - capturedAt > CLOCK_SKEW || capturedAt - now > CLOCK_SKEW {
        return Rejected, [];
      }
      var agent := ByCredential(db, Digest(credential));
      if agent == None || !CanAccept(db, agent.value) {
        return Unauthorized, [];
      }
      if agent.value.station != station {
        return Unauthorized, [];
      }
      var session := new Session(db);
      var recorded := session.RecordHeartbeat(agent.value);
      var rows := new C.CommandSession(session.db.commands);
      var claimed := rows.ClaimForAgent(agent.value.id, now, C.COMMAND_LEASE, C.BATCH_SIZE);
      session.db := session.db.(commands := rows.rows);
      outcome := CommitSession(session);
      if outcome.Done? {
        commands := claimed.commands;
      }
    }

    method IssueCommand(uuid: nat, name: string, ttl: int, id: nat, now: int) returns (outcome: Outcome)
      modifies this
      ensures (db, outcome) == Issue(old(db), uuid, name, ttl, id, now)
    {
      if name != "refresh_process_snapshot" || ttl <= 0 || ttl > C.MAX_COMMAND_TTL {
        return Rejected;
      }
      var agent := ByUuid(db, uuid);
      if agent == None || !CanAccept(db, agent.value) {
        return NotFound;
      }
      var session := new Session(db);
      session.db := session.db.(commands :=
        session.db.commands + [C.Command(id, agent.value.id, now + ttl, C.Pending, None, 0)]);
      outcome := CommitSession(session);
    }

    method AcknowledgeCommand(credential: nat, id: nat, now: int) returns (outcome: Outcome)
      modifies this
      ensures (db, outcome) == Acknowledge(old(db), credential, id, now)
    {
      var agent := ByCredential(db, Digest(credential));
      if agent == None || !CanAccept(db, agent.value) {
        return Unauthorized;
      }
      var session := new Session(db);
      var rows := new C.CommandSession(session.db.commands);
      var ok := rows.Acknowledge(agent.value.id, id, now);
      if !ok {
        return Rejected;
      }
      session.db := session.db.(commands := rows.rows);
      outcome := CommitSession(session);
    }
  }
}
