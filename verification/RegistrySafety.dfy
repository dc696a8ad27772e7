// What holds of the registry after every sequence of use cases, successful or not.
module RegistrySafety {
  import opened Text
  import L = Lifecycle
  import C = AgentCommands

  datatype Action =
    | Create(station: nat, role: L.Role, token: nat, now: int)
    | NewProvisioning(token: nat, now: int)
    | Update(station: nat, role: L.Role, enabled: bool)
    | Delete(station: nat, now: int)
    | Enroll(token: nat, uuid: nat, credential: nat, id: nat, now: int)
    | Bootstrap(token: nat, station: nat, role: L.Role, uuid: nat, credential: nat, id: nat, now: int)
    | Heartbeat(credential: nat, station: nat, capturedAt: int, now: int)
    | Issue(uuid: nat, name: string, ttl: int, id: nat, now: int)
    | Acknowledge(credential: nat, id: nat, now: int)

  function Apply(db: L.Db, a: Action): (L.Db, L.Outcome) {
    match a
    case Create(station, role, token, now) => L.Create(db, station, role, token, now)
    case NewProvisioning(token, now) => L.NewProvisioning(db, token, now)
    case Update(station, role, enabled) => L.Update(db, station, role, enabled)
    case Delete(station, now) => L.Delete(db, station, now)
    case Enroll(token, uuid, credential, id, now) => L.Enroll(db, token, uuid, credential, id, now)
    case Bootstrap(token, station, role, uuid, credential, id, now) =>
      L.Bootstrap(db, token, station, role, uuid, credential, id, now)
    case Heartbeat(credential, station, capturedAt, now) => L.Heartbeat(db, credential, station, capturedAt, now)
    case Issue(uuid, name, ttl, id, now) => L.Issue(db, uuid, name, ttl, id, now)
    case Acknowledge(credential, id, now) => L.Acknowledge(db, credential, id, now)
  }

  // The secret an action draws from the generator.
  function Drawn(a: Action): set<nat> {
    match a
    case Create(_, _, token, _) => {token}
    case NewProvisioning(token, _) => {token}
    case Enroll(_, _, credential, _, _) => {credential}
    case Bootstrap(_, _, _, _, credential, _, _) => {credential}
    case _ => {}
  }

  // The database with its history: bindings ever created, secrets ever drawn, credentials of deleted bindings.
  datatype System = System(db: L.Db, bindings: nat, drawn: set<nat>, retired: set<nat>)

  function Secrets(agents: seq<L.Agent>, station: nat): set<nat> {
    set a | a in agents && a.station == station :: a.credential.secret
  }

  // The system after a use case: what it drew, whether it binds an agent, and what it retires.
  function After(s: System, result: (L.Db, L.Outcome), drawn: set<nat>, binds: bool, retires: set<nat>): System {
    var (db, outcome) := result;
    if outcome.Done? then System(db, if binds then s.bindings + 1 else s.bindings, s.drawn + drawn, s.retired + retires)
    else System(db, s.bindings, s.drawn + drawn, s.retired)
  }

  function Step(s: System, a: Action): System {
    var retires := if a.Delete? then Secrets(s.db.agents, a.station) else {};
    After(s, Apply(s.db, a), Drawn(a), a.Enroll? || a.Bootstrap?, retires)
  }

  const EMPTY := System(L.Db(map[], [], [], [], []), 0, {}, {})

  function Run(s: System, acts: seq<Action>): System {
    if acts == [] then s else Step(Run(s, acts[..|acts| - 1]), acts[|acts| - 1])
  }

  // Generated secrets never repeat.
  predicate Possible(s: System, acts: seq<Action>)
    decreases |acts|
  {
    acts == [] || (Possible(s, acts[..|acts| - 1]) && Drawn(acts[|acts| - 1]) !! Run(s, acts[..|acts| - 1]).drawn)
  }

  // ---- The invariant, table by table ----

  ghost predicate StationsOk(stations: map<nat, L.Station>) {
    forall k | k in stations ::
      (stations[k].enabled <==> stations[k].state != L.Disabled) && (stations[k].deletedAt.Some? ==> !stations[k].enabled)
  }

  predicate Live(stations: map<nat, L.Station>, station: nat) {
    station in stations && stations[station].deletedAt == None
  }

  ghost predicate Bound(stations: map<nat, L.Station>, agents: seq<L.Agent>) {
    forall a | a in agents :: Live(stations, a.station)
  }

  ghost predicate HasAgent(agents: seq<L.Agent>, id: nat) {
    exists a :: a in agents && a.id == id
  }

  ghost predicate Owned(agents: seq<L.Agent>, commands: seq<C.Command>) {
    forall c | c in commands :: HasAgent(agents, c.agent)
  }

  predicate Covered(stations: map<nat, L.Station>, t: L.Token) {
    t.station.Some? && t.station.value in stations && (Live(stations, t.station.value) || t.revokedAt.Some?)
  }

  ghost predicate AllCovered(stations: map<nat, L.Station>, tokens: seq<L.Token>) {
    forall t | t in tokens :: Covered(stations, t)
  }

  ghost predicate DbOk(db: L.Db) {
    && L.Constraints(db) && StationsOk(db.stations) && Bound(db.stations, db.agents)
    && Owned(db.agents, db.commands) && AllCovered(db.stations, db.enrollment)
  }

  function Used(tokens: seq<L.Token>): nat {
    if tokens == [] then 0
    else Used(tokens[..|tokens| - 1]) + if tokens[|tokens| - 1].usedAt.Some? then 1 else 0
  }

  ghost predicate CredentialsOk(agents: seq<L.Agent>, drawn: set<nat>, retired: set<nat>) {
    && retired <= drawn
    && (forall a | a in agents :: a.credential.secret in drawn && a.credential.secret !in retired)
    && forall i, j | 0 <= i < j < |agents| :: agents[i].credential != agents[j].credential
  }

  ghost predicate HashesDrawn(tokens: seq<L.Token>, drawn: set<nat>) {
    forall t | t in tokens :: t.hash.secret in drawn
  }

  ghost predicate SystemOk(s: System) {
    && DbOk(s.db) && s.bindings == Used(s.db.enrollment) + Used(s.db.provisioning)
    && CredentialsOk(s.db.agents, s.drawn, s.retired)
    && HashesDrawn(s.db.enrollment, s.drawn) && HashesDrawn(s.db.provisioning, s.drawn)
  }

  // ---- Token tables ----

  // A row never disappears, its digest, owner and expiry are fixed, and each stamp is set at most once.
  ghost predicate Frozen(before: seq<L.Token>, after: seq<L.Token>) {
    && |before| <= |after|
    && forall i | 0 <= i < |before| :: SameToken(before[i], after[i])
  }

  predicate SameToken(t: L.Token, u: L.Token) {
    && u.hash == t.hash && u.station == t.station && u.expiresAt == t.expiresAt
    && (t.usedAt.Some? ==> u.usedAt == t.usedAt) && (t.revokedAt.Some? ==> u.revokedAt == t.revokedAt)
  }

  lemma {:induction false} UsedSpend(tokens: seq<L.Token>, at: nat, now: int)
    requires at < |tokens| && tokens[at].usedAt == None
    ensures Used(L.Spend(tokens, at, now)) == Used(tokens) + 1
  {
    var last, spent := |tokens| - 1, L.Spend(tokens, at, now);
    if at < last {
      UsedSpend(tokens[..last], at, now);
      assert spent[..last] == L.Spend(tokens[..last], at, now);
    } else {
      assert spent[..last] == tokens[..last];
    }
  }

  lemma {:induction false} UsedRevoke(tokens: seq<L.Token>, station: nat, now: int)
    ensures Used(L.Revoke(tokens, station, now)) == Used(tokens)
  {
    if tokens != [] {
      var last := |tokens| - 1;
      UsedRevoke(tokens[..last], station, now);
      assert L.Revoke(tokens, station, now)[..last] == L.Revoke(tokens[..last], station, now);
    }
  }

  lemma UsedNew(tokens: seq<L.Token>, t: L.Token)
    requires t.usedAt == None
    ensures Used(tokens + [t]) == Used(tokens)
  {
    assert (tokens + [t])[..|tokens|] == tokens;
  }

  // ---- One lemma per use case ----

  lemma DrawnMore(s: System, more: set<nat>)
    requires SystemOk(s)
    ensures SystemOk(s.(drawn := s.drawn + more))
  {
  }

  lemma AddedStation(stations: map<nat, L.Station>, station: nat, added: L.Station)
    requires StationsOk(stations) && added.enabled && added.state == L.Offline && added.deletedAt == None
    ensures var after := stations[station := added];
            StationsOk(after) && Live(after, station) && forall k | Live(stations, k) :: Live(after, k)
  {
  }

  lemma NewCovered(stations: map<nat, L.Station>, tokens: seq<L.Token>, t: L.Token)
    requires AllCovered(stations, tokens) && Covered(stations, t)
    ensures AllCovered(stations, tokens + [t])
  {
  }

  lemma MoreCredentials(agents: seq<L.Agent>, drawn: set<nat>, more: set<nat>, retired: set<nat>)
    requires CredentialsOk(agents, drawn, retired)
    ensures CredentialsOk(agents, drawn + more, retired)
  {
  }

  // The tables after a station was created or restored with its token.
  lemma NewTokenOk(s: System, station: nat, added: L.Station, t: L.Token)
    requires SystemOk(s) && !L.Active(s.db, station) && added.enabled && added.state == L.Offline && added.deletedAt == None
    requires t.station == Some(station) && t.hash.secret !in s.drawn && t.usedAt == None
    ensures var db := s.db.(stations := s.db.stations[station := added], enrollment := s.db.enrollment + [t]);
            SystemOk(System(db, s.bindings, s.drawn + {t.hash.secret}, s.retired))
  {
    var stations, more := s.db.stations[station := added], {t.hash.secret};
    AddedStation(s.db.stations, station, added);
    StillCovered(s.db.stations, stations, s.db.enrollment);
    NewCovered(stations, s.db.enrollment, t);
    UsedNew(s.db.enrollment, t);
    NewHash(s.db.enrollment, t, s.drawn);
    MoreCredentials(s.db.agents, s.drawn, more, s.retired);
    MoreDrawn(s.db.provisioning, s.drawn, more);
  }

  lemma NewHash(tokens: seq<L.Token>, t: L.Token, drawn: set<nat>)
    requires HashesDrawn(tokens, drawn) && t.hash.secret !in drawn
    requires L.HashesApart(tokens)
    ensures L.HashesApart(tokens + [t]) && HashesDrawn(tokens + [t], drawn + {t.hash.secret})
  {
    forall i | 0 <= i < |tokens| ensures tokens[i].hash != t.hash {
      assert tokens[i] in tokens;
    }
  }

  lemma CreateKeeps(s: System, station: nat, role: L.Role, token: nat, now: int)
    requires SystemOk(s) && token !in s.drawn
    ensures var result := L.Create(s.db, station, role, token, now);
            && SystemOk(After(s, result, {token}, false, {}))
            && result.1 == if L.Active(s.db, station) then L.Conflict else L.Done
  {
    if L.Active(s.db, station) {
      DrawnMore(s, {token});
    } else {
      var t := L.Token(L.Digest(token), Some(station), now + L.ENROLLMENT_TOKEN_TTL, None, None);
      NewTokenOk(s, station, L.Station(role, L.Offline, true, None), t);
    }
  }

  lemma NewProvisioningKeeps(s: System, token: nat, now: int)
    requires SystemOk(s) && token !in s.drawn
    ensures var result := L.NewProvisioning(s.db, token, now);
            result.1.Done? && SystemOk(After(s, result, {token}, false, {}))
  {
    var t := L.Token(L.Digest(token), None, now + L.PROVISIONING_TOKEN_TTL, None, None);
    DrawnMore(s, {token});
    UsedNew(s.db.provisioning, t);
    NewHash(s.db.provisioning, t, s.drawn);
  }

  lemma UpdateKeeps(s: System, station: nat, role: L.Role, enabled: bool)
    requires SystemOk(s)
    ensures var result := L.Update(s.db, station, role, enabled);
            && SystemOk(After(s, result, {}, false, {}))
            && result.1 == if L.Active(s.db, station) then L.Done else L.NotFound
  {
    if L.Active(s.db, station) {
      var stations := L.Update(s.db, station, role, enabled).0.stations;
      assert forall k :: Live(stations, k) <==> Live(s.db.stations, k);
      RowsKeep(s, stations, s.db.commands);
    }
  }

  ghost predicate Apart(agents: seq<L.Agent>) {
    forall i, j | 0 <= i < j < |agents| :: Differ(agents[i], agents[j])
  }

  predicate Differ(a: L.Agent, b: L.Agent) {
    a.id != b.id && a.uuid != b.uuid && a.station != b.station && a.credential != b.credential
  }

  lemma {:induction false} KeepApart(agents: seq<L.Agent>, p: L.Agent -> bool)
    requires Apart(agents)
    ensures Apart(L.Keep(agents, p))
  {
    if agents != [] {
      var last := |agents| - 1;
      var kept := L.Keep(agents[..last], p);
      KeepApart(agents[..last], p);
      forall i | 0 <= i < |kept| ensures Differ(kept[i], agents[last]) {
        assert kept[i] in agents[..last];
      }
    }
  }

  lemma CascadeApart(s: System, station: nat, now: int)
    requires SystemOk(s) && L.Active(s.db, station)
    ensures Apart(s.db.agents) && Apart(L.Cascade(s.db, station, now).agents)
    ensures L.Constraints(L.Cascade(s.db, station, now))
  {
    assert Apart(s.db.agents);
    KeepApart(s.db.agents, (a: L.Agent) => a.station != station);
    var agents := L.Cascade(s.db, station, now).agents;
    assert forall i, j | 0 <= i < j < |agents| :: Differ(agents[i], agents[j]);
  }

  lemma CascadeOwned(db: L.Db, station: nat, now: int)
    requires DbOk(db) && L.Active(db, station)
    ensures Owned(L.Cascade(db, station, now).agents, L.Cascade(db, station, now).commands)
  {
    var after := L.Cascade(db, station, now);
    forall c | c in after.commands ensures HasAgent(after.agents, c.agent) {
      assert HasAgent(db.agents, c.agent);
      var a :| a in db.agents && a.id == c.agent;
      assert a.station == station ==> a.id in L.AgentIds(db.agents, station);
      assert a in after.agents;
    }
  }

  lemma DeleteKeeps(s: System, station: nat, now: int)
    requires SystemOk(s)
    ensures var result := L.Delete(s.db, station, now);
            && SystemOk(After(s, result, {}, false, Secrets(s.db.agents, station)))
            && result.1 == if L.Active(s.db, station) then L.Done else L.NotFound
  {
    if L.Active(s.db, station) {
      CascadeApart(s, station, now);
      CascadeOwned(s.db, station, now);
      UsedRevoke(s.db.enrollment, station, now);
      RevokedAgents(s, station, now);
      RevokedTokens(s.db, s.drawn, station, now);
    }
  }

  lemma TwoAgents(agents: seq<L.Agent>, a: L.Agent, b: L.Agent)
    requires Apart(agents) && a in agents && b in agents && a != b
    ensures Differ(a, b)
  {
    var i :| 0 <= i < |agents| && agents[i] == a;
    var j :| 0 <= j < |agents| && agents[j] == b;
    assert i < j ==> Differ(agents[i], agents[j]);
    assert j < i ==> Differ(agents[j], agents[i]);
  }

  lemma RevokedAgents(s: System, station: nat, now: int)
    requires SystemOk(s) && L.Active(s.db, station)
    ensures var after := L.Cascade(s.db, station, now);
            && Bound(after.stations, after.agents)
            && CredentialsOk(after.agents, s.drawn, s.retired + Secrets(s.db.agents, station))
  {
    var after := L.Cascade(s.db, station, now);
    CascadeApart(s, station, now);
    assert forall i, j | 0 <= i < j < |after.agents| :: Differ(after.agents[i], after.agents[j]);
    forall a | a in after.agents
      ensures a.credential.secret in s.drawn && a.credential.secret !in s.retired + Secrets(s.db.agents, station)
    {
      forall b | b in s.db.agents && b.station == station ensures b.credential != a.credential {
        TwoAgents(s.db.agents, a, b);
      }
    }
  }

  lemma RevokedTokens(db: L.Db, drawn: set<nat>, station: nat, now: int)
    requires DbOk(db) && L.Active(db, station) && HashesDrawn(db.enrollment, drawn)
    ensures var after := L.Cascade(db, station, now);
            AllCovered(after.stations, after.enrollment) && HashesDrawn(after.enrollment, drawn)
  {
    var after := L.Cascade(db, station, now);
    forall t | t in after.enrollment ensures Covered(after.stations, t) && t.hash.secret in drawn {
      var i :| 0 <= i < |after.enrollment| && after.enrollment[i] == t;
      assert db.enrollment[i] in db.enrollment;
      assert Covered(db.stations, db.enrollment[i]);
    }
  }

  // Both ways of creating a binding: the agent joins a live station and its credential is new.
  lemma JoinKeeps(s: System, agent: L.Agent, secret: nat, db: L.Db)
    requires SystemOk(s) && agent.credential == L.Digest(secret) && secret !in s.drawn
    requires db.agents == s.db.agents + [agent] && db.commands == s.db.commands
    requires StationsOk(db.stations) && Live(db.stations, agent.station)
    requires forall k | Live(s.db.stations, k) :: Live(db.stations, k)
    ensures Bound(db.stations, db.agents) && Owned(db.agents, db.commands)
    ensures CredentialsOk(db.agents, s.drawn + {secret}, s.retired)
  {
    forall c | c in db.commands ensures HasAgent(db.agents, c.agent) {
      assert HasAgent(s.db.agents, c.agent);
      var a :| a in s.db.agents && a.id == c.agent;
      assert a in db.agents;
    }
    forall i, j | 0 <= i < j < |db.agents| ensures db.agents[i].credential != db.agents[j].credential {
      assert db.agents[i] in s.db.agents;
    }
  }

  lemma SpendKeeps(tokens: seq<L.Token>, at: nat, now: int, drawn: set<nat>)
    requires at < |tokens| && HashesDrawn(tokens, drawn)
    ensures HashesDrawn(L.Spend(tokens, at, now), drawn)
  {
    forall t | t in L.Spend(tokens, at, now) ensures t.hash.secret in drawn {
      var i :| 0 <= i < |tokens| && L.Spend(tokens, at, now)[i] == t;
      assert tokens[i] in tokens;
    }
  }

  lemma SpendCovered(stations: map<nat, L.Station>, tokens: seq<L.Token>, at: nat, now: int)
    requires at < |tokens| && AllCovered(stations, tokens)
    ensures AllCovered(stations, L.Spend(tokens, at, now))
  {
    forall t | t in L.Spend(tokens, at, now) ensures Covered(stations, t) {
      var i :| 0 <= i < |tokens| && L.Spend(tokens, at, now)[i] == t;
      assert Covered(stations, tokens[i]);
    }
  }

  lemma SpentConstraints(tokens: seq<L.Token>, at: nat, now: int)
    requires at < |tokens| && L.HashesApart(tokens)
    ensures L.HashesApart(L.Spend(tokens, at, now))
  {
  }

  // No row of the agents table stands in the way of this one.
  predicate Free(db: L.Db, station: nat, uuid: nat, id: nat) {
    forall a | a in db.agents :: a.station != station && a.uuid != uuid && a.id != id
  }

  predicate Vacant(db: L.Db, station: Option<nat>, uuid: nat, id: nat) {
    station.Some? && Free(db, station.value, uuid, id)
  }

  lemma FreeJoins(db: L.Db, agent: L.Agent)
    requires L.AgentsApart(db.agents)
    ensures L.AgentsApart(db.agents + [agent]) <==> Free(db, agent.station, agent.uuid, agent.id)
  {
    var agents := db.agents + [agent];
    var last := |db.agents|;
    if Free(db, agent.station, agent.uuid, agent.id) {
    } else {
      var a :| a in db.agents && !(a.station != agent.station && a.uuid != agent.uuid && a.id != agent.id);
      var i :| 0 <= i < last && db.agents[i] == a;
      assert agents[i] == a && agents[last] == agent;
    }
  }

  // The tables after a token of a live station was spent on a new binding.
  lemma EnrollJoins(s: System, at: nat, agent: L.Agent, credential: nat, now: int)
    requires SystemOk(s) && credential !in s.drawn && agent.credential == L.Digest(credential)
    requires at < |s.db.enrollment| && L.Usable(s.db.enrollment[at], now) && Live(s.db.stations, agent.station)
    ensures var db := s.db.(enrollment := L.Spend(s.db.enrollment, at, now), agents := s.db.agents + [agent]);
            && (L.Constraints(db) <==> Free(s.db, agent.station, agent.uuid, agent.id))
            && (L.Constraints(db) ==> SystemOk(System(db, s.bindings + 1, s.drawn + {credential}, s.retired)))
  {
    var tokens, db := s.db.enrollment, s.db.(enrollment := L.Spend(s.db.enrollment, at, now), agents := s.db.agents + [agent]);
    FreeJoins(s.db, agent);
    SpentConstraints(tokens, at, now);
    JoinKeeps(s, agent, credential, db);
    SpendKeeps(tokens, at, now, s.drawn);
    SpendCovered(s.db.stations, tokens, at, now);
    UsedSpend(tokens, at, now);
    MoreDrawn(db.enrollment, s.drawn, {credential});
    MoreDrawn(db.provisioning, s.drawn, {credential});
  }

  // Enrollment succeeds exactly with a usable token for a station that, like the agent's identity, is free.
  lemma EnrollKeeps(s: System, token: nat, uuid: nat, credential: nat, id: nat, now: int)
    requires SystemOk(s) && credential !in s.drawn
    ensures var result := L.Enroll(s.db, token, uuid, credential, id, now);
            var at := L.Claimable(s.db.enrollment, L.Digest(token), now);
            && SystemOk(After(s, result, {credential}, true, {}))
            && (result.1.Done? <==> at.Some? && Vacant(s.db, s.db.enrollment[at.value].station, uuid, id))
            && (result.1.Done? ==> L.Active(s.db, result.0.agents[|result.0.agents| - 1].station))
  {
    DrawnMore(s, {credential});
    var at := L.Claimable(s.db.enrollment, L.Digest(token), now);
    if at.Some? {
      var t := s.db.enrollment[at.value];
      assert Covered(s.db.stations, t);
      EnrollJoins(s, at.value, L.Agent(id, t.station.value, uuid, L.Digest(credential), None), credential, now);
    }
  }

  // Bootstrap succeeds exactly with a usable token and a station that is new, deleted, or an agentless client.
  lemma BootstrapKeeps(s: System, token: nat, station: nat, role: L.Role, uuid: nat, credential: nat, id: nat, now: int)
    requires SystemOk(s) && credential !in s.drawn
    ensures var result := L.Bootstrap(s.db, token, station, role, uuid, credential, id, now);
            && SystemOk(After(s, result, {credential}, true, {}))
            && (result.1.Done? <==>
                  && role == L.Client && station == uuid
                  && L.Claimable(s.db.provisioning, L.Digest(token), now).Some? && Free(s.db, station, uuid, id)
                  && (L.Active(s.db, station) ==> s.db.stations[station].role == L.Client))
            && (result.1.Done? ==> L.Active(result.0, station))
  {
    DrawnMore(s, {credential});
    var at := L.Claimable(s.db.provisioning, L.Digest(token), now);
    if role == L.Client && station == uuid && at.Some? && L.ByUuid(s.db, uuid) == None {
      var after := L.BootstrapStation(s.db, station, role);
      if after.Some? {
        BootstrapJoins(s, at.value, station, after.value, uuid, credential, id, now);
      } else {
        NotFree(s.db, station, uuid, id);
      }
    } else if L.ByUuid(s.db, uuid).Some? {
      assert !Free(s.db, station, uuid, id);
    }
  }

  lemma NotFree(db: L.Db, station: nat, uuid: nat, id: nat)
    ensures L.ByStation(db, station).Some? ==> !Free(db, station, uuid, id)
  {
  }

  // The stations after a bootstrap: this one is live, and no other ceased to be.
  lemma BootstrapStations(db: L.Db, station: nat, after: L.Station)
    requires StationsOk(db.stations) && L.BootstrapStation(db, station, L.Client) == Some(after)
    ensures var stations := db.stations[station := after];
            StationsOk(stations) && Live(stations, station) && forall k | Live(db.stations, k) :: Live(stations, k)
  {
  }

  lemma BootstrapCommits(db: L.Db, after: L.Db, at: nat, agent: L.Agent, now: int)
    requires L.Constraints(db) && at < |db.provisioning|
    requires after.enrollment == db.enrollment && after.provisioning == L.Spend(db.provisioning, at, now)
    requires after.agents == db.agents + [agent]
    ensures L.Constraints(after) <==> Free(db, agent.station, agent.uuid, agent.id)
  {
    FreeJoins(db, agent);
    SpentConstraints(db.provisioning, at, now);
  }

  lemma BootstrapTokens(s: System, stations: map<nat, L.Station>, at: nat, now: int)
    requires SystemOk(s) && at < |s.db.provisioning| && s.db.provisioning[at].usedAt == None
    requires s.db.stations.Keys <= stations.Keys && forall k | Live(s.db.stations, k) :: Live(stations, k)
    ensures var spent := L.Spend(s.db.provisioning, at, now);
            HashesDrawn(spent, s.drawn) && Used(spent) == Used(s.db.provisioning) + 1
    ensures AllCovered(stations, s.db.enrollment)
  {
    SpendKeeps(s.db.provisioning, at, now, s.drawn);
    UsedSpend(s.db.provisioning, at, now);
    StillCovered(s.db.stations, stations, s.db.enrollment);
  }

  lemma BootstrapJoins(s: System, at: nat, station: nat, after: L.Station, uuid: nat, credential: nat, id: nat, now: int)
    requires SystemOk(s) && credential !in s.drawn && at < |s.db.provisioning| && L.Usable(s.db.provisioning[at], now)
    requires L.BootstrapStation(s.db, station, L.Client) == Some(after)
    ensures var agent := L.Agent(id, station, uuid, L.Digest(credential), None);
            var db := s.db.(stations := s.db.stations[station := after],
                            provisioning := L.Spend(s.db.provisioning, at, now), agents := s.db.agents + [agent]);
            && (L.Constraints(db) <==> Free(s.db, station, uuid, id)) && L.Active(db, station)
            && (L.Constraints(db) ==> SystemOk(System(db, s.bindings + 1, s.drawn + {credential}, s.retired)))
  {
    var agent := L.Agent(id, station, uuid, L.Digest(credential), None);
    var stations := s.db.stations[station := after];
    var db := s.db.(stations := stations, provisioning := L.Spend(s.db.provisioning, at, now),
                    agents := s.db.agents + [agent]);
    BootstrapStations(s.db, station, after);
    BootstrapCommits(s.db, db, at, agent, now);
    BootstrapTokens(s, stations, at, now);
    JoinKeeps(s, agent, credential, db);
    JoinedOk(s, db, credential);
  }

  // The clauses about the parts of the database, put together.
  lemma JoinedOk(s: System, db: L.Db, credential: nat)
    requires SystemOk(s) && db.enrollment == s.db.enrollment && StationsOk(db.stations)
    requires Bound(db.stations, db.agents) && Owned(db.agents, db.commands)
    requires CredentialsOk(db.agents, s.drawn + {credential}, s.retired) && AllCovered(db.stations, db.enrollment)
    requires HashesDrawn(db.provisioning, s.drawn) && Used(db.provisioning) == Used(s.db.provisioning) + 1
    ensures L.Constraints(db) ==> SystemOk(System(db, s.bindings + 1, s.drawn + {credential}, s.retired))
  {
    MoreDrawn(db.provisioning, s.drawn, {credential});
    MoreDrawn(db.enrollment, s.drawn, {credential});
  }

  lemma MoreDrawn(tokens: seq<L.Token>, drawn: set<nat>, more: set<nat>)
    requires HashesDrawn(tokens, drawn)
    ensures HashesDrawn(tokens, drawn + more)
  {
  }

  lemma StillCovered(stations: map<nat, L.Station>, stations': map<nat, L.Station>, tokens: seq<L.Token>)
    requires AllCovered(stations, tokens) && stations.Keys <= stations'.Keys
    requires forall k | Live(stations, k) :: Live(stations', k)
    ensures AllCovered(stations', tokens)
  {
    forall t | t in tokens ensures Covered(stations', t) {
      assert Covered(stations, t);
    }
  }

  lemma RowsOwned(agents: seq<L.Agent>, rows: seq<C.Command>, rows': seq<C.Command>)
    requires Owned(agents, rows)
    requires |rows'| == |rows| && forall i | 0 <= i < |rows| :: rows'[i].agent == rows[i].agent
    ensures Owned(agents, rows')
  {
    forall c | c in rows' ensures HasAgent(agents, c.agent) {
      var i :| 0 <= i < |rows'| && rows'[i] == c;
      assert rows[i] in rows;
    }
  }

  // The tables after a change that leaves agents, tokens and the liveness of stations alone.
  lemma RowsKeep(s: System, stations: map<nat, L.Station>, rows: seq<C.Command>)
    requires SystemOk(s) && StationsOk(stations) && stations.Keys == s.db.stations.Keys
    requires forall k :: Live(stations, k) <==> Live(s.db.stations, k)
    requires Owned(s.db.agents, rows)
    ensures SystemOk(s.(db := s.db.(stations := stations, commands := rows)))
  {
    StillCovered(s.db.stations, stations, s.db.enrollment);
  }

  lemma HeartbeatKeeps(s: System, credential: nat, station: nat, capturedAt: int, now: int)
    requires SystemOk(s)
    ensures var result := L.Heartbeat(s.db, credential, station, capturedAt, now);
            SystemOk(After(s, result, {}, false, {})) && result.1 != L.Integrity
  {
    var agent := L.Authorized(s.db, credential);
    if now - capturedAt <= L.CLOCK_SKEW && capturedAt - now <= L.CLOCK_SKEW
       && agent.Some? && agent.value.station == station {
      var stations := s.db.stations[station := s.db.stations[station].(state := L.Online)];
      var rows := C.Claim(s.db.commands, agent.value.id, now, C.COMMAND_LEASE, C.BATCH_SIZE);
      assert forall k :: Live(stations, k) <==> Live(s.db.stations, k);
      ClaimOwned(s.db.agents, s.db.commands, agent.value.id, now);
      RowsKeep(s, stations, rows);
    }
  }

  lemma ClaimOwned(agents: seq<L.Agent>, rows: seq<C.Command>, agent: nat, now: int)
    requires Owned(agents, rows)
    ensures Owned(agents, C.Claim(rows, agent, now, C.COMMAND_LEASE, C.BATCH_SIZE))
  {
    RowsOwned(agents, rows, C.Claim(rows, agent, now, C.COMMAND_LEASE, C.BATCH_SIZE));
  }

  lemma IssueKeeps(s: System, uuid: nat, name: string, ttl: int, id: nat, now: int)
    requires SystemOk(s)
    ensures var result := L.Issue(s.db, uuid, name, ttl, id, now);
            SystemOk(After(s, result, {}, false, {})) && result.1 != L.Integrity
  {
    var agent := L.ByUuid(s.db, uuid);
    if agent.Some? {
      var rows := s.db.commands + [C.Command(id, agent.value.id, now + ttl, C.Pending, None, 0)];
      assert HasAgent(s.db.agents, agent.value.id);
      RowsKeep(s, s.db.stations, rows);
    }
  }

  lemma AcknowledgeKeeps(s: System, credential: nat, id: nat, now: int)
    requires SystemOk(s)
    ensures var result := L.Acknowledge(s.db, credential, id, now);
            SystemOk(After(s, result, {}, false, {})) && result.1 != L.Integrity
  {
    var agent := L.Authorized(s.db, credential);
    if agent.Some? {
      AckOwned(s.db.agents, s.db.commands, agent.value.id, id, now);
      RowsKeep(s, s.db.stations, C.AckRows(s.db.commands, agent.value.id, id, now).0);
    }
  }

  lemma AckOwned(agents: seq<L.Agent>, rows: seq<C.Command>, agent: nat, id: nat, now: int)
    requires Owned(agents, rows)
    ensures Owned(agents, C.AckRows(rows, agent, id, now).0)
  {
    RowsOwned(agents, rows, C.AckRows(rows, agent, id, now).0);
  }

  lemma StationStepKeeps(s: System, a: Action)
    requires SystemOk(s) && Drawn(a) !! s.drawn && (a.Create? || a.NewProvisioning? || a.Update? || a.Delete?)
    ensures SystemOk(Step(s, a))
  {
    match a
    case Create(station, role, token, now) =>
      CreateKeeps(s, station, role, token, now);
      assert Step(s, a) == After(s, L.Create(s.db, station, role, token, now), {token}, false, {});
    case NewProvisioning(token, now) =>
      NewProvisioningKeeps(s, token, now);
      assert Step(s, a) == After(s, L.NewProvisioning(s.db, token, now), {token}, false, {});
    case Update(station, role, enabled) =>
      UpdateKeeps(s, station, role, enabled);
      assert Step(s, a) == After(s, L.Update(s.db, station, role, enabled), {}, false, {});
    case Delete(station, now) =>
      DeleteKeeps(s, station, now);
      assert Step(s, a) == After(s, L.Delete(s.db, station, now), {}, false, Secrets(s.db.agents, station));
  }

  lemma BindingStepKeeps(s: System, a: Action)
    requires SystemOk(s) && Drawn(a) !! s.drawn && (a.Enroll? || a.Bootstrap?)
    ensures SystemOk(Step(s, a))
  {
    match a
    case Enroll(token, uuid, credential, id, now) => EnrollKeeps(s, token, uuid, credential, id, now);
    case Bootstrap(token, station, role, uuid, credential, id, now) =>
      BootstrapKeeps(s, token, station, role, uuid, credential, id, now);
  }

  lemma AgentStepKeeps(s: System, a: Action)
    requires SystemOk(s) && (a.Heartbeat? || a.Issue? || a.Acknowledge?)
    ensures SystemOk(Step(s, a))
  {
    match a
    case Heartbeat(credential, station, capturedAt, now) => HeartbeatKeeps(s, credential, station, capturedAt, now);
    case Issue(uuid, name, ttl, id, now) => IssueKeeps(s, uuid, name, ttl, id, now);
    case Acknowledge(credential, id, now) => AcknowledgeKeeps(s, credential, id, now);
  }

  lemma StepKeeps(s: System, a: Action)
    requires SystemOk(s) && Drawn(a) !! s.drawn
    ensures SystemOk(Step(s, a))
  {
    if a.Create? || a.NewProvisioning? || a.Update? || a.Delete? {
      StationStepKeeps(s, a);
    } else if a.Enroll? || a.Bootstrap? {
      BindingStepKeeps(s, a);
    } else {
      AgentStepKeeps(s, a);
    }
  }

  // After every run: stations consistent, bindings only on live stations, one per station and identity,
  // commands only for bound agents, and as many bindings ever created as tokens used.
  lemma {:induction false} RegistryInvariant(acts: seq<Action>)
    requires Possible(EMPTY, acts)
    ensures SystemOk(Run(EMPTY, acts))
  {
    if acts != [] {
      RegistryInvariant(acts[..|acts| - 1]);
      StepKeeps(Run(EMPTY, acts[..|acts| - 1]), acts[|acts| - 1]);
    }
  }

  // Nothing usable is left of a deleted station.
  lemma DeletedIsBare(db: L.Db, station: nat, token: nat, now: int)
    requires DbOk(db) && station in db.stations && db.stations[station].deletedAt.Some?
    ensures !db.stations[station].enabled && db.stations[station].state == L.Disabled
    ensures L.ByStation(db, station) == None
    ensures forall c, a | c in db.commands && a in db.agents && a.id == c.agent :: a.station != station
    ensures var at := L.Claimable(db.enrollment, L.Digest(token), now);
            at.Some? ==> db.enrollment[at.value].station != Some(station)
  {
    var at := L.Claimable(db.enrollment, L.Digest(token), now);
    if at.Some? {
      assert Covered(db.stations, db.enrollment[at.value]);
    }
  }

  // A use case that does not succeed leaves every table as it was.
  lemma FailureChangesNothing(db: L.Db, a: Action)
    ensures !Apply(db, a).1.Done? ==> Apply(db, a).0 == db
  {
  }

  ghost predicate TablesFrozen(before: L.Db, after: L.Db) {
    Frozen(before.enrollment, after.enrollment) && Frozen(before.provisioning, after.provisioning)
  }

  lemma StationStepFreezes(db: L.Db, a: Action)
    requires a.Create? || a.NewProvisioning? || a.Update?
    ensures TablesFrozen(db, Apply(db, a).0)
  {
  }

  lemma DeleteFreezes(db: L.Db, station: nat, now: int)
    ensures TablesFrozen(db, L.Delete(db, station, now).0)
  {
    assert forall i | 0 <= i < |db.enrollment| :: SameToken(db.enrollment[i], L.Revoke(db.enrollment, station, now)[i]);
  }

  lemma SpendFreezes(tokens: seq<L.Token>, at: nat, now: int)
    requires at < |tokens| && tokens[at].usedAt == None
    ensures Frozen(tokens, L.Spend(tokens, at, now))
  {
  }

  lemma EnrollFreezes(db: L.Db, token: nat, uuid: nat, credential: nat, id: nat, now: int)
    ensures TablesFrozen(db, L.Enroll(db, token, uuid, credential, id, now).0)
  {
    var at := L.Claimable(db.enrollment, L.Digest(token), now);
    if at.Some? { SpendFreezes(db.enrollment, at.value, now); }
  }

  lemma BootstrapFreezes(db: L.Db, token: nat, station: nat, role: L.Role, uuid: nat, credential: nat, id: nat, now: int)
    ensures TablesFrozen(db, L.Bootstrap(db, token, station, role, uuid, credential, id, now).0)
  {
    var at := L.Claimable(db.provisioning, L.Digest(token), now);
    if at.Some? { SpendFreezes(db.provisioning, at.value, now); }
  }

  lemma AgentStepFreezes(db: L.Db, a: Action)
    requires a.Heartbeat? || a.Issue? || a.Acknowledge?
    ensures TablesFrozen(db, Apply(db, a).0)
  {
    var after := Apply(db, a).0;
    assert after.enrollment == db.enrollment && after.provisioning == db.provisioning;
  }

  lemma StepFreezes(db: L.Db, a: Action)
    ensures TablesFrozen(db, Apply(db, a).0)
  {
    match a
    case Delete(station, now) => DeleteFreezes(db, station, now);
    case Enroll(token, uuid, credential, id, now) => EnrollFreezes(db, token, uuid, credential, id, now);
    case Bootstrap(token, station, role, uuid, credential, id, now) =>
      BootstrapFreezes(db, token, station, role, uuid, credential, id, now);
    case Create(_, _, _, _) => StationStepFreezes(db, a);
    case NewProvisioning(_, _) => StationStepFreezes(db, a);
    case Update(_, _, _) => StationStepFreezes(db, a);
    case _ => AgentStepFreezes(db, a);
  }

  // used_at and revoked_at are set at most once, over every run.
  lemma {:induction false} TokensFrozen(s: System, acts: seq<Action>)
    ensures TablesFrozen(s.db, Run(s, acts).db)
    decreases |acts|
  {
    if acts != [] {
      TokensFrozen(s, acts[..|acts| - 1]);
      StepFreezes(Run(s, acts[..|acts| - 1]).db, acts[|acts| - 1]);
    }
  }

  lemma {:induction false} RetiredForever(s: System, acts: seq<Action>)
    requires SystemOk(s) && Possible(s, acts)
    ensures SystemOk(Run(s, acts)) && s.retired <= Run(s, acts).retired
    decreases |acts|
  {
    if acts != [] {
      RetiredForever(s, acts[..|acts| - 1]);
      StepKeeps(Run(s, acts[..|acts| - 1]), acts[|acts| - 1]);
    }
  }

  // A credential whose station was deleted is refused for good, even after the station is restored.
  lemma RevokedForGood(s: System, station: nat, now: int, agent: L.Agent, acts: seq<Action>,
                       heartbeat: nat, capturedAt: int, later: int, command: nat)
    requires SystemOk(s) && agent in s.db.agents && agent.station == station
    requires Possible(Step(s, Delete(station, now)), acts)
    ensures var db := Run(Step(s, Delete(station, now)), acts).db;
            var c := agent.credential.secret;
            && L.Authorized(db, c) == None
            && !L.Heartbeat(db, c, heartbeat, capturedAt, later).1.Done?
            && L.Acknowledge(db, c, command, later).1 == L.Unauthorized
  {
    var c := agent.credential.secret;
    assert Live(s.db.stations, station);
    DeleteKeeps(s, station, now);
    assert c in Secrets(s.db.agents, station);
    var deleted := Step(s, Delete(station, now));
    assert c in deleted.retired;
    RetiredForever(deleted, acts);
    var t := Run(deleted, acts);
    assert forall a | a in t.db.agents :: a.credential.secret != c;
  }
}
