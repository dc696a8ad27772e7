// The job pipeline: create, prepare, dispatch and the worker's final transaction, each as a
// transaction on the database that commits as a whole or leaves it alone.
module Pipeline {
  import opened Text
  import opened Naming
  import opened PublishJobs
  import Artifacts

  datatype CheckStatus = Pass | Block | NotKnown | Warning

  predicate CanPublish(status: CheckStatus) { status in {Pass, Warning} }

  // One selected station of a job, with its stored preflight and result.
  datatype JobTarget = JobTarget(station: nat, selected: bool, preflight: Option<CheckStatus>,
                                 oldMapping: Option<string>, newMapping: Option<string>,
                                 outcome: Option<TargetStatus>, errorCode: Option<string>, progress: nat)

  datatype Event = Event(job: HexId, correlation: nat, key: string)

  // `keys` is the unique index on the idempotency key, and `stamps` holds each station's last update.
  datatype Db = Db(jobs: map<HexId, Job>, keys: map<string, HexId>, targets: map<HexId, seq<JobTarget>>,
                   events: seq<Event>, clones: Artifacts.Table, stamps: map<nat, int>)

  datatype StationRow = StationRow(enabled: bool, deleted: bool)

  // ---- create ----

  datatype CreateResult = Created(id: HexId) | Existing(job: HexId) | Conflict | Invalid

  predicate Unique(s: seq<nat>) {
    forall i, j | 0 <= i < j < |s| :: s[i] != s[j]
  }

  predicate Blank(s: string) { Strip(s, IsSpace) == "" }

  predicate ValidRequest(request: Request, stationIds: seq<nat>, key: string) {
    && !Blank(request.title) && !Blank(request.source)
    && stationIds != [] && Unique(stationIds)
    && 0 < |key| <= 200
  }

  function FreshTarget(station: nat): JobTarget {
    JobTarget(station, true, None, None, None, None, None, 0)
  }

  function FreshTargets(stationIds: seq<nat>): seq<JobTarget> {
    seq(|stationIds|, i requires 0 <= i < |stationIds| => FreshTarget(stationIds[i]))
  }

  function TargetStations(targets: seq<JobTarget>): set<nat> {
    set t | t in targets :: t.station
  }

  predicate SameRequest(job: Job, targets: seq<JobTarget>, request: Request, stationIds: seq<nat>, correlation: nat) {
    && job.request == request && job.correlation == correlation
    && TargetStations(targets) == set s | s in stationIds
  }

  predicate Usable(stations: map<nat, StationRow>, id: nat) {
    id in stations && stations[id].enabled && !stations[id].deleted
  }

  // `id` is the identifier the transaction draws for a new job.
  function Create(db: Db, id: HexId, key: string, correlation: nat, request: Request, stationIds: seq<nat>,
                  stations: map<nat, StationRow>): (CreateResult, Db)
  {
    if !ValidRequest(request, stationIds, key) then (Invalid, db)
    else if key in db.keys then
      var existing := db.keys[key];
      if existing in db.jobs && existing in db.targets
         && SameRequest(db.jobs[existing], db.targets[existing], request, stationIds, correlation)
      then (Existing(existing), db) else (Conflict, db)
    else if exists s | s in stationIds :: !Usable(stations, s) then (Invalid, db)
    else
      (Created(id),
       db.(jobs := db.jobs[id := Job(id, key, correlation, request, Draft, None, None)],
           keys := db.keys[key := id], targets := db.targets[id := FreshTargets(stationIds)]))
  }

  // ---- prepare ----

  datatype Reason = AdminBlocked | ConfirmationRequired | SelectionRequired | MissingPreflight(station: nat)
                  | ClientBlocked(station: nat)

  function ClientReasons(selected: seq<nat>, reports: map<nat, CheckStatus>): seq<Reason> {
    if selected == [] then []
    else
      var station := selected[|selected| - 1];
      ClientReasons(selected[..|selected| - 1], reports)
      + (if station !in reports then [MissingPreflight(station)]
         else if !CanPublish(reports[station]) then [ClientBlocked(station)] else [])
  }

  function GateReasons(admin: Option<CheckStatus>, reports: map<nat, CheckStatus>, selected: seq<nat>,
                       confirmation: Option<bool>): seq<Reason>
  {
    GeneralReasons(admin, selected, confirmation) + ClientReasons(selected, reports)
  }

  function GeneralReasons(admin: Option<CheckStatus>, selected: seq<nat>, confirmation: Option<bool>): seq<Reason> {
    (if admin.Some? && !CanPublish(admin.value) then [AdminBlocked] else [])
    + (if confirmation != Some(true) then [ConfirmationRequired] else [])
    + (if selected == [] then [SelectionRequired] else [])
  }

  method EvaluateWizardGate(admin: Option<CheckStatus>, reports: map<nat, CheckStatus>, selected: seq<nat>,
                            confirmation: Option<bool>) returns (reasons: seq<Reason>)
    ensures reasons == GateReasons(admin, reports, selected, confirmation)
  {
    reasons := [];
    if admin.Some? && !CanPublish(admin.value) { reasons := reasons + [AdminBlocked]; }
    if confirmation != Some(true) { reasons := reasons + [ConfirmationRequired]; }
    if selected == [] { reasons := reasons + [SelectionRequired]; }
    var head := GeneralReasons(admin, selected, confirmation);
    assert reasons == head == head + [];
    for i := 0 to |selected|
      invariant reasons == head + ClientReasons(selected[..i], reports)
    {
      assert selected[..i + 1][..i] == selected[..i];
      ghost var before := ClientReasons(selected[..i], reports);
      assert forall more: seq<Reason> :: head + (before + more) == head + before + more;
      var station := selected[i];
      if station !in reports {
        reasons := reasons + [MissingPreflight(station)];
      } else if !CanPublish(reports[station]) {
        reasons := reasons + [ClientBlocked(station)];
      } else {
        assert before + [] == before;
      }
    }
    assert selected[..|selected|] == selected;
  }

  predicate AcceptsPreflight(status: JobStatus) {
    status in {Draft, Preflight, AwaitingConfirmation}
  }

  function Code(reason: Reason): string {
    match reason
    case AdminBlocked => "admin_preflight_blocked"
    case ConfirmationRequired => "operator_confirmation_required"
    case SelectionRequired => "station_selection_required"
    case MissingPreflight(_) => "missing_preflight"
    case ClientBlocked(_) => "client_preflight_blocked"
  }

  function Explain(reasons: seq<Reason>): string {
    if reasons == [] then ""
    else if |reasons| == 1 then Code(reasons[0])
    else Code(reasons[0]) + ";" + Explain(reasons[1..])
  }

  predicate PreflightReady(reasons: seq<Reason>) {
    forall r | r in reasons :: r == ConfirmationRequired
  }

  // None where a transition raised.
  function UpdateJob(job: Job, reasons: seq<Reason>, confirmation: Option<bool>): Option<Job> {
    var started := if job.status == Draft then job.Transition(Preflight) else Some(job);
    if started == None then None
    else
      var advanced := if PreflightReady(reasons) && started.value.status == Preflight
                      then started.value.Transition(AwaitingConfirmation) else started;
      if advanced == None then None
      else
        Some(advanced.value.(
          reason := if reasons == [] then None else Some(Explain(reasons)),
          confirmation := if confirmation == None then advanced.value.confirmation else confirmation))
  }

  function SelectedStations(targets: seq<JobTarget>): seq<nat> {
    if targets == [] then []
    else (if targets[0].selected then [targets[0].station] else []) + SelectedStations(targets[1..])
  }

  function WithPreflight(t: JobTarget, reports: map<nat, CheckStatus>): JobTarget {
    t.(preflight := if t.selected && t.station in reports then Some(reports[t.station]) else None)
  }

  function WithPreflights(targets: seq<JobTarget>, reports: map<nat, CheckStatus>): seq<JobTarget> {
    seq(|targets|, i requires 0 <= i < |targets| => WithPreflight(targets[i], reports))
  }

  datatype PrepareResult = Prepared(job: Job) | NotFound | WrongState | SelectionChanged | MissingReport | IllegalMove

  // The second transaction of prepare; `seen` is what the first one read, `reports` what was
  // evaluated for the stations selected there.
  function PrepareCommit(db: Db, id: HexId, seen: seq<JobTarget>, admin: Option<CheckStatus>,
                         reports: map<nat, CheckStatus>, confirmation: Option<bool>): (PrepareResult, Db)
  {
    var reasons := GateReasons(admin, reports, SelectedStations(seen), confirmation);
    if id !in db.jobs || id !in db.targets then (NotFound, db)
    else if TargetStations(db.targets[id]) != TargetStations(seen) then (SelectionChanged, db)
    else if !AcceptsPreflight(db.jobs[id].status) then (WrongState, db)
    else if exists t | t in db.targets[id] :: t.selected && t.station !in reports then (MissingReport, db)
    else StorePrepared(db, id, UpdateJob(db.jobs[id], reasons, confirmation), reports)
  }

  function StorePrepared(db: Db, id: HexId, updated: Option<Job>, reports: map<nat, CheckStatus>): (PrepareResult, Db)
    requires id in db.targets
  {
    if updated == None then (IllegalMove, db)
    else
      (Prepared(updated.value),
       db.(jobs := db.jobs[id := updated.value],
           targets := db.targets[id := WithPreflights(db.targets[id], reports)]))
  }

  // ---- dispatch ----

  predicate Passing(t: JobTarget) {
    t.preflight.Some? && CanPublish(t.preflight.value)
  }

  predicate Dispatchable(job: Job, targets: seq<JobTarget>) {
    && job.status == AwaitingConfirmation && job.confirmation == Some(true)
    && (exists t | t in targets :: t.selected)
    && (forall t | t in targets && t.selected :: Passing(t))
  }

  // True when the job was handed to the outbox.
  function Dispatch(db: Db, id: HexId): (bool, Db) {
    if id !in db.jobs || id !in db.targets || !Dispatchable(db.jobs[id], db.targets[id]) then (false, db)
    else
      var moved := db.jobs[id].Transition(Publishing);
      if moved == None then (false, db)
      else
        var job := moved.value.(reason := None);
        (true, db.(jobs := db.jobs[id := job], events := db.events + [Event(id, job.correlation, job.key)]))
  }

  // ---- the worker's last transaction ----

  function WithResult(t: JobTarget, r: TargetResult): JobTarget {
    if t.station == r.station then
      t.(oldMapping := r.oldMapping, newMapping := r.newMapping, outcome := Some(r.status),
         errorCode := r.errorCode, progress := 100)
    else t
  }

  function WithOne(targets: seq<JobTarget>, r: TargetResult): seq<JobTarget> {
    seq(|targets|, i requires 0 <= i < |targets| => WithResult(targets[i], r))
  }

  function WithResults(targets: seq<JobTarget>, results: seq<TargetResult>): seq<JobTarget> {
    if results == [] then targets
    else WithOne(WithResults(targets, results[..|results| - 1]), results[|results| - 1])
  }

  predicate Updated(loaded: Job, r: TargetResult) { !loaded.request.dryRun && r.status == Verified }

  // The updated stations' last update is now.
  function StampAll(stamps: map<nat, int>, loaded: Job, results: seq<TargetResult>, now: int): map<nat, int> {
    if results == [] then stamps
    else
      var before, last := StampAll(stamps, loaded, results[..|results| - 1], now), results[|results| - 1];
      if Updated(loaded, last) then before[last.station := now] else before
  }

  // Stamping a station that is registered no more raises.
  predicate AllRegistered(loaded: Job, results: seq<TargetResult>, gone: set<nat>) {
    forall r | r in results && Updated(loaded, r) :: r.station !in gone
  }

  // `loaded` and `seen` are what the delivery read when it started, `gone` the stations deleted by now.
  function PersistResult(db: Db, loaded: Job, seen: seq<JobTarget>, job: Job, master: string,
                         results: seq<TargetResult>, now: int, gone: set<nat>): (bool, Db)
  {
    if loaded.id !in db.jobs || loaded.id !in db.targets
       || TargetStations(db.targets[loaded.id]) != TargetStations(seen)
       || !AllRegistered(loaded, results, gone) then (false, db)
    else
      (true,
       db.(jobs := db.jobs[loaded.id := job],
           targets := db.targets[loaded.id := WithResults(db.targets[loaded.id], results)],
           clones := Artifacts.Commit1(db.clones, Artifacts.PersistCommit(loaded, results, master, now)),
           stamps := StampAll(db.stamps, loaded, results, now)))
  }

  // ---- the use cases, each on its own copy of the database ----

  class PublishDesk {
    var db: Db

    constructor (db: Db)
      ensures this.db == db
    {
      this.db := db;
    }

    method CreateJob(id: HexId, key: string, correlation: nat, request: Request, stationIds: seq<nat>,
                     stations: map<nat, StationRow>) returns (r: CreateResult)
      modifies this
      ensures (r, db) == Create(old(db), id, key, correlation, request, stationIds, stations)
    {
      if !ValidRequest(request, stationIds, key) { return Invalid; }
      var session := db;
      if key in session.keys {
        var existing := session.keys[key];
        if existing in session.jobs && existing in session.targets
           && SameRequest(session.jobs[existing], session.targets[existing], request, stationIds, correlation) {
          return Existing(existing);
        }
        return Conflict;
      }
      for i := 0 to |stationIds|
        invariant forall k | 0 <= k < i :: Usable(stations, stationIds[k])
      {
        if !Usable(stations, stationIds[i]) {
          assert stationIds[i] in stationIds;
          return Invalid;
        }
      }
      session := session.(jobs := session.jobs[id := Job(id, key, correlation, request, Draft, None, None)],
                          keys := session.keys[key := id]);
      var targets := [];
      for i := 0 to |stationIds|
        invariant |targets| == i
        invariant forall k | 0 <= k < i :: targets[k] == FreshTarget(stationIds[k])
      {
        targets := targets + [FreshTarget(stationIds[i])];
      }
      assert targets == FreshTargets(stationIds);
      db := session.(targets := session.targets[id := targets]);
      r := Created(id);
    }

    method PrepareJob(id: HexId, seen: seq<JobTarget>, admin: Option<CheckStatus>,
                      reports: map<nat, CheckStatus>, confirmation: Option<bool>) returns (r: PrepareResult)
      modifies this
      ensures (r, db) == PrepareCommit(old(db), id, seen, admin, reports, confirmation)
    {
      var reasons := EvaluateWizardGate(admin, reports, SelectedStations(seen), confirmation);
      var session := db;
      if id !in session.jobs || id !in session.targets { return NotFound; }
      var current := session.targets[id];
      if TargetStations(current) != TargetStations(seen) { return SelectionChanged; }
      if !AcceptsPreflight(session.jobs[id].status) { return WrongState; }
      var updated := [];
      for i := 0 to |current|
        invariant |updated| == i
        invariant forall k | 0 <= k < i :: current[k].selected ==> current[k].station in reports
        invariant forall k | 0 <= k < i :: updated[k] == WithPreflight(current[k], reports)
      {
        if current[i].selected && current[i].station !in reports { return MissingReport; }
        var status := if current[i].selected then Some(reports[current[i].station]) else None;
        updated := updated + [current[i].(preflight := status)];
      }
      var job := UpdateJob(session.jobs[id], reasons, confirmation);
      if job == None { return IllegalMove; }
      assert updated == WithPreflights(current, reports);
      db := session.(jobs := session.jobs[id := job.value], targets := session.targets[id := updated]);
      r := Prepared(job.value);
    }

    method DispatchJob(id: HexId) returns (sent: bool)
      modifies this
      ensures (sent, db) == Dispatch(old(db), id)
    {
      var session := db;
      if id !in session.jobs || id !in session.targets { return false; }
      if !Dispatchable(session.jobs[id], session.targets[id]) { return false; }
      var moved := session.jobs[id].Transition(Publishing);
      if moved == None { return false; }
      var job := moved.value.(reason := None);
      session := session.(jobs := session.jobs[id := job]);
      session := session.(events := session.events + [Event(id, job.correlation, job.key)]);
      db := session;
      sent := true;
    }

    method Persist(loaded: Job, seen: seq<JobTarget>, job: Job, master: string, results: seq<TargetResult>, now: int,
                   gone: set<nat>) returns (committed: bool)
      modifies this
      ensures (committed, db) == PersistResult(old(db), loaded, seen, job, master, results, now, gone)
    {
      var session := db;
      if loaded.id !in session.jobs || loaded.id !in session.targets { return false; }
      if TargetStations(session.targets[loaded.id]) != TargetStations(seen) { return false; }
      var targets, stamps := session.targets[loaded.id], session.stamps;
      for i := 0 to |results|
        invariant targets == WithResults(session.targets[loaded.id], results[..i])
        invariant stamps == StampAll(session.stamps, loaded, results[..i], now)
        invariant AllRegistered(loaded, results[..i], gone) && db == session
      {
        assert results[..i + 1] == results[..i] + [results[i]];
        targets := WriteResult(targets, results[i]);
        if !loaded.request.dryRun && results[i].status == Verified {
          if results[i].station in gone {
            assert results[i] in results && Updated(loaded, results[i]);
            assert !AllRegistered(loaded, results, gone);
            return false;
          }
          stamps := stamps[results[i].station := now];
        }
      }
      assert results[..|results|] == results;
      var clones := new Artifacts.ArtifactTable(session.clones.rows);
      clones.PersistResults(loaded, results, master, session.clones.nextId, now);
      session := session.(clones := Artifacts.Table(clones.rows, session.clones.nextId + |results|), stamps := stamps);
      db := session.(jobs := session.jobs[loaded.id := job], targets := session.targets[loaded.id := targets]);
      committed := true;
    }

    // One station's result on the job's targets.
    method WriteResult(targets: seq<JobTarget>, r: TargetResult) returns (updated: seq<JobTarget>)
      ensures updated == WithOne(targets, r)
    {
      updated := [];
      for k := 0 to |targets|
        invariant |updated| == k
        invariant forall j | 0 <= j < k :: updated[j] == WithResult(targets[j], r)
      {
        updated := updated + [WithResult(targets[k], r)];
      }
    }
  }

  // ---- what the gate decides ----

  lemma {:induction false} ClientReasonsSpec(selected: seq<nat>, reports: map<nat, CheckStatus>)
    ensures ClientReasons(selected, reports) == [] <==>
            forall s | s in selected :: s in reports && CanPublish(reports[s])
    ensures forall r | r in ClientReasons(selected, reports) :: r.MissingPreflight? || r.ClientBlocked?
  {
    if selected != [] {
      var init, last := selected[..|selected| - 1], selected[|selected| - 1];
      ClientReasonsSpec(init, reports);
      assert selected == init + [last];
      AllReported(init, last, reports);
      ReasonsMore(ClientReasons(init, reports), if last !in reports then [MissingPreflight(last)]
                                                else if !CanPublish(reports[last]) then [ClientBlocked(last)] else []);
    }
  }

  lemma AllReported(init: seq<nat>, last: nat, reports: map<nat, CheckStatus>)
    ensures (forall s | s in init + [last] :: s in reports && CanPublish(reports[s]))
            <==> (forall s | s in init :: s in reports && CanPublish(reports[s]))
                 && last in reports && CanPublish(reports[last])
  {
    var all := init + [last];
    assert last in all && forall s | s in init :: s in all;
  }

  lemma ReasonsMore(before: seq<Reason>, more: seq<Reason>)
    requires forall r | r in before :: r.MissingPreflight? || r.ClientBlocked?
    requires forall r | r in more :: r.MissingPreflight? || r.ClientBlocked?
    ensures forall r | r in before + more :: r.MissingPreflight? || r.ClientBlocked?
  {
  }

  // The gate opens exactly when nothing is missing, and only a missing confirmation still lets the
  // job advance to awaiting confirmation.
  lemma GateSpec(admin: Option<CheckStatus>, reports: map<nat, CheckStatus>, selected: seq<nat>,
                 confirmation: Option<bool>)
    ensures var reasons := GateReasons(admin, reports, selected, confirmation);
            var checked := && (admin.Some? ==> CanPublish(admin.value)) && selected != []
                           && (forall s | s in selected :: s in reports && CanPublish(reports[s]));
            && (PreflightReady(reasons) <==> checked)
            && (reasons == [] <==> checked && confirmation == Some(true))
  {
    var general, client := GeneralReasons(admin, selected, confirmation), ClientReasons(selected, reports);
    ClientReasonsSpec(selected, reports);
    GeneralReasonsSpec(admin, selected, confirmation);
    var reasons := general + client;
    assert GateReasons(admin, reports, selected, confirmation) == reasons;
    assert forall r | r in general :: r in reasons;
    if client != [] {
      var r := client[0];
      assert r in client && r in reasons;
      assert r.MissingPreflight? || r.ClientBlocked?;
      assert !PreflightReady(reasons);
    }
  }

  lemma GeneralReasonsSpec(admin: Option<CheckStatus>, selected: seq<nat>, confirmation: Option<bool>)
    ensures var general := GeneralReasons(admin, selected, confirmation);
            var checked := (admin.Some? ==> CanPublish(admin.value)) && selected != [];
            && (PreflightReady(general) <==> checked)
            && (general == [] <==> checked && confirmation == Some(true))
  {
    var general := GeneralReasons(admin, selected, confirmation);
    assert admin.Some? && !CanPublish(admin.value) <==> AdminBlocked in general;
    assert selected == [] <==> SelectionRequired in general;
    assert confirmation != Some(true) ==> ConfirmationRequired in general;
  }

  // Repeating a create request returns the job of the first and changes nothing; reusing its key for
  // another request is refused and changes nothing.
  lemma CreateIdempotent(db: Db, id: HexId, key: string, correlation: nat, request: Request, stationIds: seq<nat>,
                         stations: map<nat, StationRow>, id': HexId, correlation': nat, request': Request,
                         stationIds': seq<nat>, stations': map<nat, StationRow>)
    requires Create(db, id, key, correlation, request, stationIds, stations).0 == Created(id)
    ensures var db1 := Create(db, id, key, correlation, request, stationIds, stations).1;
            var (again, db2) := Create(db1, id', key, correlation', request', stationIds', stations');
            && db2 == db1
            && (again == Existing(id) <==>
                  && ValidRequest(request', stationIds', key) && request' == request && correlation' == correlation
                  && (set s | s in stationIds') == (set s | s in stationIds))
            && (again == Existing(id) || again == Conflict || again == Invalid)
  {
    var targets := FreshTargets(stationIds);
    assert TargetStations(targets) == set s | s in stationIds by {
      forall s | s in stationIds ensures s in TargetStations(targets) {
        var i :| 0 <= i < |stationIds| && stationIds[i] == s;
        assert targets[i] in targets;
      }
    }
  }
}
