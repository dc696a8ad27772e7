// What each transaction of the pipeline stores, told by its inputs; and what the queue carries in every run.
module PipelineEffects {
  import opened Text
  import opened Naming
  import opened PublishJobs
  import opened Storage
  import opened Pipeline
  import opened PipelineSafety
  import PipelineReports
  import Artifacts

  // ---- create ----

  // A title and a source that are not blank, at least one station and none twice, a key of 1 to 200 characters.
  predicate Complete(request: Request, stationIds: seq<nat>, key: string) {
    && (exists c | c in request.title :: !IsSpace(c)) && (exists c | c in request.source :: !IsSpace(c))
    && stationIds != [] && (forall i, j | 0 <= i < j < |stationIds| :: stationIds[i] != stationIds[j])
    && 1 <= |key| <= 200
  }

  lemma {:induction false} BlankExactly(s: string)
    ensures Blank(s) <==> forall c | c in s :: IsSpace(c)
  {
    StripKeeps(s, IsSpace, c => c in s);
    if forall c | c in s :: IsSpace(c) {
      StripKeeps(s, IsSpace, c => IsSpace(c));
      FirstIsIn(Strip(s, IsSpace));
    } else if Blank(s) {
      SpacesOnly(s);
    }
  }

  lemma FirstIsIn(s: string)
    ensures s != "" ==> s[0] in s
  {
  }

  lemma {:induction false} SpacesOnly(s: string)
    requires Strip(s, IsSpace) == ""
    ensures forall c | c in s :: IsSpace(c)
  {
    RightSpaces(StripLeft(s, IsSpace));
    LeftSpaces(s);
  }

  lemma {:induction false} RightSpaces(s: string)
    requires StripRight(s, IsSpace) == ""
    ensures s == "" || IsSpace(s[0])
  {
    if |s| > 1 {
      RightSpaces(s[..|s| - 1]);
    }
  }

  lemma {:induction false} LeftSpaces(s: string)
    requires StripLeft(s, IsSpace) == "" || IsSpace(StripLeft(s, IsSpace)[0])
    ensures forall c | c in s :: IsSpace(c)
  {
    StripLeftKeeps(s, IsSpace, c => true);
    if s != "" {
      LeftSpaces(s[1..]);
      assert s == [s[0]] + s[1..];
    }
  }

  // A target of a new job: selected, with nothing checked or done yet.
  predicate IsFresh(t: JobTarget, station: nat) {
    && t.station == station && t.selected && t.preflight == None && t.oldMapping == None && t.newMapping == None
    && t.outcome == None && t.errorCode == None && t.progress == 0
  }

  predicate RegisteredEnabled(stations: map<nat, StationRow>, id: nat) {
    id in stations && stations[id].enabled && !stations[id].deleted
  }

  // A job is created exactly for a complete request under a new key whose stations are all registered, enabled and
  // not deleted; it is a draft that selects exactly these stations, in order, and nothing else changes.
  lemma CreatesExactly(db: Db, id: HexId, key: string, correlation: nat, request: Request, stationIds: seq<nat>,
                       stations: map<nat, StationRow>)
    ensures var (r, after) := Create(db, id, key, correlation, request, stationIds, stations);
            && (r.Created? <==> && Complete(request, stationIds, key) && key !in db.keys
                                && forall s | s in stationIds :: RegisteredEnabled(stations, s))
            && (r.Invalid? <==> || !Complete(request, stationIds, key)
                                || (key !in db.keys && exists s | s in stationIds :: !RegisteredEnabled(stations, s)))
            && (!r.Created? ==> after == db)
            && (r.Created? ==>
                  && r.id == id && id in after.targets && |after.targets[id]| == |stationIds|
                  && after == db.(jobs := db.jobs[id := Job(id, key, correlation, request, Draft, None, None)],
                                  keys := db.keys[key := id], targets := db.targets[id := after.targets[id]])
                  && forall k | 0 <= k < |stationIds| :: IsFresh(after.targets[id][k], stationIds[k]))
  {
    BlankExactly(request.title);
    BlankExactly(request.source);
  }

  // ---- prepare ----

  predicate Passes(status: CheckStatus) { status == Pass || status == Warning }

  // Each reason is given exactly when it applies.
  predicate Applies(reason: Reason, admin: Option<CheckStatus>, reports: map<nat, CheckStatus>, selected: seq<nat>,
                    confirmation: Option<bool>)
  {
    match reason
    case AdminBlocked => admin.Some? && !Passes(admin.value)
    case ConfirmationRequired => confirmation != Some(true)
    case SelectionRequired => selected == []
    case MissingPreflight(s) => s in selected && s !in reports
    case ClientBlocked(s) => s in selected && s in reports && !Passes(reports[s])
  }

  lemma {:induction false} ClientReasonsExactly(selected: seq<nat>, reports: map<nat, CheckStatus>)
    ensures forall r :: r in ClientReasons(selected, reports)
              <==> (r.MissingPreflight? || r.ClientBlocked?) && Applies(r, None, reports, selected, None)
  {
    if selected != [] {
      var init, last := selected[..|selected| - 1], selected[|selected| - 1];
      ClientReasonsExactly(init, reports);
      assert selected == init + [last];
    }
  }

  lemma ReasonsExactly(admin: Option<CheckStatus>, reports: map<nat, CheckStatus>, selected: seq<nat>,
                       confirmation: Option<bool>, r: Reason)
    ensures r in GateReasons(admin, reports, selected, confirmation)
            <==> Applies(r, admin, reports, selected, confirmation)
  {
    ClientReasonsExactly(selected, reports);
  }

  function Codes(reasons: seq<Reason>): seq<string> {
    seq(|reasons|, i requires 0 <= i < |reasons| => Code(reasons[i]))
  }

  lemma CodeIsWhole(reason: Reason)
    ensures ';' !in Code(reason)
  {
  }

  lemma JoinSplits(first: string, rest: string, codes: seq<string>)
    requires ';' !in first && Split(rest, ';') == codes
    ensures Split(first + ";" + rest, ';') == [first] + codes
  {
    SplitWithoutSeparator(first, ';');
    assert (";" + rest)[0] == ';' && (";" + rest)[1..] == rest;
    assert Split(";" + rest, ';') == [""] + codes;
    SplitConcat(first, ";" + rest, ';');
    assert first + (";" + rest) == first + ";" + rest && first + "" == first;
    assert Glue([first], [""] + codes) == [first] + codes;
  }

  // The stored explanation splits back into the codes of the reasons, in order.
  lemma {:induction false} ExplanationSplits(reasons: seq<Reason>)
    requires reasons != []
    ensures Split(Explain(reasons), ';') == Codes(reasons)
  {
    CodeIsWhole(reasons[0]);
    if |reasons| == 1 {
      SplitWithoutSeparator(Code(reasons[0]), ';');
      assert Codes(reasons) == [Code(reasons[0])];
    } else {
      ExplanationSplits(reasons[1..]);
      JoinSplits(Code(reasons[0]), Explain(reasons[1..]), Codes(reasons[1..]));
      assert Codes(reasons) == [Code(reasons[0])] + Codes(reasons[1..]);
    }
  }

  // Which requests to prepare are stored, and which refusal the others get.
  lemma PreparesExactly(db: Db, id: HexId, seen: seq<JobTarget>, admin: Option<CheckStatus>,
                        reports: map<nat, CheckStatus>, confirmation: Option<bool>)
    ensures var stored := id in db.jobs && id in db.targets;
            var same := stored && TargetStations(db.targets[id]) == TargetStations(seen);
            var early := stored && db.jobs[id].status in {Draft, Preflight, AwaitingConfirmation};
            var covered := stored && forall t | t in db.targets[id] && t.selected :: t.station in reports;
            var r := PrepareCommit(db, id, seen, admin, reports, confirmation).0;
            && (r.NotFound? <==> !stored) && (r.SelectionChanged? <==> stored && !same)
            && (r.WrongState? <==> same && !early) && (r.MissingReport? <==> same && early && !covered)
            && (r.Prepared? <==> same && early && covered)
  {
    if id in db.jobs && AcceptsPreflight(db.jobs[id].status) {
      UpdateJobMoves(db.jobs[id], GateReasons(admin, reports, SelectedStations(seen), confirmation), confirmation);
    }
  }

  // ---- the last transaction ----

  // A target's stored result is that of its station; a target without one keeps what it had.
  predicate HoldsResult(before: JobTarget, after: JobTarget, r: TargetResult) {
    && after.station == before.station && after.selected == before.selected && after.preflight == before.preflight
    && after.oldMapping == r.oldMapping && after.newMapping == r.newMapping && after.outcome == Some(r.status)
    && after.errorCode == r.errorCode && after.progress == 100
  }

  lemma {:induction false} ResultsStored(targets: seq<JobTarget>, results: seq<TargetResult>, k: nat)
    requires k < |targets| && forall i, j | 0 <= i < j < |results| :: results[i].station != results[j].station
    ensures var after := WithResults(targets, results);
            && |after| == |targets|
            && (forall i | 0 <= i < |results| && results[i].station == targets[k].station ::
                  HoldsResult(targets[k], after[k], results[i]))
            && ((forall r | r in results :: r.station != targets[k].station) ==> after[k] == targets[k])
  {
    ResultsKeepClearance(targets, results);
    if results != [] {
      var last := |results| - 1;
      ResultsKeepClearance(targets, results[..last]);
      ResultsStored(targets, results[..last], k);
      assert results == results[..last] + [results[last]];
      forall r | r in results[..last] && results[last].station == targets[k].station ensures r.station != targets[k].station {
        var i :| 0 <= i < last && results[i] == r;
      }
    }
  }

  // The station was switched for good by this run.
  predicate Switched(loaded: Job, results: seq<TargetResult>, station: nat) {
    !loaded.request.dryRun && exists r :: r in results && r.status == Verified && r.station == station
  }

  lemma {:induction false} StampsExactly(stamps: map<nat, int>, loaded: Job, results: seq<TargetResult>, now: int, station: nat)
    ensures var after := StampAll(stamps, loaded, results, now);
            if Switched(loaded, results, station) then station in after && after[station] == now
            else (station in after <==> station in stamps) && (station in stamps ==> after[station] == stamps[station])
  {
    if results != [] {
      var init, last := results[..|results| - 1], results[|results| - 1];
      StampsExactly(stamps, loaded, init, now, station);
      assert results == init + [last];
    }
  }

  // The transaction commits exactly when the job is still there with the stations it was read with, and no station it
  // switched was deleted meanwhile; it then stores the job, and of other jobs nothing.
  lemma PersistsExactly(db: Db, loaded: Job, seen: seq<JobTarget>, job: Job, master: string, results: seq<TargetResult>,
                        now: int, gone: set<nat>)
    ensures var (committed, after) := PersistResult(db, loaded, seen, job, master, results, now, gone);
            && (committed <==> && loaded.id in db.jobs && loaded.id in db.targets
                               && TargetStations(db.targets[loaded.id]) == TargetStations(seen)
                               && forall s | s in gone :: !Switched(loaded, results, s))
            && (!committed ==> after == db)
            && (committed ==>
                  && after.jobs == db.jobs[loaded.id := job] && after.keys == db.keys && after.events == db.events
                  && loaded.id in after.targets && after.targets == db.targets[loaded.id := after.targets[loaded.id]]
                  && after.targets[loaded.id] == WithResults(db.targets[loaded.id], results)
                  && after.clones == Artifacts.Persisted(db.clones, loaded, results, master, now)
                  && after.stamps == StampAll(db.stamps, loaded, results, now))
  {
    if AllRegistered(loaded, results, gone) {
      forall s | s in gone ensures !Switched(loaded, results, s) {
      }
    } else {
      var r :| r in results && Updated(loaded, r) && r.station in gone;
      assert Switched(loaded, results, r.station);
    }
  }

  // ---- what the queue carries ----

  // An event names its job, with the key and the correlation the job was created with.
  predicate NamesJob(db: Db, e: Event) {
    e.job in db.jobs && e.key == db.jobs[e.job].key && e.correlation == db.jobs[e.job].correlation
  }

  predicate AllNamed(db: Db) { forall k | 0 <= k < |db.events| :: NamesJob(db, db.events[k]) }

  predicate FromOutbox(s: System) { forall k | 0 <= k < |s.messages| :: s.messages[k] in s.db.events }

  // Jobs keep their keys and correlations; at most one event is added, that of a stored job.
  predicate KeepsNames(before: Db, after: Db) {
    && (forall id | id in before.jobs ::
          && id in after.jobs && after.jobs[id].key == before.jobs[id].key
          && after.jobs[id].correlation == before.jobs[id].correlation)
    && before.events <= after.events
    && forall k | |before.events| <= k < |after.events| :: NamesJob(after, after.events[k])
  }

  lemma NamesKept(before: Db, after: Db)
    requires AllNamed(before) && KeepsNames(before, after)
    ensures AllNamed(after)
  {
    forall k | 0 <= k < |after.events| ensures NamesJob(after, after.events[k]) {
      if k < |before.events| { assert NamesJob(before, before.events[k]); }
    }
  }

  lemma PrepareKeepsNames(db: Db, a: Action)
    requires a.DoPrepare?
    ensures KeepsNames(db, PrepareCommit(db, a.job, a.seen, a.admin, a.reports, a.confirmation).1)
  {
    PipelineReports.PrepareStores(db, a.job, a.seen, a.admin, a.reports, a.confirmation);
    if a.job in db.jobs && AcceptsPreflight(db.jobs[a.job].status) {
      UpdateJobMoves(db.jobs[a.job], GateReasons(a.admin, a.reports, SelectedStations(a.seen), a.confirmation), a.confirmation);
    }
  }

  lemma CreateKeepsNames(db: Db, id: HexId, key: string, correlation: nat, request: Request, stationIds: seq<nat>,
                         stations: map<nat, StationRow>)
    requires id !in db.jobs
    ensures KeepsNames(db, Create(db, id, key, correlation, request, stationIds, stations).1)
  {
  }

  lemma DispatchKeepsNames(db: Db, id: HexId)
    ensures KeepsNames(db, Dispatch(db, id).1)
  {
  }

  lemma PersistKeepsNames(s: System, job: HexId, now: int, gone: set<nat>)
    requires SystemOk(s)
    ensures KeepsNames(s.db, Finish(s, job, now, gone).db)
  {
    if job in s.deliveries && s.deliveries[job].outcome.Some? {
      var d := s.deliveries[job];
      assert DeliveryOk(s.db, job, d) && JobOk(s.db, job);
      PersistChanges(s.db, job, d, now, gone);
    }
  }

  lemma StepKeepsNames(s: System, a: Action)
    requires SystemOk(s) && PipelineSafety.Allowed(s, a)
    ensures KeepsNames(s.db, Step(s, a).db)
  {
    match a
    case DoPrepare(_, _, _, _, _) => PrepareKeepsNames(s.db, a);
    case DoPersist(job, now, gone) =>
      PersistKeepsNames(s, job, now, gone);
      StepIsFinish(s, a);
    case DoCreate(newId, key, correlation, request, stationIds, rows) =>
      CreateKeepsNames(s.db, newId, key, correlation, request, stationIds, rows);
    case DoDispatch(job) => DispatchKeepsNames(s.db, job);
    case _ => PipelineReports.OtherSteps(s, a);
  }

  lemma StepFromOutbox(s: System, a: Action)
    requires FromOutbox(s) && KeepsNames(s.db, Step(s, a).db)
    ensures FromOutbox(Step(s, a))
  {
    var t := Step(s, a);
    forall k | 0 <= k < |t.messages| ensures t.messages[k] in t.db.events {
      if k < |s.messages| {
        var j :| 0 <= j < |s.db.events| && s.db.events[j] == s.messages[k];
        assert t.db.events[j] == s.messages[k];
      }
    }
  }

  // In every run each message is an event of the outbox, and each event names its job as it was created.
  lemma {:induction false} MessagesName(world: World, clones: Artifacts.Table, actions: seq<Action>)
    requires AllowedAll(Start(world, clones), actions)
    ensures var s := StepAll(Start(world, clones), actions); AllNamed(s.db) && FromOutbox(s)
  {
    if actions != [] {
      var init, last := actions[..|actions| - 1], actions[|actions| - 1];
      MessagesName(world, clones, init);
      PipelineSafeFromStart(world, clones, init);
      var s := StepAll(Start(world, clones), init);
      StepKeepsNames(s, last);
      NamesKept(s.db, Step(s, last).db);
      StepFromOutbox(s, last);
    }
  }

  // So no delivery fails to find its job: a message starts one exactly when its job is still to be published and no
  // other delivery has it, and reads the job and its targets as they are stored.
  lemma DeliversExactly(world: World, clones: Artifacts.Table, actions: seq<Action>, k: nat)
    requires AllowedAll(Start(world, clones), actions)
    requires k < |StepAll(Start(world, clones), actions).messages|
    ensures var s := StepAll(Start(world, clones), actions);
            var m := s.messages[k];
            && m.job in s.db.jobs && m.job in s.db.targets
            && Load(s, m) == if s.db.jobs[m.job].status == Publishing && m.job !in s.deliveries
                             then s.(deliveries := s.deliveries[m.job := Delivery(s.db.jobs[m.job], s.db.targets[m.job], None)])
                             else s
  {
    MessagesName(world, clones, actions);
    PipelineSafeFromStart(world, clones, actions);
    var s := StepAll(Start(world, clones), actions);
    LoadsNamed(s, s.messages[k]);
  }

  lemma LoadsNamed(s: System, m: Event)
    requires SystemOk(s) && AllNamed(s.db) && m in s.db.events
    ensures m.job in s.db.jobs && m.job in s.db.targets
    ensures Load(s, m) == if s.db.jobs[m.job].status == Publishing && m.job !in s.deliveries
                          then s.(deliveries := s.deliveries[m.job := Delivery(s.db.jobs[m.job], s.db.targets[m.job], None)])
                          else s
  {
    var k :| 0 <= k < |s.db.events| && s.db.events[k] == m;
    assert NamesJob(s.db, s.db.events[k]);
    StoredOk(s.db, m.job);
    CountZero(s.db.events, m.job);
    SomeSelected(s.db.targets[m.job]);
  }

  lemma {:induction false} SomeSelected(targets: seq<JobTarget>)
    ensures SelectedStations(targets) != [] <==> exists t :: t in targets && t.selected
  {
    if targets != [] {
      SomeSelected(targets[1..]);
      assert targets == [targets[0]] + targets[1..];
    }
  }

  // Dispatch changes the status, clears the reason and adds the event of the job; a refused one changes nothing.
  lemma DispatchStores(db: Db, id: HexId)
    ensures var (sent, after) := Dispatch(db, id);
            if sent then
              && id in db.jobs
              && after == db.(jobs := db.jobs[id := db.jobs[id].(status := Publishing, reason := None)],
                              events := db.events + [Event(id, db.jobs[id].correlation, db.jobs[id].key)])
            else after == db
  {
  }
}
