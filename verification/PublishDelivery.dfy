// One undisturbed delivery of a dispatched job, from the queued message to the stored result.
module PublishDelivery {
  import opened Text
  import opened Naming
  import opened PublishJobs
  import opened Storage
  import opened Artifacts
  import opened Pipeline
  import opened PipelineSafety
  import PublishRun
  import PublishSafety
  import PublishResults
  import PublishConvergence
  import PublishReconcile

  // ---- what the results of a finished run report ----

  predicate Reports(p: PublishRun.Plan, r: TargetResult) {
    && r.station == p.station && r.newMapping == Some(p.Device())
    && (r.status == Verified ==> r.storageCreated)
  }

  predicate AllReport(plans: seq<PublishRun.Plan>, results: seq<TargetResult>) {
    |results| == |plans| && forall i | 0 <= i < |plans| :: Reports(plans[i], results[i])
  }

  lemma {:induction false} ApplyAllReports(w: World, snapshot: string, plans: seq<PublishRun.Plan>)
    ensures var results := PublishRun.ApplyAll(w, snapshot, plans).0;
            results.Some? ==> AllReport(plans, results.value)
    decreases plans
  {
    if plans != [] {
      PublishResults.ApplyHonest(w, snapshot, plans[0]);
      ApplyAllReports(PublishRun.ApplyStation(w, snapshot, plans[0]).1, snapshot, plans[1..]);
    }
  }

  lemma RunReports(w: World, job: Job, stations: seq<PublishRun.Station>)
    requires !job.request.dryRun && PublishRun.Execute(w, job, stations, true).0.Finished?
    ensures AllReport(PublishResults.PlansAt(w.storage, job, stations),
                      PublishRun.Execute(w, job, stations, true).0.targets)
  {
    var outcome := PublishRun.Execute(w, job, stations, true).0;
    PublishResults.FinishedFromPlans(w, job, stations, true);
    var plans := PublishResults.PlansAt(w.storage, job, stations);
    var start :| PublishRun.ApplyAll(start, outcome.master, plans).0 == Some(outcome.targets);
    ApplyAllReports(start, outcome.master, plans);
  }

  // ---- what persisting such results leaves ----

  ghost predicate HasResult(results: seq<TargetResult>, station: nat) {
    exists r :: r in results && r.station == station
  }

  lemma {:induction false} AllTargetsVerified(targets: seq<JobTarget>, results: seq<TargetResult>)
    requires PublishConvergence.AllVerified(results)
    ensures var after := WithResults(targets, results);
            && |after| == |targets|
            && forall k | 0 <= k < |targets| ::
                 && after[k].station == targets[k].station && after[k].selected == targets[k].selected
                 && (HasResult(results, targets[k].station) ==> after[k].outcome == Some(Verified))
  {
    if results != [] {
      var last := |results| - 1;
      assert results == results[..last] + [results[last]];
      assert results[last] in results;
      AllTargetsVerified(targets, results[..last]);
      forall k | 0 <= k < |targets| && HasResult(results, targets[k].station)
        ensures WithResults(targets, results)[k].outcome == Some(Verified)
      {
        var r :| r in results && r.station == targets[k].station;
        assert r == results[last] || HasResult(results[..last], targets[k].station);
      }
    }
  }

  // The station's only current row is the clone this job made for it.
  ghost predicate OnlyCurrent(rows: seq<Artifact>, job: HexId, station: nat, dataset: string) {
    && (exists k :: 0 <= k < |rows| && rows[k].station == station && rows[k].isCurrent && rows[k].status == Current
                    && rows[k].job == job && rows[k].dataset == dataset)
    && OneCurrent(rows)
  }

  lemma SavedForStation(t: Table, job: Job, results: seq<TargetResult>, master: string, now: int, i: nat,
                        dataset: string)
    requires TableOk(t) && !job.request.dryRun && PublishConvergence.AllVerified(results) && i < |results|
    requires forall k | 0 <= k < |results| && k != i :: results[k].station != results[i].station
    requires results[i].newMapping == Some(DeviceOf(dataset)) && results[i].storageCreated
    ensures OnlyCurrent(Persist(t.rows, job, results, master, t.nextId, now), job.id, results[i].station, dataset)
  {
    var rows := Persist(t.rows, job, results, master, t.nextId, now);
    assert results[i] in results;
    assert DeviceOf(dataset)[0] == 'z';
    PublishReconcile.PersistSaves(t, job, results, master, now, i, dataset);
    var at: nat :| PublishReconcile.SavedAt(t.rows, rows, at, job, results[i].station, dataset);
    assert rows[at].isCurrent;
    Artifacts.PersistOk(t, job, results, master, now);
  }

  // ---- the delivery ----

  // The job is dispatched, its message queued, and nobody is delivering it.
  predicate Loadable(s: System, message: nat, job: Job, targets: seq<JobTarget>) {
    && message < |s.messages| && s.messages[message] == Event(job.id, job.correlation, job.key)
    && job.id in s.db.jobs && job.id in s.db.targets && job.id !in s.deliveries
    && job == s.db.jobs[job.id] && targets == s.db.targets[job.id] && job.status == Publishing
  }

  // The job is COMPLETED, every selected target VERIFIED, each selected station's only current row is its clone.
  ghost predicate Published(job: Job, stations: seq<PublishRun.Station>, db: Db) {
    && job.id in db.jobs && job.id in db.targets && db.jobs[job.id].status == Completed
    && (forall t | t in db.targets[job.id] && t.selected :: t.outcome == Some(Verified))
    && (forall i | 0 <= i < |stations| ::
          OnlyCurrent(db.clones.rows, job.id, stations[i].id, PublishReconcile.CloneOf(job, stations[i])))
  }

  lemma {:induction false} SelectedSpec(targets: seq<JobTarget>)
    ensures forall id :: id in SelectedStations(targets) <==> exists t | t in targets :: t.selected && t.station == id
  {
    if targets != [] {
      SelectedSpec(targets[1..]);
      assert targets == [targets[0]] + targets[1..];
    }
  }

  // Run and persist, from the moment the delivery has read its job.
  lemma PersistPublishes(s: System, job: Job, targets: seq<JobTarget>, stations: seq<PublishRun.Station>, now: int,
                         gone: set<nat>)
    requires job.id in s.db.jobs && job.id in s.db.targets && s.db.targets[job.id] == targets && TableOk(s.db.clones)
    requires PublishConvergence.Ready(s.world.storage, job, stations) && job.status == Publishing
    requires forall id | id in SelectedStations(targets) :: exists i | 0 <= i < |stations| :: stations[i].id == id
    requires forall i | 0 <= i < |stations| :: stations[i].id !in gone
    ensures var (outcome, w') := PublishRun.Execute(s.world.(faults := []), job, stations, true);
            && outcome.Finished?
            && var (committed, db) :=
                 PersistResult(s.db, job, targets, outcome.job, outcome.master, outcome.targets, now, gone);
               committed && Published(job, stations, db)
  {
    var w := s.world.(faults := []);
    PublishConvergence.CleanRun(w, job, stations);
    var outcome := PublishRun.Execute(w, job, stations, true).0;
    RunReports(w, job, stations);
    PlansMirrorStations(w.storage, job, stations);
    var results := outcome.targets;
    ReportedResults(job, stations, PublishResults.PlansAt(w.storage, job, stations), results);
    SelectedVerified(targets, results, stations);
    AllCurrent(s.db.clones, job, stations, results, outcome.master, now);
    PersistReported(s.db, job, targets, stations, outcome.job, outcome.master, results, now, gone);
  }

  // What the reports say of a run whose plans mirror the stations.
  lemma ReportedResults(job: Job, stations: seq<PublishRun.Station>, plans: seq<PublishRun.Plan>,
                        results: seq<TargetResult>)
    requires AllReport(plans, results) && PublishConvergence.AllVerified(results)
    requires |plans| == |stations| && PublishRun.Startable(stations, true)
    requires forall i | 0 <= i < |stations| ::
               plans[i].station == stations[i].id && plans[i].destination == PublishReconcile.CloneOf(job, stations[i])
    ensures |results| == |stations|
    ensures forall i | 0 <= i < |stations| ::
              && results[i].station == stations[i].id && results[i].storageCreated
              && results[i].newMapping == Some(DeviceOf(PublishReconcile.CloneOf(job, stations[i])))
    ensures forall i, k | 0 <= i < |results| && 0 <= k < |results| && k != i :: results[k].station != results[i].station
  {
    PublishReconcile.StationsDistinct(stations);
    forall i | 0 <= i < |stations|
      ensures results[i].station == stations[i].id && results[i].storageCreated
      ensures results[i].newMapping == Some(DeviceOf(PublishReconcile.CloneOf(job, stations[i])))
    {
      assert Reports(plans[i], results[i]) && results[i] in results;
    }
  }

  // One current row for each station of the run, its clone.
  lemma AllCurrent(t: Table, job: Job, stations: seq<PublishRun.Station>, results: seq<TargetResult>, master: string,
                   now: int)
    requires TableOk(t) && !job.request.dryRun && PublishConvergence.AllVerified(results) && |results| == |stations|
    requires forall i | 0 <= i < |stations| ::
               && results[i].station == stations[i].id && results[i].storageCreated
               && results[i].newMapping == Some(DeviceOf(PublishReconcile.CloneOf(job, stations[i])))
    requires forall i, k | 0 <= i < |results| && 0 <= k < |results| && k != i :: results[k].station != results[i].station
    ensures forall i | 0 <= i < |stations| ::
              OnlyCurrent(Persist(t.rows, job, results, master, t.nextId, now), job.id, stations[i].id,
                          PublishReconcile.CloneOf(job, stations[i]))
  {
    forall i | 0 <= i < |stations|
      ensures OnlyCurrent(Persist(t.rows, job, results, master, t.nextId, now), job.id, stations[i].id,
                          PublishReconcile.CloneOf(job, stations[i]))
    {
      SavedForStation(t, job, results, master, now, i, PublishReconcile.CloneOf(job, stations[i]));
    }
  }

  lemma PersistReported(db: Db, job: Job, targets: seq<JobTarget>, stations: seq<PublishRun.Station>,
                        after: Job, master: string, results: seq<TargetResult>, now: int, gone: set<nat>)
    requires job.id in db.jobs && job.id in db.targets && db.targets[job.id] == targets
    requires after.status == Completed && |results| == |stations|
    requires forall i | 0 <= i < |stations| :: results[i].station == stations[i].id && stations[i].id !in gone
    requires forall t | t in WithResults(targets, results) && t.selected :: t.outcome == Some(Verified)
    requires forall i | 0 <= i < |stations| ::
              OnlyCurrent(Persist(db.clones.rows, job, results, master, db.clones.nextId, now), job.id, stations[i].id,
                          PublishReconcile.CloneOf(job, stations[i]))
    ensures var (committed, saved) := PersistResult(db, job, targets, after, master, results, now, gone);
            committed && Published(job, stations, saved)
  {
    forall r | r in results ensures r.station !in gone {
      var i :| 0 <= i < |results| && results[i] == r;
    }
  }

  lemma SelectedVerified(targets: seq<JobTarget>, results: seq<TargetResult>, stations: seq<PublishRun.Station>)
    requires PublishConvergence.AllVerified(results) && |results| == |stations|
    requires forall i | 0 <= i < |stations| :: results[i].station == stations[i].id
    requires forall id | id in SelectedStations(targets) :: exists i | 0 <= i < |stations| :: stations[i].id == id
    ensures forall t | t in WithResults(targets, results) && t.selected :: t.outcome == Some(Verified)
  {
    AllTargetsVerified(targets, results);
    SelectedSpec(targets);
    var after := WithResults(targets, results);
    forall t | t in after && t.selected ensures t.outcome == Some(Verified) {
      var k :| 0 <= k < |after| && after[k] == t;
      assert targets[k] in targets && targets[k].station in SelectedStations(targets);
      var i :| 0 <= i < |stations| && stations[i].id == targets[k].station;
      assert results[i] in results && results[i].station == targets[k].station;
      assert HasResult(results, targets[k].station);
    }
  }

  lemma PlansMirrorStations(s: Storage, job: Job, stations: seq<PublishRun.Station>)
    requires PublishRun.Resolve(s, stations).Some?
    ensures var plans := PublishResults.PlansAt(s, job, stations);
            |plans| == |stations|
            && forall i | 0 <= i < |stations| ::
                 plans[i].station == stations[i].id && plans[i].destination == PublishReconcile.CloneOf(job, stations[i])
  {
  }

  lemma SelectedAreRun(ids: seq<nat>, registry: map<nat, PublishRun.Station>, stations: seq<PublishRun.Station>,
                       gone: set<nat>)
    requires StationsFor(ids, registry) == Some(stations) && (forall id | id in registry :: registry[id].id == id)
    requires forall id | id in ids :: id !in gone
    ensures forall id | id in ids :: exists i | 0 <= i < |stations| :: stations[i].id == id
    ensures forall i | 0 <= i < |stations| :: stations[i].id !in gone
  {
    forall k | k in ids ensures exists i | 0 <= i < |stations| :: stations[i].id == k {
      var i :| 0 <= i < |ids| && ids[i] == k;
      assert stations[i] == registry[ids[i]];
    }
    forall i | 0 <= i < |stations| ensures stations[i].id !in gone {
      assert stations[i] == registry[ids[i]] && ids[i] in ids;
    }
  }

  // One delivery from its message to its transaction, without a disturbance.
  lemma DeliverOnce(s: System, message: nat, job: Job, targets: seq<JobTarget>, stations: seq<PublishRun.Station>,
                    registry: map<nat, PublishRun.Station>, now: int, gone: set<nat>)
    requires SystemOk(s) && TableOk(s.db.clones) && Loadable(s, message, job, targets)
    requires StationsFor(SelectedStations(targets), registry) == Some(stations)
    requires (forall id | id in registry :: registry[id].id == id)
    requires PublishConvergence.Ready(s.world.storage, job, stations)
    requires forall id | id in SelectedStations(targets) :: id !in gone
    ensures var t := Step(Step(Step(s, DoLoad(message)), DoRun(job.id, [], registry)), DoPersist(job.id, now, gone));
            Published(job, stations, t.db) && t.world.storage == PublishConvergence.Finish(s.world.storage, job, stations)
  {
    SelectedAreRun(SelectedStations(targets), registry, stations, gone);
    PersistPublishes(s, job, targets, stations, now, gone);
    PublishConvergence.CleanRun(s.world.(faults := []), job, stations);
    DispatchedJob(s.db, job, targets);
    LoadStep(s, message, job, targets);
    RunAndFinish(s, job, targets, stations, registry, now, gone);
  }

  lemma DeliverAfter(first: System, before: seq<Action>, s: System, message: nat, job: Job, targets: seq<JobTarget>,
                     stations: seq<PublishRun.Station>, registry: map<nat, PublishRun.Station>, now: int, gone: set<nat>)
    requires StepAll(first, before) == s
    requires SystemOk(s) && TableOk(s.db.clones) && Loadable(s, message, job, targets)
    requires StationsFor(SelectedStations(targets), registry) == Some(stations)
    requires (forall id | id in registry :: registry[id].id == id)
    requires PublishConvergence.Ready(s.world.storage, job, stations)
    requires forall id | id in SelectedStations(targets) :: id !in gone
    ensures var t := StepAll(first, before + [DoLoad(message), DoRun(job.id, [], registry), DoPersist(job.id, now, gone)]);
            Published(job, stations, t.db) && t.world.storage == PublishConvergence.Finish(s.world.storage, job, stations)
  {
    DeliverOnce(s, message, job, targets, stations, registry, now, gone);
    Chained(first, before, DoLoad(message), DoRun(job.id, [], registry), DoPersist(job.id, now, gone), s,
            Step(Step(Step(s, DoLoad(message)), DoRun(job.id, [], registry)), DoPersist(job.id, now, gone)));
  }

  lemma RunAndFinish(s: System, job: Job, targets: seq<JobTarget>, stations: seq<PublishRun.Station>,
                     registry: map<nat, PublishRun.Station>, now: int, gone: set<nat>)
    requires job.id !in s.deliveries && job.confirmation == Some(true)
    requires StationsFor(SelectedStations(targets), registry) == Some(stations)
    requires PublishRun.Execute(s.world.(faults := []), job, stations, true).0.Finished?
    ensures var (outcome, world) := PublishRun.Execute(s.world.(faults := []), job, stations, true);
            var loaded := s.(deliveries := s.deliveries[job.id := Delivery(job, targets, None)]);
            Step(Step(loaded, DoRun(job.id, [], registry)), DoPersist(job.id, now, gone))
            == System(PersistResult(s.db, job, targets, outcome.job, outcome.master, outcome.targets, now, gone).1,
                      s.messages, s.deliveries, world)
  {
    var (outcome, world) := PublishRun.Execute(s.world.(faults := []), job, stations, true);
    var loaded := s.(deliveries := s.deliveries[job.id := Delivery(job, targets, None)]);
    var ran := loaded.(world := world, deliveries := loaded.deliveries[job.id := Delivery(job, targets, Some(outcome))]);
    StepIsRun(loaded, DoRun(job.id, [], registry));
    RunStep(loaded, job, targets, stations, registry);
    FinishStep(ran, job, targets, outcome, now, gone);
    assert ran.deliveries - {job.id} == s.deliveries;
  }

  lemma InOrder(s: System, before: seq<Action>, a: Action, b: Action, c: Action)
    ensures StepAll(s, before + [a, b, c]) == Step(StepAll(s, before + [a, b]), c)
    ensures StepAll(s, before + [a, b]) == Step(StepAll(s, before + [a]), b)
    ensures StepAll(s, before + [a]) == Step(StepAll(s, before), a)
  {
    OneMore(s, before, a, before + [a]);
    assert before + [a] + [b] == before + [a, b];
    OneMore(s, before + [a], b, before + [a, b]);
    assert before + [a, b] + [c] == before + [a, b, c];
    OneMore(s, before + [a, b], c, before + [a, b, c]);
  }

  lemma Chained(s: System, before: seq<Action>, a: Action, b: Action, c: Action, mid: System, t: System)
    requires StepAll(s, before) == mid && t == Step(Step(Step(mid, a), b), c)
    ensures StepAll(s, before + [a, b, c]) == t
  {
    InOrder(s, before, a, b, c);
  }

  lemma OneMore(s: System, before: seq<Action>, a: Action, actions: seq<Action>)
    requires actions == before + [a]
    ensures StepAll(s, actions) == Step(StepAll(s, before), a)
  {
    assert actions[..|actions| - 1] == before;
  }

  lemma LoadStep(s: System, message: nat, job: Job, targets: seq<JobTarget>)
    requires Loadable(s, message, job, targets) && SelectedStations(targets) != []
    ensures Step(s, DoLoad(message)) == s.(deliveries := s.deliveries[job.id := Delivery(job, targets, None)])
  {
    LoadsFresh(s, s.messages[message], job, targets);
  }

  lemma DispatchedJob(db: Db, job: Job, targets: seq<JobTarget>)
    requires JobsOk(db) && job.id in db.jobs && db.jobs[job.id] == job && db.targets[job.id] == targets
    requires job.status == Publishing
    ensures job.confirmation == Some(true) && SelectedStations(targets) != []
  {
    assert JobOk(db, job.id);
    SomethingSelected(targets, job);
  }

  lemma SomethingSelected(targets: seq<JobTarget>, job: Job)
    requires Cleared(job, targets)
    ensures SelectedStations(targets) != []
  {
    SelectedSpec(targets);
    var t :| t in targets && t.selected;
    assert t.station in SelectedStations(targets);
  }

  lemma LoadsFresh(s: System, m: Event, job: Job, targets: seq<JobTarget>)
    requires m.job in s.db.jobs && m.job in s.db.targets && m.job !in s.deliveries
    requires job == s.db.jobs[m.job] && targets == s.db.targets[m.job]
    requires m == Event(job.id, job.correlation, job.key) && job.status == Publishing && SelectedStations(targets) != []
    ensures Load(s, m) == s.(deliveries := s.deliveries[m.job := Delivery(job, targets, None)])
  {
  }

  lemma RunStep(s: System, job: Job, targets: seq<JobTarget>, stations: seq<PublishRun.Station>,
                registry: map<nat, PublishRun.Station>)
    requires job.id in s.deliveries && s.deliveries[job.id] == Delivery(job, targets, None)
    requires StationsFor(SelectedStations(targets), registry) == Some(stations) && job.confirmation == Some(true)
    requires PublishRun.Execute(s.world.(faults := []), job, stations, true).0.Finished?
    ensures var (outcome, world) := PublishRun.Execute(s.world.(faults := []), job, stations, true);
            Run(s, job.id, [], registry)
            == s.(world := world, deliveries := s.deliveries[job.id := Delivery(job, targets, Some(outcome))])
  {
  }

  lemma FinishStep(s: System, job: Job, targets: seq<JobTarget>, outcome: PublishRun.Outcome, now: int, gone: set<nat>)
    requires job.id in s.deliveries && s.deliveries[job.id] == Delivery(job, targets, Some(outcome)) && outcome.Finished?
    ensures Step(s, DoPersist(job.id, now, gone))
         == s.(db := PersistResult(s.db, job, targets, outcome.job, outcome.master, outcome.targets, now, gone).1,
               deliveries := s.deliveries - {job.id})
  {
  }

  // ---- deliveries that crash ----

  // Deliveries of one message that each meet faults and are given up before their transaction.
  function Crashes(message: nat, id: HexId, registry: map<nat, PublishRun.Station>,
                   schedules: seq<seq<Fault>>): seq<Action>
  {
    if schedules == [] then []
    else Crashes(message, id, registry, schedules[..|schedules| - 1])
         + [DoLoad(message), DoRun(id, schedules[|schedules| - 1], registry), DoAbandon(id)]
  }

  // They leave everything but the storage as it was.
  lemma {:induction false} CrashesOnlyRun(s: System, message: nat, job: Job, targets: seq<JobTarget>,
                                          stations: seq<PublishRun.Station>, registry: map<nat, PublishRun.Station>,
                                          schedules: seq<seq<Fault>>)
    requires Loadable(s, message, job, targets) && job.confirmation == Some(true) && SelectedStations(targets) != []
    requires StationsFor(SelectedStations(targets), registry) == Some(stations)
    ensures StepAll(s, Crashes(message, job.id, registry, schedules))
            == s.(world := PublishSafety.RunAll(s.world, job, stations, schedules))
  {
    if schedules != [] {
      var init, last := schedules[..|schedules| - 1], schedules[|schedules| - 1];
      CrashesOnlyRun(s, message, job, targets, stations, registry, init);
      OneCrashMore(s, Crashes(message, job.id, registry, init), message, job, targets, stations, registry, init, last);
      assert init + [last] == schedules;
    }
  }

  lemma OneCrashMore(s: System, before: seq<Action>, message: nat, job: Job, targets: seq<JobTarget>,
                     stations: seq<PublishRun.Station>, registry: map<nat, PublishRun.Station>,
                     init: seq<seq<Fault>>, last: seq<Fault>)
    requires Loadable(s, message, job, targets) && job.confirmation == Some(true) && SelectedStations(targets) != []
    requires StationsFor(SelectedStations(targets), registry) == Some(stations)
    requires StepAll(s, before) == s.(world := PublishSafety.RunAll(s.world, job, stations, init))
    ensures StepAll(s, before + [DoLoad(message), DoRun(job.id, last, registry), DoAbandon(job.id)])
            == s.(world := PublishSafety.RunAll(s.world, job, stations, init + [last]))
  {
    CrashAfter(s, before, s.(world := PublishSafety.RunAll(s.world, job, stations, init)), message, job, targets, stations,
               registry, last);
    LastRun(s.world, job, stations, init, last);
  }

  lemma CrashOnlyRuns(s: System, message: nat, job: Job, targets: seq<JobTarget>, stations: seq<PublishRun.Station>,
                      registry: map<nat, PublishRun.Station>, faults: seq<Fault>)
    requires Loadable(s, message, job, targets) && job.confirmation == Some(true) && SelectedStations(targets) != []
    requires StationsFor(SelectedStations(targets), registry) == Some(stations)
    ensures Step(Step(Step(s, DoLoad(message)), DoRun(job.id, faults, registry)), DoAbandon(job.id))
            == s.(world := PublishRun.Execute(s.world.(faults := faults), job, stations, true).1)
  {
    LoadStep(s, message, job, targets);
    var loaded := s.(deliveries := s.deliveries[job.id := Delivery(job, targets, None)]);
    StepIsRun(loaded, DoRun(job.id, faults, registry));
    RunLeaves(loaded, job, targets, stations, registry, faults);
    var ran := Run(loaded, job.id, faults, registry);
    StepDrops(ran, job.id);
    assert ran.deliveries - {job.id} == s.deliveries;
  }

  lemma CrashAfter(first: System, before: seq<Action>, s: System, message: nat, job: Job, targets: seq<JobTarget>,
                   stations: seq<PublishRun.Station>, registry: map<nat, PublishRun.Station>, faults: seq<Fault>)
    requires StepAll(first, before) == s
    requires Loadable(s, message, job, targets) && job.confirmation == Some(true) && SelectedStations(targets) != []
    requires StationsFor(SelectedStations(targets), registry) == Some(stations)
    ensures StepAll(first, before + [DoLoad(message), DoRun(job.id, faults, registry), DoAbandon(job.id)])
            == s.(world := PublishRun.Execute(s.world.(faults := faults), job, stations, true).1)
  {
    CrashOnlyRuns(s, message, job, targets, stations, registry, faults);
    Chained(first, before, DoLoad(message), DoRun(job.id, faults, registry), DoAbandon(job.id), s,
            s.(world := PublishRun.Execute(s.world.(faults := faults), job, stations, true).1));
  }

  lemma RunLeaves(s: System, job: Job, targets: seq<JobTarget>, stations: seq<PublishRun.Station>,
                  registry: map<nat, PublishRun.Station>, faults: seq<Fault>)
    requires job.id in s.deliveries && s.deliveries[job.id] == Delivery(job, targets, None)
    requires StationsFor(SelectedStations(targets), registry) == Some(stations) && job.confirmation == Some(true)
    ensures var ran := Run(s, job.id, faults, registry);
            && ran == s.(world := ran.world, deliveries := ran.deliveries)
            && ran.world == PublishRun.Execute(s.world.(faults := faults), job, stations, true).1
            && ran.deliveries - {job.id} == s.deliveries - {job.id}
  {
  }

  lemma StepDrops(s: System, id: HexId)
    ensures Step(s, DoAbandon(id)) == s.(deliveries := s.deliveries - {id})
  {
  }

  lemma {:induction false} LastRun(w: World, job: Job, stations: seq<PublishRun.Station>, init: seq<seq<Fault>>,
                                   last: seq<Fault>)
    ensures PublishSafety.RunAll(w, job, stations, init + [last])
         == PublishRun.Execute(PublishSafety.RunAll(w, job, stations, init).(faults := last), job, stations, true).1
    decreases init
  {
    if init == [] {
      assert [last][1..] == [] && [] + [last] == [last];
    } else {
      assert (init + [last])[1..] == init[1..] + [last];
      LastRun(PublishRun.Execute(w.(faults := init[0]), job, stations, true).1, job, stations, init[1..], last);
    }
  }

  // From a dispatched job with a queued message and ready storage, whatever faults any number of deliveries met
  // before they were given up: loading, running and persisting once without a disturbance stores the job as
  // COMPLETED, all its targets VERIFIED, one current row per station, and leaves the first storage switched.
  lemma DeliveryPublishes(s: System, message: nat, job: Job, targets: seq<JobTarget>, stations: seq<PublishRun.Station>,
                          registry: map<nat, PublishRun.Station>, schedules: seq<seq<Fault>>, now: int, gone: set<nat>)
    requires SystemOk(s) && TableOk(s.db.clones) && Loadable(s, message, job, targets)
    requires StationsFor(SelectedStations(targets), registry) == Some(stations)
    requires (forall id | id in registry :: registry[id].id == id)
    requires PublishConvergence.Ready(s.world.storage, job, stations)
    requires forall id | id in SelectedStations(targets) :: id !in gone
    ensures var t := StepAll(s, Crashes(message, job.id, registry, schedules)
                                + [DoLoad(message), DoRun(job.id, [], registry), DoPersist(job.id, now, gone)]);
            && Published(job, stations, t.db)
            && PublishConvergence.Converged(PublishSafety.ScopeOf(s.world.storage, job, stations), t.world.storage)
  {
    DispatchedJob(s.db, job, targets);
    CrashesOnlyRun(s, message, job, targets, stations, registry, schedules);
    PublishConvergence.InterruptedConverges(s.world, job, stations, schedules);
    DeliverAfter(s, Crashes(message, job.id, registry, schedules),
                 s.(world := PublishSafety.RunAll(s.world, job, stations, schedules)), message, job, targets, stations,
                 registry, now, gone);
  }
}
