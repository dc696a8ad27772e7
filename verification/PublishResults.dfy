// What the results of a publish run say about the storage it leaves behind.
module PublishResults {
  import opened Text
  import opened Naming
  import opened PublishJobs
  import opened Storage
  import opened PublishRun

  // Between two worlds, only one extent may have moved, and only to the given device.
  predicate OnlyExtent(s: Storage, t: Storage, extent: int, device: string) {
    && t.associations == s.associations && t.targets == s.targets
    && (extent in s.extents ==> t.extents.Keys == s.extents.Keys)
    && (forall e | e in s.extents && e != extent :: e in t.extents && t.extents[e] == s.extents[e])
    && (extent in s.extents ==> t.extents[extent] == s.extents[extent] || t.extents[extent] == Some(device))
    && s.datasets <= t.datasets && s.snapshots == t.snapshots
  }

  predicate Attempted(w: World, w': World, plan: Plan) {
    var update := UpdateExtent(plan.mapping.extent, plan.Device());
    && NeedsSwitch(plan)
    && (Accepts(update) ==> exists k | |w.log| <= k < |w'.log| :: w'.log[k].call == update)
  }

  lemma PerformEffect(w: World, call: Call)
    ensures var w' := Perform(w, call).1;
            && w.log <= w'.log
            && (w'.storage == w.storage || w'.storage == Apply(w.storage, call))
            && (Perform(w, call).0.Ok? ==> w'.storage == Apply(w.storage, call))
            && (Accepts(call) ==> |w'.log| == |w.log| + 1 && w'.log[|w.log|].call == call)
  {
  }

  lemma VerifyReads(w: World, plan: Plan)
    ensures var (signal, w') := VerifyReadBack(w, plan);
            && w'.storage == w.storage && w.log <= w'.log
            && (signal.Ok? ==> ReadBackMatches(w.storage, plan))
  {
    PerformEffect(w, QueryTargetExtents);
    PerformEffect(Perform(w, QueryTargetExtents).1, QueryExtents);
  }

  lemma CloneEffect(w: World, snapshot: string, plan: Plan)
    ensures var (cloned, w') := CloneIfMissing(w, snapshot, plan);
            && OnlyExtent(w.storage, w'.storage, plan.mapping.extent, plan.Device())
            && w'.storage.extents == w.storage.extents && w.log <= w'.log
            && (cloned.Ok? ==> HasDataset(w'.storage.datasets, plan.destination))
  {
    var clone := CloneSnapshot(snapshot, plan.destination);
    PerformEffect(w, clone);
    var d := Dataset(plan.destination, plan.destination);
    assert d in w.storage.datasets + [d];
  }

  lemma SwitchEffect(w: World, plan: Plan)
    ensures var (switched, w') := SwitchIfNeeded(w, plan);
            && OnlyExtent(w.storage, w'.storage, plan.mapping.extent, plan.Device())
            && w'.storage.datasets == w.storage.datasets && w.log <= w'.log
            && (if NeedsSwitch(plan) then Attempted(w, w', plan) else w' == w && switched.Ok?)
  {
    DeviceAccepted(plan.destination);
    assert CanonicalDiskDevice(plan.Device()) == plan.Device() by { assert plan.Device()[0] == 'z'; }
    PerformEffect(w, UpdateExtent(plan.mapping.extent, plan.Device()));
  }

  lemma TryEffect(w: World, snapshot: string, plan: Plan)
    ensures var a := TrySwitch(w, snapshot, plan);
            && OnlyExtent(w.storage, a.world.storage, plan.mapping.extent, plan.Device())
            && w.log <= a.world.log
            && (a.signal.Ok? ==> ReadBackMatches(a.world.storage, plan))
            && (a.storageCreated ==> HasDataset(a.world.storage.datasets, plan.destination))
            && (if a.writeAttempted then Attempted(w, a.world, plan)
                else a.world.storage.extents == w.storage.extents)
  {
    PerformEffect(w, QueryDatasets);
    var w1 := Perform(w, QueryDatasets).1;
    CloneEffect(w1, snapshot, plan);
    var w2 := CloneIfMissing(w1, snapshot, plan).1;
    SwitchEffect(w2, plan);
    var w3 := SwitchIfNeeded(w2, plan).1;
    VerifyReads(w3, plan);
  }

  // What a result means in the storage `t` that its station's step left behind.
  predicate Honest(w: World, w': World, t: Storage, plan: Plan, r: TargetResult) {
    && r.station == plan.station
    && r.oldMapping == plan.mapping.oldDevice && r.newMapping == Some(plan.Device())
    && r.status in {Verified, Error, RecoveryRequired}
    && (r.status == Verified ==> r.storageCreated && ReadBackMatches(t, plan))
    && (r.status == Error && plan.mapping.extent in w.storage.extents ==>
          plan.mapping.extent in t.extents
          && t.extents[plan.mapping.extent] == w.storage.extents[plan.mapping.extent])
    && (r.status == RecoveryRequired ==> Attempted(w, w', plan))
    && (r.storageCreated ==> HasDataset(t.datasets, plan.destination))
  }

  lemma ApplyHonest(w: World, snapshot: string, plan: Plan)
    ensures var (r, w') := ApplyStation(w, snapshot, plan);
            && OnlyExtent(w.storage, w'.storage, plan.mapping.extent, plan.Device())
            && w.log <= w'.log
            && (r.Some? ==> Honest(w, w', w'.storage, plan, r.value))
  {
    TryEffect(w, snapshot, plan);
    var a := TrySwitch(w, snapshot, plan);
    VerifyReads(a.world, plan);
    var w2 := VerifyReadBack(a.world, plan).1;
    if a.writeAttempted && Accepts(UpdateExtent(plan.mapping.extent, plan.Device())) {
      var k :| |w.log| <= k < |a.world.log| && a.world.log[k].call == UpdateExtent(plan.mapping.extent, plan.Device());
      assert w2.log[k] == a.world.log[k];
    }
  }

  predicate DistinctExtents(plans: seq<Plan>) {
    forall i, j | 0 <= i < j < |plans| :: plans[i].mapping.extent != plans[j].mapping.extent
  }

  // The effect of several steps: untouched extents stay, nothing else but datasets moves.
  predicate OnlyExtents(s: Storage, t: Storage, plans: seq<Plan>) {
    && t.associations == s.associations && t.targets == s.targets && t.snapshots == s.snapshots
    && s.datasets <= t.datasets
    && s.extents.Keys <= t.extents.Keys
    && forall e | e in s.extents && (forall p | p in plans :: p.mapping.extent != e) ::
         t.extents[e] == s.extents[e]
  }

  predicate AllHonest(w: World, w': World, plans: seq<Plan>, results: seq<TargetResult>) {
    && |results| == |plans|
    && forall i | 0 <= i < |plans| :: Honest(w, w', w'.storage, plans[i], results[i])
  }

  lemma {:induction false} ApplyAllHonest(w: World, snapshot: string, plans: seq<Plan>)
    requires DistinctExtents(plans) && forall p | p in plans :: p.mapping.extent in w.storage.extents
    ensures var (results, w') := ApplyAll(w, snapshot, plans);
            && OnlyExtents(w.storage, w'.storage, plans) && w.log <= w'.log
            && (results.Some? ==> AllHonest(w, w', plans, results.value))
    decreases plans
  {
    if plans != [] {
      ApplyHonest(w, snapshot, plans[0]);
      var (first, w1) := ApplyStation(w, snapshot, plans[0]);
      assert OnlyExtents(w.storage, w1.storage, plans);
      if first.Some? {
        forall p | p in plans[1..] ensures p.mapping.extent in w1.storage.extents {
          assert p in plans;
        }
        ApplyAllHonest(w1, snapshot, plans[1..]);
        var (rest, w2) := ApplyAll(w1, snapshot, plans[1..]);
        OnlyExtentsCompose(w.storage, w1.storage, w2.storage, plans);
        if rest.Some? {
          FirstStaysHonest(w, w1, w2, plans, first.value);
          RestHonest(w, w1, w2, plans, rest.value);
        }
      }
    }
  }

  lemma OnlyExtentsCompose(s: Storage, t: Storage, u: Storage, plans: seq<Plan>)
    requires plans != [] && OnlyExtents(s, t, plans) && OnlyExtents(t, u, plans[1..])
    ensures OnlyExtents(s, u, plans)
  {
    forall e | e in s.extents && (forall p | p in plans :: p.mapping.extent != e)
      ensures u.extents[e] == s.extents[e]
    {
      assert e in t.extents;
      assert forall p | p in plans[1..] :: p in plans;
    }
  }

  lemma FirstStaysHonest(w: World, w1: World, w2: World, plans: seq<Plan>, r: TargetResult)
    requires plans != [] && DistinctExtents(plans) && plans[0].mapping.extent in w.storage.extents
    requires OnlyExtents(w.storage, w1.storage, plans) && OnlyExtents(w1.storage, w2.storage, plans[1..])
    requires w1.log <= w2.log
    requires Honest(w, w1, w1.storage, plans[0], r)
    ensures Honest(w, w2, w2.storage, plans[0], r)
  {
    var plan := plans[0];
    var e := plan.mapping.extent;
    assert e in w1.storage.extents;
    assert w2.storage.extents[e] == w1.storage.extents[e];
    if r.status == RecoveryRequired && Accepts(UpdateExtent(e, plan.Device())) {
      var k :| |w.log| <= k < |w1.log| && w1.log[k].call == UpdateExtent(e, plan.Device());
      assert w2.log[k] == w1.log[k];
    }
  }

  lemma RestHonest(w: World, w1: World, w2: World, plans: seq<Plan>, rest: seq<TargetResult>)
    requires plans != [] && DistinctExtents(plans)
    requires forall p | p in plans :: p.mapping.extent in w.storage.extents
    requires OnlyExtent(w.storage, w1.storage, plans[0].mapping.extent, plans[0].Device())
    requires w.log <= w1.log && AllHonest(w1, w2, plans[1..], rest)
    ensures forall i | 0 < i < |plans| :: Honest(w, w2, w2.storage, plans[i], rest[i - 1])
  {
    forall i | 0 < i < |plans| ensures Honest(w, w2, w2.storage, plans[i], rest[i - 1]) {
      var plan := plans[i];
      assert plan == plans[1..][i - 1];
      assert Honest(w1, w2, w2.storage, plan, rest[i - 1]);
      assert w1.storage.extents[plan.mapping.extent] == w.storage.extents[plan.mapping.extent];
    }
  }

  // ---- the run ----

  // The plans of a run that gets past its read-only part.
  function PlansAt(s: Storage, job: Job, stations: seq<Station>): seq<Plan> {
    var mappings := Resolve(s, stations);
    if mappings == None then [] else BuildPlans(job, stations, mappings.value)
  }

  lemma {:induction false} ResolvedExtentsExist(s: Storage, stations: seq<Station>)
    ensures Resolve(s, stations).Some? ==>
              forall i | 0 <= i < |stations| ::
                && Resolve(s, stations).value[i].extent in s.extents
                && Resolve(s, stations).value[i].oldDevice == s.extents[Resolve(s, stations).value[i].extent]
  {
    if stations != [] {
      ResolvedExtentsExist(s, stations[1..]);
    }
  }

  lemma LocateReads(w: World, job: Job, stations: seq<Station>)
    ensures var (located, w') := Locate(w, job, stations);
            && w'.storage == w.storage && w.log <= w'.log
            && (located.Located? ==> located.plans == PlansAt(w.storage, job, stations))
  {
    var w1 := Perform(w, QueryDatasets).1;
    var w2 := Perform(w1, QueryTargets).1;
    var w3 := Perform(w2, QueryTargetExtents).1;
    PerformEffect(w, QueryDatasets);
    PerformEffect(w1, QueryTargets);
    PerformEffect(w2, QueryTargetExtents);
    PerformEffect(w3, QueryExtents);
  }

  lemma EnsureEffect(w: World, job: Job, source: string)
    ensures var w' := EnsureSnapshot(w, job, source).1;
            w'.storage.extents == w.storage.extents && w.log <= w'.log
  {
    PerformEffect(w, QuerySnapshots);
    PerformEffect(Perform(w, QuerySnapshots).1, CreateSnapshot(source, SnapshotName(job.id)));
  }

  // Result soundness at the end of a whole run, relative to the storage before it.
  predicate Sound(w: World, w': World, plan: Plan, r: TargetResult) {
    && Honest(w, w', w'.storage, plan, r)
    && plan.mapping.extent in w.storage.extents
    && plan.mapping.oldDevice == w.storage.extents[plan.mapping.extent]
  }

  lemma SwitchAllSound(w: World, job: Job, master: string, plans: seq<Plan>)
    requires DistinctExtents(plans) && forall p | p in plans :: p.mapping.extent in w.storage.extents
    ensures var (outcome, w') := SwitchAll(w, job, master, plans);
            w.log <= w'.log && (outcome.Finished? ==> AllHonest(w, w', plans, outcome.targets))
  {
    ApplyAllHonest(w, master, plans);
  }

  lemma WriteSound(w: World, job: Job, source: string, plans: seq<Plan>)
    requires DistinctExtents(plans) && forall p | p in plans :: p.mapping.extent in w.storage.extents
    ensures var (outcome, w') := Write(w, job, source, plans);
            w.log <= w'.log && (outcome.Finished? ==> AllHonest(w, w', plans, outcome.targets))
  {
    EnsureEffect(w, job, source);
    var (ensured, w1) := EnsureSnapshot(w, job, source);
    if ensured.Ok? {
      SwitchAllSound(w1, job, SnapshotRef(source, job.id), plans);
      var (outcome, w2) := SwitchAll(w1, job, SnapshotRef(source, job.id), plans);
      if outcome.Finished? {
        AllHonestFromEarlier(w, w1, w2, plans, outcome.targets);
      }
    }
  }

  lemma HonestFromEarlier(w: World, w1: World, w2: World, plan: Plan, r: TargetResult)
    requires w.log <= w1.log && w.storage.extents == w1.storage.extents
    requires Honest(w1, w2, w2.storage, plan, r)
    ensures Honest(w, w2, w2.storage, plan, r)
  {
  }

  lemma AllHonestFromEarlier(w: World, w1: World, w2: World, plans: seq<Plan>, results: seq<TargetResult>)
    requires w.log <= w1.log && w1.storage.extents == w.storage.extents && AllHonest(w1, w2, plans, results)
    ensures AllHonest(w, w2, plans, results)
  {
    forall i | 0 <= i < |plans| ensures Honest(w, w2, w2.storage, plans[i], results[i]) {
      assert Honest(w1, w2, w2.storage, plans[i], results[i]);
      HonestFromEarlier(w, w1, w2, plans[i], results[i]);
    }
  }

  predicate AllSound(w: World, w': World, plans: seq<Plan>, results: seq<TargetResult>) {
    && |results| == |plans|
    && forall i | 0 <= i < |plans| :: Sound(w, w', plans[i], results[i])
  }

  lemma AllSoundFromWrite(w: World, w1: World, w': World, plans: seq<Plan>, results: seq<TargetResult>)
    requires w.log <= w1.log && w.storage == w1.storage && AllHonest(w1, w', plans, results)
    requires forall p | p in plans :: p.mapping.extent in w.storage.extents
                                      && p.mapping.oldDevice == w.storage.extents[p.mapping.extent]
    ensures AllSound(w, w', plans, results)
  {
    forall i | 0 <= i < |plans| ensures Sound(w, w', plans[i], results[i]) {
      assert Honest(w1, w', w'.storage, plans[i], results[i]);
      HonestFromEarlier(w, w1, w', plans[i], results[i]);
    }
  }

  lemma PlansRead(s: Storage, job: Job, stations: seq<Station>)
    ensures forall p | p in PlansAt(s, job, stations) ::
              p.mapping.extent in s.extents && p.mapping.oldDevice == s.extents[p.mapping.extent]
    ensures forall i | 0 <= i < |PlansAt(s, job, stations)| :: i < |stations|
              && PlansAt(s, job, stations)[i].station == stations[i].id
  {
    ResolvedExtentsExist(s, stations);
  }

  // Under every fault schedule, a finished run on distinct extents reports one honest result per
  // station in order, and its status summarises them: COMPLETED means every extent is switched.
  lemma RunSound(w: World, job: Job, stations: seq<Station>, confirmed: bool)
    requires !job.request.dryRun && DistinctExtents(PlansAt(w.storage, job, stations))
    ensures var plans, (outcome, w') := PlansAt(w.storage, job, stations), Execute(w, job, stations, confirmed);
            outcome.Finished? ==>
              && |plans| == |stations| && AllSound(w, w', plans, outcome.targets)
              && (forall i | 0 <= i < |plans| :: outcome.targets[i].station == stations[i].id)
              && (outcome.job.status == Completed ==>
                    forall p | p in plans :: ReadBackMatches(w'.storage, p))
  {
    var plans := PlansAt(w.storage, job, stations);
    var (outcome, w') := Execute(w, job, stations, confirmed);
    if outcome.Finished? {
      PlansRead(w.storage, job, stations);
      LocateReads(w, job, stations);
      var (located, w1) := Locate(w, job, stations);
      WriteSound(w1, EnterPublishing(job).value.value, located.source, plans);
      AllSoundFromWrite(w, w1, w', plans, outcome.targets);
      RunConcludes(w, job, stations, confirmed);
      CompletedMatches(w, w', plans, outcome);
    }
  }

  lemma CompletedMatches(w: World, w': World, plans: seq<Plan>, outcome: Outcome)
    requires outcome.Finished? && AllSound(w, w', plans, outcome.targets)
    requires outcome.job.status == Completed ==> forall r | r in outcome.targets :: r.status == Verified
    ensures outcome.job.status == Completed ==> forall p | p in plans :: ReadBackMatches(w'.storage, p)
  {
    if outcome.job.status == Completed {
      forall p | p in plans ensures ReadBackMatches(w'.storage, p) {
        var i :| 0 <= i < |plans| && plans[i] == p;
        assert Sound(w, w', plans[i], outcome.targets[i]);
        assert outcome.targets[i] in outcome.targets;
      }
    }
  }

  // The terminal status a set of results calls for.
  predicate Summarises(status: JobStatus, results: seq<TargetResult>) {
    && (status == Completed <==> forall r | r in results :: r.status == Verified)
    && (status == Failed <==> results != [] && forall r | r in results :: r.status != Verified)
    && Terminal(status)
  }

  predicate WellConcluded(job: Job, outcome: Outcome) {
    && !outcome.IllegalTransition? && !outcome.Rejected?
    && (outcome.Finished? ==>
          && outcome.job == job.(status := outcome.job.status)
          && Summarises(outcome.job.status, outcome.targets))
  }

  lemma SwitchAllStatus(w: World, job: Job, master: string, plans: seq<Plan>)
    requires job.status == Publishing
    ensures WellConcluded(job, SwitchAll(w, job, master, plans).0)
  {
    var results := ApplyAll(w, master, plans).0;
    assert job.Transition(Switching) == Some(job.(status := Switching));
    assert job.(status := Switching).Transition(Verifying) == Some(job.(status := Verifying));
    if results.Some? {
      ConcludeStatus(job.(status := Verifying), master, results.value);
    }
  }

  lemma ConcludeStatus(job: Job, master: string, results: seq<TargetResult>)
    requires job.status == Verifying
    ensures var outcome := Conclude(job, master, results);
            && outcome.Finished? && outcome.targets == results
            && outcome.job == job.(status := outcome.job.status)
            && Summarises(outcome.job.status, results)
  {
    VerifiedCounts(results);
  }

  lemma PublishingReaches(last: JobStatus)
    requires Terminal(last)
    ensures CanReach(Publishing, last)
  {
    ReachBy([Publishing, Switching, Verifying, last]);
  }

  lemma Entering(job: Job)
    ensures var entered := EnterPublishing(job);
            && (entered.Some? <==> job.status in {Draft, Publishing})
            && (entered.Some? ==> && entered.value == Some(job.(status := Publishing))
                                  && CanReach(job.status, Publishing))
  {
    if job.status == Draft {
      ReachBy([Draft, Preflight, AwaitingConfirmation, Publishing]);
    } else if job.status == Publishing {
      ReachBy([Publishing]);
    }
  }

  lemma WriteStatus(w: World, job: Job, source: string, plans: seq<Plan>)
    requires job.status == Publishing
    ensures WellConcluded(job, Write(w, job, source, plans).0)
  {
    var (ensured, w1) := EnsureSnapshot(w, job, source);
    SwitchAllStatus(w1, job, SnapshotRef(source, job.id), plans);
  }

  predicate RunConcluded(job: Job, mayRun: bool, outcome: Outcome) {
    && !outcome.IllegalTransition?
    && (outcome.Rejected? <==> !mayRun || job.status !in {Draft, Publishing})
    && (outcome.Finished? ==>
          && outcome.job == job.(status := outcome.job.status, reason := outcome.job.reason)
          && (if job.request.dryRun then outcome.job.status == Completed
              else Summarises(outcome.job.status, outcome.targets)))
  }

  lemma RunConcludes(w: World, job: Job, stations: seq<Station>, confirmed: bool)
    ensures RunConcluded(job, Startable(stations, confirmed), Execute(w, job, stations, confirmed).0)
  {
    if Startable(stations, confirmed) && job.status in {Draft, Publishing} {
      Enters(job);
      NotLocatedOutcome(w, job, stations);
      var (located, w1) := Locate(w, job, stations);
      if located.Located? {
        WriteStatus(w1, job.(status := Publishing), located.source, located.plans);
      }
    }
  }

  lemma Enters(job: Job)
    ensures EnterPublishing(job) == if job.status in {Draft, Publishing} then Some(Some(job.(status := Publishing))) else None
  {
  }

  // No step of a run ever tries a transition outside the table, and a finished run ends in the
  // terminal status its results call for, reached through the table from the job's own status.
  lemma RunStatus(w: World, job: Job, stations: seq<Station>, confirmed: bool)
    ensures var outcome := Execute(w, job, stations, confirmed).0;
            && RunConcluded(job, Startable(stations, confirmed), outcome)
            && (outcome.Finished? ==> CanReach(job.status, outcome.job.status) && Terminal(outcome.job.status))
  {
    RunConcludes(w, job, stations, confirmed);
    if Execute(w, job, stations, confirmed).0.Finished? {
      ConcludedReaches(job, Startable(stations, confirmed), Execute(w, job, stations, confirmed).0);
    }
  }

  lemma ConcludedReaches(job: Job, mayRun: bool, outcome: Outcome)
    requires RunConcluded(job, mayRun, outcome) && outcome.Finished?
    ensures CanReach(job.status, outcome.job.status) && Terminal(outcome.job.status)
  {
    Entering(job);
    PublishingReaches(outcome.job.status);
    ReachTransitive(job.status, Publishing, outcome.job.status);
  }

  lemma NotLocatedOutcome(w: World, job: Job, stations: seq<Station>)
    ensures var located := Locate(w, job, stations).0;
            located.NotLocated? ==> located.outcome in {Aborted, Died}
  {
  }

  lemma {:induction false} VerifiedCounts(results: seq<TargetResult>)
    ensures CountVerified(results) == 0 <==> forall r | r in results :: r.status != Verified
  {
    if results != [] {
      VerifiedCounts(results[1..]);
      assert results == [results[0]] + results[1..];
    }
  }

  // The results of a finished run are those of its plans, one station after the other.
  lemma FinishedFromPlans(w: World, job: Job, stations: seq<Station>, confirmed: bool)
    requires !job.request.dryRun && Execute(w, job, stations, confirmed).0.Finished?
    ensures var (outcome, w') := Execute(w, job, stations, confirmed);
            exists start ::
              ApplyAll(start, outcome.master, PlansAt(w.storage, job, stations)) == (Some(outcome.targets), w')
  {
    LocateReads(w, job, stations);
    var (located, w1) := Locate(w, job, stations);
    Enters(job);
    WriteFromPlans(w1, job.(status := Publishing), located.source, located.plans);
  }

  lemma WriteFromPlans(w: World, job: Job, source: string, plans: seq<Plan>)
    ensures var (outcome, w') := Write(w, job, source, plans);
            outcome.Finished? ==>
              exists start :: ApplyAll(start, outcome.master, plans) == (Some(outcome.targets), w')
  {
    var w1 := EnsureSnapshot(w, job, source).1;
    var (results, w') := ApplyAll(w1, SnapshotRef(source, job.id), plans);
  }
}
