// How a run ends, by the calls it made and the faults they met: station by station, and as a whole.
module PublishOutcomes {
  import opened Text
  import opened Naming
  import opened PublishJobs
  import opened Storage
  import opened PublishRun
  import opened PublishFaults
  import PublishResults

  // ---- why a station fails ----

  function CloneOf(snapshot: string, plan: Plan): Call { CloneSnapshot(snapshot, plan.destination) }

  predicate LastRaised(w: World, w': World) {
    |w.log| < |w'.log| && SignalOf(FaultAt(w, |w'.log| - 1)).Raised?
  }

  // The step began, and if it did not succeed there is a cause: its last call raised, its clone's name was refused,
  // or storage is not as planned.
  predicate HasCause(w: World, w': World, snapshot: string, plan: Plan, ok: bool) {
    && |w.log| < |w'.log| && w'.log[|w.log|].call == QueryDatasets
    && (!ok ==> LastRaised(w, w') || !Accepts(CloneOf(snapshot, plan)) || !ReadBackMatches(w'.storage, plan))
  }

  lemma ReadBackCause(w: World, plan: Plan)
    ensures var (signal, w') := VerifyReadBack(w, plan);
            Continues(w, w') && |w.log| < |w'.log| && (signal.Raised? ==> LastRaised(w, w') || !ReadBackMatches(w'.storage, plan))
  {
    PerformFollows(w, QueryTargetExtents);
    var w1 := Perform(w, QueryTargetExtents).1;
    PerformFollows(w1, QueryExtents);
    FollowsOn(w, w1, Perform(w1, QueryExtents).1);
    assert FaultAt(w1, |w1.log|) == FaultAt(w, |w1.log|);
  }

  lemma LaterRaised(w: World, w1: World, w2: World)
    requires Continues(w, w1) && w1.log <= w2.log && LastRaised(w1, w2)
    ensures LastRaised(w, w2)
  {
    assert FaultAt(w1, |w2.log| - 1) == FaultAt(w, |w2.log| - 1);
  }

  lemma TryCause(w: World, snapshot: string, plan: Plan)
    requires Accepts(UpdateOf(plan))
    ensures var a := TrySwitch(w, snapshot, plan);
            Continues(w, a.world) && (!a.signal.Crashed? ==> HasCause(w, a.world, snapshot, plan, a.signal.Ok?))
  {
    PerformFollows(w, QueryDatasets);
    var (listed, w1) := Perform(w, QueryDatasets);
    PerformFollows(w1, CloneOf(snapshot, plan));
    var (cloned, w2) := CloneIfMissing(w1, snapshot, plan);
    PerformFollows(w2, UpdateOf(plan));
    var (switched, w3) := SwitchIfNeeded(w2, plan);
    ReadBackCause(w3, plan);
    var (verified, w4) := VerifyReadBack(w3, plan);
    FollowsOn(w, w1, w2);
    FollowsOn(w, w2, w3);
    FollowsOn(w, w3, w4);
    if listed.Ok? {
      if cloned.Raised? {
        if Accepts(CloneOf(snapshot, plan)) { LaterRaised(w, w1, w2); }
      } else if cloned.Ok? {
        if switched.Raised? {
          LaterRaised(w, w2, w3);
        } else if switched.Ok? && LastRaised(w3, w4) {
          LaterRaised(w, w3, w4);
        }
      }
    }
  }

  // A station's result, fully: which status, and why not VERIFIED.
  ghost predicate Explained(w: World, w': World, snapshot: string, plan: Plan, r: TargetResult) {
    Continues(w, w') && ReportsExactly(w, w', plan, r) && HasCause(w, w', snapshot, plan, r.status == Verified)
  }

  lemma StationExplained(w: World, snapshot: string, plan: Plan)
    requires Accepts(UpdateOf(plan))
    ensures var (r, w') := ApplyStation(w, snapshot, plan);
            r.Some? ==> Explained(w, w', snapshot, plan, r.value)
  {
    StatusExactly(w, snapshot, plan);
    TryCause(w, snapshot, plan);
    var a := TrySwitch(w, snapshot, plan);
    if a.signal.Raised? && a.writeAttempted {
      ReadBackCause(a.world, plan);
      var w' := VerifyReadBack(a.world, plan).1;
      if LastRaised(a.world, w') { LaterRaised(w, a.world, w'); }
    }
  }

  // ---- a clone nobody knows of ----

  lemma CloneAppears(w: World, snapshot: string, plan: Plan)
    requires !HasDataset(w.storage.datasets, plan.destination)
    ensures var (cloned, w') := CloneIfMissing(w, snapshot, plan);
            var clone := CloneOf(snapshot, plan);
            && w.log <= w'.log
            && if !Accepts(clone) then (cloned, w') == (Raised, w)
               else
                 && |w'.log| == |w.log| + 1 && w'.log[|w.log|].call == clone && cloned == SignalOf(FaultAt(w, |w.log|))
                 && (cloned.Raised? ==>
                       (HasDataset(w'.storage.datasets, plan.destination) <==> FaultAt(w, |w.log|).RaiseApplied?))
  {
    var d := Dataset(plan.destination, plan.destination);
    assert d in w.storage.datasets + [d];
  }

  lemma TryKeepsLog(w: World, snapshot: string, plan: Plan)
    ensures var w1 := Perform(w, QueryDatasets).1;
            var w2 := CloneIfMissing(w1, snapshot, plan).1;
            var a := TrySwitch(w, snapshot, plan);
            && (Perform(w, QueryDatasets).0.Ok? ==> w2.log <= a.world.log)
            && a.world.log <= ApplyStation(w, snapshot, plan).1.log
  {
    LogsGrow(w, snapshot, plan);
    ApplyEnds(w, snapshot, plan);
    TryPath(w, snapshot, plan);
  }

  // A station's clone exists without being reported, so that no row is made for it, exactly when the call that made
  // it raised all the same.
  lemma ForgottenCloneExactly(w: World, snapshot: string, plan: Plan)
    requires !HasDataset(w.storage.datasets, plan.destination)
    ensures var (r, w') := ApplyStation(w, snapshot, plan);
            r.Some? ==>
              (HasDataset(w'.storage.datasets, plan.destination) && !r.value.storageCreated
               <==> && |w.log| + 1 < |w'.log| && w'.log[|w.log| + 1].call == CloneOf(snapshot, plan)
                    && FaultAt(w, |w.log| + 1).RaiseApplied?)
  {
    PerformFollows(w, QueryDatasets);
    var (listed, w1) := Perform(w, QueryDatasets);
    CloneAppears(w1, snapshot, plan);
    assert FaultAt(w1, |w1.log|) == FaultAt(w, |w1.log|);
    TryKeepsLog(w, snapshot, plan);
  }

  // ---- every station gets its turn ----

  // Between them the stations ran one after the other, each from where the one before left off.
  ghost predicate InTurn(worlds: seq<World>, snapshot: string, plans: seq<Plan>, results: seq<TargetResult>) {
    && |worlds| == |plans| + 1 && |results| == |plans|
    && forall i | 0 <= i < |plans| :: Explained(worlds[i], worlds[i + 1], snapshot, plans[i], results[i])
  }

  lemma NextInTurn(w: World, later: seq<World>, snapshot: string, plans: seq<Plan>, first: TargetResult,
                   rest: seq<TargetResult>)
    requires plans != [] && InTurn(later, snapshot, plans[1..], rest)
    requires Explained(w, later[0], snapshot, plans[0], first)
    ensures InTurn([w] + later, snapshot, plans, [first] + rest)
  {
    var worlds, results := [w] + later, [first] + rest;
    forall i | 0 <= i < |plans| ensures Explained(worlds[i], worlds[i + 1], snapshot, plans[i], results[i]) {
      if i > 0 {
        assert Explained(later[i - 1], later[i], snapshot, plans[1..][i - 1], rest[i - 1]);
      }
    }
  }

  lemma ApplyAllSplits(w: World, snapshot: string, plans: seq<Plan>)
    requires plans != []
    ensures var (first, w1) := ApplyStation(w, snapshot, plans[0]);
            var (rest, w2) := ApplyAll(w1, snapshot, plans[1..]);
            ApplyAll(w, snapshot, plans)
            == if first == None then (None, w1)
               else (if rest == None then None else Some([first.value] + rest.value), w2)
  {
  }

  // The stations had their turns, if the process lived to see it.
  ghost predicate Ran(w: World, snapshot: string, plans: seq<Plan>, results: Option<seq<TargetResult>>, w': World,
                      worlds: seq<World>)
  {
    results.Some? ==> InTurn(worlds, snapshot, plans, results.value) && worlds[0] == w && worlds[|plans|] == w'
  }

  // Whatever happens to one station, the next one is tried: each result is explained by the calls of its own step.
  lemma {:induction false} StationsInTurn(w: World, snapshot: string, plans: seq<Plan>) returns (worlds: seq<World>)
    requires forall p | p in plans :: Accepts(UpdateOf(p))
    ensures var (results, w') := ApplyAll(w, snapshot, plans); Ran(w, snapshot, plans, results, w', worlds)
    decreases plans
  {
    worlds := [w];
    if plans != [] {
      StationExplained(w, snapshot, plans[0]);
      var (first, w1) := ApplyStation(w, snapshot, plans[0]);
      assert forall p | p in plans[1..] :: p in plans;
      var later := StationsInTurn(w1, snapshot, plans[1..]);
      worlds := [w] + later;
      var (rest, w2) := ApplyAll(w1, snapshot, plans[1..]);
      ApplyAllSplits(w, snapshot, plans);
      if first.Some? && rest.Some? {
        NextInTurn(w, later, snapshot, plans, first.value, rest.value);
      }
    }
  }

  // ---- before the first station ----

  // The next `n` calls meet no fault.
  predicate QuietFor(w: World, n: nat) {
    forall k | |w.log| <= k < |w.log| + n :: FaultAt(w, k).Fine?
  }

  lemma NextQuiet(w: World, w1: World, n: nat)
    requires Continues(w, w1) && |w1.log| == |w.log| + 1
    ensures QuietFor(w, n + 1) <==> FaultAt(w, |w.log|).Fine? && QuietFor(w1, n)
  {
    forall k: nat | |w1.log| <= k ensures FaultAt(w1, k) == FaultAt(w, k) {
    }
  }

  lemma ListingFollows(w: World, call: Call)
    requires !IsWrite(call)
    ensures var (signal, w') := Perform(w, call);
            && Continues(w, w') && |w'.log| == |w.log| + 1 && w'.storage == w.storage
            && (signal.Ok? <==> FaultAt(w, |w.log|).Fine?)
  {
    PerformFollows(w, call);
  }

  lemma ReadsExactly(w: World)
    ensures var (signal, w') := ReadMappings(w);
            && Continues(w, w') && w'.storage == w.storage && (signal.Ok? <==> QuietFor(w, 3))
            && (signal.Ok? ==> |w'.log| == |w.log| + 3)
  {
    ListingFollows(w, QueryTargets);
    var w1 := Perform(w, QueryTargets).1;
    ListingFollows(w1, QueryTargetExtents);
    var w2 := Perform(w1, QueryTargetExtents).1;
    ListingFollows(w2, QueryExtents);
    var w3 := Perform(w2, QueryExtents).1;
    FollowsOn(w, w1, w2);
    FollowsOn(w, w2, w3);
    NextQuiet(w, w1, 2);
    NextQuiet(w1, w2, 1);
    NextQuiet(w2, w3, 0);
  }

  // The job's source and every station can be found.
  predicate Findable(s: Storage, job: Job, stations: seq<Station>) {
    FindSource(s.datasets, job.request.source).Some? && Resolve(s, stations).Some?
  }

  // The read-only part succeeds exactly if its four listings meet no fault and show the source and every station.
  lemma LocatesExactly(w: World, job: Job, stations: seq<Station>)
    ensures var (located, w') := Locate(w, job, stations);
            && (located.Located? <==> QuietFor(w, 4) && Findable(w.storage, job, stations))
            && (located.Located? ==> Continues(w, w') && |w'.log| == |w.log| + 4)
            && w'.storage == w.storage
  {
    ListingFollows(w, QueryDatasets);
    var w1 := Perform(w, QueryDatasets).1;
    NextQuiet(w, w1, 3);
    ReadsExactly(w1);
    FollowsOn(w, w1, ReadMappings(w1).1);
  }

  predicate HasSnapshot(s: Storage, job: Job, source: string) {
    var full := SnapshotRef(source, job.id);
    full in s.snapshots && s.snapshots[full] == source
  }

  // The job's snapshot is there or can be made: its name is free and accepted.
  predicate CanSnapshot(s: Storage, job: Job, source: string) {
    HasSnapshot(s, job, source)
    || (SnapshotRef(source, job.id) !in s.snapshots && ValidDataset(source) && ValidSnapshotName(SnapshotName(job.id)))
  }

  // The snapshot step succeeds exactly if it can be done and its one or two calls meet no fault.
  lemma EnsuresExactly(w: World, job: Job, source: string)
    ensures var (ensured, w') := EnsureSnapshot(w, job, source);
            && (ensured.Ok? <==> CanSnapshot(w.storage, job, source)
                                 && QuietFor(w, if HasSnapshot(w.storage, job, source) then 1 else 2))
            && (ensured.Ok? ==> HasSnapshot(w'.storage, job, source))
            && w'.storage.extents == w.storage.extents
  {
    ListingFollows(w, QuerySnapshots);
    var w1 := Perform(w, QuerySnapshots).1;
    var create := CreateSnapshot(source, SnapshotName(job.id));
    PerformFollows(w1, create);
    NextQuiet(w, w1, 0);
    NextQuiet(w, w1, 1);
    assert SnapshotRef(source, job.id) == source + "@" + SnapshotName(job.id);
    if Accepts(create) { NextQuiet(w1, Perform(w1, create).1, 0); }
  }

  // ---- the whole run ----

  // The run gets as far as its stations.
  predicate Reaches(w: World, job: Job, stations: seq<Station>) {
    && QuietFor(w, 4) && Findable(w.storage, job, stations)
    && var source := FindSource(w.storage.datasets, job.request.source).value;
       && CanSnapshot(w.storage, job, source)
       && QuietFor(w, if HasSnapshot(w.storage, job, source) then 5 else 6)
  }

  lemma {:induction false} QuietSplits(w: World, w1: World, n: nat, m: nat)
    requires Continues(w, w1) && |w1.log| == |w.log| + n && QuietFor(w, n)
    ensures QuietFor(w, n + m) <==> QuietFor(w1, m)
  {
    forall k: nat | |w1.log| <= k ensures FaultAt(w1, k) == FaultAt(w, k) {
    }
    if QuietFor(w1, m) {
      forall k | |w.log| <= k < |w.log| + n + m ensures FaultAt(w, k).Fine? {
        if k >= |w1.log| { assert FaultAt(w1, k).Fine?; }
      }
    }
  }

  lemma WritesExactly(w: World, job: Job, source: string, plans: seq<Plan>)
    requires job.status == Publishing
    ensures var (outcome, w') := Write(w, job, source, plans);
            var ready := CanSnapshot(w.storage, job, source)
                         && QuietFor(w, if HasSnapshot(w.storage, job, source) then 1 else 2);
            && (outcome.Finished? ==> ready) && (outcome.Aborted? ==> !ready)
            && (outcome.Finished? || outcome.Aborted? || outcome.Died?)
            && (!ready ==> w'.storage.extents == w.storage.extents)
  {
    EnsuresExactly(w, job, source);
    var w1 := EnsureSnapshot(w, job, source).1;
    PublishResults.SwitchAllStatus(w1, job, SnapshotRef(source, job.id), plans);
  }

  // A run that may start is given up exactly for a fault or a missing piece before its first station, when no extent
  // has been switched; from then on every fault is a station's own, and only the death of the process stops it.
  lemma AbortsExactly(w: World, job: Job, stations: seq<Station>)
    requires Startable(stations, true) && job.status in {Draft, Publishing} && !job.request.dryRun
    ensures var (outcome, w') := Execute(w, job, stations, true);
            && (outcome.Finished? || outcome.Aborted? || outcome.Died?)
            && (outcome.Finished? ==> Reaches(w, job, stations)) && (outcome.Aborted? ==> !Reaches(w, job, stations))
            && (!Reaches(w, job, stations) ==> w'.storage.extents == w.storage.extents)
  {
    PublishResults.Enters(job);
    PublishResults.NotLocatedOutcome(w, job, stations);
    LocatesExactly(w, job, stations);
    var (located, w1) := Locate(w, job, stations);
    if located.Located? {
      PublishResults.LocateReads(w, job, stations);
      LocatedSource(w, job, stations);
      QuietSplits(w, w1, 4, 1);
      QuietSplits(w, w1, 4, 2);
      WritesExactly(w1, job.(status := Publishing), located.source, located.plans);
      SameSnapshot(w.storage, job, located.source);
    }
  }

  lemma LocatedSource(w: World, job: Job, stations: seq<Station>)
    requires Locate(w, job, stations).0.Located?
    ensures FindSource(w.storage.datasets, job.request.source) == Some(Locate(w, job, stations).0.source)
  {
  }

  lemma SameSnapshot(s: Storage, job: Job, source: string)
    ensures HasSnapshot(s, job.(status := Publishing), source) == HasSnapshot(s, job, source)
    ensures CanSnapshot(s, job.(status := Publishing), source) == CanSnapshot(s, job, source)
  {
  }

  // A dry run finishes exactly if its listings meet no fault and show everything; it then simulates every planned
  // switch, in station order, and reports no storage as made.
  lemma SimulatesExactly(w: World, job: Job, stations: seq<Station>)
    requires Startable(stations, true) && job.status in {Draft, Publishing} && job.request.dryRun
    ensures var (outcome, w') := Execute(w, job, stations, true);
            && (outcome.Finished? <==> QuietFor(w, 4) && Findable(w.storage, job, stations))
            && (outcome.Finished? ==>
                  && outcome.job == job.(status := Completed, reason := Some("dry_run_simulation"))
                  && outcome.master == "dry-run:" + job.request.source
                  && |outcome.targets| == |PublishResults.PlansAt(w.storage, job, stations)|
                  && forall i | 0 <= i < |outcome.targets| ::
                       var p := PublishResults.PlansAt(w.storage, job, stations)[i];
                       outcome.targets[i] == TargetResult(p.station, Simulated, p.mapping.oldDevice, Some(p.Device()), None, false))
  {
    PublishResults.Enters(job);
    LocatesExactly(w, job, stations);
    PublishResults.NotLocatedOutcome(w, job, stations);
    PublishResults.LocateReads(w, job, stations);
  }

  // ---- the process dies exactly with a call that met a crash ----

  lemma Unmoved(w: World)
    ensures DiedOr(w, w, false)
  {
  }

  lemma {:induction false} ApplyAllDies(w: World, snapshot: string, plans: seq<Plan>)
    ensures DiedOr(w, ApplyAll(w, snapshot, plans).1, ApplyAll(w, snapshot, plans).0.None?)
    decreases plans
  {
    if plans == [] {
      Unmoved(w);
    } else {
      CrashExactly(w, snapshot, plans[0]);
      var (first, w1) := ApplyStation(w, snapshot, plans[0]);
      if first.Some? {
        ApplyAllDies(w1, snapshot, plans[1..]);
        ThenDies(w, w1, ApplyAll(w1, snapshot, plans[1..]).1, ApplyAll(w1, snapshot, plans[1..]).0.None?);
      }
    }
  }

  lemma ReadsDies(w: World)
    ensures DiedOr(w, ReadMappings(w).1, ReadMappings(w).0.Crashed?)
  {
    PerformDies(w, QueryTargets);
    var (b, w1) := Perform(w, QueryTargets);
    PerformDies(w1, QueryTargetExtents);
    var (c, w2) := Perform(w1, QueryTargetExtents);
    PerformDies(w2, QueryExtents);
    if b.Ok? {
      ThenDies(w, w1, w2, c.Crashed?);
      if c.Ok? {
        ThenDies(w, w2, Perform(w2, QueryExtents).1, Perform(w2, QueryExtents).0.Crashed?);
      }
    }
  }

  lemma LocateDies(w: World, job: Job, stations: seq<Station>)
    ensures var (located, w') := Locate(w, job, stations);
            DiedOr(w, w', located.NotLocated? && located.outcome.Died?)
  {
    PerformDies(w, QueryDatasets);
    var (listed, w1) := Perform(w, QueryDatasets);
    ReadsDies(w1);
    if listed.Ok? {
      ThenDies(w, w1, ReadMappings(w1).1, ReadMappings(w1).0.Crashed?);
    }
  }

  lemma EnsureDies(w: World, job: Job, source: string)
    ensures DiedOr(w, EnsureSnapshot(w, job, source).1, EnsureSnapshot(w, job, source).0.Crashed?)
  {
    PerformDies(w, QuerySnapshots);
    var (listed, w1) := Perform(w, QuerySnapshots);
    var create := CreateSnapshot(source, SnapshotName(job.id));
    PerformDies(w1, create);
    if listed.Ok? {
      ThenDies(w, w1, Perform(w1, create).1, Perform(w1, create).0.Crashed?);
    }
  }

  lemma WriteDies(w: World, job: Job, source: string, plans: seq<Plan>)
    requires job.status == Publishing
    ensures DiedOr(w, Write(w, job, source, plans).1, Write(w, job, source, plans).0.Died?)
  {
    EnsureDies(w, job, source);
    var (ensured, w1) := EnsureSnapshot(w, job, source);
    if ensured.Ok? {
      var master := SnapshotRef(source, job.id);
      ApplyAllDies(w1, master, plans);
      PublishResults.SwitchAllStatus(w1, job, master, plans);
      SwitchAllEnds(w1, job, master, plans);
      ThenDies(w, w1, ApplyAll(w1, master, plans).1, ApplyAll(w1, master, plans).0.None?);
    }
  }

  lemma SwitchAllEnds(w: World, job: Job, master: string, plans: seq<Plan>)
    requires job.status == Publishing
    ensures var (outcome, w') := SwitchAll(w, job, master, plans);
            w' == ApplyAll(w, master, plans).1 && (outcome.Died? <==> ApplyAll(w, master, plans).0.None?)
  {
    assert job.Transition(Switching) == Some(job.(status := Switching));
    PublishResults.SwitchAllStatus(w, job, master, plans);
  }

  // A run dies exactly in a call that met a crash, and makes no call after that.
  lemma RunDies(w: World, job: Job, stations: seq<Station>, confirmed: bool)
    ensures DiedOr(w, Execute(w, job, stations, confirmed).1, Execute(w, job, stations, confirmed).0.Died?)
  {
    PublishResults.Enters(job);
    Unmoved(w);
    LocateDies(w, job, stations);
    var (located, w1) := Locate(w, job, stations);
    if located.Located? {
      var running := job.(status := Publishing);
      WriteDies(w1, running, located.source, located.plans);
      ThenDies(w, w1, Write(w1, running, located.source, located.plans).1,
               Write(w1, running, located.source, located.plans).0.Died?);
    }
  }
}
