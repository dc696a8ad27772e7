// When a VERIFIED result is still true at the end of the run, whatever the faults.
module PublishVerified {
  import opened Text
  import opened Naming
  import opened PublishJobs
  import opened Storage
  import opened PublishRun
  import opened PublishResults
  import opened PublishConvergence
  import PublishSafety

  // A later plan for the extent of `p` moves it to another clone.
  predicate Overwrites(p: Plan, q: Plan) {
    p.mapping.extent == q.mapping.extent && p.destination != q.destination && NeedsSwitch(q)
  }

  predicate Overwriting(plans: seq<Plan>) {
    exists i, j | 0 <= i < j < |plans| :: Overwrites(plans[i], plans[j])
  }

  predicate TrueAt(s: Storage, p: Plan, r: TargetResult) {
    r.status == Verified ==> ReadBackMatches(s, p)
  }

  // Every station reported as VERIFIED has its extent on its clone.
  predicate AllTrue(s: Storage, plans: seq<Plan>, results: seq<TargetResult>) {
    |results| == |plans| && forall i | 0 <= i < |plans| :: TrueAt(s, plans[i], results[i])
  }

  // ---- without overwriting plans ----

  lemma StepKeepsMatch(w: World, snapshot: string, p: Plan, q: Plan)
    requires ReadBackMatches(w.storage, p) && !Overwrites(p, q)
    ensures ReadBackMatches(ApplyStation(w, snapshot, q).1.storage, p)
  {
    TryEffect(w, snapshot, q);
    VerifyReads(TrySwitch(w, snapshot, q).world, q);
  }

  lemma {:induction false} RestKeepsMatch(w: World, snapshot: string, p: Plan, plans: seq<Plan>)
    requires ReadBackMatches(w.storage, p) && forall j | 0 <= j < |plans| :: !Overwrites(p, plans[j])
    ensures ReadBackMatches(ApplyAll(w, snapshot, plans).1.storage, p)
    decreases plans
  {
    if plans != [] {
      StepKeepsMatch(w, snapshot, p, plans[0]);
      RestKeepsMatch(ApplyStation(w, snapshot, plans[0]).1, snapshot, p, plans[1..]);
    }
  }

  lemma {:induction false} ApplyAllTrue(w: World, snapshot: string, plans: seq<Plan>)
    requires !Overwriting(plans)
    ensures var (results, w') := ApplyAll(w, snapshot, plans);
            results.Some? ==> AllTrue(w'.storage, plans, results.value)
    decreases plans
  {
    if plans != [] {
      var (first, w1) := ApplyStation(w, snapshot, plans[0]);
      ApplyHonest(w, snapshot, plans[0]);
      RestNotOverwriting(plans);
      ApplyAllTrue(w1, snapshot, plans[1..]);
      if first.Some? && first.value.status == Verified {
        RestKeepsMatch(w1, snapshot, plans[0], plans[1..]);
      }
    }
  }

  lemma RestNotOverwriting(plans: seq<Plan>)
    requires plans != [] && !Overwriting(plans)
    ensures !Overwriting(plans[1..]) && forall j | 0 <= j < |plans[1..]| :: !Overwrites(plans[0], plans[1..][j])
  {
    var rest := plans[1..];
    forall i, j | 0 <= i < j < |rest| ensures !Overwrites(rest[i], rest[j]) {
      assert rest[i] == plans[i + 1] && rest[j] == plans[j + 1];
    }
    forall j | 0 <= j < |rest| ensures !Overwrites(plans[0], rest[j]) {
      assert rest[j] == plans[j + 1];
    }
  }

  // ---- with one: faults under which a result is untrue ----

  lemma FinePerform(w: World, call: Call, faults: seq<Fault>)
    requires w.faults == [Fine] + faults && Accepts(call)
    ensures Perform(w, call) == (Ok, World(Apply(w.storage, call), faults, Perform(w, call).1.log))
  {
    assert w.faults[1..] == faults;
  }

  // So many calls succeed one after the other.
  function Fines(n: nat): seq<Fault> { seq(n, _ => Fine) }

  lemma OneFine(n: nat, faults: seq<Fault>)
    requires n > 0
    ensures Fines(n) + faults == [Fine] + (Fines(n - 1) + faults)
  {
  }

  function CallsOf(s: Storage, p: Plan): nat {
    (if HasDataset(s.datasets, p.destination) then 3 else 4) + if NeedsSwitch(p) then 1 else 0
  }

  lemma FineClone(w: World, snapshot: string, p: Plan, n: nat, faults: seq<Fault>)
    requires Workable(w.storage, snapshot, p) && n > 0
    requires w.faults == Fines(if HasDataset(w.storage.datasets, p.destination) then n - 1 else n) + faults
    ensures var (cloned, w') := CloneIfMissing(w, snapshot, p);
            && cloned.Ok? && w'.faults == Fines(n - 1) + faults
            && w'.storage == w.storage.(datasets := WithDataset(w.storage.datasets, p.destination))
  {
    if !HasDataset(w.storage.datasets, p.destination) {
      OneFine(n, faults);
      FinePerform(w, CloneSnapshot(snapshot, p.destination), Fines(n - 1) + faults);
    }
  }

  lemma FineSwitch(w: World, p: Plan, n: nat, faults: seq<Fault>)
    requires ValidDataset(p.destination) && p.mapping.extent > 0 && p.mapping.extent in w.storage.extents && n > 0
    requires !NeedsSwitch(p) ==> w.storage.extents[p.mapping.extent] == Some(p.Device())
    requires w.faults == Fines(if NeedsSwitch(p) then n else n - 1) + faults
    ensures var (switched, w') := SwitchIfNeeded(w, p);
            && switched.Ok? && w'.faults == Fines(n - 1) + faults
            && w'.storage == w.storage.(extents := w.storage.extents[p.mapping.extent := Some(p.Device())])
  {
    UpdateEffect(w.storage, p);
    if NeedsSwitch(p) {
      OneFine(n, faults);
      FinePerform(w, UpdateExtent(p.mapping.extent, p.Device()), Fines(n - 1) + faults);
    }
  }

  lemma FineVerify(w: World, p: Plan, faults: seq<Fault>)
    requires w.faults == Fines(2) + faults && ReadBackMatches(w.storage, p)
    ensures var (signal, w') := VerifyReadBack(w, p);
            signal.Ok? && w'.faults == faults && w'.storage == w.storage
  {
    OneFine(2, faults);
    OneFine(1, faults);
    assert Fines(0) + faults == faults;
    FinePerform(w, QueryTargetExtents, Fines(1) + faults);
    FinePerform(Perform(w, QueryTargetExtents).1, QueryExtents, faults);
  }

  // A station's step without a disturbance, whatever comes later.
  lemma FineApply(w: World, snapshot: string, p: Plan, faults: seq<Fault>)
    requires Workable(w.storage, snapshot, p) && w.faults == Fines(CallsOf(w.storage, p)) + faults
    ensures var (r, w') := ApplyStation(w, snapshot, p);
            && r == Some(ResultOf(p, Verified, None, true))
            && w'.faults == faults && w'.storage == Settle(w.storage, p)
  {
    var switches := if NeedsSwitch(p) then 3 else 2;
    OneFine(CallsOf(w.storage, p), faults);
    FinePerform(w, QueryDatasets, Fines(CallsOf(w.storage, p) - 1) + faults);
    var w1 := Perform(w, QueryDatasets).1;
    FineClone(w1, snapshot, p, switches + 1, faults);
    var w2 := CloneIfMissing(w1, snapshot, p).1;
    FineSwitch(w2, p, 3, faults);
    FineVerify(SwitchIfNeeded(w2, p).1, p, faults);
  }

  lemma LostListing(w: World, snapshot: string, p: Plan, faults: seq<Fault>)
    requires w.faults == [RaiseLost] + faults
    ensures var (r, w') := ApplyStation(w, snapshot, p);
            && r == Some(ResultOf(p, Error, Some("target_failed"), false))
            && w'.faults == faults && w'.storage == w.storage
  {
    assert w.faults[1..] == faults;
  }

  // Every listing is lost, so nothing is done.
  lemma {:induction false} AllLost(w: World, snapshot: string, plans: seq<Plan>)
    requires w.faults == seq(|plans|, _ => RaiseLost)
    ensures var (results, w') := ApplyAll(w, snapshot, plans);
            results.Some? && w'.storage == w.storage
    decreases plans
  {
    if plans != [] {
      assert w.faults == [RaiseLost] + seq(|plans[1..]|, _ => RaiseLost);
      LostListing(w, snapshot, plans[0], seq(|plans[1..]|, _ => RaiseLost));
      AllLost(ApplyStation(w, snapshot, plans[0]).1, snapshot, plans[1..]);
    }
  }

  // The plans before `j` are lost; `j` is carried out and those after it are lost.
  function OnlyOne(s: Storage, plans: seq<Plan>, j: nat): seq<Fault>
    requires j < |plans|
  {
    if j == 0 then Fines(CallsOf(s, plans[0])) + seq(|plans| - 1, _ => RaiseLost)
    else [RaiseLost] + OnlyOne(s, plans[1..], j - 1)
  }

  lemma {:induction false} OnlyOneSwitches(w: World, snapshot: string, plans: seq<Plan>, j: nat)
    requires j < |plans| && Workable(w.storage, snapshot, plans[j]) && w.faults == OnlyOne(w.storage, plans, j)
    ensures var (results, w') := ApplyAll(w, snapshot, plans);
            results.Some? && w'.storage == Settle(w.storage, plans[j])
    decreases plans
  {
    var w1 := ApplyStation(w, snapshot, plans[0]).1;
    if j == 0 {
      FineApply(w, snapshot, plans[0], seq(|plans| - 1, _ => RaiseLost));
      AllLost(w1, snapshot, plans[1..]);
    } else {
      LostListing(w, snapshot, plans[0], OnlyOne(w.storage, plans[1..], j - 1));
      OnlyOneSwitches(w1, snapshot, plans[1..], j - 1);
    }
  }

  // Only the plans `i` and `j` are carried out.
  function OnlyTwo(s: Storage, plans: seq<Plan>, i: nat, j: nat): seq<Fault>
    requires i < j < |plans|
  {
    if i == 0 then Fines(CallsOf(s, plans[0])) + OnlyOne(Settle(s, plans[0]), plans[1..], j - 1)
    else [RaiseLost] + OnlyTwo(s, plans[1..], i - 1, j - 1)
  }

  lemma UntrueTail(s: Storage, plans: seq<Plan>, first: TargetResult, rest: seq<TargetResult>)
    requires plans != [] && |rest| == |plans| - 1 && !AllTrue(s, plans[1..], rest)
    ensures !AllTrue(s, plans, [first] + rest)
  {
    var k :| 0 <= k < |plans[1..]| && !TrueAt(s, plans[1..][k], rest[k]);
    var results := [first] + rest;
    assert !TrueAt(s, plans[k + 1], results[k + 1]);
  }

  lemma FirstThenRest(w: World, snapshot: string, plans: seq<Plan>)
    requires plans != [] && ApplyStation(w, snapshot, plans[0]).0.Some?
    ensures var (first, w1) := ApplyStation(w, snapshot, plans[0]);
            var (rest, w2) := ApplyAll(w1, snapshot, plans[1..]);
            rest.Some? ==> ApplyAll(w, snapshot, plans) == (Some([first.value] + rest.value), w2)
  {
  }

  lemma Overwritten(s: Storage, p: Plan, q: Plan)
    requires Overwrites(p, q)
    ensures !ReadBackMatches(Settle(s, q), p)
  {
    DevicesDiffer(p.destination, q.destination);
  }

  lemma StillWorkable(s: Storage, snapshot: string, p: Plan, q: Plan)
    requires Workable(s, snapshot, q) && Overwrites(p, q)
    ensures Workable(Settle(s, p), snapshot, q)
  {
  }

  // The first plan is carried out, then the later one for its extent.
  lemma FirstOverwritten(w: World, snapshot: string, plans: seq<Plan>, j: nat)
    requires 0 < j < |plans| && Overwrites(plans[0], plans[j])
    requires Workable(w.storage, snapshot, plans[0]) && Workable(w.storage, snapshot, plans[j])
    requires w.faults == OnlyTwo(w.storage, plans, 0, j)
    ensures var (results, w') := ApplyAll(w, snapshot, plans);
            results.Some? && !AllTrue(w'.storage, plans, results.value)
  {
    FineApply(w, snapshot, plans[0], OnlyOne(Settle(w.storage, plans[0]), plans[1..], j - 1));
    var (first, w1) := ApplyStation(w, snapshot, plans[0]);
    assert plans[1..][j - 1] == plans[j];
    StillWorkable(w.storage, snapshot, plans[0], plans[j]);
    OnlyOneSwitches(w1, snapshot, plans[1..], j - 1);
    var (rest, w2) := ApplyAll(w1, snapshot, plans[1..]);
    FirstThenRest(w, snapshot, plans);
    Overwritten(w1.storage, plans[0], plans[j]);
    FirstUntrue(w2.storage, plans, first.value, rest.value);
  }

  lemma FirstUntrue(s: Storage, plans: seq<Plan>, first: TargetResult, rest: seq<TargetResult>)
    requires |plans| == |rest| + 1 && !TrueAt(s, plans[0], first)
    ensures !AllTrue(s, plans, [first] + rest)
  {
    assert ([first] + rest)[0] == first;
  }

  lemma {:induction false} TwoSwitch(w: World, snapshot: string, plans: seq<Plan>, i: nat, j: nat)
    requires i < j < |plans| && Overwrites(plans[i], plans[j])
    requires Workable(w.storage, snapshot, plans[i]) && Workable(w.storage, snapshot, plans[j])
    requires w.faults == OnlyTwo(w.storage, plans, i, j)
    ensures var (results, w') := ApplyAll(w, snapshot, plans);
            results.Some? && !AllTrue(w'.storage, plans, results.value)
    decreases plans
  {
    if i == 0 {
      FirstOverwritten(w, snapshot, plans, j);
    } else {
      LostListing(w, snapshot, plans[0], OnlyTwo(w.storage, plans[1..], i - 1, j - 1));
      var (first, w1) := ApplyStation(w, snapshot, plans[0]);
      TwoSwitch(w1, snapshot, plans[1..], i - 1, j - 1);
      var (rest, w2) := ApplyAll(w1, snapshot, plans[1..]);
      FirstThenRest(w, snapshot, plans);
      UntrueTail(w2.storage, plans, first.value, rest.value);
    }
  }

  // ---- the whole run ----

  ghost predicate RunTrue(w: World, job: Job, stations: seq<Station>) {
    var (outcome, w') := Execute(w, job, stations, true);
    outcome.Finished? ==> AllTrue(w'.storage, PlansAt(w.storage, job, stations), outcome.targets)
  }

  lemma FineLocate(w: World, job: Job, stations: seq<Station>, faults: seq<Fault>)
    requires w.faults == Fines(4) + faults
    requires FindSource(w.storage.datasets, job.request.source).Some? && Resolve(w.storage, stations).Some?
    ensures var (located, w') := Locate(w, job, stations);
            && located == Located(FindSource(w.storage.datasets, job.request.source).value,
                                  PlansAt(w.storage, job, stations))
            && w'.storage == w.storage && w'.faults == faults
  {
    OneFine(4, faults);
    OneFine(3, faults);
    OneFine(2, faults);
    OneFine(1, faults);
    assert Fines(0) + faults == faults;
    FinePerform(w, QueryDatasets, Fines(3) + faults);
    var w1 := Perform(w, QueryDatasets).1;
    FinePerform(w1, QueryTargets, Fines(2) + faults);
    var w2 := Perform(w1, QueryTargets).1;
    FinePerform(w2, QueryTargetExtents, Fines(1) + faults);
    FinePerform(Perform(w2, QueryTargetExtents).1, QueryExtents, faults);
  }

  lemma FineReuse(w: World, job: Job, source: string, faults: seq<Fault>)
    requires w.faults == Fines(1) + faults
    requires SnapshotRef(source, job.id) in w.storage.snapshots && w.storage.snapshots[SnapshotRef(source, job.id)] == source
    ensures var (ensured, w') := EnsureSnapshot(w, job, source);
            ensured.Ok? && w'.faults == faults && w'.storage == w.storage
  {
    OneFine(1, faults);
    assert Fines(0) + faults == faults;
    FinePerform(w, QuerySnapshots, faults);
  }

  lemma FineCreate(w: World, job: Job, source: string, faults: seq<Fault>)
    requires w.faults == Fines(2) + faults && ValidDataset(source) && HasDataset(w.storage.datasets, source)
    requires SnapshotRef(source, job.id) !in w.storage.snapshots
    ensures var (ensured, w') := EnsureSnapshot(w, job, source);
            && ensured.Ok? && w'.faults == faults
            && w'.storage == w.storage.(snapshots := w.storage.snapshots[SnapshotRef(source, job.id) := source])
  {
    OneFine(2, faults);
    OneFine(1, faults);
    assert Fines(0) + faults == faults;
    SnapshotAccepted(source, job.id);
    assert SnapshotRef(source, job.id) == source + "@" + SnapshotName(job.id);
    FinePerform(w, QuerySnapshots, Fines(1) + faults);
    FinePerform(Perform(w, QuerySnapshots).1, CreateSnapshot(source, SnapshotName(job.id)), faults);
  }

  lemma FineEnsure(w: World, job: Job, source: string, faults: seq<Fault>)
    requires ValidDataset(source) && HasDataset(w.storage.datasets, source)
    requires var full := SnapshotRef(source, job.id);
             full in w.storage.snapshots ==> w.storage.snapshots[full] == source
    requires w.faults == Fines(if SnapshotRef(source, job.id) in w.storage.snapshots then 1 else 2) + faults
    ensures var (ensured, w') := EnsureSnapshot(w, job, source);
            && ensured.Ok? && w'.faults == faults
            && w'.storage == w.storage.(snapshots := w.storage.snapshots[SnapshotRef(source, job.id) := source])
  {
    if SnapshotRef(source, job.id) in w.storage.snapshots {
      FineReuse(w, job, source, faults);
      assert w.storage.snapshots[SnapshotRef(source, job.id) := source] == w.storage.snapshots;
    } else {
      FineCreate(w, job, source, faults);
    }
  }

  // The faults that let the run start and then carry out only two plans.
  function UntrueFaults(s: Storage, job: Job, source: string, plans: seq<Plan>, i: nat, j: nat): seq<Fault>
    requires i < j < |plans|
  {
    var full := SnapshotRef(source, job.id);
    Fines(4) + (Fines(if full in s.snapshots then 1 else 2)
                + OnlyTwo(s.(snapshots := s.snapshots[full := source]), plans, i, j))
  }

  lemma UntrueRun(w: World, job: Job, stations: seq<Station>, i: nat, j: nat)
    requires Prepared(w.storage, job, stations)
    requires var plans := PlansAt(w.storage, job, stations); i < j < |plans| && Overwrites(plans[i], plans[j])
    requires w.faults == UntrueFaults(w.storage, job, FindSource(w.storage.datasets, job.request.source).value,
                                      PlansAt(w.storage, job, stations), i, j)
    ensures !RunTrue(w, job, stations)
  {
    var source, plans := FindSource(w.storage.datasets, job.request.source).value, PlansAt(w.storage, job, stations);
    var full, running := SnapshotRef(source, job.id), job.(status := Publishing);
    var two := OnlyTwo(w.storage.(snapshots := w.storage.snapshots[full := source]), plans, i, j);
    FineLocate(w, job, stations, Fines(if full in w.storage.snapshots then 1 else 2) + two);
    ExecuteWrites(w, job, stations, source, plans);
    var w1 := Locate(w, job, stations).1;
    PublishSafety.FindSourceStable(w.storage.datasets, w.storage.datasets, job.request.source);
    FineEnsure(w1, running, source, two);
    var w2 := EnsureSnapshot(w1, running, source).1;
    PlanWorkable(w.storage, job, stations, i);
    PlanWorkable(w.storage, job, stations, j);
    TwoSwitch(w2, full, plans, i, j);
    SwitchedFinishes(w2, running, full, plans);
  }

  lemma SwitchedFinishes(w: World, job: Job, master: string, plans: seq<Plan>)
    requires job.status == Publishing && ApplyAll(w, master, plans).0.Some?
    ensures var (outcome, w') := SwitchAll(w, job, master, plans);
            && outcome.Finished? && outcome.targets == ApplyAll(w, master, plans).0.value
            && w' == ApplyAll(w, master, plans).1
  {
    SwitchAllStatus(w, job, master, plans);
    assert job.Transition(Switching).Some?;
    assert job.(status := Switching).Transition(Verifying).Some?;
  }

  // Every VERIFIED of every finished run of the job is true of the storage the run leaves, whatever the faults,
  // if and only if no plan that has to switch shares its extent with an earlier plan for another clone.
  lemma VerifiedExactly(s: Storage, job: Job, stations: seq<Station>)
    requires Prepared(s, job, stations)
    ensures (forall faults: seq<Fault> :: RunTrue(World(s, faults, []), job, stations))
            <==> !Overwriting(PlansAt(s, job, stations))
  {
    var plans := PlansAt(s, job, stations);
    if Overwriting(plans) {
      var i, j :| 0 <= i < j < |plans| && Overwrites(plans[i], plans[j]);
      var faults := UntrueFaults(s, job, FindSource(s.datasets, job.request.source).value, plans, i, j);
      UntrueRun(World(s, faults, []), job, stations, i, j);
      assert !RunTrue(World(s, faults, []), job, stations);
    } else {
      forall faults: seq<Fault> ensures RunTrue(World(s, faults, []), job, stations) {
        TrueRun(World(s, faults, []), job, stations);
      }
    }
  }

  lemma TrueRun(w: World, job: Job, stations: seq<Station>)
    requires !job.request.dryRun && !Overwriting(PlansAt(w.storage, job, stations))
    ensures RunTrue(w, job, stations)
  {
    var (outcome, w') := Execute(w, job, stations, true);
    if outcome.Finished? {
      FinishedFromPlans(w, job, stations, true);
      var plans := PlansAt(w.storage, job, stations);
      var start :| ApplyAll(start, outcome.master, plans) == (Some(outcome.targets), w');
      ApplyAllTrue(start, outcome.master, plans);
    }
  }

  // So without a clash COMPLETED means that every extent is on its clone.
  lemma CompletedWithoutClash(w: World, job: Job, stations: seq<Station>)
    requires !job.request.dryRun && NoClash(PlansAt(w.storage, job, stations))
    ensures var (outcome, w') := Execute(w, job, stations, true);
            outcome.Finished? && outcome.job.status == Completed ==>
              forall p | p in PlansAt(w.storage, job, stations) :: ReadBackMatches(w'.storage, p)
  {
    var plans := PlansAt(w.storage, job, stations);
    var (outcome, w') := Execute(w, job, stations, true);
    TrueRun(w, job, stations);
    RunConcludes(w, job, stations, true);
    if outcome.Finished? && outcome.job.status == Completed {
      forall p | p in plans ensures ReadBackMatches(w'.storage, p) {
        var i :| 0 <= i < |plans| && plans[i] == p;
        assert outcome.targets[i] in outcome.targets && TrueAt(w'.storage, plans[i], outcome.targets[i]);
      }
    }
  }
}
