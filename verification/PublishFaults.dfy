// How the appliance's answers decide a station's result: what the last read-back says, whatever the switch itself
// answered.
module PublishFaults {
  import opened Text
  import opened Naming
  import opened PublishJobs
  import opened Storage
  import opened PublishRun
  import opened PublishConvergence
  import PublishSafety
  import PublishResults

  // ---- which fault met which call ----

  // The fault that call number `k` of the log met, if the log grew from `w` on.
  function FaultAt(w: World, k: nat): Fault
    requires |w.log| <= k
  {
    if k - |w.log| < |w.faults| then w.faults[k - |w.log|] else Fine
  }

  // Every call between the two used up one fault.
  ghost predicate Continues(w: World, w': World) {
    w.log <= w'.log && forall k: nat | |w'.log| <= k :: FaultAt(w', k) == FaultAt(w, k)
  }

  lemma PerformFollows(w: World, call: Call)
    ensures Continues(w, Perform(w, call).1)
    ensures if Accepts(call) then Called(w, call, Perform(w, call).0, Perform(w, call).1)
            else Perform(w, call) == (Raised, w)
  {
  }

  // The call is the next one of the log, and its fault is what it answered.
  predicate Called(w: World, call: Call, signal: Signal, w': World) {
    |w'.log| == |w.log| + 1 && w'.log[|w.log|].call == call && signal == SignalOf(FaultAt(w, |w.log|))
  }

  lemma FollowsOn(w: World, w1: World, w2: World)
    requires Continues(w, w1) && Continues(w1, w2)
    ensures Continues(w, w2)
  {
    forall k: nat | |w2.log| <= k ensures FaultAt(w2, k) == FaultAt(w, k) {
      assert FaultAt(w1, k) == FaultAt(w, k);
    }
  }

  // ---- the read-back ----

  // The last call listed the extents, met no fault, and storage is as planned.
  predicate Confirmed(w: World, w': World, plan: Plan) {
    && |w.log| < |w'.log| && w'.log[|w'.log| - 1].call == QueryExtents
    && FaultAt(w, |w'.log| - 1).Fine? && ReadBackMatches(w'.storage, plan)
  }

  lemma ReadBackConfirms(w: World, plan: Plan)
    ensures var (signal, w') := VerifyReadBack(w, plan);
            && Continues(w, w') && w'.storage == w.storage && |w.log| < |w'.log|
            && w'.log[|w.log|].call == QueryTargetExtents
            && (forall k | |w.log| <= k < |w'.log| :: w'.log[k].call in {QueryTargetExtents, QueryExtents})
            && (signal.Ok? <==> Confirmed(w, w', plan))
  {
    PerformFollows(w, QueryTargetExtents);
    var w1 := Perform(w, QueryTargetExtents).1;
    PerformFollows(w1, QueryExtents);
    FollowsOn(w, w1, Perform(w1, QueryExtents).1);
    assert FaultAt(w1, |w1.log|) == FaultAt(w, |w1.log|);
  }

  // ---- one station ----

  predicate WasCalled(w: World, w': World, call: Call) {
    exists k :: |w.log| <= k < |w'.log| && w'.log[k].call == call
  }

  // Nothing else was called between the two.
  predicate Only(w: World, w': World, calls: set<Call>) {
    forall k | |w.log| <= k < |w'.log| :: w'.log[k].call in calls
  }

  lemma OnlyMore(w: World, w1: World, w2: World, calls: set<Call>, more: set<Call>)
    requires w.log <= w1.log <= w2.log && Only(w, w1, calls) && Only(w1, w2, more)
    ensures Only(w, w2, calls + more)
  {
  }

  function UpdateOf(plan: Plan): Call { UpdateExtent(plan.mapping.extent, plan.Device()) }

  // The first two steps: list the datasets and clone.
  lemma PrepareCalls(w: World, snapshot: string, plan: Plan)
    ensures var (listed, w1) := Perform(w, QueryDatasets);
            var (cloned, w2) := CloneIfMissing(w1, snapshot, plan);
            && Continues(w, w1) && Only(w, w1, {QueryDatasets}) && |w.log| < |w1.log|
            && Continues(w1, w2) && Only(w, w2, {QueryDatasets, CloneSnapshot(snapshot, plan.destination)})
  {
    PerformFollows(w, QueryDatasets);
    PerformFollows(Perform(w, QueryDatasets).1, CloneSnapshot(snapshot, plan.destination));
  }

  lemma SwitchCalls(w: World, plan: Plan)
    requires Accepts(UpdateOf(plan))
    ensures var (switched, w') := SwitchIfNeeded(w, plan);
            && Continues(w, w') && Only(w, w', {UpdateOf(plan)}) && (WasCalled(w, w', UpdateOf(plan)) <==> NeedsSwitch(plan))
  {
    PerformFollows(w, UpdateOf(plan));
    var w' := SwitchIfNeeded(w, plan).1;
    if NeedsSwitch(plan) {
      assert w'.log[|w.log|].call == UpdateOf(plan);
    }
  }

  // How far a station's step got before it was over or raised: nothing done, switch tried, read back.
  ghost predicate Tried(w: World, plan: Plan, a: Attempt) {
    && Continues(w, a.world) && |w.log| < |a.world.log|
    && (a.writeAttempted <==> WasCalled(w, a.world, UpdateOf(plan)))
    && (a.signal.Ok? <==> Confirmed(w, a.world, plan))
    && (a.writeAttempted ==> a.storageCreated)
    && (WasCalled(w, a.world, QueryTargetExtents) ==> a.storageCreated)
    && (a.storageCreated && !WasCalled(w, a.world, QueryTargetExtents) ==> a.writeAttempted && !a.signal.Ok?)
  }

  lemma TryCalls(w: World, snapshot: string, plan: Plan)
    requires Accepts(UpdateOf(plan))
    ensures Tried(w, plan, TrySwitch(w, snapshot, plan))
  {
    PrepareCalls(w, snapshot, plan);
    var (listed, w1) := Perform(w, QueryDatasets);
    var (cloned, w2) := CloneIfMissing(w1, snapshot, plan);
    FollowsOn(w, w1, w2);
    if listed.Ok? && cloned.Ok? {
      SwitchCalls(w2, plan);
      var (switched, w3) := SwitchIfNeeded(w2, plan);
      FollowsOn(w, w2, w3);
      if switched.Ok? {
        ReadCalls(w, w2, w3, plan);
      } else {
        TriedSwitch(w, w2, w3, snapshot, plan, switched);
      }
    }
  }

  lemma TriedSwitch(w: World, w2: World, w3: World, snapshot: string, plan: Plan, signal: Signal)
    requires w.log <= w2.log <= w3.log && |w.log| < |w2.log| && !signal.Ok? && NeedsSwitch(plan) && Continues(w, w3)
    requires Only(w, w2, {QueryDatasets, CloneSnapshot(snapshot, plan.destination)})
    requires Only(w2, w3, {UpdateOf(plan)}) && WasCalled(w2, w3, UpdateOf(plan))
    ensures Tried(w, plan, Attempt(signal, true, true, w3))
  {
    var k :| |w2.log| <= k < |w3.log| && w3.log[k].call == UpdateOf(plan);
    assert w3.log[k].call == UpdateOf(plan);
    OnlyMore(w, w2, w3, {QueryDatasets, CloneSnapshot(snapshot, plan.destination)}, {UpdateOf(plan)});
  }

  lemma ReadCalls(w: World, w2: World, w3: World, plan: Plan)
    requires w.log <= w2.log <= w3.log && Continues(w, w3)
    requires forall k | |w.log| <= k < |w2.log| :: w2.log[k].call != UpdateOf(plan)
    requires WasCalled(w2, w3, UpdateOf(plan)) <==> NeedsSwitch(plan)
    ensures var (verified, w4) := VerifyReadBack(w3, plan);
            Tried(w, plan, Attempt(verified, NeedsSwitch(plan), true, w4))
  {
    var (verified, w4) := VerifyReadBack(w3, plan);
    ReadBackConfirms(w3, plan);
    FollowsOn(w, w3, w4);
    assert FaultAt(w3, |w4.log| - 1) == FaultAt(w, |w4.log| - 1);
    assert w4.log[|w3.log|].call == QueryTargetExtents;
    if NeedsSwitch(plan) {
      var k :| |w2.log| <= k < |w3.log| && w3.log[k].call == UpdateOf(plan);
      assert w4.log[k].call == UpdateOf(plan);
    } else {
      forall k | |w.log| <= k < |w4.log| ensures w4.log[k].call != UpdateOf(plan) {
        if |w2.log| <= k < |w3.log| { assert w3.log[k] == w4.log[k]; }
      }
    }
  }

  function CodeOf(status: TargetStatus): Option<string> {
    match status
    case Error => Some("target_failed")
    case RecoveryRequired => Some("extent_update_unknown")
    case _ => None
  }

  // VERIFIED is reported exactly when the last call was a read-back that met no fault and found the plan in
  // storage, whatever the switch answered; otherwise RECOVERY_REQUIRED exactly when a switch was tried. A result
  // says that the clone is there exactly when the step came as far as reading back.
  ghost predicate ReportsExactly(w: World, w': World, plan: Plan, r: TargetResult) {
    var status := if Confirmed(w, w', plan) then Verified
                  else if WasCalled(w, w', UpdateOf(plan)) then RecoveryRequired else Error;
    r == ResultOf(plan, status, CodeOf(status), WasCalled(w, w', QueryTargetExtents))
  }

  lemma StatusExactly(w: World, snapshot: string, plan: Plan)
    requires Accepts(UpdateOf(plan))
    ensures var (r, w') := ApplyStation(w, snapshot, plan);
            r.Some? ==> Continues(w, w') && ReportsExactly(w, w', plan, r.value)
  {
    TryCalls(w, snapshot, plan);
    var a := TrySwitch(w, snapshot, plan);
    if a.signal.Raised? && a.writeAttempted {
      ReadAgain(w, a, plan);
    }
  }

  lemma ReadAgain(w: World, a: Attempt, plan: Plan)
    requires Tried(w, plan, a) && a.writeAttempted
    ensures var (again, w') := VerifyReadBack(a.world, plan);
            && Continues(w, w') && (again.Ok? <==> Confirmed(w, w', plan))
            && WasCalled(w, w', UpdateOf(plan)) && WasCalled(w, w', QueryTargetExtents) && a.storageCreated
  {
    var (again, w') := VerifyReadBack(a.world, plan);
    ReadBackConfirms(a.world, plan);
    FollowsOn(w, a.world, w');
    assert FaultAt(a.world, |w'.log| - 1) == FaultAt(w, |w'.log| - 1);
    assert w'.log[|a.world.log|].call == QueryTargetExtents;
    StillCalled(w, a.world, w', UpdateOf(plan));
  }

  lemma StillCalled(w: World, w1: World, w2: World, call: Call)
    requires w1.log <= w2.log && WasCalled(w, w1, call)
    ensures WasCalled(w, w2, call)
  {
    var k :| |w.log| <= k < |w1.log| && w1.log[k].call == call;
    assert w2.log[k].call == call;
  }

  // ---- the process dies exactly in a call that met a crash ----

  predicate IsCrash(fault: Fault) { fault.CrashLost? || fault.CrashApplied? }

  // The last call met a crash, and it is the only one that did.
  predicate CrashedLast(w: World, w': World) {
    |w.log| < |w'.log| && IsCrash(FaultAt(w, |w'.log| - 1)) && forall k | |w.log| <= k < |w'.log| - 1 :: !IsCrash(FaultAt(w, k))
  }

  predicate NoCrash(w: World, w': World) {
    forall k | |w.log| <= k < |w'.log| :: !IsCrash(FaultAt(w, k))
  }

  ghost predicate DiedOr(w: World, w': World, died: bool) {
    Continues(w, w') && if died then CrashedLast(w, w') else NoCrash(w, w')
  }

  lemma PerformDies(w: World, call: Call)
    ensures DiedOr(w, Perform(w, call).1, Perform(w, call).0.Crashed?)
  {
    PerformFollows(w, call);
  }

  lemma ThenDies(w: World, w1: World, w2: World, died: bool)
    requires DiedOr(w, w1, false) && DiedOr(w1, w2, died)
    ensures DiedOr(w, w2, died)
  {
    FollowsOn(w, w1, w2);
    forall k: nat | |w1.log| <= k ensures FaultAt(w1, k) == FaultAt(w, k) {
    }
  }

  lemma ReadBackDies(w: World, plan: Plan)
    ensures DiedOr(w, VerifyReadBack(w, plan).1, VerifyReadBack(w, plan).0.Crashed?)
  {
    PerformDies(w, QueryTargetExtents);
    var (first, w1) := Perform(w, QueryTargetExtents);
    PerformDies(w1, QueryExtents);
    if first.Ok? {
      ThenDies(w, w1, Perform(w1, QueryExtents).1, Perform(w1, QueryExtents).0.Crashed?);
    }
  }

  lemma TryDies(w: World, snapshot: string, plan: Plan)
    ensures DiedOr(w, TrySwitch(w, snapshot, plan).world, TrySwitch(w, snapshot, plan).signal.Crashed?)
  {
    PerformDies(w, QueryDatasets);
    var (listed, w1) := Perform(w, QueryDatasets);
    PerformDies(w1, CloneSnapshot(snapshot, plan.destination));
    var (cloned, w2) := CloneIfMissing(w1, snapshot, plan);
    PerformDies(w2, UpdateOf(plan));
    var (switched, w3) := SwitchIfNeeded(w2, plan);
    ReadBackDies(w3, plan);
    var (verified, w4) := VerifyReadBack(w3, plan);
    if listed.Ok? {
      ThenDies(w, w1, w2, cloned.Crashed?);
      if cloned.Ok? {
        ThenDies(w, w2, w3, switched.Crashed?);
        if switched.Ok? {
          ThenDies(w, w3, w4, verified.Crashed?);
        }
      }
    }
  }

  // A station has no result exactly when the process died in its last call, and it makes no call after that.
  lemma CrashExactly(w: World, snapshot: string, plan: Plan)
    ensures DiedOr(w, ApplyStation(w, snapshot, plan).1, ApplyStation(w, snapshot, plan).0.None?)
  {
    TryDies(w, snapshot, plan);
    var a := TrySwitch(w, snapshot, plan);
    if a.signal.Raised? && a.writeAttempted {
      ReadBackDies(a.world, plan);
      ThenDies(w, a.world, VerifyReadBack(a.world, plan).1, VerifyReadBack(a.world, plan).0.Crashed?);
    }
  }

  // ---- switches that raise although they were applied do no harm ----

  // Every fault between the two, if any, made a switch raise that was applied.
  predicate Harmless(w: World, w': World) {
    forall k | |w.log| <= k < |w'.log| ::
      FaultAt(w, k).Fine? || (FaultAt(w, k).RaiseApplied? && w'.log[k].call.UpdateExtent?)
  }

  lemma HarmlessParts(w: World, w1: World, w2: World)
    requires Continues(w, w1) && w1.log <= w2.log && Harmless(w, w2)
    ensures Harmless(w, w1) && Harmless(w1, w2)
  {
    forall k | |w.log| <= k < |w1.log|
      ensures FaultAt(w, k).Fine? || (FaultAt(w, k).RaiseApplied? && w1.log[k].call.UpdateExtent?)
    {
      assert w1.log[k] == w2.log[k];
    }
    forall k: nat | |w1.log| <= k < |w2.log| ensures FaultAt(w1, k) == FaultAt(w, k) {
    }
  }

  lemma HarmlessCall(w: World, call: Call, w2: World)
    requires Accepts(call) && Perform(w, call).1.log <= w2.log && Harmless(w, w2)
    ensures var (signal, w') := Perform(w, call);
            && Continues(w, w') && w'.storage == Apply(w.storage, call) && Harmless(w', w2)
            && (signal.Ok? || (signal.Raised? && call.UpdateExtent?))
  {
    PerformFollows(w, call);
    HarmlessParts(w, Perform(w, call).1, w2);
    assert FaultAt(w, |w.log|).Fine? || FaultAt(w, |w.log|).RaiseApplied?;
  }

  lemma HarmlessVerify(w: World, plan: Plan, w2: World)
    requires ReadBackMatches(w.storage, plan) && VerifyReadBack(w, plan).1.log <= w2.log && Harmless(w, w2)
    ensures var (signal, w') := VerifyReadBack(w, plan);
            signal.Ok? && Continues(w, w') && w'.storage == w.storage
  {
    ReadBackConfirms(w, plan);
    var w1 := Perform(w, QueryTargetExtents).1;
    PerformFollows(w, QueryTargetExtents);
    PerformFollows(w1, QueryExtents);
    HarmlessCall(w, QueryTargetExtents, w2);
    HarmlessCall(w1, QueryExtents, w2);
  }

  lemma LogsGrow(w: World, snapshot: string, plan: Plan)
    ensures var w1 := Perform(w, QueryDatasets).1;
            var w2 := CloneIfMissing(w1, snapshot, plan).1;
            var w3 := SwitchIfNeeded(w2, plan).1;
            var w4 := VerifyReadBack(w3, plan).1;
            && w.log <= w1.log <= w2.log <= w3.log <= w4.log
            && w4.log <= VerifyReadBack(w4, plan).1.log
  {
    PerformFollows(w, QueryDatasets);
    var w1 := Perform(w, QueryDatasets).1;
    PerformFollows(w1, CloneSnapshot(snapshot, plan.destination));
    var w2 := CloneIfMissing(w1, snapshot, plan).1;
    PerformFollows(w2, UpdateOf(plan));
    var w3 := SwitchIfNeeded(w2, plan).1;
    ReadBackConfirms(w3, plan);
    ReadBackConfirms(VerifyReadBack(w3, plan).1, plan);
  }

  lemma ApplyEnds(w: World, snapshot: string, plan: Plan)
    ensures var a, w' := TrySwitch(w, snapshot, plan), ApplyStation(w, snapshot, plan).1;
            a.world.log <= w'.log && (a.signal.Raised? && a.writeAttempted ==> w' == VerifyReadBack(a.world, plan).1)
  {
    ReadBackConfirms(TrySwitch(w, snapshot, plan).world, plan);
  }

  lemma TryPath(w: World, snapshot: string, plan: Plan)
    ensures var a := TrySwitch(w, snapshot, plan);
            var (listed, w1) := Perform(w, QueryDatasets);
            var (cloned, w2) := CloneIfMissing(w1, snapshot, plan);
            var (switched, w3) := SwitchIfNeeded(w2, plan);
            && w1.log <= a.world.log && (listed.Ok? ==> w2.log <= a.world.log)
            && (listed.Ok? && cloned.Ok? ==>
                  && w3.log <= a.world.log && (switched.Ok? ==> a.world == VerifyReadBack(w3, plan).1)
                  && (switched.Raised? ==> a == Attempt(switched, NeedsSwitch(plan), true, w3)))
  {
    LogsGrow(w, snapshot, plan);
  }

  // The logs on the way to a station's result.
  lemma ApplyPath(w: World, snapshot: string, plan: Plan)
    ensures var w' := ApplyStation(w, snapshot, plan).1;
            var (listed, w1) := Perform(w, QueryDatasets);
            var (cloned, w2) := CloneIfMissing(w1, snapshot, plan);
            var (switched, w3) := SwitchIfNeeded(w2, plan);
            && w1.log <= w'.log && (listed.Ok? ==> w2.log <= w'.log)
            && (listed.Ok? && cloned.Ok? ==> w3.log <= w'.log)
            && (listed.Ok? && cloned.Ok? && (switched.Ok? || (switched.Raised? && NeedsSwitch(plan))) ==>
                  VerifyReadBack(w3, plan).1.log <= w'.log)
  {
    ApplyEnds(w, snapshot, plan);
    TryPath(w, snapshot, plan);
  }

  lemma HarmlessClone(w: World, snapshot: string, plan: Plan, w2: World)
    requires ValidSnapshotRef(snapshot) && ValidDataset(plan.destination)
    requires CloneIfMissing(w, snapshot, plan).1.log <= w2.log && Harmless(w, w2)
    ensures var (cloned, w') := CloneIfMissing(w, snapshot, plan);
            && cloned.Ok? && Continues(w, w') && Harmless(w', w2)
            && w'.storage == w.storage.(datasets := WithDataset(w.storage.datasets, plan.destination))
  {
    if !HasDataset(w.storage.datasets, plan.destination) {
      HarmlessCall(w, CloneSnapshot(snapshot, plan.destination), w2);
    }
  }

  lemma HarmlessSwitch(w: World, plan: Plan, w2: World)
    requires ValidDataset(plan.destination) && plan.mapping.extent > 0 && plan.mapping.extent in w.storage.extents
    requires !NeedsSwitch(plan) ==> w.storage.extents[plan.mapping.extent] == Some(plan.Device())
    requires SwitchIfNeeded(w, plan).1.log <= w2.log && Harmless(w, w2)
    ensures var (switched, w') := SwitchIfNeeded(w, plan);
            && (switched.Ok? || (switched.Raised? && NeedsSwitch(plan))) && Continues(w, w') && Harmless(w', w2)
            && w'.storage == w.storage.(extents := w.storage.extents[plan.mapping.extent := Some(plan.Device())])
  {
    UpdateEffect(w.storage, plan);
    if NeedsSwitch(plan) {
      HarmlessCall(w, UpdateOf(plan), w2);
    }
  }

  lemma HarmlessApply(w: World, snapshot: string, plan: Plan)
    requires Workable(w.storage, snapshot, plan) && Harmless(w, ApplyStation(w, snapshot, plan).1)
    ensures var (r, w') := ApplyStation(w, snapshot, plan);
            && r == Some(ResultOf(plan, Verified, None, true))
            && Continues(w, w') && w'.storage == Settle(w.storage, plan)
  {
    var w' := ApplyStation(w, snapshot, plan).1;
    ApplyPath(w, snapshot, plan);
    HarmlessCall(w, QueryDatasets, w');
    var w1 := Perform(w, QueryDatasets).1;
    HarmlessClone(w1, snapshot, plan, w');
    var w2 := CloneIfMissing(w1, snapshot, plan).1;
    HarmlessSwitch(w2, plan, w');
    var w3 := SwitchIfNeeded(w2, plan).1;
    HarmlessVerify(w3, plan, w');
    FollowsOn(w, w1, w2);
    FollowsOn(w, w2, w3);
    FollowsOn(w, w3, VerifyReadBack(w3, plan).1);
  }

  lemma {:induction false} ApplyAllGrows(w: World, snapshot: string, plans: seq<Plan>)
    ensures w.log <= ApplyAll(w, snapshot, plans).1.log
    decreases plans
  {
    if plans != [] {
      PublishResults.ApplyHonest(w, snapshot, plans[0]);
      ApplyAllGrows(ApplyStation(w, snapshot, plans[0]).1, snapshot, plans[1..]);
    }
  }

  lemma {:induction false} HarmlessApplyAll(w: World, snapshot: string, plans: seq<Plan>)
    requires NoClash(plans) && AllWorkable(w.storage, snapshot, plans)
    requires Harmless(w, ApplyAll(w, snapshot, plans).1)
    ensures var (results, w') := ApplyAll(w, snapshot, plans);
            && results.Some? && AllVerified(results.value)
            && w.log <= w'.log && w'.storage == SettleAll(w.storage, plans)
    decreases plans
  {
    if plans != [] {
      var (first, w1) := ApplyStation(w, snapshot, plans[0]);
      assert plans[0] in plans;
      PublishResults.ApplyHonest(w, snapshot, plans[0]);
      ApplyAllGrows(w1, snapshot, plans[1..]);
      FirstHarmless(w, snapshot, plans);
      HarmlessApply(w, snapshot, plans[0]);
      HarmlessParts(w, w1, ApplyAll(w, snapshot, plans).1);
      WorkableAfter(w.storage, snapshot, plans);
      HarmlessApplyAll(w1, snapshot, plans[1..]);
    }
  }

  lemma FirstHarmless(w: World, snapshot: string, plans: seq<Plan>)
    requires plans != [] && Harmless(w, ApplyAll(w, snapshot, plans).1)
    ensures Harmless(w, ApplyStation(w, snapshot, plans[0]).1)
  {
    var w1, w' := ApplyStation(w, snapshot, plans[0]).1, ApplyAll(w, snapshot, plans).1;
    ApplyAllGrows(w1, snapshot, plans[1..]);
    assert w1.log <= w'.log;
    forall k | |w.log| <= k < |w1.log|
      ensures FaultAt(w, k).Fine? || (FaultAt(w, k).RaiseApplied? && w1.log[k].call.UpdateExtent?)
    {
      assert w1.log[k] == w'.log[k];
    }
  }

  lemma HarmlessLocate(w: World, job: Job, stations: seq<Station>, w2: World)
    requires FindSource(w.storage.datasets, job.request.source).Some? && Resolve(w.storage, stations).Some?
    requires Locate(w, job, stations).1.log <= w2.log && Harmless(w, w2)
    ensures var (located, w') := Locate(w, job, stations);
            && located == Located(FindSource(w.storage.datasets, job.request.source).value,
                                  PublishResults.PlansAt(w.storage, job, stations))
            && w'.storage == w.storage && Continues(w, w') && Harmless(w', w2)
  {
    var w1 := Perform(w, QueryDatasets).1;
    PerformFollows(w, QueryDatasets);
    var wa := Perform(w1, QueryTargets).1;
    PerformFollows(w1, QueryTargets);
    var wb := Perform(wa, QueryTargetExtents).1;
    PerformFollows(wa, QueryTargetExtents);
    PerformFollows(wb, QueryExtents);
    HarmlessCall(w, QueryDatasets, w2);
    HarmlessCall(w1, QueryTargets, w2);
    HarmlessCall(wa, QueryTargetExtents, w2);
    HarmlessCall(wb, QueryExtents, w2);
    FollowsOn(w, w1, wa);
    FollowsOn(w, wa, wb);
    FollowsOn(w, wb, Perform(wb, QueryExtents).1);
  }

  lemma HarmlessEnsure(w: World, job: Job, source: string, w2: World)
    requires ValidDataset(source) && HasDataset(w.storage.datasets, source)
    requires var full := SnapshotRef(source, job.id);
             full in w.storage.snapshots ==> w.storage.snapshots[full] == source
    requires EnsureSnapshot(w, job, source).1.log <= w2.log && Harmless(w, w2)
    ensures var (ensured, w') := EnsureSnapshot(w, job, source);
            && ensured.Ok? && Continues(w, w') && Harmless(w', w2)
            && w'.storage == w.storage.(snapshots := w.storage.snapshots[SnapshotRef(source, job.id) := source])
  {
    var full, w1 := SnapshotRef(source, job.id), Perform(w, QuerySnapshots).1;
    var create := CreateSnapshot(source, SnapshotName(job.id));
    PerformFollows(w, QuerySnapshots);
    PerformFollows(w1, create);
    HarmlessCall(w, QuerySnapshots, w2);
    SnapshotAccepted(source, job.id);
    assert full == source + "@" + SnapshotName(job.id);
    if full in w.storage.snapshots {
      assert w.storage.snapshots[full := source] == w.storage.snapshots;
    } else {
      HarmlessCall(w1, create, w2);
      FollowsOn(w, w1, Perform(w1, create).1);
    }
  }

  lemma WriteLogs(w: World, job: Job, source: string, plans: seq<Plan>)
    requires job.status == Publishing
    ensures var w' := Write(w, job, source, plans).1;
            var (ensured, w1) := EnsureSnapshot(w, job, source);
            && w.log <= w1.log <= w'.log
            && (ensured.Ok? ==> w' == ApplyAll(w1, SnapshotRef(source, job.id), plans).1)
  {
    PublishResults.EnsureEffect(w, job, source);
    ApplyAllGrows(EnsureSnapshot(w, job, source).1, SnapshotRef(source, job.id), plans);
    assert job.Transition(Switching).Some?;
  }

  lemma LocateLogs(w: World, job: Job, stations: seq<Station>)
    requires job.status in {Draft, Publishing} && !job.request.dryRun && Startable(stations, true)
    ensures Locate(w, job, stations).1.log <= Execute(w, job, stations, true).1.log
  {
    var (located, w1) := Locate(w, job, stations);
    PublishResults.Enters(job);
    if located.Located? {
      ExecuteWrites(w, job, stations, located.source, located.plans);
      WriteLogs(w1, job.(status := Publishing), located.source, located.plans);
    }
  }

  // A run in which nothing went wrong but switches that raised although they were applied is COMPLETED with every
  // target VERIFIED, and leaves the storage that an undisturbed run leaves.
  lemma HarmlessRun(w: World, job: Job, stations: seq<Station>)
    requires Ready(w.storage, job, stations) && Harmless(w, Execute(w, job, stations, true).1)
    ensures var (outcome, w') := Execute(w, job, stations, true);
            Succeeded(outcome) && w'.storage == Finish(w.storage, job, stations)
  {
    var w' := Execute(w, job, stations, true).1;
    var source, plans := FindSource(w.storage.datasets, job.request.source).value,
                         PublishResults.PlansAt(w.storage, job, stations);
    var running := job.(status := Publishing);
    LocateLogs(w, job, stations);
    HarmlessLocate(w, job, stations, w');
    var w1 := Locate(w, job, stations).1;
    ExecuteWrites(w, job, stations, source, plans);
    WriteLogs(w1, running, source, plans);
    PublishSafety.FindSourceStable(w.storage.datasets, w.storage.datasets, job.request.source);
    HarmlessEnsure(w1, running, source, w');
    var w2 := EnsureSnapshot(w1, running, source).1;
    PlansWorkable(w.storage, job, stations);
    SnapshotKeepsWorkable(w1.storage, w2.storage, SnapshotRef(source, job.id), plans);
    HarmlessApplyAll(w2, SnapshotRef(source, job.id), plans);
    VerifiedCompletes(w2, running, SnapshotRef(source, job.id), plans);
  }

  lemma SnapshotKeepsWorkable(s: Storage, t: Storage, snapshot: string, plans: seq<Plan>)
    requires AllWorkable(s, snapshot, plans) && t == s.(snapshots := t.snapshots)
    ensures AllWorkable(t, snapshot, plans)
  {
    forall p | p in plans ensures Workable(t, snapshot, p) {
      assert Workable(s, snapshot, p);
    }
  }
}
