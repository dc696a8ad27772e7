// Publishing and reconciling agree: after a verified switch is recorded, the live mapping selects
// exactly the row just saved.
module PublishReconcile {
  import opened Text
  import opened Naming
  import opened PublishJobs
  import opened Storage
  import opened Artifacts
  import opened CloneNames
  import opened Reconcile
  import PublishRun
  import PublishSafety
  import PublishResults

  // ---- canonical names ----

  predicate WellNamed(a: Artifact) {
    Trimmed(a.dataset) && a.mappingRef == DeviceOf(a.dataset)
  }

  lemma CanonicalDevice(dataset: string)
    requires Trimmed(dataset)
    ensures CanonicalMapping(DeviceOf(dataset)) == DeviceOf(dataset)
  {
    var device := DeviceOf(dataset);
    assert device[0] == 'z' && device[|device| - 1] == dataset[|dataset| - 1];
    assert !IsSpace(device[0]) && !IsSpace(device[|device| - 1]);
    StripFixed(device, IsSpace);
  }

  // A well named row matches a device exactly when it is its clone.
  lemma MatchIsName(a: Artifact, dataset: string)
    requires WellNamed(a) && Trimmed(dataset)
    ensures MatchesMapping(a, DeviceOf(dataset)) <==> a.dataset == dataset
  {
    CanonicalDevice(a.dataset);
    DevicesDiffer(a.dataset, dataset);
  }

  lemma {:induction false} SoleMatch(rows: seq<Artifact>, station: nat, mapping: string, at: nat)
    requires at < |rows| && Backs(rows[at], station, mapping)
    requires forall k | 0 <= k < |rows| && k != at :: !Backs(rows[k], station, mapping)
    ensures Matches(rows, station, mapping) == [rows[at]]
  {
    if at == 0 {
      NoMatch(rows[1..], station, mapping);
    } else {
      SoleMatch(rows[1..], station, mapping, at - 1);
      assert [] + [rows[at]] == [rows[at]];
    }
  }

  lemma {:induction false} NoMatch(rows: seq<Artifact>, station: nat, mapping: string)
    requires forall k | 0 <= k < |rows| :: !Backs(rows[k], station, mapping)
    ensures Matches(rows, station, mapping) == []
  {
    if rows != [] {
      NoMatch(rows[1..], station, mapping);
    }
  }

  // ---- the rows of one station across the persisting transaction ----

  // `b` extends `a`; the rows of `station` are the same.
  predicate StationKept(a: seq<Artifact>, b: seq<Artifact>, station: nat) {
    |a| <= |b| && forall k | 0 <= k < |b| :: KeptAt(a, b, station, k)
  }

  predicate KeptAt(a: seq<Artifact>, b: seq<Artifact>, station: nat, k: nat)
    requires k < |b|
  {
    if k < |a| then b[k].station == a[k].station && (a[k].station == station ==> b[k] == a[k])
    else b[k].station != station
  }

  lemma OtherStationKept(rows: seq<Artifact>, after: seq<Artifact>, job: Job, r: TargetResult, master: string, id: nat,
                         now: int, station: nat)
    requires r.station != station && after == PersistOne(rows, job, r, master, id, now)
    ensures StationKept(rows, after, station)
  {
  }

  lemma KeptTransitive(a: seq<Artifact>, b: seq<Artifact>, c: seq<Artifact>, station: nat)
    requires StationKept(a, b, station) && StationKept(b, c, station)
    ensures StationKept(a, c, station)
  {
    forall k: nat | k < |c| ensures KeptAt(a, c, station, k) {
      assert KeptAt(b, c, station, k);
      assert k < |b| ==> KeptAt(a, b, station, k);
    }
  }

  lemma NextKept(base: seq<Artifact>, u: Table, job: Job, r: TargetResult, master: string, now: int, station: nat)
    requires StationKept(base, u.rows, station) && r.station != station
    ensures StationKept(base, PersistNext(u, job, r, master, now).rows, station)
  {
    var after := PersistNext(u, job, r, master, now);
    OtherStationKept(u.rows, after.rows, job, r, master, u.nextId, now, station);
    KeptTransitive(base, u.rows, after.rows, station);
  }

  lemma StationKeptThrough(rows: seq<Artifact>, job: Job, results: seq<TargetResult>, master: string, firstId: nat,
                           now: int, station: nat, from: nat)
    requires from <= |results| && forall r | r in results[from..] :: r.station != station
    ensures StationKept(Persist(rows, job, results[..from], master, firstId, now),
                        Persist(rows, job, results, master, firstId, now), station)
  {
    var base := Persist(rows, job, results[..from], master, firstId, now);
    var inv := (u: Table) => StationKept(base, u.rows, station);
    forall u, r | inv(u) && r in results[from..] ensures inv(PersistNext(u, job, r, master, now)) {
      NextKept(base, u, job, r, master, now, station);
    }
    PersistInductionFrom(inv, Table(rows, firstId), job, results, from, master, now);
  }

  // What the persisting transaction leaves at one station: the saved row at `at`, the rest retired.
  predicate SavedAt(before: seq<Artifact>, after: seq<Artifact>, at: nat, job: Job, station: nat, dataset: string) {
    && at < |after|
    && after[at].job == job.id && after[at].station == station
    && after[at].dataset == dataset && after[at].mappingRef == DeviceOf(dataset)
    && after[at].status == Current && after[at].isCurrent
    && after[at].deletedAt == None && after[at].lastError == None
    && (forall k | 0 <= k < |after| && k != at && after[k].station == station ::
          && k < |before| && after[k].job != job.id && !after[k].isCurrent
          && after[k].dataset == before[k].dataset && after[k].mappingRef == before[k].mappingRef
          && before[k].station == station && before[k].job != job.id)
  }

  lemma VerifiedSaved(t: Table, job: Job, r: TargetResult, master: string, now: int, dataset: string)
    requires TableOk(t) && Recorded(job, r) && r.status == Verified && r.newMapping == Some(DeviceOf(dataset))
    ensures exists at: nat :: SavedAt(t.rows, PersistOne(t.rows, job, r, master, t.nextId, now), at, job, r.station, dataset)
  {
    var a := BuildArtifact(job, r, master, t.nextId, now);
    DeviceAccepted(dataset);
    var retired := Retire(t.rows, a.station, a.id);
    RetireOk(t, a.station);
    SaveIsSavedAt(t.(rows := retired), a, job, dataset);
    var at :| SavedAt(retired, Save(retired, a), at, job, a.station, dataset);
    SavedFrom(t.rows, retired, Save(retired, a), at, job, a.station, t.nextId, dataset);
    assert PersistOne(t.rows, job, r, master, t.nextId, now) == Save(retired, a);
  }

  lemma SavedFrom(rows: seq<Artifact>, retired: seq<Artifact>, after: seq<Artifact>, at: nat, job: Job, station: nat,
                  exceptId: nat, dataset: string)
    requires retired == Retire(rows, station, exceptId) && SavedAt(retired, after, at, job, station, dataset)
    ensures SavedAt(rows, after, at, job, station, dataset)
  {
    assert forall k | 0 <= k < |retired| :: retired[k] == RetireRow(rows[k], station, exceptId);
  }

  lemma SaveIsSavedAt(t: Table, a: Artifact, job: Job, dataset: string)
    requires TableOk(t) && a.job == job.id && a.dataset == dataset && a.mappingRef == DeviceOf(dataset)
    requires a.status == Current && a.isCurrent && a.deletedAt == None && a.lastError == None
    requires forall k | 0 <= k < |t.rows| && t.rows[k].station == a.station :: !t.rows[k].isCurrent
    ensures exists at: nat :: SavedAt(t.rows, Save(t.rows, a), at, job, a.station, dataset)
  {
    var found := FindKey(t.rows, a.job, a.station);
    assert forall k | 0 <= k < |t.rows| :: t.rows[k] in t.rows;
    var at := if found == None then |t.rows| else found.value;
    assert SavedAt(t.rows, Save(t.rows, a), at, job, a.station, dataset);
  }

  lemma PersistSaves(t: Table, job: Job, results: seq<TargetResult>, master: string, now: int, i: nat, dataset: string)
    requires TableOk(t) && i < |results|
    requires forall k | 0 <= k < |results| && k != i :: results[k].station != results[i].station
    requires Recorded(job, results[i]) && results[i].status == Verified
    requires results[i].newMapping == Some(DeviceOf(dataset))
    ensures exists at: nat :: SavedAt(t.rows, Persist(t.rows, job, results, master, t.nextId, now), at, job,
                                 results[i].station, dataset)
  {
    var station := results[i].station;
    var before := Persist(t.rows, job, results[..i], master, t.nextId, now);
    var middle := Persist(t.rows, job, results[..i + 1], master, t.nextId, now);
    var after := Persist(t.rows, job, results, master, t.nextId, now);
    StationKeptBefore(t, job, results, master, now, i);
    SavedByItself(t, job, results, master, now, i, dataset);
    StationKeptThrough(t.rows, job, results, master, t.nextId, now, station, i + 1);
    SavedCarries(t.rows, before, middle, after, job, station, dataset);
  }

  lemma SavedByItself(t: Table, job: Job, results: seq<TargetResult>, master: string, now: int, i: nat, dataset: string)
    requires i < |results|
    requires TableOk(Table(Persist(t.rows, job, results[..i], master, t.nextId, now), t.nextId + i))
    requires Recorded(job, results[i]) && results[i].status == Verified
    requires results[i].newMapping == Some(DeviceOf(dataset))
    ensures var before := Persist(t.rows, job, results[..i], master, t.nextId, now);
            var middle := Persist(t.rows, job, results[..i + 1], master, t.nextId, now);
            exists at: nat :: SavedAt(before, middle, at, job, results[i].station, dataset)
  {
    var before := Persist(t.rows, job, results[..i], master, t.nextId, now);
    PersistSplits(t.rows, job, results, master, t.nextId, now, i);
    VerifiedSaved(Table(before, t.nextId + i), job, results[i], master, now, dataset);
  }

  lemma StationKeptBefore(t: Table, job: Job, results: seq<TargetResult>, master: string, now: int, i: nat)
    requires TableOk(t) && i < |results|
    requires forall k | 0 <= k < |results| && k != i :: results[k].station != results[i].station
    ensures var before := Persist(t.rows, job, results[..i], master, t.nextId, now);
            StationKept(t.rows, before, results[i].station) && TableOk(Table(before, t.nextId + i))
  {
    assert results[..i][..0] == [];
    StationKeptThrough(t.rows, job, results[..i], master, t.nextId, now, results[i].station, 0);
    PersistOk(t, job, results[..i], master, now);
  }

  lemma SavedCarries(first: seq<Artifact>, before: seq<Artifact>, middle: seq<Artifact>, after: seq<Artifact>,
                     job: Job, station: nat, dataset: string)
    requires StationKept(first, before, station) && StationKept(middle, after, station)
    requires exists at: nat :: SavedAt(before, middle, at, job, station, dataset)
    ensures exists at: nat :: SavedAt(first, after, at, job, station, dataset)
  {
    var at: nat :| SavedAt(before, middle, at, job, station, dataset);
    assert KeptAt(middle, after, station, at);
    forall k: nat | k < |after| && k != at && after[k].station == station
      ensures k < |middle| && after[k] == middle[k]
      ensures k < |before| && k < |first| && before[k] == first[k]
    {
      assert KeptAt(middle, after, station, k);
      assert middle[k].station == station;
      assert KeptAt(first, before, station, k);
    }
    assert SavedAt(first, after, at, job, station, dataset);
  }

  // ---- the live mapping after a verified run ----

  lemma {:induction false} NamedIsFound(targets: seq<Target>, name: string)
    ensures Named(targets, name) == [] <==> PublishRun.FindTarget(targets, name) == None
    ensures Named(targets, name) != [] ==> PublishRun.FindTarget(targets, name) == Some(Named(targets, name)[0])
  {
    if targets != [] {
      NamedIsFound(targets[1..], name);
    }
  }

  lemma LiveAfterSwitch(before: Storage, s: Storage, station: Station, m: PublishRun.Mapping, dataset: string)
    requires PublishRun.ResolveStation(before, station) == Some(m)
    requires s.targets == before.targets && s.associations == before.associations
    requires m.extent in s.extents && s.extents[m.extent] == Some(DeviceOf(dataset)) && Trimmed(dataset)
    ensures MapStation(s, station)
            == if |Named(s.targets, station.targetName.value)| == 1 then Some(DeviceOf(dataset)) else None
  {
    NamedIsFound(s.targets, station.targetName.value);
    CanonicalDevice(dataset);
  }

  // ---- the two meet ----

  lemma SavedRowSelected(first: seq<Artifact>, rows: seq<Artifact>, at: nat, job: Job, station: nat, dataset: string)
    requires SavedAt(first, rows, at, job, station, dataset) && Trimmed(dataset) && AllConsistent(rows)
    requires forall k | 0 <= k < |first| && first[k].station == station && first[k].job != job.id ::
               WellNamed(first[k]) && first[k].dataset != dataset
    ensures CurrentId(rows, station, DeviceOf(dataset)) == Some(rows[at].id)
  {
    MatchIsName(rows[at], dataset);
    forall k | 0 <= k < |rows| && k != at ensures !Backs(rows[k], station, DeviceOf(dataset)) {
      if rows[k].station == station {
        MatchIsName(rows[k], dataset);
      }
    }
    SoleMatch(rows, station, DeviceOf(dataset), at);
  }

  lemma SelectedRowsStay(rows: seq<Artifact>, at: nat, station: nat, live: map<nat, string>)
    requires at < |rows| && rows[at].station == station && station in live
    requires UniqueIds(rows) && AllConsistent(rows)
    requires CurrentId(rows, station, live[station]) == Some(rows[at].id)
    requires rows[at].status == Current && rows[at].isCurrent && rows[at].lastError == None
    requires forall k | 0 <= k < |rows| && k != at && rows[k].station == station :: !rows[k].isCurrent
    ensures forall k | 0 <= k < |rows| && rows[k].station == station :: Stored(rows, rows, live)[k] == rows[k]
  {
    forall k | 0 <= k < |rows| && rows[k].station == station
      ensures StoredRow(rows[k], rows, live) == rows[k]
    {
      assert Consistent(rows[k]);
    }
  }

  // After a finished run's results are persisted and nothing else touched the storage, the live
  // mapping of a VERIFIED station resolves to the row just saved, and the persistent update leaves
  // every row of that station as it is.
  lemma PublishThenReconcile(w: World, job: Job, stations: seq<Station>, i: nat, t: Table, now: int,
                             live: map<nat, string>)
    requires TableOk(t) && AllConsistent(t.rows) && AllMinted(t.rows)
    requires i < |stations| && stations[i].id in live && OtherJobsDiffer(t.rows, stations[i].id, job.id)
    ensures var (outcome, w') := PublishRun.Execute(w, job, stations, true);
            FinishedVerified(w.storage, job, stations, outcome, i) && SoleTarget(w.storage, stations[i])
            && MapStation(w'.storage, stations[i]) == Some(live[stations[i].id]) ==>
              && live[stations[i].id] == DeviceOf(CloneOf(job, stations[i]))
              && SelectedAndSettled(t.rows, Persist(t.rows, job, outcome.targets, outcome.master, t.nextId, now),
                                    job, stations[i].id, CloneOf(job, stations[i]), live)
  {
    var (outcome, w') := PublishRun.Execute(w, job, stations, true);
    VerifiedTarget(w, job, stations, i);
    MintedClonesDiffer(t.rows, stations[i], job);
    if FinishedVerified(w.storage, job, stations, outcome, i) && SoleTarget(w.storage, stations[i])
       && MapStation(w'.storage, stations[i]) == Some(live[stations[i].id]) {
      ReportedRowSelected(w, w', job, stations, outcome, i, t, now, live);
    }
  }

  // The same for every table that commits of runs' results, reconciliations and marks, in any interleaving,
  // can have left.
  lemma PublishThenReconcileAlways(w: World, job: Job, stations: seq<Station>, i: nat, commits: seq<Commit>, now: int,
                                   live: map<nat, string>)
    requires NamedCommits(commits) && i < |stations| && stations[i].id in live
    requires OtherJobsDiffer(CommitAll(EMPTY_TABLE, commits).rows, stations[i].id, job.id)
    ensures var t := CommitAll(EMPTY_TABLE, commits);
            var (outcome, w') := PublishRun.Execute(w, job, stations, true);
            FinishedVerified(w.storage, job, stations, outcome, i) && SoleTarget(w.storage, stations[i])
            && MapStation(w'.storage, stations[i]) == Some(live[stations[i].id]) ==>
              SelectedAndSettled(t.rows, Persist(t.rows, job, outcome.targets, outcome.master, t.nextId, now),
                                 job, stations[i].id, CloneOf(job, stations[i]), live)
  {
    OneCurrentAlways(EMPTY_TABLE, commits);
    NamesAlways(commits);
    PublishThenReconcile(w, job, stations, i, CommitAll(EMPTY_TABLE, commits), now, live);
  }

  // The identifiers of the station's other jobs differ from this one in the digits that clone names keep.
  predicate OtherJobsDiffer(rows: seq<Artifact>, station: nat, job: HexId) {
    forall k | 0 <= k < |rows| && rows[k].station == station && rows[k].job != job :: rows[k].job[..12] != job[..12]
  }

  lemma MintedClonesDiffer(rows: seq<Artifact>, station: Station, job: Job)
    requires AllMinted(rows) && OtherJobsDiffer(rows, station.id, job.id)
    ensures OtherClonesDiffer(rows, station.id, job.id, CloneOf(job, station))
  {
    forall k | 0 <= k < |rows| && rows[k].station == station.id && rows[k].job != job.id
      ensures WellNamed(rows[k]) && rows[k].dataset != CloneOf(job, station)
    {
      MintedWellNamed(rows[k]);
      MintedDiffer(rows[k], job.request.source, station.displayName, job.id);
    }
  }

  lemma MintedWellNamed(a: Artifact)
    requires Minted(a)
    ensures WellNamed(a)
  {
    var name :| a.dataset == DestinationDataset(a.source, name, a.job);
    DestinationEnds(a.source, name, a.job);
  }

  lemma ReportedRowSelected(w: World, w': World, job: Job, stations: seq<Station>, outcome: PublishRun.Outcome, i: nat,
                            t: Table, now: int, live: map<nat, string>)
    requires i < |stations| && outcome.Finished? && |outcome.targets| == |stations| && outcome.targets[i].status == Verified
    requires Reported(w.storage, w'.storage, job, stations, outcome, i) && SoleTarget(w.storage, stations[i])
    requires stations[i].id in live && MapStation(w'.storage, stations[i]) == Some(live[stations[i].id])
    requires TableOk(t) && AllConsistent(t.rows)
    requires OtherClonesDiffer(t.rows, stations[i].id, job.id, CloneOf(job, stations[i]))
    ensures live[stations[i].id] == DeviceOf(CloneOf(job, stations[i]))
    ensures SelectedAndSettled(t.rows, Persist(t.rows, job, outcome.targets, outcome.master, t.nextId, now),
                               job, stations[i].id, CloneOf(job, stations[i]), live)
  {
    RecordedRowSelected(t, job, outcome.targets, outcome.master, now, i, CloneOf(job, stations[i]), live);
  }

  // The station's target name belongs to one target only.
  predicate SoleTarget(s: Storage, station: Station) {
    station.targetName.Some? && |Named(s.targets, station.targetName.value)| == 1
  }

  function CloneOf(job: Job, station: Station): string {
    DestinationDataset(job.request.source, station.displayName, job.id)
  }

  // A finished run on distinct extents whose result for station `i` is VERIFIED.
  predicate FinishedVerified(s: Storage, job: Job, stations: seq<Station>, outcome: PublishRun.Outcome, i: nat) {
    && outcome.Finished? && !job.request.dryRun
    && PublishResults.DistinctExtents(PublishResults.PlansAt(s, job, stations))
    && i < |stations| && |outcome.targets| == |stations| && outcome.targets[i].status == Verified
    && stations[i].targetName.Some?
  }

  // Earlier jobs' clones of the station are well named and none of them is this clone.
  predicate OtherClonesDiffer(rows: seq<Artifact>, station: nat, job: HexId, dataset: string) {
    forall k | 0 <= k < |rows| && rows[k].station == station && rows[k].job != job ::
      WellNamed(rows[k]) && rows[k].dataset != dataset
  }

  // The live mapping selects the saved row, and the persistent update changes no row of the station.
  ghost predicate SelectedAndSettled(before: seq<Artifact>, rows: seq<Artifact>, job: Job, station: nat,
                                     dataset: string, live: map<nat, string>)
    requires station in live
  {
    && (exists at: nat :: SavedAt(before, rows, at, job, station, dataset)
                          && CurrentId(rows, station, live[station]) == Some(rows[at].id))
    && forall k | 0 <= k < |rows| && rows[k].station == station :: Stored(rows, rows, live)[k] == rows[k]
  }

  lemma RecordedRowSelected(t: Table, job: Job, results: seq<TargetResult>, master: string, now: int, i: nat,
                            dataset: string, live: map<nat, string>)
    requires TableOk(t) && AllConsistent(t.rows) && Trimmed(dataset)
    requires i < |results|
    requires forall k | 0 <= k < |results| && k != i :: results[k].station != results[i].station
    requires Recorded(job, results[i]) && results[i].status == Verified
    requires results[i].newMapping == Some(DeviceOf(dataset))
    requires OtherClonesDiffer(t.rows, results[i].station, job.id, dataset)
    requires results[i].station in live && live[results[i].station] == DeviceOf(dataset)
    ensures SelectedAndSettled(t.rows, Persist(t.rows, job, results, master, t.nextId, now), job,
                               results[i].station, dataset, live)
  {
    var station, rows := results[i].station, Persist(t.rows, job, results, master, t.nextId, now);
    PersistSaves(t, job, results, master, now, i, dataset);
    var at :| SavedAt(t.rows, rows, at, job, station, dataset);
    PersistOk(t, job, results, master, now);
    SavedRowSelected(t.rows, rows, at, job, station, dataset);
    SelectedRowsStay(rows, at, station, live);
  }

  // The result names the station's own clone, is recorded, and with a unique target name the live mapping
  // is that clone.
  predicate Reported(before: Storage, s: Storage, job: Job, stations: seq<Station>, outcome: PublishRun.Outcome, i: nat)
    requires i < |stations| && outcome.Finished? && |outcome.targets| == |stations|
  {
    var clone := CloneOf(job, stations[i]);
    && Trimmed(clone)
    && outcome.targets[i].station == stations[i].id
    && (forall k | 0 <= k < |outcome.targets| && k != i :: outcome.targets[k].station != stations[i].id)
    && outcome.targets[i].newMapping == Some(DeviceOf(clone)) && Recorded(job, outcome.targets[i])
    && (SoleTarget(before, stations[i]) ==> MapStation(s, stations[i]) == Some(DeviceOf(clone)))
  }

  // What a VERIFIED result of a finished run tells about its station.
  lemma VerifiedTarget(w: World, job: Job, stations: seq<Station>, i: nat)
    ensures var (outcome, w') := PublishRun.Execute(w, job, stations, true);
            FinishedVerified(w.storage, job, stations, outcome, i) ==>
              Reported(w.storage, w'.storage, job, stations, outcome, i)
  {
    var (outcome, w') := PublishRun.Execute(w, job, stations, true);
    if FinishedVerified(w.storage, job, stations, outcome, i) {
      var clone := CloneOf(job, stations[i]);
      var plans := PublishResults.PlansAt(w.storage, job, stations);
      PublishResults.RunSound(w, job, stations, true);
      DestinationEnds(job.request.source, stations[i].displayName, job.id);
      assert PublishResults.Sound(w, w', plans[i], outcome.targets[i]);
      PublishSafety.ResolveStable(w.storage, w.storage, stations);
      PublishSafety.RunFrame(w, job, stations, true);
      var m := PublishRun.Resolve(w.storage, stations).value[i];
      assert plans[i] == PublishRun.BuildPlan(job, stations[i], m);
      LiveAfterSwitch(w.storage, w'.storage, stations[i], m, clone);
      StationsDistinct(stations);
    }
  }

  lemma StationsDistinct(stations: seq<Station>)
    requires PublishRun.Distinct(PublishRun.StationIds(stations))
    ensures forall k, j | 0 <= k < |stations| && 0 <= j < |stations| && k != j :: stations[k].id != stations[j].id
  {
    var ids := PublishRun.StationIds(stations);
    forall k, j | 0 <= k < |stations| && 0 <= j < |stations| && k != j ensures stations[k].id != stations[j].id {
      assert ids[k] == stations[k].id && ids[j] == stations[j].id;
    }
  }
}
