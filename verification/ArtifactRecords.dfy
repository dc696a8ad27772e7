// What the transaction of a finished run writes into the table of clones, station by station.
module ArtifactRecords {
  import opened Text
  import opened Naming
  import opened PublishJobs
  import opened Artifacts
  import opened PublishReconcile

  // A clone is recorded once it exists, unless the run was a dry one, even if its station failed.
  predicate Records(job: Job, r: TargetResult) {
    !job.request.dryRun && r.storageCreated && r.newMapping.Some? && r.newMapping.value != ""
  }

  // The row at `at` is the record of this result: a new one under this identifier, or the row of the same job and
  // station, which keeps its identifier and creation time.
  predicate RecordAt(before: seq<Artifact>, after: seq<Artifact>, job: Job, r: TargetResult, master: string, id: nat,
                     now: int, at: nat)
    requires r.newMapping.Some?
  {
    && at < |after| && |before| <= |after|
    && var row := after[at];
       && row.job == job.id && row.station == r.station && row.source == job.request.source
       && row.snapshotRef == master && row.mappingRef == r.newMapping.value
       && ("zvol/" <= row.mappingRef ==> row.dataset == row.mappingRef[5..])
       && row.status == (if r.status == Verified then Current else Retired)
       && (row.isCurrent <==> r.status == Verified) && row.deletedAt == None && row.lastError == None
       && if at < |before| then
            && before[at].job == job.id && before[at].station == r.station
            && row.id == before[at].id && row.createdAt == before[at].createdAt
          else
            && row.id == id && row.createdAt == now
            && forall k | 0 <= k < |before| :: before[k].job != job.id || before[k].station != r.station
  }

  // The station's other rows: the current one is retired, no further one was added.
  predicate OthersRetired(before: seq<Artifact>, after: seq<Artifact>, station: nat, at: nat) {
    && |before| <= |after| && (forall k | 0 <= k < |before| :: after[k].station == before[k].station)
    && (forall k | 0 <= k < |before| && k != at && before[k].station == station ::
          after[k] == if before[k].isCurrent then before[k].(isCurrent := false, status := Retired) else before[k])
    && forall k | |before| <= k < |after| && k != at :: after[k].station != station
  }

  ghost predicate RecordedIn(before: seq<Artifact>, after: seq<Artifact>, job: Job, r: TargetResult, master: string, id: nat,
                           now: int)
    requires r.newMapping.Some?
  {
    exists at: nat :: RecordAt(before, after, job, r, master, id, now, at) && OthersRetired(before, after, r.station, at)
  }

  lemma BuiltDataset(mapping: string)
    requires "zvol/" <= mapping
    ensures RemovePrefix(RemovePrefix(mapping, "/dev/"), "zvol/") == mapping[5..]
  {
    assert mapping[0] == 'z';
  }

  lemma SaveRecords(base: seq<Artifact>, t: Table, job: Job, r: TargetResult, master: string, now: int)
    requires Records(job, r) && StationKept(base, t.rows, r.station) && FreshFrom(t.rows, t.nextId)
    ensures RecordedIn(base, PersistNext(t, job, r, master, now).rows, job, r, master, t.nextId, now)
  {
    var a := BuildArtifact(job, r, master, t.nextId, now);
    var retired := Retire(t.rows, r.station, t.nextId);
    assert forall k | 0 <= k < |retired| :: retired[k] == RetireRow(t.rows[k], r.station, t.nextId);
    SavedRecord(base, t, retired, Save(retired, a), a, job, r, master, now);
  }

  lemma SavedRecord(base: seq<Artifact>, t: Table, retired: seq<Artifact>, after: seq<Artifact>, a: Artifact, job: Job,
                    r: TargetResult, master: string, now: int)
    requires Records(job, r) && StationKept(base, t.rows, r.station) && FreshFrom(t.rows, t.nextId)
    requires |retired| == |t.rows| && after == Save(retired, a) && a == BuildArtifact(job, r, master, t.nextId, now)
    requires forall k | 0 <= k < |retired| :: retired[k] == RetireRow(t.rows[k], r.station, t.nextId)
    ensures RecordedIn(base, after, job, r, master, t.nextId, now)
  {
    var found := FindKey(retired, job.id, r.station);
    var at := if found.Some? then found.value else |retired|;
    assert found.Some? ==> retired[at].station == r.station && t.rows[at].station == r.station;
    forall k | 0 <= k < |t.rows| ensures KeptAt(base, t.rows, r.station, k) && retired[k].job == t.rows[k].job {
    }
    if "zvol/" <= r.newMapping.value { BuiltDataset(r.newMapping.value); }
    forall k | 0 <= k < |base|
      ensures at < |base| || base[k].job != job.id || base[k].station != r.station
    {
      assert KeptAt(base, t.rows, r.station, k) && retired[k].station == t.rows[k].station;
    }
    assert RecordAt(base, after, job, r, master, t.nextId, now, at);
    assert OthersRetired(base, after, r.station, at);
  }

  lemma RecordCarries(before: seq<Artifact>, middle: seq<Artifact>, after: seq<Artifact>, job: Job, r: TargetResult,
                      master: string, id: nat, now: int)
    requires r.newMapping.Some? && RecordedIn(before, middle, job, r, master, id, now) && StationKept(middle, after, r.station)
    ensures RecordedIn(before, after, job, r, master, id, now)
  {
    var at: nat :| RecordAt(before, middle, job, r, master, id, now, at) && OthersRetired(before, middle, r.station, at);
    forall k | 0 <= k < |after|
      ensures if k < |middle| then after[k].station == middle[k].station && (middle[k].station == r.station ==> after[k] == middle[k])
              else after[k].station != r.station
    {
      assert KeptAt(middle, after, r.station, k);
    }
    assert RecordAt(before, after, job, r, master, id, now, at);
    assert OthersRetired(before, after, r.station, at);
  }

  lemma ResultSaved(t: Table, job: Job, results: seq<TargetResult>, master: string, now: int, i: nat)
    requires i < |results| && FreshFrom(Persisted(t, job, results[..i], master, now).rows, t.nextId + i)
    requires StationKept(t.rows, Persisted(t, job, results[..i], master, now).rows, results[i].station)
    ensures var rows := Persisted(t, job, results[..i + 1], master, now).rows;
            if Records(job, results[i]) then RecordedIn(t.rows, rows, job, results[i], master, t.nextId + i, now)
            else StationKept(t.rows, rows, results[i].station)
  {
    var u := Persisted(t, job, results[..i], master, now);
    assert results[..i + 1][..i] == results[..i];
    assert Persisted(t, job, results[..i + 1], master, now) == PersistNext(u, job, results[i], master, now);
    if Records(job, results[i]) {
      SaveRecords(t.rows, u, job, results[i], master, now);
    }
  }

  // With one result per station, the transaction records exactly the clones that exist: the station's row of this
  // job says what the result says, its other rows are not current any more, and a station without such a result
  // keeps its rows as they were.
  lemma PersistsExactly(t: Table, job: Job, results: seq<TargetResult>, master: string, now: int, i: nat)
    requires TableOk(t) && i < |results|
    requires forall j, k | 0 <= j < k < |results| :: results[j].station != results[k].station
    ensures var rows := Persisted(t, job, results, master, now).rows;
            if Records(job, results[i]) then RecordedIn(t.rows, rows, job, results[i], master, t.nextId + i, now)
            else StationKept(t.rows, rows, results[i].station)
  {
    var r, after := results[i], Persisted(t, job, results, master, now).rows;
    var middle := Persisted(t, job, results[..i + 1], master, now).rows;
    StationKeptBefore(t, job, results, master, now, i);
    PersistOk(t, job, results[..i], master, now);
    ResultSaved(t, job, results, master, now, i);
    forall q | q in results[i + 1..] ensures q.station != r.station {
      var k :| 0 <= k < |results[i + 1..]| && results[i + 1..][k] == q;
      assert q == results[i + 1 + k];
    }
    StationKeptThrough(t.rows, job, results, master, t.nextId, now, r.station, i + 1);
    assert Persist(t.rows, job, results[..i + 1], master, t.nextId, now) == middle by { assert Table(t.rows, t.nextId) == t; }
    if Records(job, r) {
      RecordCarries(t.rows, middle, after, job, r, master, t.nextId + i, now);
    } else {
      KeptTransitive(t.rows, middle, after, r.station);
    }
  }

  // A station the run has no result for keeps its rows.
  lemma OthersKept(t: Table, job: Job, results: seq<TargetResult>, master: string, now: int, station: nat)
    requires forall r | r in results :: r.station != station
    ensures StationKept(t.rows, Persisted(t, job, results, master, now).rows, station)
  {
    assert results[..0] == [] && results[0..] == results && Table(t.rows, t.nextId) == t;
    StationKeptThrough(t.rows, job, results, master, t.nextId, now, station, 0);
  }

  // The failure mark stores as much of the squeezed error as fits into 1000 characters.
  lemma ErrorStored(rows: seq<Artifact>, id: nat, error: string, k: nat)
    requires UniqueIds(rows) && k < |rows|
    ensures var after := MarkFailed(rows, id, error);
            && |after| == |rows|
            && if rows[k].id != id then after[k] == rows[k]
               else
                 && after[k] == rows[k].(status := CleanupFailed, lastError := after[k].lastError)
                 && after[k].lastError.Some? && after[k].lastError.value <= Squeeze(error)
                 && |after[k].lastError.value| == if |Squeeze(error)| < 1000 then |Squeeze(error)| else 1000
  {
    var at := FindId(rows, id);
    assert at.Some? && rows[k].id == id ==> at.value == k;
  }
}
