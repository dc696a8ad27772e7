// The table of clones made by publish jobs: row updates, the repository that performs them, and
// the invariants the "current" flag keeps under every interleaving of commits.
module Artifacts {
  import opened Text
  import opened Naming
  import opened PublishJobs

  datatype ArtifactStatus = Current | Retired | Deleted | CleanupFailed

  datatype Artifact = Artifact(id: nat, job: HexId, station: nat, source: string, dataset: string,
                               snapshotRef: string, mappingRef: string, createdAt: int,
                               status: ArtifactStatus, isCurrent: bool, deletedAt: Option<int>,
                               lastError: Option<string>)

  // ---- row updates ----

  function RetireRow(r: Artifact, station: nat, exceptId: nat): Artifact {
    if r.station == station && r.id != exceptId && r.isCurrent then r.(isCurrent := false, status := Retired)
    else r
  }

  function Retire(rows: seq<Artifact>, station: nat, exceptId: nat): (r: seq<Artifact>)
    ensures |r| == |rows|
  {
    seq(|rows|, i requires 0 <= i < |rows| => RetireRow(rows[i], station, exceptId))
  }

  function SetCurrentRow(r: Artifact, station: nat, id: Option<nat>): Artifact {
    if r.station != station then r
    else if r.status == Deleted then r.(isCurrent := false)
    else if Some(r.id) == id then
      r.(isCurrent := true, status := Current, deletedAt := None, lastError := None)
    else r.(isCurrent := false, status := if r.status == Current then Retired else r.status)
  }

  function SetCurrent(rows: seq<Artifact>, station: nat, id: Option<nat>): (r: seq<Artifact>)
    ensures |r| == |rows|
  {
    seq(|rows|, i requires 0 <= i < |rows| => SetCurrentRow(rows[i], station, id))
  }

  // The index of the first row of a job and station, which the table's key makes the only one.
  function FindKey(rows: seq<Artifact>, job: HexId, station: nat): (r: Option<nat>)
    ensures r.Some? ==> r.value < |rows| && rows[r.value].job == job && rows[r.value].station == station
    ensures r.None? ==> forall k | 0 <= k < |rows| :: rows[k].job != job || rows[k].station != station
  {
    if rows == [] then None
    else if rows[0].job == job && rows[0].station == station then Some(0)
    else
      var rest := FindKey(rows[1..], job, station);
      if rest == None then None else Some(rest.value + 1)
  }

  function Overwrite(r: Artifact, a: Artifact): Artifact {
    r.(source := a.source, dataset := a.dataset, snapshotRef := a.snapshotRef, mappingRef := a.mappingRef,
       status := a.status, isCurrent := a.isCurrent, deletedAt := a.deletedAt, lastError := a.lastError)
  }

  function Save(rows: seq<Artifact>, a: Artifact): seq<Artifact> {
    var at := FindKey(rows, a.job, a.station);
    if at == None then rows + [a] else rows[at.value := Overwrite(rows[at.value], a)]
  }

  function FindId(rows: seq<Artifact>, id: nat): (r: Option<nat>)
    ensures r.Some? ==> r.value < |rows| && rows[r.value].id == id
    ensures r.None? ==> forall k | 0 <= k < |rows| :: rows[k].id != id
  {
    if rows == [] then None
    else if rows[0].id == id then Some(0)
    else
      var rest := FindId(rows[1..], id);
      if rest == None then None else Some(rest.value + 1)
  }

  function DeletedRow(r: Artifact, now: int): Artifact {
    r.(status := Deleted, isCurrent := false, deletedAt := Some(now), lastError := None)
  }

  function ErrorText(error: string): string {
    var text := Squeeze(error);
    if |text| <= 1000 then text else text[..1000]
  }

  function FailedRow(r: Artifact, error: string): Artifact {
    r.(status := CleanupFailed, lastError := Some(ErrorText(error)))
  }

  // The marks raise when the row is missing, which rolls their transaction back.
  function MarkDeleted(rows: seq<Artifact>, id: nat, now: int): seq<Artifact> {
    var at := FindId(rows, id);
    if at == None then rows else rows[at.value := DeletedRow(rows[at.value], now)]
  }

  function MarkFailed(rows: seq<Artifact>, id: nat, error: string): seq<Artifact> {
    var at := FindId(rows, id);
    if at == None then rows else rows[at.value := FailedRow(rows[at.value], error)]
  }

  // ---- what a finished run adds ----

  function BuildArtifact(job: Job, r: TargetResult, master: string, id: nat, now: int): Artifact
    requires r.newMapping.Some?
  {
    var mapping := r.newMapping.value;
    var verified := r.status == Verified;
    Artifact(id, job.id, r.station, job.request.source,
             RemovePrefix(RemovePrefix(mapping, "/dev/"), "zvol/"), master, mapping, now,
             if verified then Current else Retired, verified, None, None)
  }

  predicate Recorded(job: Job, r: TargetResult) {
    !job.request.dryRun && r.storageCreated && r.newMapping.Some? && r.newMapping.value != ""
  }

  function PersistOne(rows: seq<Artifact>, job: Job, r: TargetResult, master: string, id: nat, now: int)
    : seq<Artifact>
  {
    if Recorded(job, r) then
      var a := BuildArtifact(job, r, master, id, now);
      Save(Retire(rows, a.station, a.id), a)
    else rows
  }

  datatype Table = Table(rows: seq<Artifact>, nextId: nat)

  function PersistNext(t: Table, job: Job, r: TargetResult, master: string, now: int): Table {
    Table(PersistOne(t.rows, job, r, master, t.nextId, now), t.nextId + 1)
  }

  // The table after the persisting transaction, which draws one identifier a result.
  function Persisted(t: Table, job: Job, results: seq<TargetResult>, master: string, now: int): (u: Table)
    ensures u.nextId == t.nextId + |results|
  {
    if results == [] then t
    else
      var last := |results| - 1;
      PersistNext(Persisted(t, job, results[..last], master, now), job, results[last], master, now)
  }

  // Its rows; `firstId` onwards are the identifiers it draws.
  function Persist(rows: seq<Artifact>, job: Job, results: seq<TargetResult>, master: string, firstId: nat, now: int)
    : seq<Artifact>
  {
    Persisted(Table(rows, firstId), job, results, master, now).rows
  }

  // ---- the repository ----

  class ArtifactTable {
    var rows: seq<Artifact>

    constructor (rows: seq<Artifact>)
      ensures this.rows == rows
    {
      this.rows := rows;
    }

    method RetireStationArtifacts(station: nat, exceptId: nat)
      modifies this
      ensures rows == Retire(old(rows), station, exceptId)
    {
      for i := 0 to |rows|
        invariant |rows| == |old(rows)|
        invariant forall k | 0 <= k < |rows| ::
                    rows[k] == if k < i then RetireRow(old(rows)[k], station, exceptId) else old(rows)[k]
      {
        var record := rows[i];
        if record.station == station && record.id != exceptId && record.isCurrent {
          rows := rows[i := record.(isCurrent := false, status := Retired)];
        }
      }
    }

    method SetCurrentArtifact(station: nat, id: Option<nat>)
      modifies this
      ensures rows == SetCurrent(old(rows), station, id)
    {
      for i := 0 to |rows|
        invariant |rows| == |old(rows)|
        invariant forall k | 0 <= k < |rows| ::
                    rows[k] == if k < i then SetCurrentRow(old(rows)[k], station, id) else old(rows)[k]
      {
        var record := rows[i];
        if record.station != station { continue; }
        if record.status == Deleted {
          record := record.(isCurrent := false);
        } else if Some(record.id) == id {
          record := record.(isCurrent := true, status := Current, deletedAt := None, lastError := None);
        } else {
          record := record.(isCurrent := false);
          if record.status == Current {
            record := record.(status := Retired);
          }
        }
        rows := rows[i := record];
      }
    }

    method SaveArtifact(a: Artifact)
      modifies this
      ensures rows == Save(old(rows), a)
    {
      var at := FindKey(rows, a.job, a.station);
      if at == None {
        rows := rows + [a];
      } else {
        rows := rows[at.value := Overwrite(rows[at.value], a)];
      }
    }

    method MarkArtifactDeleted(id: nat, now: int) returns (found: bool)
      modifies this
      ensures rows == MarkDeleted(old(rows), id, now) && found == FindId(old(rows), id).Some?
    {
      var at := FindId(rows, id);
      found := at.Some?;
      if found {
        rows := rows[at.value := DeletedRow(rows[at.value], now)];
      }
    }

    method MarkArtifactFailed(id: nat, error: string) returns (found: bool)
      modifies this
      ensures rows == MarkFailed(old(rows), id, error) && found == FindId(old(rows), id).Some?
    {
      var at := FindId(rows, id);
      found := at.Some?;
      if found {
        rows := rows[at.value := FailedRow(rows[at.value], error)];
      }
    }

    // The artifact part of the persisting transaction.
    method PersistResults(job: Job, results: seq<TargetResult>, master: string, firstId: nat, now: int)
      modifies this
      ensures rows == Persist(old(rows), job, results, master, firstId, now)
    {
      for i := 0 to |results|
        invariant rows == Persist(old(rows), job, results[..i], master, firstId, now)
      {
        ghost var before := rows;
        PersistResult(job, results[i], master, firstId + i, now);
        PersistStep(old(rows), job, results, master, firstId, now, i, before, rows);
      }
      assert results[..|results|] == results;
    }

    method PersistResult(job: Job, r: TargetResult, master: string, id: nat, now: int)
      modifies this
      ensures rows == PersistOne(old(rows), job, r, master, id, now)
    {
      if !job.request.dryRun && r.storageCreated && r.newMapping.Some? && r.newMapping.value != "" {
        var a := BuildArtifact(job, r, master, id, now);
        RetireStationArtifacts(a.station, a.id);
        SaveArtifact(a);
      }
    }
  }

  // ---- invariants ----

  predicate UniqueIds(rows: seq<Artifact>) {
    forall i, j | 0 <= i < j < |rows| :: rows[i].id != rows[j].id
  }

  predicate UniqueKeys(rows: seq<Artifact>) {
    forall i, j | 0 <= i < j < |rows| :: rows[i].job != rows[j].job || rows[i].station != rows[j].station
  }

  predicate OneCurrent(rows: seq<Artifact>) {
    forall i, j | 0 <= i < j < |rows| && rows[i].station == rows[j].station ::
      !(rows[i].isCurrent && rows[j].isCurrent)
  }

  // What every interleaving of commits keeps: a CURRENT row is flagged, a DELETED one is stamped, and a
  // stamped one is not flagged.
  predicate Consistent(r: Artifact) {
    && (r.status == Current ==> r.isCurrent)
    && (r.status == Deleted ==> r.deletedAt.Some?)
    && (r.deletedAt.Some? ==> !r.isCurrent && r.status in {Deleted, CleanupFailed})
  }

  predicate AllConsistent(rows: seq<Artifact>) {
    forall k | 0 <= k < |rows| :: Consistent(rows[k])
  }

  // Flag and timestamp agree with the status, which a failure mark that comes too late can undo.
  predicate Coherent(r: Artifact) {
    && (r.isCurrent <==> r.status == Current)
    && (r.status == Deleted <==> r.deletedAt.Some?)
  }

  predicate AllCoherent(rows: seq<Artifact>) {
    forall k | 0 <= k < |rows| :: Coherent(rows[k])
  }

  predicate FreshFrom(rows: seq<Artifact>, firstId: nat) {
    forall k | 0 <= k < |rows| :: rows[k].id < firstId
  }

  // One commit of any actor, made from whatever that actor read earlier.
  datatype Commit =
    | PersistCommit(job: Job, results: seq<TargetResult>, master: string, now: int)
    | SetCurrentCommit(station: nat, current: Option<nat>)
    | DeletedCommit(id: nat, now: int)
    | FailedCommit(id: nat, error: string)

  function Commit1(t: Table, c: Commit): Table {
    match c
    case PersistCommit(job, results, master, now) => Persisted(t, job, results, master, now)
    case SetCurrentCommit(station, id) => t.(rows := SetCurrent(t.rows, station, id))
    case DeletedCommit(id, now) => t.(rows := MarkDeleted(t.rows, id, now))
    case FailedCommit(id, error) => t.(rows := MarkFailed(t.rows, id, error))
  }

  function CommitAll(t: Table, commits: seq<Commit>): Table {
    if commits == [] then t
    else Commit1(CommitAll(t, commits[..|commits| - 1]), commits[|commits| - 1])
  }

  predicate TableOk(t: Table) {
    UniqueIds(t.rows) && UniqueKeys(t.rows) && OneCurrent(t.rows) && FreshFrom(t.rows, t.nextId)
  }

  // Row by row, the identifying columns are unchanged.
  predicate SameIdentity(a: seq<Artifact>, b: seq<Artifact>) {
    && |a| == |b|
    && forall k | 0 <= k < |a| ::
         a[k].id == b[k].id && a[k].job == b[k].job && a[k].station == b[k].station
  }

  lemma IdentityOk(t: Table, rows: seq<Artifact>)
    requires TableOk(t) && SameIdentity(t.rows, rows)
    ensures UniqueIds(rows) && UniqueKeys(rows) && FreshFrom(rows, t.nextId)
  {
  }

  // What a commit keeps of its rows: consistency, and coherence where it was there.
  predicate RowsKept(rows: seq<Artifact>, after: seq<Artifact>) {
    (AllConsistent(rows) ==> AllConsistent(after)) && (AllCoherent(rows) ==> AllCoherent(after))
  }

  // An update row by row that keeps the invariants of each single row keeps those of all of them.
  lemma RowByRow(rows: seq<Artifact>, after: seq<Artifact>)
    requires |after| == |rows|
    requires forall k | 0 <= k < |rows| :: Consistent(rows[k]) ==> Consistent(after[k])
    requires forall k | 0 <= k < |rows| :: Coherent(rows[k]) ==> Coherent(after[k])
    ensures RowsKept(rows, after)
  {
  }

  lemma RetireTable(t: Table, station: nat, rows: seq<Artifact>)
    requires TableOk(t) && rows == Retire(t.rows, station, t.nextId)
    ensures TableOk(t.(rows := rows))
    ensures forall k | 0 <= k < |rows| && rows[k].station == station :: !rows[k].isCurrent
  {
    assert forall k | 0 <= k < |rows| :: rows[k] == RetireRow(t.rows[k], station, t.nextId);
    IdentityOk(t, rows);
  }

  lemma RetireOk(t: Table, station: nat)
    requires TableOk(t)
    ensures var rows := Retire(t.rows, station, t.nextId);
            && TableOk(t.(rows := rows)) && RowsKept(t.rows, rows)
            && forall k | 0 <= k < |rows| && rows[k].station == station :: !rows[k].isCurrent
  {
    var rows := Retire(t.rows, station, t.nextId);
    RetireTable(t, station, rows);
    RowByRow(t.rows, rows);
  }

  // The table after a row was saved for a station that has no current one.
  lemma OverwriteTable(t: Table, at: nat, a: Artifact)
    requires TableOk(t) && at < |t.rows| && t.rows[at].station == a.station
    requires forall k | 0 <= k < |t.rows| && t.rows[k].station == a.station :: !t.rows[k].isCurrent
    ensures TableOk(Table(t.rows[at := Overwrite(t.rows[at], a)], t.nextId + 1))
  {
    IdentityOk(t, t.rows[at := Overwrite(t.rows[at], a)]);
  }

  lemma AppendTable(t: Table, a: Artifact)
    requires TableOk(t) && a.id == t.nextId
    requires forall k | 0 <= k < |t.rows| :: t.rows[k].job != a.job || t.rows[k].station != a.station
    requires forall k | 0 <= k < |t.rows| && t.rows[k].station == a.station :: !t.rows[k].isCurrent
    ensures TableOk(Table(t.rows + [a], t.nextId + 1))
  {
  }

  lemma SaveOk(t: Table, a: Artifact)
    requires TableOk(t) && Coherent(a) && a.id == t.nextId
    requires forall k | 0 <= k < |t.rows| && t.rows[k].station == a.station :: !t.rows[k].isCurrent
    ensures TableOk(Table(Save(t.rows, a), t.nextId + 1)) && RowsKept(t.rows, Save(t.rows, a))
  {
    var found := FindKey(t.rows, a.job, a.station);
    if found.Some? {
      OverwriteTable(t, found.value, a);
      RowByRow(t.rows, t.rows[found.value := Overwrite(t.rows[found.value], a)]);
    } else {
      AppendTable(t, a);
    }
  }

  // The invariants of a table, those of its rows as far as they held of earlier ones.
  predicate Kept(before: seq<Artifact>, t: Table) { TableOk(t) && RowsKept(before, t.rows) }

  lemma PersistLast(rows: seq<Artifact>, job: Job, results: seq<TargetResult>, master: string, firstId: nat, now: int)
    requires results != []
    ensures var last := |results| - 1;
            Persist(rows, job, results, master, firstId, now)
            == PersistOne(Persist(rows, job, results[..last], master, firstId, now), job, results[last], master,
                          firstId + last, now)
  {
  }

  lemma PersistSplits(rows: seq<Artifact>, job: Job, results: seq<TargetResult>, master: string, firstId: nat, now: int,
                      i: nat)
    requires i < |results|
    ensures Persist(rows, job, results[..i + 1], master, firstId, now)
         == PersistOne(Persist(rows, job, results[..i], master, firstId, now), job, results[i], master, firstId + i, now)
  {
    assert results[..i + 1][..i] == results[..i] && results[..i + 1][i] == results[i];
    PersistLast(rows, job, results[..i + 1], master, firstId, now);
  }

  lemma PersistStep(rows: seq<Artifact>, job: Job, results: seq<TargetResult>, master: string, firstId: nat, now: int,
                    i: nat, before: seq<Artifact>, after: seq<Artifact>)
    requires i < |results| && before == Persist(rows, job, results[..i], master, firstId, now)
    requires after == PersistOne(before, job, results[i], master, firstId + i, now)
    ensures after == Persist(rows, job, results[..i + 1], master, firstId, now)
  {
    PersistSplits(rows, job, results, master, firstId, now, i);
  }

  // What holds after the first results and each later result's step keeps, holds after all of them.
  lemma {:induction false} PersistInductionFrom(inv: Table -> bool, t: Table, job: Job, results: seq<TargetResult>,
                                                from: nat, master: string, now: int)
    requires from <= |results|
    requires inv(Persisted(t, job, results[..from], master, now))
    requires forall u, r | inv(u) && r in results[from..] :: inv(PersistNext(u, job, r, master, now))
    ensures inv(Persisted(t, job, results, master, now))
    decreases |results|
  {
    if from == |results| {
      assert results[..from] == results;
    } else {
      var last := |results| - 1;
      LaterResults(results, from);
      PersistInductionFrom(inv, t, job, results[..last], from, master, now);
    }
  }

  lemma LaterResults(results: seq<TargetResult>, from: nat)
    requires from < |results|
    ensures var last := |results| - 1;
            && results[..last][..from] == results[..from] && results[last] in results[from..]
            && forall r | r in results[..last][from..] :: r in results[from..]
  {
    var last := |results| - 1;
    assert results[from..] == results[..last][from..] + [results[last]];
  }

  lemma PersistInduction(inv: Table -> bool, t: Table, job: Job, results: seq<TargetResult>, master: string, now: int)
    requires inv(t) && forall u, r | inv(u) && r in results :: inv(PersistNext(u, job, r, master, now))
    ensures inv(Persisted(t, job, results, master, now))
  {
    assert results[..0] == [] && results[0..] == results && t == Table(t.rows, t.nextId);
    PersistInductionFrom(inv, t, job, results, 0, master, now);
  }

  lemma PersistOneOk(before: seq<Artifact>, t: Table, job: Job, r: TargetResult, master: string, now: int)
    requires Kept(before, t)
    ensures Kept(before, PersistNext(t, job, r, master, now))
  {
    if Recorded(job, r) {
      var a := BuildArtifact(job, r, master, t.nextId, now);
      RetireOk(t, a.station);
      SaveOk(t.(rows := Retire(t.rows, a.station, a.id)), a);
    }
  }

  lemma PersistOk(t: Table, job: Job, results: seq<TargetResult>, master: string, now: int)
    requires TableOk(t)
    ensures Kept(t.rows, Table(Persist(t.rows, job, results, master, t.nextId, now), t.nextId + |results|))
  {
    var inv := (u: Table) => Kept(t.rows, u);
    forall u, r | inv(u) && r in results ensures inv(PersistNext(u, job, r, master, now)) {
      PersistOneOk(t.rows, u, job, r, master, now);
    }
    PersistInduction(inv, t, job, results, master, now);
  }

  lemma SetCurrentTable(t: Table, station: nat, id: Option<nat>, rows: seq<Artifact>)
    requires TableOk(t) && rows == SetCurrent(t.rows, station, id)
    ensures TableOk(t.(rows := rows))
  {
    assert forall k | 0 <= k < |rows| :: rows[k] == SetCurrentRow(t.rows[k], station, id);
    IdentityOk(t, rows);
  }

  lemma SetCurrentOk(t: Table, station: nat, id: Option<nat>)
    requires TableOk(t)
    ensures Kept(t.rows, t.(rows := SetCurrent(t.rows, station, id)))
  {
    var rows := SetCurrent(t.rows, station, id);
    SetCurrentTable(t, station, id, rows);
    assert forall k | 0 <= k < |rows| :: rows[k] == SetCurrentRow(t.rows[k], station, id);
    RowByRow(t.rows, rows);
  }

  lemma DeletedMarkOk(t: Table, id: nat, now: int)
    requires TableOk(t)
    ensures Kept(t.rows, t.(rows := MarkDeleted(t.rows, id, now)))
  {
    IdentityOk(t, MarkDeleted(t.rows, id, now));
  }

  lemma FailedMarkOk(t: Table, id: nat, error: string)
    requires TableOk(t)
    ensures TableOk(t.(rows := MarkFailed(t.rows, id, error)))
    ensures AllConsistent(t.rows) ==> AllConsistent(MarkFailed(t.rows, id, error))
  {
    IdentityOk(t, MarkFailed(t.rows, id, error));
  }

  const EMPTY_TABLE := Table([], 0)

  // At most one current clone per station and consistent rows, in every state any interleaving of commits,
  // late failure marks included, can reach.
  lemma {:induction false} OneCurrentAlways(t: Table, commits: seq<Commit>)
    requires TableOk(t)
    ensures TableOk(CommitAll(t, commits))
    ensures AllConsistent(t.rows) ==> AllConsistent(CommitAll(t, commits).rows)
  {
    if commits != [] {
      var c, before := commits[|commits| - 1], commits[..|commits| - 1];
      OneCurrentAlways(t, before);
      var u := CommitAll(t, before);
      match c {
        case PersistCommit(job, results, master, now) => PersistOk(u, job, results, master, now);
        case SetCurrentCommit(station, id) => SetCurrentOk(u, station, id);
        case DeletedCommit(id, now) => DeletedMarkOk(u, id, now);
        case FailedCommit(id, error) => FailedMarkOk(u, id, error);
      }
    }
  }

  // The failure mark is the one commit that can break coherence, and it does so exactly when the
  // row has meanwhile become current or deleted.
  lemma FailedMarkCoherence(rows: seq<Artifact>, id: nat, error: string)
    requires UniqueIds(rows) && AllCoherent(rows)
    ensures AllCoherent(MarkFailed(rows, id, error)) <==>
            forall r | r in rows && r.id == id :: r.status in {Retired, CleanupFailed}
  {
    var at := FindId(rows, id);
    if at.Some? {
      var marked := MarkFailed(rows, id, error);
      assert marked[at.value] in marked && rows[at.value] in rows;
      forall r | r in rows && r.id == id ensures r == rows[at.value] {
        var k :| 0 <= k < |rows| && rows[k] == r;
      }
    }
  }
}
