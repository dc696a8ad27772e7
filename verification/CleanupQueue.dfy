// The gate in front of the cleanup queue: which selections of clones an operator may hand over.
module CleanupQueue {
  import opened Text
  import opened Naming
  import opened Storage
  import opened Artifacts
  import opened CloneNames
  import opened Reconcile
  import opened PublishReconcile
  import Outbox

  // dict.fromkeys: every identifier once, where it first occurs.
  function Dedupe(ids: seq<nat>): seq<nat> {
    if ids == [] then []
    else
      var before, last := Dedupe(ids[..|ids| - 1]), ids[|ids| - 1];
      if last in before then before else before + [last]
  }

  function ById(rows: seq<Artifact>, ids: seq<nat>): seq<Artifact> {
    if rows == [] then []
    else (if rows[0].id in ids then [rows[0]] else []) + ById(rows[1..], ids)
  }

  function HasId(rows: seq<Artifact>, id: nat): bool { FindId(rows, id).Some? }

  function RowOf(rows: seq<Artifact>, id: nat): Artifact
    requires HasId(rows, id)
  {
    rows[FindId(rows, id).value]
  }

  // The registered stations of the selected rows, each once.
  function StationsOf(selected: seq<Artifact>, stations: map<nat, Station>): seq<Station> {
    if selected == [] then []
    else
      var before, a := StationsOf(selected[..|selected| - 1], stations), selected[|selected| - 1];
      if a.station !in stations || stations[a.station] in before then before
      else before + [stations[a.station]]
  }

  datatype Verdict = Accepted(ids: seq<nat>) | Empty | Unknown | SyncFailed | InUse | AlreadyDeleted | QueueFailed
                   | GateDied

  // The four listings the live mapping is read from.
  function ReadLive(w: World): (Signal, World) {
    var (a, w1) := Perform(w, QueryDatasets);
    if !a.Ok? then (a, w1)
    else
      var (b, w2) := Perform(w1, QueryTargets);
      if !b.Ok? then (b, w2)
      else
        var (c, w3) := Perform(w2, QueryTargetExtents);
        if !c.Ok? then (c, w3) else Perform(w3, QueryExtents)
  }

  function Judge(selected: seq<Artifact>, ids: seq<nat>): Verdict
    requires forall id | id in ids :: HasId(selected, id)
  {
    if exists id | id in ids :: RowOf(selected, id).isCurrent then InUse
    else if exists id | id in ids :: RowOf(selected, id).deletedAt != None then AlreadyDeleted
    else Accepted(ids)
  }

  // The verdict once the message was handed to the queue.
  function Handed(verdict: Verdict, sending: Outbox.SendFault): Verdict {
    if verdict.Accepted? && !sending.Sent? then QueueFailed else verdict
  }

  // What becomes of a selection of the rows `seen` by the first transaction, and the table `rows` that a second
  // one updates; others may have committed in between.
  function Decision(ids: seq<nat>, seen: seq<Artifact>, rows: seq<Artifact>, w: World, stations: map<nat, Station>,
                    checksLive: bool): (r: (Verdict, seq<Artifact>))
    ensures r.0.Accepted? ==> r.0.ids == ids
  {
    var selected := ById(seen, ids);
    var (signal, w') := ReadLive(w);
    var live := MapStations(w'.storage, StationsOf(selected, stations));
    if ids == [] then (Empty, rows)
    else if exists id | id in ids :: !HasId(selected, id) then (Unknown, rows)
    else if !checksLive then (Judge(selected, ids), rows)
    else if !signal.Ok? then (if signal.Crashed? then GateDied else SyncFailed, rows)
    else
      ReconciledIds(selected, live);
      (Judge(Reconciled(selected, live), ids), Stored(rows, seen, live))
  }

  class CleanupGate {
    const table: ArtifactTable
    const client: Client
    const checksLive: bool
    var queue: seq<seq<nat>>

    constructor (table: ArtifactTable, client: Client, checksLive: bool)
      ensures this.table == table && this.client == client && this.checksLive == checksLive && queue == []
    {
      this.table, this.client, this.checksLive, queue := table, client, checksLive, [];
    }

    method ReadLiveState(stations: seq<Station>) returns (signal: Signal, live: map<nat, string>)
      modifies client
      ensures (signal, client.View()) == ReadLive(old(client.View()))
      ensures client.storage == old(client.storage)
      ensures signal.Ok? ==> live == MapStations(client.storage, stations)
    {
      live := map[];
      signal := client.Query(QueryDatasets);
      if !signal.Ok? { return; }
      signal := client.Query(QueryTargets);
      if !signal.Ok? { return; }
      signal := client.Query(QueryTargetExtents);
      if !signal.Ok? { return; }
      signal := client.Query(QueryExtents);
      if !signal.Ok? { return; }
      live := MapStationMappings(client.storage, stations);
    }

    // The verdict on the selection, before anything is queued. The clone table is updated from the live mapping
    // as soon as that could be read.
    method Decide(ids: seq<nat>, seen: seq<Artifact>, stations: map<nat, Station>) returns (verdict: Verdict)
      modifies table, client
      ensures (verdict, table.rows) == Decision(ids, seen, old(table.rows), old(client.View()), stations, checksLive)
      ensures client.storage == old(client.storage)
    {
      if ids == [] { return Empty; }
      var selected := ById(seen, ids);
      if exists id | id in ids :: !HasId(selected, id) { return Unknown; }
      if checksLive {
        var signal, live := ReadLiveState(StationsOf(selected, stations));
        if !signal.Ok? { return if signal.Crashed? then GateDied else SyncFailed; }
        PersistCurrentState(table, seen, live);
        ReconciledIds(selected, live);
        selected := ReconcileArtifacts(selected, live);
      }
      verdict := Judge(selected, ids);
    }

    // An accepted request enqueues exactly the de-duplicated identifiers, any other nothing. `sending` is what
    // becomes of the enqueue: it may raise, applied or not.
    method Execute(artifactIds: seq<nat>, seen: seq<Artifact>, stations: map<nat, Station>, sending: Outbox.SendFault)
      returns (verdict: Verdict)
      modifies this`queue, table, client
      ensures var ids := Dedupe(artifactIds);
              var (judged, rows) := Decision(ids, seen, old(table.rows), old(client.View()), stations, checksLive);
              && verdict == Handed(judged, sending) && table.rows == rows
              && queue == if judged.Accepted? && !sending.SendLost? then old(queue) + [ids] else old(queue)
      ensures client.storage == old(client.storage)
    {
      var ids := DedupeIds(artifactIds);
      var judged := Decide(ids, seen, stations);
      verdict := HandOver(judged, sending);
    }

    method HandOver(judged: Verdict, sending: Outbox.SendFault) returns (verdict: Verdict)
      modifies this`queue
      ensures verdict == Handed(judged, sending)
      ensures queue == if judged.Accepted? && !sending.SendLost? then old(queue) + [judged.ids] else old(queue)
    {
      if judged.Accepted? && !sending.SendLost? {
        queue := queue + [judged.ids];
      }
      verdict := Handed(judged, sending);
    }
  }

  method DedupeIds(ids: seq<nat>) returns (r: seq<nat>)
    ensures r == Dedupe(ids)
  {
    r := [];
    for i := 0 to |ids|
      invariant r == Dedupe(ids[..i])
    {
      assert ids[..i + 1][..i] == ids[..i];
      if ids[i] !in r { r := r + [ids[i]]; }
    }
    assert ids[..|ids|] == ids;
  }

  lemma ReconciledIds(rows: seq<Artifact>, live: map<nat, string>)
    ensures forall id :: HasId(Reconciled(rows, live), id) <==> HasId(rows, id)
  {
    var view := Reconciled(rows, live);
    assert forall k | 0 <= k < |rows| :: view[k].id == rows[k].id;
    forall id ensures HasId(view, id) <==> HasId(rows, id) {
      if HasId(rows, id) { assert view[FindId(rows, id).value] in view; }
      if HasId(view, id) { assert rows[FindId(view, id).value] in rows; }
    }
  }

  // ---- de-duplication ----

  predicate FirstAt(ids: seq<nat>, at: nat) {
    at < |ids| && forall k | 0 <= k < at :: ids[k] != ids[at]
  }

  // The result lists the values at the first-occurrence positions, in order, and nothing else.
  lemma {:induction false} DedupeSpec(ids: seq<nat>) returns (positions: seq<nat>)
    ensures |positions| == |Dedupe(ids)|
    ensures forall k | 0 <= k < |positions| :: FirstAt(ids, positions[k]) && ids[positions[k]] == Dedupe(ids)[k]
    ensures forall j, k | 0 <= j < k < |positions| :: positions[j] < positions[k]
    ensures forall at: nat | FirstAt(ids, at) :: at in positions
    ensures forall id :: id in Dedupe(ids) <==> id in ids
  {
    positions := [];
    if ids != [] {
      var last := |ids| - 1;
      var init := ids[..last];
      positions := DedupeSpec(init);
      assert ids == init + [ids[last]];
      if ids[last] !in Dedupe(init) {
        positions := positions + [last];
      }
      forall at: nat | FirstAt(ids, at) ensures at in positions {
        if at < last {
          assert FirstAt(init, at);
        } else {
          assert ids[last] !in init;
        }
      }
    }
  }

  // ---- what the live check amounts to ----

  lemma {:induction false} ByIdSpec(rows: seq<Artifact>, ids: seq<nat>)
    requires UniqueIds(rows)
    ensures UniqueIds(ById(rows, ids))
    ensures forall a :: a in ById(rows, ids) <==> a in rows && a.id in ids
  {
    if rows != [] {
      var tail := rows[1..];
      assert rows == [rows[0]] + tail;
      assert UniqueIds(tail);
      ByIdSpec(tail, ids);
      OneMoreUnique(rows[0], tail, ById(tail, ids));
    }
  }

  lemma OneMoreUnique(a: Artifact, tail: seq<Artifact>, rest: seq<Artifact>)
    requires UniqueIds([a] + tail) && UniqueIds(rest) && forall r | r in rest :: r in tail
    ensures UniqueIds([a] + rest)
  {
    var all, kept := [a] + tail, [a] + rest;
    forall k | 0 <= k < |rest| ensures rest[k].id != a.id {
      assert rest[k] in tail;
      var j :| 0 <= j < |tail| && tail[j] == rest[k];
      assert all[0] == a && all[j + 1] == rest[k];
    }
  }

  lemma RowFound(rows: seq<Artifact>, a: Artifact)
    requires UniqueIds(rows) && a in rows
    ensures HasId(rows, a.id) && RowOf(rows, a.id) == a
  {
    var k :| 0 <= k < |rows| && rows[k] == a;
  }

  lemma {:induction false} MatchesSpec(artifacts: seq<Artifact>, station: nat, mapping: string)
    ensures forall a :: a in Matches(artifacts, station, mapping) <==> a in artifacts && Backs(a, station, mapping)
  {
    if artifacts != [] {
      MatchesSpec(artifacts[1..], station, mapping);
      assert artifacts == [artifacts[0]] + artifacts[1..];
    }
  }

  // The sole selected row that backs the live mapping of its station.
  predicate SoleBacking(selected: seq<Artifact>, r: Artifact, mapping: string) {
    Backs(r, r.station, mapping) && forall a | a in selected && Backs(a, r.station, mapping) :: a == r
  }

  lemma SoleIsCurrent(selected: seq<Artifact>, r: Artifact, mapping: string)
    requires UniqueIds(selected) && r in selected
    ensures CurrentId(selected, r.station, mapping) == Some(r.id) <==> SoleBacking(selected, r, mapping)
  {
    if SoleBacking(selected, r, mapping) {
      var at :| 0 <= at < |selected| && selected[at] == r;
      forall k | 0 <= k < |selected| && k != at ensures !Backs(selected[k], r.station, mapping) {
        assert selected[k] in selected && selected[k].id != selected[at].id;
      }
      SoleMatch(selected, r.station, mapping, at);
    } else if CurrentId(selected, r.station, mapping) == Some(r.id) {
      OnlyMatchBacks(selected, r, mapping);
    }
  }

  lemma OnlyMatchBacks(selected: seq<Artifact>, r: Artifact, mapping: string)
    requires UniqueIds(selected) && r in selected && CurrentId(selected, r.station, mapping) == Some(r.id)
    ensures SoleBacking(selected, r, mapping)
  {
    MatchesSpec(selected, r.station, mapping);
    OnlyOne(selected, Matches(selected, r.station, mapping), r, mapping);
  }

  lemma OnlyOne(selected: seq<Artifact>, matches: seq<Artifact>, r: Artifact, mapping: string)
    requires UniqueIds(selected) && r in selected && |matches| == 1 && matches[0].id == r.id
    requires forall a :: a in matches <==> a in selected && Backs(a, r.station, mapping)
    ensures SoleBacking(selected, r, mapping)
  {
    assert matches[0] in matches;
    SameRow(selected, r, matches[0]);
    assert matches == [r];
    forall a | a in selected && Backs(a, r.station, mapping) ensures a == r {
      assert a in [r];
    }
  }

  lemma SameRow(rows: seq<Artifact>, a: Artifact, b: Artifact)
    requires UniqueIds(rows) && a in rows && b in rows && a.id == b.id
    ensures a == b
  {
    var i, j :| 0 <= i < |rows| && 0 <= j < |rows| && rows[i] == a && rows[j] == b;
  }

  predicate Releasable(selected: seq<Artifact>, r: Artifact, live: map<nat, string>) {
    && r.deletedAt == None
    && if r.station in live then !SoleBacking(selected, r, live[r.station]) else !r.isCurrent
  }

  // With the live check on, a request is accepted exactly when every chosen row is undeleted and
  // either its station is unresolved and the stored flag is down, or it is not the only chosen row
  // that backs its station's live extent.
  lemma GateExact(rows: seq<Artifact>, ids: seq<nat>, live: map<nat, string>)
    requires UniqueIds(rows)
    requires forall id | id in ids :: HasId(rows, id)
    ensures var selected := ById(rows, ids);
            && (forall id | id in ids :: HasId(Reconciled(selected, live), id))
            && (Judge(Reconciled(selected, live), ids) == Accepted(ids)
                <==> forall id | id in ids :: Releasable(selected, RowOf(rows, id), live))
  {
    var selected := ById(rows, ids);
    forall id | id in ids
      ensures HasId(Reconciled(selected, live), id)
      ensures (!RowOf(Reconciled(selected, live), id).isCurrent && RowOf(Reconciled(selected, live), id).deletedAt == None)
              <==> Releasable(selected, RowOf(rows, id), live)
    {
      ChosenRow(rows, ids, live, id);
    }
  }

  lemma ViewRow(selected: seq<Artifact>, r: Artifact, live: map<nat, string>)
    requires UniqueIds(selected) && r in selected
    ensures var view := Reconciled(selected, live);
            HasId(view, r.id) && RowOf(view, r.id) == ReconcileRow(r, selected, live)
  {
    var view := Reconciled(selected, live);
    RowFound(selected, r);
    var at := FindId(selected, r.id).value;
    assert forall k | 0 <= k < |selected| :: view[k].id == selected[k].id;
    assert view[at] in view && view[at] == ReconcileRow(r, selected, live);
    RowFound(view, view[at]);
  }

  lemma ChosenRow(rows: seq<Artifact>, ids: seq<nat>, live: map<nat, string>, id: nat)
    requires UniqueIds(rows) && id in ids && HasId(rows, id)
    ensures var selected, view := ById(rows, ids), Reconciled(ById(rows, ids), live);
            && HasId(view, id)
            && ((!RowOf(view, id).isCurrent && RowOf(view, id).deletedAt == None)
                <==> Releasable(selected, RowOf(rows, id), live))
  {
    var selected, r := ById(rows, ids), RowOf(rows, id);
    ByIdSpec(rows, ids);
    assert r in rows;
    ViewRow(selected, r, live);
    if r.station in live {
      SoleIsCurrent(selected, r, live[r.station]);
    }
  }

  // Chosen rows are well named and those of one station differ in their datasets.
  predicate DistinctClones(selected: seq<Artifact>) {
    && (forall a | a in selected :: WellNamed(a))
    && (forall a, b | a in selected && b in selected && a.station == b.station && a.dataset == b.dataset :: a == b)
  }

  lemma BackingIsSole(selected: seq<Artifact>, r: Artifact, mapping: string)
    requires DistinctClones(selected) && r in selected
    ensures SoleBacking(selected, r, mapping) <==> Backs(r, r.station, mapping)
  {
    forall a | a in selected && Backs(a, r.station, mapping) && Backs(r, r.station, mapping) ensures a == r {
      CanonicalDevice(a.dataset);
      CanonicalDevice(r.dataset);
      DevicesDiffer(a.dataset, r.dataset);
    }
  }

  lemma FoundAmong(rows: seq<Artifact>, ids: seq<nat>, id: nat)
    requires UniqueIds(rows) && id in ids
    ensures HasId(ById(rows, ids), id) <==> HasId(rows, id)
  {
    ByIdSpec(rows, ids);
    if HasId(rows, id) {
      assert RowOf(rows, id) in rows;
      RowFound(ById(rows, ids), RowOf(rows, id));
    }
    if HasId(ById(rows, ids), id) {
      assert RowOf(ById(rows, ids), id) in ById(rows, ids);
      RowFound(rows, RowOf(ById(rows, ids), id));
    }
  }

  // So of all requests a live-checked gate accepts exactly those, judged on the rows it read, whatever was
  // committed since.
  lemma DecisionExact(seen: seq<Artifact>, rows: seq<Artifact>, ids: seq<nat>, w: World, stations: map<nat, Station>)
    requires UniqueIds(seen)
    ensures var selected, (signal, w') := ById(seen, ids), ReadLive(w);
            Decision(ids, seen, rows, w, stations, true).0.Accepted?
            <==> && ids != [] && signal.Ok?
                 && forall id | id in ids :: HasId(seen, id)
                      && Releasable(selected, RowOf(seen, id), MapStations(w'.storage, StationsOf(selected, stations)))
  {
    var selected := ById(seen, ids);
    var live := MapStations(ReadLive(w).1.storage, StationsOf(selected, stations));
    forall id | id in ids ensures HasId(selected, id) <==> HasId(seen, id) {
      FoundAmong(seen, ids, id);
    }
    if forall id | id in ids :: HasId(seen, id) {
      GateExact(seen, ids, live);
    }
  }

  // Undeleted, and not what its station uses: by the live mapping where there is one, else by the flag.
  predicate Unused(r: Artifact, live: map<nat, string>) {
    r.deletedAt == None && if r.station in live then !Backs(r, r.station, live[r.station]) else !r.isCurrent
  }

  // With distinct clones per station the gate is exact: nothing accepted is deleted, backs its own
  // station's live extent, or is flagged current where the extent could not be resolved.
  lemma GateExactDistinct(rows: seq<Artifact>, ids: seq<nat>, live: map<nat, string>)
    requires UniqueIds(rows) && DistinctClones(ById(rows, ids))
    requires forall id | id in ids :: HasId(rows, id)
    ensures var view := Reconciled(ById(rows, ids), live);
            && (forall id | id in ids :: HasId(view, id))
            && (Judge(view, ids) == Accepted(ids) <==> forall id | id in ids :: Unused(RowOf(rows, id), live))
  {
    GateExact(rows, ids, live);
    ByIdSpec(rows, ids);
    forall id | id in ids && RowOf(rows, id).station in live
      ensures SoleBacking(ById(rows, ids), RowOf(rows, id), live[RowOf(rows, id).station])
              <==> Backs(RowOf(rows, id), RowOf(rows, id).station, live[RowOf(rows, id).station])
    {
      assert RowOf(rows, id) in rows;
      BackingIsSole(ById(rows, ids), RowOf(rows, id), live[RowOf(rows, id).station]);
    }
  }

  // The jobs of one station differ in the digits that clone names keep.
  predicate JobsTellApart(rows: seq<Artifact>) {
    forall a, b | a in rows && b in rows && a.station == b.station && a.job != b.job :: a.job[..12] != b.job[..12]
  }

  lemma MintedDistinct(rows: seq<Artifact>, ids: seq<nat>)
    requires AllMinted(rows) && UniqueKeys(rows) && UniqueIds(rows) && JobsTellApart(rows)
    ensures DistinctClones(ById(rows, ids))
  {
    var selected := ById(rows, ids);
    ByIdSpec(rows, ids);
    forall a | a in selected ensures WellNamed(a) && Minted(a) {
      var i :| 0 <= i < |rows| && rows[i] == a;
      MintedWellNamed(rows[i]);
    }
    forall a, b | a in selected && b in selected && a.station == b.station && a.dataset == b.dataset ensures a == b {
      if a.job[..12] != b.job[..12] {
        var name :| b.dataset == DestinationDataset(b.source, name, b.job);
        MintedDiffer(a, b.source, name, b.job);
      }
      var i, j :| 0 <= i < |rows| && 0 <= j < |rows| && rows[i] == a && rows[j] == b;
    }
  }

  // So whatever interleaving of persisted runs, reconciliations and marks left the table behind, the gate lets
  // a choice of its rows pass exactly when nothing chosen is deleted, in use, or flagged where the station's
  // device is unknown.
  lemma GateExactAlways(commits: seq<Commit>, ids: seq<nat>, live: map<nat, string>)
    requires NamedCommits(commits) && JobsTellApart(CommitAll(EMPTY_TABLE, commits).rows)
    requires forall id | id in ids :: HasId(CommitAll(EMPTY_TABLE, commits).rows, id)
    ensures var rows := CommitAll(EMPTY_TABLE, commits).rows;
            var view := Reconciled(ById(rows, ids), live);
            && (forall id | id in ids :: HasId(view, id))
            && (Judge(view, ids) == Accepted(ids) <==> forall id | id in ids :: Unused(RowOf(rows, id), live))
  {
    var rows := CommitAll(EMPTY_TABLE, commits).rows;
    OneCurrentAlways(EMPTY_TABLE, commits);
    NamesAlways(commits);
    MintedDistinct(rows, ids);
    GateExactDistinct(rows, ids, live);
  }

  // Without that, two rows of one station that name the clone in use shield each other.
  lemma DuplicatesSlipThrough(rows: seq<Artifact>, ids: seq<nat>, a: Artifact, b: Artifact, live: map<nat, string>)
    requires UniqueIds(rows) && a in rows && b in rows && a.id != b.id
    requires a.station == b.station && a.station in live
    requires Backs(a, a.station, live[a.station]) && Backs(b, b.station, live[b.station])
    requires a.id in ids && b.id in ids && forall id | id in ids :: id == a.id || id == b.id
    ensures var view := Reconciled(ById(rows, ids), live);
            (forall id | id in ids :: HasId(view, id)) && Judge(view, ids) == Accepted(ids)
  {
    RowFound(rows, a);
    RowFound(rows, b);
    GateExact(rows, ids, live);
    ByIdSpec(rows, ids);
    Shielded(ById(rows, ids), a, b, live);
    Shielded(ById(rows, ids), b, a, live);
  }

  lemma Shielded(selected: seq<Artifact>, r: Artifact, other: Artifact, live: map<nat, string>)
    requires other in selected && other != r && r.station in live && other.station == r.station
    requires Backs(r, r.station, live[r.station]) && Backs(other, r.station, live[r.station])
    ensures Releasable(selected, r, live)
  {
  }

  // ---- the live mapping the gate looks at ----

  predicate Keyed(stations: map<nat, Station>) {
    forall k | k in stations :: stations[k].id == k
  }

  lemma {:induction false} StationsOfSpec(selected: seq<Artifact>, stations: map<nat, Station>)
    requires Keyed(stations)
    ensures forall st :: st in StationsOf(selected, stations)
              <==> st.id in stations && stations[st.id] == st && exists a | a in selected :: a.station == st.id
  {
    if selected != [] {
      var init, last := selected[..|selected| - 1], selected[|selected| - 1];
      StationsOfSpec(init, stations);
      assert selected == init + [last];
    }
  }

  lemma {:induction false} MapStationsSpec(s: Storage, list: seq<Station>)
    requires forall a, b | a in list && b in list && a.id == b.id :: a == b
    ensures forall st | st in list :: st.id in MapStations(s, list) <==> MapStation(s, st).Some?
    ensures forall st | st in list && st.id in MapStations(s, list) ::
              Some(MapStations(s, list)[st.id]) == MapStation(s, st)
    ensures forall id | id in MapStations(s, list) :: exists st | st in list :: st.id == id
  {
    if list != [] {
      var init, last := list[..|list| - 1], list[|list| - 1];
      assert list == init + [last];
      MapStationsSpec(s, init);
    }
  }

  // A chosen row's station is resolved in the gate's view exactly when it is registered and its own
  // target leads to one extent with a device, and then to that device.
  lemma LiveLookup(s: Storage, rows: seq<Artifact>, ids: seq<nat>, stations: map<nat, Station>, r: Artifact)
    requires Keyed(stations) && UniqueIds(rows) && r in rows && r.id in ids
    ensures var live := MapStations(s, StationsOf(ById(rows, ids), stations));
            if r.station in stations && MapStation(s, stations[r.station]).Some? then
              r.station in live && live[r.station] == MapStation(s, stations[r.station]).value
            else r.station !in live
  {
    var list := StationsOf(ById(rows, ids), stations);
    ByIdSpec(rows, ids);
    StationsOfSpec(ById(rows, ids), stations);
    MapStationsSpec(s, list);
    if r.station in stations {
      assert stations[r.station] in list;
    }
  }
}
