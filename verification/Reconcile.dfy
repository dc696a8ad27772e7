// Agreement between the clone table and the live storage mapping.
module Reconcile {
  import opened Text
  import opened Storage
  import opened Artifacts
  import PublishRun

  type Station = PublishRun.Station

  // ---- the live mapping of a station ----

  function CanonicalMapping(value: string): string {
    var normalized := Strip(value, IsSpace);
    RemovePrefix(RemovePrefix(normalized, "disk="), "/dev/")
  }

  function Named(targets: seq<Target>, name: string): seq<Target> {
    if targets == [] then []
    else (if targets[0].name == name then [targets[0]] else []) + Named(targets[1..], name)
  }

  // None where the station is passed over because its mapping is absent or ambiguous.
  function MapStation(s: Storage, station: Station): Option<string> {
    if station.targetName == None || station.targetName.value == "" then None
    else
      var named := Named(s.targets, station.targetName.value);
      if |named| != 1 then None
      else
        var found := PublishRun.OfTarget(s.associations, named[0].id);
        if |found| != 1 || found[0].extent !in s.extents || s.extents[found[0].extent] == None then None
        else Some(CanonicalMapping(s.extents[found[0].extent].value))
  }

  function MapStations(s: Storage, stations: seq<Station>): map<nat, string> {
    if stations == [] then map[]
    else
      var before, last := MapStations(s, stations[..|stations| - 1]), stations[|stations| - 1];
      var mapping := MapStation(s, last);
      if mapping == None then before else before[last.id := mapping.value]
  }

  method MapStationMappings(s: Storage, stations: seq<Station>) returns (live: map<nat, string>)
    ensures live == MapStations(s, stations)
  {
    live := map[];
    for i := 0 to |stations|
      invariant live == MapStations(s, stations[..i])
    {
      assert stations[..i + 1][..i] == stations[..i];
      var station := stations[i];
      if station.targetName == None || station.targetName.value == "" { continue; }
      var matching := Named(s.targets, station.targetName.value);
      if |matching| != 1 { continue; }
      var associated := PublishRun.OfTarget(s.associations, matching[0].id);
      if |associated| != 1 { continue; }
      if associated[0].extent !in s.extents || s.extents[associated[0].extent] == None { continue; }
      live := live[station.id := CanonicalMapping(s.extents[associated[0].extent].value)];
    }
    assert stations[..|stations|] == stations;
  }

  // ---- which row the live mapping selects ----

  predicate MatchesMapping(a: Artifact, mapping: string) {
    mapping == CanonicalMapping(a.mappingRef) || mapping == CanonicalMapping("zvol/" + a.dataset)
  }

  predicate Backs(a: Artifact, station: nat, mapping: string) {
    a.station == station && a.deletedAt == None && MatchesMapping(a, mapping)
  }

  function Matches(artifacts: seq<Artifact>, station: nat, mapping: string): seq<Artifact> {
    if artifacts == [] then []
    else (if Backs(artifacts[0], station, mapping) then [artifacts[0]] else [])
         + Matches(artifacts[1..], station, mapping)
  }

  function CurrentId(artifacts: seq<Artifact>, station: nat, mapping: string): Option<nat> {
    var matches := Matches(artifacts, station, mapping);
    if |matches| == 1 then Some(matches[0].id) else None
  }

  // ---- the view and the stored update ----

  function ReconcileRow(a: Artifact, artifacts: seq<Artifact>, live: map<nat, string>): Artifact {
    if a.station !in live || a.deletedAt != None then a
    else if CurrentId(artifacts, a.station, live[a.station]) == Some(a.id) then
      a.(status := Current, isCurrent := true, lastError := None)
    else a.(status := if a.status == Current then Retired else a.status, isCurrent := false)
  }

  function Reconciled(artifacts: seq<Artifact>, live: map<nat, string>): (r: seq<Artifact>)
    ensures |r| == |artifacts|
  {
    seq(|artifacts|, i requires 0 <= i < |artifacts| => ReconcileRow(artifacts[i], artifacts, live))
  }

  function StoredRow(r: Artifact, artifacts: seq<Artifact>, live: map<nat, string>): Artifact {
    if r.station in live then
      SetCurrentRow(r, r.station, CurrentId(artifacts, r.station, live[r.station]))
    else r
  }

  // `artifacts` is what the use case read; `rows` is the table it then updates.
  function Stored(rows: seq<Artifact>, artifacts: seq<Artifact>, live: map<nat, string>): (r: seq<Artifact>)
    ensures |r| == |rows|
  {
    seq(|rows|, i requires 0 <= i < |rows| => StoredRow(rows[i], artifacts, live))
  }

  method ReconcileArtifacts(artifacts: seq<Artifact>, live: map<nat, string>) returns (r: seq<Artifact>)
    ensures r == Reconciled(artifacts, live)
  {
    var currentIds: map<nat, Option<nat>> := map s | s in live :: CurrentId(artifacts, s, live[s]);
    r := [];
    for i := 0 to |artifacts|
      invariant |r| == i
      invariant forall k | 0 <= k < i :: r[k] == ReconcileRow(artifacts[k], artifacts, live)
    {
      var a := artifacts[i];
      if a.station !in currentIds || a.deletedAt != None {
        r := r + [a];
      } else if currentIds[a.station] == Some(a.id) {
        r := r + [a.(status := Current, isCurrent := true, lastError := None)];
      } else {
        var status := if a.status == Current then Retired else a.status;
        r := r + [a.(status := status, isCurrent := false)];
      }
    }
  }

  method PersistCurrentState(table: ArtifactTable, artifacts: seq<Artifact>, live: map<nat, string>)
    modifies table
    ensures table.rows == Stored(old(table.rows), artifacts, live)
  {
    var todo := live.Keys;
    ghost var before := table.rows;
    while todo != {}
      invariant todo <= live.Keys
      invariant |table.rows| == |before|
      invariant forall k | 0 <= k < |before| ::
                  table.rows[k] == if before[k].station in live.Keys - todo
                                   then StoredRow(before[k], artifacts, live) else before[k]
      decreases |todo|
    {
      var station :| station in todo;
      ghost var previous := table.rows;
      table.SetCurrentArtifact(station, CurrentId(artifacts, station, live[station]));
      forall k | 0 <= k < |before|
        ensures table.rows[k] == if before[k].station in live.Keys - (todo - {station})
                                 then StoredRow(before[k], artifacts, live) else before[k]
      {
        assert table.rows[k] == SetCurrentRow(previous[k], station, CurrentId(artifacts, station, live[station]));
      }
      todo := todo - {station};
    }
  }

  // ---- the view equals the stored rows, and both settle after one step ----

  // The in-memory view is exactly what the table holds afterwards, for every table that commits can produce.
  lemma ViewEqualsStored(rows: seq<Artifact>, live: map<nat, string>)
    requires UniqueIds(rows) && AllConsistent(rows)
    ensures Reconciled(rows, live) == Stored(rows, rows, live)
  {
    forall k | 0 <= k < |rows| ensures ReconcileRow(rows[k], rows, live) == StoredRow(rows[k], rows, live) {
      assert Consistent(rows[k]);
      if rows[k].station in live {
        StampedNotSelected(rows, rows, k, live[rows[k].station]);
      }
    }
  }

  lemma {:induction false} MatchesUndeleted(artifacts: seq<Artifact>, station: nat, mapping: string)
    ensures forall m | m in Matches(artifacts, station, mapping) :: m in artifacts && Backs(m, station, mapping)
  {
    if artifacts != [] {
      MatchesUndeleted(artifacts[1..], station, mapping);
      assert forall m | m in artifacts[1..] :: m in artifacts;
    }
  }

  // A stamped row is never the one the live mapping selects.
  lemma StampedNotSelected(rows: seq<Artifact>, artifacts: seq<Artifact>, k: nat, mapping: string)
    requires UniqueIds(rows) && k < |rows| && forall m | m in artifacts :: m in rows
    ensures CurrentId(artifacts, rows[k].station, mapping) == Some(rows[k].id) ==> rows[k].deletedAt == None
  {
    var matches := Matches(artifacts, rows[k].station, mapping);
    MatchesUndeleted(artifacts, rows[k].station, mapping);
    if |matches| == 1 && matches[0].id == rows[k].id {
      assert matches[0] in matches && matches[0] in rows;
      var j :| 0 <= j < |rows| && rows[j] == matches[0];
      assert rows[j].id == rows[k].id;
    }
  }

  // What decides a match: everything but the flag, the status and the error.
  predicate SameSubstance(a: seq<Artifact>, b: seq<Artifact>) {
    && |a| == |b|
    && forall k | 0 <= k < |a| ::
         b[k] == a[k].(status := b[k].status, isCurrent := b[k].isCurrent, lastError := b[k].lastError)
  }

  lemma {:induction false} CurrentIdStable(a: seq<Artifact>, b: seq<Artifact>, station: nat, mapping: string)
    requires SameSubstance(a, b)
    ensures |Matches(a, station, mapping)| == |Matches(b, station, mapping)|
    ensures forall k | 0 <= k < |Matches(a, station, mapping)| ::
              Matches(a, station, mapping)[k].id == Matches(b, station, mapping)[k].id
    ensures CurrentId(a, station, mapping) == CurrentId(b, station, mapping)
  {
    if a != [] {
      assert a[1..][..] == a[1..] && b[0] == a[0].(status := b[0].status, isCurrent := b[0].isCurrent, lastError := b[0].lastError);
      CurrentIdStable(a[1..], b[1..], station, mapping);
    }
  }

  lemma ReconcileIdempotent(artifacts: seq<Artifact>, live: map<nat, string>)
    ensures Reconciled(Reconciled(artifacts, live), live) == Reconciled(artifacts, live)
  {
    var once := Reconciled(artifacts, live);
    assert SameSubstance(artifacts, once);
    forall k | 0 <= k < |once| ensures ReconcileRow(once[k], once, live) == once[k] {
      assert once[k] == ReconcileRow(artifacts[k], artifacts, live);
      if once[k].station in live {
        CurrentIdStable(artifacts, once, once[k].station, live[once[k].station]);
      }
    }
  }

  // Whatever the flags were, the stored update leaves at most one current row per resolved station,
  // and it is the row the live mapping selects.
  lemma StoredOneCurrent(rows: seq<Artifact>, artifacts: seq<Artifact>, live: map<nat, string>)
    requires UniqueIds(rows)
    ensures var stored := Stored(rows, artifacts, live);
            && (forall k | 0 <= k < |stored| && stored[k].station in live ::
                  stored[k].isCurrent <==>
                    && rows[k].status != Deleted
                    && CurrentId(artifacts, rows[k].station, live[rows[k].station]) == Some(rows[k].id))
            && (forall i, j | 0 <= i < j < |stored| && stored[i].station == stored[j].station && stored[i].station in live ::
                  !(stored[i].isCurrent && stored[j].isCurrent))
  {
    var stored := Stored(rows, artifacts, live);
    assert forall k | 0 <= k < |stored| :: stored[k] == StoredRow(rows[k], artifacts, live);
  }

  lemma StoredIdempotent(rows: seq<Artifact>, live: map<nat, string>)
    requires UniqueIds(rows) && AllConsistent(rows)
    ensures var once := Stored(rows, rows, live); Stored(once, once, live) == once
  {
    var once := Stored(rows, rows, live);
    forall k | 0 <= k < |once| ensures Consistent(once[k]) && once[k].id == rows[k].id {
      assert Consistent(rows[k]) && once[k] == StoredRow(rows[k], rows, live);
    }
    ViewEqualsStored(rows, live);
    ViewEqualsStored(once, live);
    ReconcileIdempotent(rows, live);
  }

  // ---- the listing that leaves deleted rows out ----

  function Undeleted(rows: seq<Artifact>): seq<Artifact> {
    if rows == [] then []
    else (if rows[0].status == Deleted then [] else [rows[0]]) + Undeleted(rows[1..])
  }

  lemma {:induction false} MatchesIgnoreDeleted(rows: seq<Artifact>, station: nat, mapping: string)
    requires AllConsistent(rows)
    ensures Matches(Undeleted(rows), station, mapping) == Matches(rows, station, mapping)
  {
    if rows != [] {
      assert Consistent(rows[0]);
      MatchesIgnoreDeleted(rows[1..], station, mapping);
      var rest := Undeleted(rows[1..]);
      if rows[0].status == Deleted {
        assert [] + rest == rest;
        assert [] + Matches(rows[1..], station, mapping) == Matches(rows[1..], station, mapping);
      } else {
        assert ([rows[0]] + rest)[1..] == rest;
      }
    }
  }

  function ReconcileAgainst(rows: seq<Artifact>, artifacts: seq<Artifact>, live: map<nat, string>): seq<Artifact> {
    seq(|rows|, i requires 0 <= i < |rows| => ReconcileRow(rows[i], artifacts, live))
  }

  // The stored update does to an undeleted row what the view does, and never makes or revives a deleted one.
  predicate UpdatesAlike(r: Artifact, artifacts: seq<Artifact>, live: map<nat, string>) {
    var stored := StoredRow(r, artifacts, live);
    && (stored.status == Deleted <==> r.status == Deleted)
    && (r.status != Deleted ==> stored == ReconcileRow(r, artifacts, live))
  }

  lemma {:induction false} UndeletedIncluded(rows: seq<Artifact>)
    ensures forall a :: a in Undeleted(rows) <==> a in rows && a.status != Deleted
  {
    if rows != [] {
      UndeletedIncluded(rows[1..]);
      assert rows == [rows[0]] + rows[1..];
    }
  }

  lemma {:induction false} UndeletedCommutes(rows: seq<Artifact>, artifacts: seq<Artifact>, live: map<nat, string>)
    requires forall k | 0 <= k < |rows| :: UpdatesAlike(rows[k], artifacts, live)
    ensures Undeleted(Stored(rows, artifacts, live)) == ReconcileAgainst(Undeleted(rows), artifacts, live)
  {
    if rows != [] {
      var r, rest := rows[0], rows[1..];
      assert UpdatesAlike(r, artifacts, live);
      UndeletedCommutes(rest, artifacts, live);
      assert Stored(rows, artifacts, live)[1..] == Stored(rest, artifacts, live);
      if r.status == Deleted {
        assert Undeleted(rows) == Undeleted(rest);
      } else {
        assert Undeleted(rows) == [r] + Undeleted(rest);
        assert ReconcileAgainst([r] + Undeleted(rest), artifacts, live)
               == [ReconcileRow(r, artifacts, live)] + ReconcileAgainst(Undeleted(rest), artifacts, live);
      }
    }
  }

  // The default listing shows exactly the undeleted rows the table holds afterwards.
  lemma ListingEqualsStored(rows: seq<Artifact>, live: map<nat, string>)
    requires UniqueIds(rows) && AllConsistent(rows)
    ensures Reconciled(Undeleted(rows), live) == Undeleted(Stored(rows, Undeleted(rows), live))
    ensures Stored(rows, Undeleted(rows), live) == Stored(rows, rows, live)
  {
    UndeletedIncluded(rows);
    forall k | 0 <= k < |rows| ensures UpdatesAlike(rows[k], Undeleted(rows), live) {
      assert Consistent(rows[k]);
      if rows[k].station in live {
        StampedNotSelected(rows, Undeleted(rows), k, live[rows[k].station]);
      }
    }
    UndeletedCommutes(rows, Undeleted(rows), live);
    forall k | 0 <= k < |rows| ensures StoredRow(rows[k], Undeleted(rows), live) == StoredRow(rows[k], rows, live) {
      if rows[k].station in live {
        MatchesIgnoreDeleted(rows, rows[k].station, live[rows[k].station]);
      }
    }
  }
}
