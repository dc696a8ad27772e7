// Which rows a pass takes, what becomes of them in the next one, and which answer a request for cleanup gets.
module CleanupDecisions {
  import opened Text
  import opened Storage
  import opened Artifacts
  import opened Reconcile
  import opened Cleanup
  import opened CleanupMarks
  import opened CleanupQueue
  import Outbox

  // ---- which rows a pass takes ----

  predicate MayGo(a: Artifact) { !a.isCurrent && (a.status == Retired || a.status == CleanupFailed) }

  lemma {:induction false} ChosenExactly(rows: seq<Artifact>, ids: seq<nat>, a: Artifact)
    ensures multiset(Chosen(rows, ids))[a]
         == if a.id in ids && MayGo(a) && a.deletedAt == None then multiset(rows)[a] else 0
  {
    if rows != [] {
      ChosenExactly(rows[1..], ids, a);
      assert rows == [rows[0]] + rows[1..];
    }
  }

  lemma {:induction false} ExpiredExactly(rows: seq<Artifact>, before: int, a: Artifact)
    ensures multiset(ExpiredRows(rows, before))[a]
         == if MayGo(a) && a.dataset != a.source && a.createdAt <= before then multiset(rows)[a] else 0
  {
    if rows != [] {
      ExpiredExactly(rows[1..], before, a);
      assert rows == [rows[0]] + rows[1..];
    }
  }

  // After a pass, a row it tried is due again in a later one exactly if its delete was not answered: a failed one is
  // retried, a deleted one never.
  lemma DueAgain(w: World, rows: seq<Artifact>, candidates: seq<Artifact>, now: int, detail: string, before: int,
                 later: int, k: nat, j: nat)
    requires UniqueIds(rows) && Drawn(rows, candidates) && before <= later
    requires k < |rows| && j < |Met(w.faults, candidates)| && rows[k] == candidates[j] && Expired(rows[k], before)
    ensures var after := Pass(w, rows, candidates, now, detail).rows;
            |after| == |rows| && (Expired(after[k], later) <==> !Answer(Met(w.faults, candidates)[j]).Ok?)
  {
    PassMarks(w, rows, candidates, now, detail);
  }

  // ---- the answer to a request ----

  // The listing at which reading the live state stops, if it does, and how.
  function Trouble(faults: seq<Fault>, listings: nat): Option<Signal> {
    if listings == 0 || faults == [] then None
    else if SignalOf(faults[0]).Ok? then Trouble(faults[1..], listings - 1)
    else Some(SignalOf(faults[0]))
  }

  lemma ListingSignal(w: World, call: Call)
    requires !IsWrite(call)
    ensures var (signal, w') := Perform(w, call);
            && w'.storage == w.storage && w'.faults == (if w.faults == [] then [] else w.faults[1..])
            && signal == if w.faults == [] then Ok else SignalOf(w.faults[0])
  {
  }

  lemma ReadLiveExactly(w: World)
    ensures var (signal, w') := ReadLive(w);
            w'.storage == w.storage && signal == (match Trouble(w.faults, 4) case None => Ok case Some(s) => s)
  {
    ListingSignal(w, QueryDatasets);
    var w1 := Perform(w, QueryDatasets).1;
    ListingSignal(w1, QueryTargets);
    var w2 := Perform(w1, QueryTargets).1;
    ListingSignal(w2, QueryTargetExtents);
    var w3 := Perform(w2, QueryTargetExtents).1;
    ListingSignal(w3, QueryExtents);
    assert Trouble(w3.faults, 0) == None;
    Unrolled(w, w1, w2, w3);
  }

  lemma Unrolled(w: World, w1: World, w2: World, w3: World)
    requires w1.faults == (if w.faults == [] then [] else w.faults[1..])
    requires w2.faults == (if w1.faults == [] then [] else w1.faults[1..])
    requires w3.faults == (if w2.faults == [] then [] else w2.faults[1..])
    ensures Trouble(w.faults, 4) == if Blocks(w) then Some(SignalOf(w.faults[0])) else Trouble(w1.faults, 3)
    ensures Trouble(w1.faults, 3) == if Blocks(w1) then Some(SignalOf(w1.faults[0])) else Trouble(w2.faults, 2)
    ensures Trouble(w2.faults, 2) == if Blocks(w2) then Some(SignalOf(w2.faults[0])) else Trouble(w3.faults, 1)
    ensures Trouble(w3.faults, 1) == if Blocks(w3) then Some(SignalOf(w3.faults[0])) else None
  {
  }

  predicate Blocks(w: World) { w.faults != [] && !SignalOf(w.faults[0]).Ok? }

  // A chosen row counts as used: by the live device where it is known, else by its flag.
  predicate Used(selected: seq<Artifact>, r: Artifact, live: map<nat, string>) {
    if r.station in live && r.deletedAt == None then SoleBacking(selected, r, live[r.station]) else r.isCurrent
  }

  // The refusal for a selection whose rows are all known, or acceptance: a used row weighs more than a deleted one.
  predicate Answers(verdict: Verdict, selected: seq<Artifact>, ids: seq<nat>, live: map<nat, string>)
    requires forall id | id in ids :: HasId(selected, id)
  {
    var used := exists id | id in ids :: Used(selected, RowOf(selected, id), live);
    var gone := exists id | id in ids :: RowOf(selected, id).deletedAt != None;
    verdict == if used then InUse else if gone then AlreadyDeleted else Accepted(ids)
  }

  lemma JudgesExactly(selected: seq<Artifact>, ids: seq<nat>, live: map<nat, string>)
    requires UniqueIds(selected) && forall id | id in ids :: HasId(selected, id)
    ensures var view := Reconciled(selected, live);
            && (forall id | id in ids :: HasId(view, id))
            && Answers(Judge(view, ids), selected, ids, live)
  {
    var view := Reconciled(selected, live);
    forall id | id in ids
      ensures HasId(view, id)
      ensures RowOf(view, id).isCurrent <==> Used(selected, RowOf(selected, id), live)
      ensures RowOf(view, id).deletedAt == RowOf(selected, id).deletedAt
    {
      var r := RowOf(selected, id);
      assert r in selected;
      ViewRow(selected, r, live);
      if r.station in live { SoleIsCurrent(selected, r, live[r.station]); }
    }
  }

  // What a request gets: the answer, and the table after it.
  ghost predicate Outcome(verdict: Verdict, after: seq<Artifact>, ids: seq<nat>, seen: seq<Artifact>, rows: seq<Artifact>,
                          selected: seq<Artifact>, trouble: Option<Signal>, live: map<nat, string>)
  {
    var known := forall id | id in ids :: HasId(selected, id);
    && (ids == [] ==> verdict == Empty) && (ids != [] && !known ==> verdict == Unknown)
    && (ids != [] && known && trouble.Some? ==> verdict == if trouble.value.Crashed? then GateDied else SyncFailed)
    && (ids != [] && known && trouble == None ==> Answers(verdict, selected, ids, live))
    && after == if ids != [] && known && trouble == None then Stored(rows, seen, live) else rows
  }

  lemma UncheckedOutcome(ids: seq<nat>, seen: seq<Artifact>, rows: seq<Artifact>, w: World, stations: map<nat, Station>,
                         selected: seq<Artifact>)
    requires UniqueIds(selected) && selected == ById(seen, ids)
    ensures var (verdict, after) := Decision(ids, seen, rows, w, stations, false);
            Outcome(verdict, after, ids, seen, rows, selected, None, map[])
  {
    NothingLive(selected);
    NothingStored(rows, seen);
    if forall id | id in ids :: HasId(selected, id) {
      JudgesExactly(selected, ids, map[]);
    }
  }

  lemma CheckedOutcome(ids: seq<nat>, seen: seq<Artifact>, rows: seq<Artifact>, w: World, stations: map<nat, Station>,
                       selected: seq<Artifact>, live: map<nat, string>)
    requires UniqueIds(selected) && selected == ById(seen, ids)
    requires live == MapStations(w.storage, StationsOf(selected, stations))
    requires var (signal, w') := ReadLive(w);
             w'.storage == w.storage && signal == (match Trouble(w.faults, 4) case None => Ok case Some(s) => s)
    requires Trouble(w.faults, 4) != Some(Ok)
    ensures var (verdict, after) := Decision(ids, seen, rows, w, stations, true);
            Outcome(verdict, after, ids, seen, rows, selected, Trouble(w.faults, 4), live)
  {
    if forall id | id in ids :: HasId(selected, id) {
      JudgesExactly(selected, ids, live);
    }
  }

  lemma {:induction false} TroubleIsBad(faults: seq<Fault>, listings: nat)
    ensures Trouble(faults, listings) != Some(Ok)
    decreases listings
  {
    if listings > 0 && faults != [] {
      TroubleIsBad(faults[1..], listings - 1);
    }
  }

  // Every request, and every state of rows and appliance: which answer it gets, and whether the table is updated.
  lemma RequestExactly(ids: seq<nat>, seen: seq<Artifact>, rows: seq<Artifact>, w: World, stations: map<nat, Station>,
                       checksLive: bool)
    requires UniqueIds(seen)
    ensures var (verdict, after) := Decision(ids, seen, rows, w, stations, checksLive);
            var selected := ById(seen, ids);
            if checksLive then
              Outcome(verdict, after, ids, seen, rows, selected, Trouble(w.faults, 4),
                      MapStations(w.storage, StationsOf(selected, stations)))
            else Outcome(verdict, after, ids, seen, rows, selected, None, map[])
  {
    var selected := ById(seen, ids);
    ByIdSpec(seen, ids);
    if checksLive {
      ReadLiveExactly(w);
      TroubleIsBad(w.faults, 4);
      CheckedOutcome(ids, seen, rows, w, stations, selected, MapStations(w.storage, StationsOf(selected, stations)));
    } else {
      UncheckedOutcome(ids, seen, rows, w, stations, selected);
    }
  }

  lemma NothingLive(selected: seq<Artifact>)
    ensures Reconciled(selected, map[]) == selected
  {
  }

  lemma NothingStored(rows: seq<Artifact>, seen: seq<Artifact>)
    ensures Stored(rows, seen, map[]) == rows
  {
  }

  // The request succeeds exactly if it is accepted and the queue says so; every other answer is passed on.
  lemma HandsOverExactly(judged: Verdict, sending: Outbox.SendFault)
    ensures var verdict := Handed(judged, sending);
            && (verdict.Accepted? <==> judged.Accepted? && sending.Sent?)
            && (judged.Accepted? && !sending.Sent? ==> verdict == QueueFailed)
            && (!judged.Accepted? || sending.Sent? ==> verdict == judged)
  {
  }

  // ---- what the stored update does to a row ----

  // The row that the live device selects is current again, marks removed; any other loses its flag and is retired if
  // it was current. Deleted rows only lose the flag, rows of unresolved stations nothing.
  lemma StoredExactly(rows: seq<Artifact>, seen: seq<Artifact>, live: map<nat, string>, k: nat)
    requires k < |rows| && UniqueIds(seen)
    ensures var r, after := rows[k], Stored(rows, seen, live)[k];
            if r.station !in live then after == r
            else if r.status != Deleted && Selects(seen, r.station, live[r.station], r.id) then
              after == r.(status := Current, isCurrent := true, deletedAt := None, lastError := None)
            else
              after == r.(status := if r.status == Current then Retired else r.status, isCurrent := false)
  {
    var r := rows[k];
    assert Stored(rows, seen, live)[k] == StoredRow(r, seen, live);
    if r.station in live { SelectsExactly(seen, r.station, live[r.station], r.id); }
  }

  // One row alone backs the device, and this is its identifier.
  predicate Selects(seen: seq<Artifact>, station: nat, device: string, id: nat) {
    exists a :: a in seen && a.id == id && a.station == station && SoleBacking(seen, a, device)
  }

  lemma SelectsExactly(seen: seq<Artifact>, station: nat, device: string, id: nat)
    requires UniqueIds(seen)
    ensures CurrentId(seen, station, device) == Some(id) <==> Selects(seen, station, device, id)
  {
    if Selects(seen, station, device, id) {
      var a :| a in seen && a.id == id && a.station == station && SoleBacking(seen, a, device);
      SoleIsCurrent(seen, a, device);
    }
    if CurrentId(seen, station, device) == Some(id) {
      var found := Matches(seen, station, device);
      MatchesSpec(seen, station, device);
      assert found[0] in found;
      SoleIsCurrent(seen, found[0], device);
    }
  }
}
