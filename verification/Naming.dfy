// How a publish run names its clone, snapshot and device, and what the write adapter accepts.
module Naming {
  import opened Text

  predicate LowerHex(c: char) { '0' <= c <= '9' || 'a' <= c <= 'f' }

  // uuid.hex
  type HexId = h: string | |h| == 32 && forall c | c in h :: LowerHex(c)
    witness seq(32, _ => '0')

  predicate AlphaNumeric(c: char) { 'A' <= c <= 'Z' || 'a' <= c <= 'z' || '0' <= c <= '9' }

  predicate SlugChar(c: char) { AlphaNumeric(c) || c == '_' || c == '-' }

  predicate Dash(c: char) { c == '-' || c == '_' }

  // re.sub("[^A-Za-z0-9_-]+", "-", value): each maximal run of other characters becomes one dash.
  function CollapseRuns(s: string, inRun: bool): string {
    if s == [] then ""
    else if SlugChar(s[0]) then [s[0]] + CollapseRuns(s[1..], false)
    else (if inRun then "" else "-") + CollapseRuns(s[1..], true)
  }

  const MAX_SLUG := 48

  function SafeSlug(displayName: string): string {
    var slug := Strip(CollapseRuns(displayName, false), Dash);
    var named := if slug == "" then "station" else slug;
    if |named| <= MAX_SLUG then named else named[..MAX_SLUG]
  }

  function DestinationDataset(source: string, displayName: string, jobId: HexId): string {
    source + "-" + SafeSlug(displayName) + "-" + jobId[..12]
  }

  function DeviceOf(dataset: string): string { "zvol/" + dataset }

  function SnapshotName(jobId: HexId): string { "tnas-controller-" + jobId[..16] }

  function SnapshotRef(source: string, jobId: HexId): string { source + "@" + SnapshotName(jobId) }

  // ---- the write adapter's validators ----

  predicate SnapshotChar(c: char) { AlphaNumeric(c) || c == '.' || c == '_' || c == '-' }

  predicate DatasetChar(c: char) { SnapshotChar(c) || c == '/' }

  predicate ValidDataset(value: string) {
    && value != "" && AlphaNumeric(value[0])
    && (forall c | c in value :: DatasetChar(c))
    && ".." !in Split(value, '/')
  }

  predicate ValidSnapshotName(value: string) {
    value != "" && AlphaNumeric(value[0]) && forall c | c in value :: SnapshotChar(c)
  }

  predicate ValidSnapshotRef(value: string) {
    var (dataset, found, name) := Partition(value, '@');
    found && ValidDataset(dataset) && ValidSnapshotName(name)
  }

  function CanonicalDiskDevice(value: string): string {
    if StartsWith(value, "/dev/zvol/") then RemovePrefix(value, "/dev/") else value
  }

  predicate ValidDevice(value: string) {
    var device := CanonicalDiskDevice(value);
    StartsWith(device, "zvol/") && ".." !in Split(device, '/')
  }

  // ---- what the planner's output guarantees ----

  lemma {:induction false} CollapseKeepsAlphabet(s: string, inRun: bool)
    ensures forall c | c in CollapseRuns(s, inRun) :: SlugChar(c)
    ensures |CollapseRuns(s, inRun)| <= |s|
    ensures CollapseRuns(s, inRun) == s <==> forall c | c in s :: SlugChar(c)
  {
    if s != [] {
      CollapseKeepsAlphabet(s[1..], !SlugChar(s[0]));
      assert s == [s[0]] + s[1..];
      var r := CollapseRuns(s, inRun);
      if r == s && SlugChar(s[0]) {
        assert CollapseRuns(s[1..], false) == r[1..];
      }
    }
  }

  // Whatever an operator types as display name, the slug is usable.
  lemma SlugIsSafe(displayName: string)
    ensures var slug := SafeSlug(displayName);
            && 1 <= |slug| <= MAX_SLUG
            && AlphaNumeric(slug[0])
            && forall c | c in slug :: SlugChar(c)
  {
    var collapsed := CollapseRuns(displayName, false);
    CollapseKeepsAlphabet(displayName, false);
    StripKeeps(collapsed, Dash, SlugChar);
    var slug := Strip(collapsed, Dash);
    assert slug != "" ==> SlugChar(slug[0]) && !Dash(slug[0]);
    assert AlphaNumeric("station"[0]);
  }

  // A display name is its own slug exactly when it is already a clean short name.
  lemma SlugFixedPoint(displayName: string)
    ensures SafeSlug(displayName) == displayName <==>
            && 1 <= |displayName| <= MAX_SLUG
            && (forall c | c in displayName :: SlugChar(c))
            && !Dash(displayName[0]) && !Dash(displayName[|displayName| - 1])
  {
    var collapsed := CollapseRuns(displayName, false);
    CollapseKeepsAlphabet(displayName, false);
    StripKeeps(collapsed, Dash, SlugChar);
    StripFixed(collapsed, Dash);
    SlugIsSafe(displayName);
    if SafeSlug(displayName) == displayName {
      assert collapsed == displayName;
    }
  }

  predicate AllForeign(s: string) { forall c | c in s :: !SlugChar(c) }

  lemma {:induction false} CollapseForeign(run: string, rest: string)
    requires AllForeign(run)
    ensures CollapseRuns(run + rest, true) == CollapseRuns(rest, true)
  {
    if run == [] {
      assert run + rest == rest;
    } else {
      assert (run + rest)[1..] == run[1..] + rest;
      assert run[0] in run;
      CollapseForeign(run[1..], rest);
    }
  }

  // A run of foreign characters counts as one of them, wherever it stands.
  lemma {:induction false} RunIsOneDash(before: string, run: string, c: char, after: string, inRun: bool)
    requires run != [] && AllForeign(run) && !SlugChar(c)
    ensures CollapseRuns(before + run + after, inRun) == CollapseRuns(before + [c] + after, inRun)
  {
    if before == [] {
      assert before + run + after == run + after && before + [c] + after == [c] + after;
      assert run[0] in run && (run + after)[1..] == run[1..] + after && ([c] + after)[1..] == after;
      assert forall x | x in run[1..] :: x in run;
      CollapseForeign(run[1..], after);
    } else {
      assert (before + run + after)[1..] == before[1..] + run + after;
      assert (before + [c] + after)[1..] == before[1..] + [c] + after;
      RunIsOneDash(before[1..], run, c, after, !SlugChar(before[0]));
    }
  }

  // So a slug does not tell how many foreign characters stand together, nor which.
  lemma SlugIgnoresRuns(before: string, run: string, c: char, after: string)
    requires run != [] && AllForeign(run) && !SlugChar(c)
    ensures SafeSlug(before + run + after) == SafeSlug(before + [c] + after)
  {
    RunIsOneDash(before, run, c, after, false);
  }

  // Two stations of one job share a clone exactly when their slugs coincide...
  lemma DestinationInjective(source: string, a: string, b: string, jobId: HexId)
    ensures DestinationDataset(source, a, jobId) == DestinationDataset(source, b, jobId)
            <==> SafeSlug(a) == SafeSlug(b)
  {
    var x, y, tail := SafeSlug(a), SafeSlug(b), "-" + jobId[..12];
    var head := source + "-";
    assert DestinationDataset(source, a, jobId) == head + x + tail;
    assert DestinationDataset(source, b, jobId) == head + y + tail;
    if head + x + tail == head + y + tail {
      assert |x| == |y|;
      assert x == (head + x + tail)[|head|..|head| + |x|];
    }
  }

  // ...which distinct display names do not exclude.
  lemma DistinctNamesMayShareAClone(jobId: HexId)
    ensures "PC 1" != "PC-1"
    ensures DestinationDataset("games", "PC 1", jobId) == DestinationDataset("games", "PC-1", jobId)
  {
    var a, b := "PC 1", "PC-1";
    assert CollapseRuns(a[4..], false) == "";
    assert CollapseRuns(a[3..], true) == "1";
    assert CollapseRuns(a[2..], false) == "-1";
    assert CollapseRuns(a[1..], false) == "C-1";
    assert CollapseRuns(a, false) == "PC-1";
    CollapseKeepsAlphabet(b, false);
    assert CollapseRuns(b, false) == "PC-1";
  }

  // The clone passes the adapter exactly when the source does, except that a ".." in the last
  // component of the source is defused by the suffix.
  lemma DestinationAccepted(source: string, displayName: string, jobId: HexId)
    ensures ValidDataset(DestinationDataset(source, displayName, jobId)) <==>
            && source != "" && AlphaNumeric(source[0])
            && (forall c | c in source :: DatasetChar(c))
            && ".." !in Split(source, '/')[..|Split(source, '/')| - 1]
    ensures ValidDataset(source) ==> ValidDataset(DestinationDataset(source, displayName, jobId))
    ensures source < DestinationDataset(source, displayName, jobId)
  {
    var suffix := DestinationSuffix(source, displayName, jobId);
    SuffixedDatasetValid(source, suffix);
  }

  lemma DestinationSuffix(source: string, displayName: string, jobId: HexId) returns (suffix: string)
    ensures DestinationDataset(source, displayName, jobId) == source + suffix
    ensures suffix != "" && suffix[0] == '-' && forall c | c in suffix :: SlugChar(c)
  {
    var slug := SafeSlug(displayName);
    suffix := "-" + slug + "-" + jobId[..12];
    SlugIsSafe(displayName);
    forall c | c in jobId[..12] ensures SlugChar(c) {
      assert c in jobId && LowerHex(c);
    }
    assert source + "-" + slug + "-" + jobId[..12] == source + suffix;
  }

  // No blank ends the text.
  predicate Trimmed(s: string) { s != "" && !IsSpace(s[|s| - 1]) }

  // A clone's name ends in the first digits of its job's identifier.
  lemma DestinationEnds(source: string, displayName: string, jobId: HexId)
    ensures var dest := DestinationDataset(source, displayName, jobId);
            |dest| >= 12 && dest[|dest| - 12..] == jobId[..12] && Trimmed(dest)
  {
    var dest := DestinationDataset(source, displayName, jobId);
    assert dest[|dest| - 12..] == jobId[..12];
    assert dest[|dest| - 1] == jobId[11] && jobId[11] in jobId && LowerHex(jobId[11]);
  }

  lemma SuffixedDatasetValid(source: string, suffix: string)
    requires suffix != "" && suffix[0] == '-' && forall c | c in suffix :: SlugChar(c)
    ensures ValidDataset(source + suffix) <==>
            && source != "" && AlphaNumeric(source[0])
            && (forall c | c in source :: DatasetChar(c))
            && ".." !in Split(source, '/')[..|Split(source, '/')| - 1]
    ensures ValidDataset(source) ==> ValidDataset(source + suffix)
  {
    var dest, parts := source + suffix, Split(source, '/');
    var init, last := parts[..|parts| - 1], parts[|parts| - 1] + suffix;
    SplitWithoutSeparator(suffix, '/');
    SplitConcat(source, suffix, '/');
    assert Split(dest, '/') == init + [last];
    assert last[|last| - |suffix|] == '-';
    assert last != "..";
    assert ".." in init + [last] <==> ".." in init;
    assert source == "" ==> dest[0] == '-';
    assert source != "" ==> dest[0] == source[0];
    assert forall c | c in source :: c in dest;
  }

  lemma DevicesDiffer(a: string, b: string)
    ensures DeviceOf(a) == DeviceOf(b) <==> a == b
  {
    assert DeviceOf(a)[5..] == a && DeviceOf(b)[5..] == b;
  }

  lemma DeviceAccepted(dataset: string)
    ensures ValidDevice(DeviceOf(dataset)) <==> ".." !in Split(dataset, '/')
    ensures RemovePrefix(DeviceOf(dataset), "/dev/") == DeviceOf(dataset)
    ensures RemovePrefix(RemovePrefix(DeviceOf(dataset), "/dev/"), "zvol/") == dataset
  {
    var device := DeviceOf(dataset);
    assert device[0] == 'z';
    assert CanonicalDiskDevice(device) == device;
    DevicePieces(dataset);
  }

  lemma DevicePieces(dataset: string)
    ensures Split(DeviceOf(dataset), '/') == ["zvol"] + Split(dataset, '/')
  {
    SplitWithoutSeparator("zvol", '/');
    var tail := "/" + dataset;
    assert tail[1..] == dataset;
    var pieces := Split(dataset, '/');
    assert Split(tail, '/') == [""] + pieces;
    SplitConcat("zvol", tail, '/');
    assert DeviceOf(dataset) == "zvol" + tail;
    assert Glue(["zvol"], [""] + pieces) == ["zvol"] + pieces by {
      assert "zvol" + "" == "zvol";
    }
  }

  // "source@snapshot" splits back into the source and the name, and is accepted, for every valid
  // source; the split is exact precisely when the source holds no '@'.
  lemma SnapshotAccepted(source: string, jobId: HexId)
    ensures ValidSnapshotName(SnapshotName(jobId))
    ensures Partition(SnapshotRef(source, jobId), '@') == (source, true, SnapshotName(jobId))
            <==> '@' !in source
    ensures ValidDataset(source) ==> ValidSnapshotRef(SnapshotRef(source, jobId))
  {
    var name := SnapshotName(jobId);
    assert forall c | c in jobId[..16] :: LowerHex(c);
    assert SnapshotRef(source, jobId) == source + ['@'] + name;
    PartitionConcat(source, name, '@');
    if ValidDataset(source) {
      assert '@' !in source;
    }
  }

  // The whole plan of a station passes every validator it meets, for every display name.
  lemma PlanAccepted(source: string, displayName: string, jobId: HexId)
    requires ValidDataset(source)
    ensures ValidSnapshotName(SnapshotName(jobId)) && ValidSnapshotRef(SnapshotRef(source, jobId))
    ensures var dest := DestinationDataset(source, displayName, jobId);
            ValidDataset(dest) && ValidDevice(DeviceOf(dest))
  {
    SnapshotAccepted(source, jobId);
    DestinationAccepted(source, displayName, jobId);
    DeviceAccepted(DestinationDataset(source, displayName, jobId));
  }
}
