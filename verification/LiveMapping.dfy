// How names and associations lead to a device: what the run resolves, what the gate sees, and where they agree.
module LiveMapping {
  import opened Text
  import opened Storage
  import opened PublishRun
  import Artifacts
  import Reconcile

  // ---- the listings, by position ----

  // The first target of this name, and the only one.
  predicate FirstNamed(targets: seq<Target>, name: string, i: int) {
    0 <= i < |targets| && targets[i].name == name && forall j | 0 <= j < i :: targets[j].name != name
  }

  predicate OnlyNamed(targets: seq<Target>, name: string, i: int) {
    0 <= i < |targets| && targets[i].name == name && forall j | 0 <= j < |targets| && j != i :: targets[j].name != name
  }

  // The only association of a target.
  predicate SoleAt(associations: seq<Association>, target: int, i: int) {
    && 0 <= i < |associations| && associations[i].target == target
    && forall j | 0 <= j < |associations| && j != i :: associations[j].target != target
  }

  lemma {:induction false} TargetExactly(targets: seq<Target>, name: string) returns (at: nat)
    ensures FindTarget(targets, name) == None <==> forall t | t in targets :: t.name != name
    ensures FindTarget(targets, name).Some? ==> FirstNamed(targets, name, at) && FindTarget(targets, name).value == targets[at]
  {
    at := 0;
    if targets != [] {
      assert targets == [targets[0]] + targets[1..];
      var rest := TargetExactly(targets[1..], name);
      at := if targets[0].name == name then 0 else rest + 1;
    }
  }

  lemma {:induction false} NamedExactly(targets: seq<Target>, name: string) returns (at: nat)
    ensures Reconcile.Named(targets, name) == [] <==> forall t | t in targets :: t.name != name
    ensures |Reconcile.Named(targets, name)| == 1 ==>
              OnlyNamed(targets, name, at) && Reconcile.Named(targets, name)[0] == targets[at]
    ensures forall i :: OnlyNamed(targets, name, i) ==> |Reconcile.Named(targets, name)| == 1
  {
    at := 0;
    if targets != [] {
      assert targets == [targets[0]] + targets[1..];
      var rest := NamedExactly(targets[1..], name);
      at := if targets[0].name == name then 0 else rest + 1;
      forall i | OnlyNamed(targets, name, i) ensures |Reconcile.Named(targets, name)| == 1 {
        if i > 0 {
          assert OnlyNamed(targets[1..], name, i - 1);
        } else {
          forall t | t in targets[1..] ensures t.name != name {
            var j :| 0 <= j < |targets[1..]| && targets[1..][j] == t;
            assert t == targets[j + 1];
          }
        }
      }
    }
  }

  lemma {:induction false} AssociationExactly(associations: seq<Association>, target: int) returns (at: nat)
    ensures OfTarget(associations, target) == [] <==> forall a | a in associations :: a.target != target
    ensures |OfTarget(associations, target)| == 1 ==>
              SoleAt(associations, target, at) && OfTarget(associations, target)[0] == associations[at]
    ensures forall i :: SoleAt(associations, target, i) ==> |OfTarget(associations, target)| == 1
  {
    at := 0;
    if associations != [] {
      assert associations == [associations[0]] + associations[1..];
      var rest := AssociationExactly(associations[1..], target);
      at := if associations[0].target == target then 0 else rest + 1;
      forall i | SoleAt(associations, target, i) ensures |OfTarget(associations, target)| == 1 {
        if i > 0 {
          assert SoleAt(associations[1..], target, i - 1);
        } else {
          forall a | a in associations[1..] ensures a.target != target {
            var j :| 0 <= j < |associations[1..]| && associations[1..][j] == a;
            assert a == associations[j + 1];
          }
        }
      }
    }
  }

  // ---- what the run resolves ----

  // A station leads to a mapping by the first target of its name and the only association of that target.
  ghost predicate LeadsTo(s: Storage, station: Station, m: Mapping) {
    && station.targetName.Some? && station.targetName.value != ""
    && exists i, k :: && FirstNamed(s.targets, station.targetName.value, i) && SoleAt(s.associations, s.targets[i].id, k)
                      && s.associations[k] == Association(m.target, m.extent, m.lun)
                      && m.extent in s.extents && m.oldDevice == s.extents[m.extent]
  }

  lemma ResolvesExactly(s: Storage, station: Station, m: Mapping)
    ensures ResolveStation(s, station) == Some(m) <==> LeadsTo(s, station, m)
  {
    if station.targetName.Some? {
      var name := station.targetName.value;
      var i := TargetExactly(s.targets, name);
      if FindTarget(s.targets, name).Some? {
        var target := s.targets[i].id;
        var k := AssociationExactly(s.associations, target);
        if ResolveStation(s, station) == Some(m) {
          assert FirstNamed(s.targets, name, i) && SoleAt(s.associations, s.targets[i].id, k);
        }
        if LeadsTo(s, station, m) {
          var i', k' :| FirstNamed(s.targets, name, i') && SoleAt(s.associations, s.targets[i'].id, k')
                        && s.associations[k'] == Association(m.target, m.extent, m.lun)
                        && m.extent in s.extents && m.oldDevice == s.extents[m.extent];
          assert i' == i && k' == k;
        }
      } else {
        forall j | 0 <= j < |s.targets| ensures s.targets[j].name != name {
          assert s.targets[j] in s.targets;
        }
      }
    }
  }

  // ---- what the gate and the listing see ----

  // A station's live device: by the only target of its name and the only association of that target.
  ghost predicate Shows(s: Storage, station: Station, device: string) {
    && station.targetName.Some? && station.targetName.value != ""
    && exists i, k :: && OnlyNamed(s.targets, station.targetName.value, i) && SoleAt(s.associations, s.targets[i].id, k)
                      && s.associations[k].extent in s.extents && s.extents[s.associations[k].extent].Some?
                      && device == Reconcile.CanonicalMapping(s.extents[s.associations[k].extent].value)
  }

  lemma MapsExactly(s: Storage, station: Station, device: string)
    ensures Reconcile.MapStation(s, station) == Some(device) <==> Shows(s, station, device)
  {
    if station.targetName.Some? {
      var name := station.targetName.value;
      var i := NamedExactly(s.targets, name);
      if |Reconcile.Named(s.targets, name)| == 1 {
        var k := AssociationExactly(s.associations, s.targets[i].id);
        if Reconcile.MapStation(s, station) == Some(device) {
          assert OnlyNamed(s.targets, name, i) && SoleAt(s.associations, s.targets[i].id, k);
        }
        if Shows(s, station, device) {
          var i', k' :| OnlyNamed(s.targets, name, i') && SoleAt(s.associations, s.targets[i'].id, k')
                        && s.associations[k'].extent in s.extents && s.extents[s.associations[k'].extent].Some?
                        && device == Reconcile.CanonicalMapping(s.extents[s.associations[k'].extent].value);
          assert i' == i && k' == k;
        }
      }
    }
  }

  // Both see the same extent, except where two targets share the name, of which a run takes the first, and where
  // the extent has no device, which a run accepts.
  lemma SeeAlike(s: Storage, station: Station)
    ensures Reconcile.MapStation(s, station).Some? <==>
              && ResolveStation(s, station).Some? && ResolveStation(s, station).value.oldDevice.Some?
              && exists i :: OnlyNamed(s.targets, station.targetName.value, i)
    ensures Reconcile.MapStation(s, station).Some? ==>
              Reconcile.MapStation(s, station).value
              == Reconcile.CanonicalMapping(ResolveStation(s, station).value.oldDevice.value)
  {
    if station.targetName.Some? {
      var name := station.targetName.value;
      var first := TargetExactly(s.targets, name);
      var only := NamedExactly(s.targets, name);
      if |Reconcile.Named(s.targets, name)| == 1 {
        assert s.targets[only] in s.targets && FirstNamed(s.targets, name, first) && first == only;
      }
    }
  }

  lemma {:induction false} SourceExactly(datasets: seq<Dataset>, source: string) returns (at: nat)
    ensures FindSource(datasets, source) == None <==> forall d | d in datasets :: d.name != source && d.id != source
    ensures FindSource(datasets, source).Some? ==>
              && at < |datasets| && (datasets[at].name == source || datasets[at].id == source)
              && (forall j | 0 <= j < at :: datasets[j].name != source && datasets[j].id != source)
              && FindSource(datasets, source).value == datasets[at].name
  {
    at := 0;
    if datasets != [] {
      assert datasets == [datasets[0]] + datasets[1..];
      var rest := SourceExactly(datasets[1..], source);
      at := if datasets[0].name == source || datasets[0].id == source then 0 else rest + 1;
    }
  }

  lemma {:induction false} SameCounts(associations: seq<Association>, m: Mapping)
    ensures |Same(associations, m)| == multiset(associations)[Association(m.target, m.extent, m.lun)]
  {
    if associations != [] {
      assert associations == [associations[0]] + associations[1..];
      SameCounts(associations[1..], m);
    }
  }

  // A read-back asks for exactly one association of the plan's target, extent and LUN, and for the clone's device.
  lemma ReadBackExactly(s: Storage, plan: Plan)
    ensures ReadBackMatches(s, plan) <==>
              && multiset(s.associations)[Association(plan.mapping.target, plan.mapping.extent, plan.mapping.lun)] == 1
              && plan.mapping.extent in s.extents && s.extents[plan.mapping.extent] == Some("zvol/" + plan.destination)
  {
    SameCounts(s.associations, plan.mapping);
  }

  // ---- the spellings of one device ----

  lemma {:induction false} StripLeftPad(pad: string, core: string)
    requires (forall c | c in pad :: IsSpace(c)) && core != "" && !IsSpace(core[0])
    ensures StripLeft(pad + core, IsSpace) == core
  {
    if pad == "" {
      assert pad + core == core;
    } else {
      assert (pad + core)[1..] == pad[1..] + core && (pad + core)[0] == pad[0];
      StripLeftPad(pad[1..], core);
    }
  }

  lemma {:induction false} StripRightPad(core: string, pad: string)
    requires (forall c | c in pad :: IsSpace(c)) && core != "" && !IsSpace(core[|core| - 1])
    ensures StripRight(core + pad, IsSpace) == core
  {
    if pad == "" {
      assert core + pad == core;
    } else {
      var last := |pad| - 1;
      assert (core + pad)[..|core| + last] == core + pad[..last] && (core + pad)[|core| + last] == pad[last];
      StripRightPad(core, pad[..last]);
    }
  }

  // Blanks around a device, the form's "disk=" and a leading "/dev/" make no difference.
  lemma SpellingsAgree(before: string, prefix: string, device: string, after: string)
    requires (forall c | c in before :: IsSpace(c)) && (forall c | c in after :: IsSpace(c))
    requires device != "" && !IsSpace(device[0]) && !IsSpace(device[|device| - 1])
    requires !("disk=" <= device) && !("/dev/" <= device)
    requires prefix in {"", "/dev/", "disk=", "disk=/dev/"}
    ensures Reconcile.CanonicalMapping(before + prefix + device + after) == device
  {
    var core := prefix + device;
    assert before + prefix + device + after == before + (core + after);
    assert core[0] == (if prefix == "" then device[0] else prefix[0]) && core[|core| - 1] == device[|device| - 1];
    StripLeftPad(before, core + after);
    StripRightPad(core, after);
    if prefix == "disk=/dev/" {
      assert core == "disk=" + ("/dev/" + device);
      assert core[5..] == "/dev/" + device;
    } else if prefix == "disk=" {
      assert core[5..] == device;
    } else if prefix == "/dev/" {
      assert core[0] == '/' && core[5..] == device;
    }
  }

  // A row backs the device its mapping names and the volume of its dataset, in whatever form either was recorded,
  // and no other device.
  lemma BacksExactly(a: Artifacts.Artifact, station: nat, device: string)
    requires a.dataset != "" && !IsSpace(a.dataset[|a.dataset| - 1])
    ensures Reconcile.Backs(a, station, device) <==>
              && a.station == station && a.deletedAt == None
              && (device == "zvol/" + a.dataset || device == Reconcile.CanonicalMapping(a.mappingRef))
  {
    var volume := "zvol/" + a.dataset;
    assert volume[0] == 'z' && volume[|volume| - 1] == a.dataset[|a.dataset| - 1];
    assert [] + [] + volume + [] == volume && "" + "" + volume + "" == volume;
    SpellingsAgree("", "", volume, "");
  }
}
