// The storage appliance as the publish workflow sees it: its state, the effect of each call, and
// a fault schedule that decides for every call whether it returns, raises or dies with the process.
module Storage {
  import opened Text
  import opened Naming

  datatype Dataset = Dataset(id: string, name: string)
  datatype Target = Target(id: int, name: string)
  datatype Association = Association(target: int, extent: int, lun: int)

  // Snapshots map a full name to its dataset; extents map an id to the backing device.
  datatype Storage = Storage(datasets: seq<Dataset>, snapshots: map<string, string>,
                             targets: seq<Target>, associations: seq<Association>,
                             extents: map<int, Option<string>>)

  datatype Call =
    | QueryDatasets | QuerySnapshots | QueryTargets | QueryTargetExtents | QueryExtents
    | CreateSnapshot(dataset: string, name: string)
    | CloneSnapshot(snapshot: string, destination: string)
    | UpdateExtent(extent: int, device: string)
    | DeleteDataset(dataset: string)

  predicate IsWrite(call: Call) {
    call.CreateSnapshot? || call.CloneSnapshot? || call.UpdateExtent? || call.DeleteDataset?
  }

  predicate HasDataset(datasets: seq<Dataset>, name: string) {
    exists d | d in datasets :: d.name == name
  }

  function WithDataset(datasets: seq<Dataset>, name: string): seq<Dataset> {
    if HasDataset(datasets, name) then datasets else datasets + [Dataset(name, name)]
  }

  function WithoutDataset(datasets: seq<Dataset>, name: string): seq<Dataset> {
    if datasets == [] then []
    else (if datasets[0].name == name then [] else [datasets[0]]) + WithoutDataset(datasets[1..], name)
  }

  // What a call that reaches the appliance does there.
  function Apply(s: Storage, call: Call): Storage {
    match call
    case CreateSnapshot(dataset, name) =>
      var full := dataset + "@" + name;
      s.(snapshots := if full in s.snapshots then s.snapshots else s.snapshots[full := dataset],
         datasets := WithDataset(s.datasets, dataset))
    case CloneSnapshot(_, destination) => s.(datasets := WithDataset(s.datasets, destination))
    case UpdateExtent(extent, device) =>
      s.(extents := s.extents[extent := Some(RemovePrefix(CanonicalDiskDevice(device), "/dev/"))])
    case DeleteDataset(dataset) => s.(datasets := WithoutDataset(s.datasets, dataset))
    case _ => s
  }

  // The argument checks of the write adapter, made before anything is sent.
  predicate Accepts(call: Call) {
    match call
    case CreateSnapshot(dataset, name) => ValidDataset(dataset) && ValidSnapshotName(name)
    case CloneSnapshot(snapshot, destination) => ValidSnapshotRef(snapshot) && ValidDataset(destination)
    case UpdateExtent(extent, device) => extent > 0 && ValidDevice(device)
    case DeleteDataset(dataset) => ValidDataset(dataset)
    case _ => true
  }

  // A raised or fatal call may or may not have been applied. A crash ends the process, so no
  // handler of the workflow runs after it.
  datatype Fault = Fine | RaiseLost | RaiseApplied | CrashLost | CrashApplied

  datatype Signal = Ok | Raised | Crashed

  datatype Entry = Entry(call: Call, after: Storage)

  datatype World = World(storage: Storage, faults: seq<Fault>, log: seq<Entry>)

  function SignalOf(fault: Fault): Signal {
    match fault
    case Fine => Ok
    case RaiseLost => Raised
    case RaiseApplied => Raised
    case CrashLost => Crashed
    case CrashApplied => Crashed
  }

  function Perform(w: World, call: Call): (Signal, World) {
    if !Accepts(call) then (Raised, w)
    else
      var fault := if w.faults == [] then Fine else w.faults[0];
      var after := if fault.RaiseLost? || fault.CrashLost? then w.storage else Apply(w.storage, call);
      (SignalOf(fault),
       World(after, if w.faults == [] then [] else w.faults[1..], w.log + [Entry(call, after)]))
  }

  // The client object that the workflow and the cleanup pass hold. Queries return the whole
  // collection; the caller reads it from `storage`.
  class Client {
    var storage: Storage
    var faults: seq<Fault>
    var log: seq<Entry>

    ghost function View(): World
      reads this
    {
      World(storage, faults, log)
    }

    constructor (storage: Storage, faults: seq<Fault>)
      ensures View() == World(storage, faults, [])
    {
      this.storage, this.faults, log := storage, faults, [];
    }

    method NextFault() returns (fault: Fault)
      modifies this`faults
      ensures fault == if old(faults) == [] then Fine else old(faults)[0]
      ensures faults == if old(faults) == [] then [] else old(faults)[1..]
    {
      fault := Fine;
      if faults != [] {
        fault, faults := faults[0], faults[1..];
      }
    }

    method Query(call: Call) returns (signal: Signal)
      requires !IsWrite(call)
      modifies this
      ensures (signal, View()) == Perform(old(View()), call)
      ensures storage == old(storage)
    {
      var fault := NextFault();
      log := log + [Entry(call, storage)];
      signal := SignalOf(fault);
    }

    method CreateSnapshot(dataset: string, name: string) returns (signal: Signal)
      modifies this
      ensures (signal, View()) == Perform(old(View()), Call.CreateSnapshot(dataset, name))
    {
      if !ValidDataset(dataset) || !ValidSnapshotName(name) {
        return Raised;
      }
      var fault := NextFault();
      if !fault.RaiseLost? && !fault.CrashLost? {
        var full := dataset + "@" + name;
        if full !in storage.snapshots {
          storage := storage.(snapshots := storage.snapshots[full := dataset]);
        }
        if !HasDataset(storage.datasets, dataset) {
          storage := storage.(datasets := storage.datasets + [Dataset(dataset, dataset)]);
        }
      }
      log := log + [Entry(Call.CreateSnapshot(dataset, name), storage)];
      signal := SignalOf(fault);
    }

    method CloneSnapshot(snapshot: string, destination: string) returns (signal: Signal)
      modifies this
      ensures (signal, View()) == Perform(old(View()), Call.CloneSnapshot(snapshot, destination))
    {
      if !ValidSnapshotRef(snapshot) || !ValidDataset(destination) {
        return Raised;
      }
      var fault := NextFault();
      if !fault.RaiseLost? && !fault.CrashLost? && !HasDataset(storage.datasets, destination) {
        storage := storage.(datasets := storage.datasets + [Dataset(destination, destination)]);
      }
      log := log + [Entry(Call.CloneSnapshot(snapshot, destination), storage)];
      signal := SignalOf(fault);
    }

    method UpdateExtentDevice(extent: int, device: string) returns (signal: Signal)
      modifies this
      ensures (signal, View()) == Perform(old(View()), UpdateExtent(extent, device))
    {
      if extent <= 0 || !ValidDevice(device) {
        return Raised;
      }
      var fault := NextFault();
      if !fault.RaiseLost? && !fault.CrashLost? {
        var path := RemovePrefix(CanonicalDiskDevice(device), "/dev/");
        storage := storage.(extents := storage.extents[extent := Some(path)]);
      }
      log := log + [Entry(UpdateExtent(extent, device), storage)];
      signal := SignalOf(fault);
    }

    method DeleteDataset(dataset: string) returns (signal: Signal)
      modifies this
      ensures (signal, View()) == Perform(old(View()), Call.DeleteDataset(dataset))
    {
      if !ValidDataset(dataset) {
        return Raised;
      }
      var fault := NextFault();
      if !fault.RaiseLost? && !fault.CrashLost? {
        storage := storage.(datasets := WithoutDataset(storage.datasets, dataset));
      }
      log := log + [Entry(Call.DeleteDataset(dataset), storage)];
      signal := SignalOf(fault);
    }
  }
}
