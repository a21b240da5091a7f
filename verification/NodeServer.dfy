/**
 The CDS node service: staging, publishing and their inverses over a host's paths and mount table.
 Each handler is specified by a function of the host, of the request and of the host calls that fail;
 the properties of whole life cycles are proved about those functions.
 */
module NodeServer {
  import opened Status
  import opened Capacity
  import opened KeyMutexes
  import opened MountTable
  import DevPath

  // The host calls of a handler, each of which may fail and then changes nothing.
  datatype HostCall = ExistsCall | MkdirCall | MakeFileCall | LookupCall | MountCall | UnmountCall | RemoveCall
      | SizeCall | ResizeCall
  type Faults = HostCall -> bool

  const NO_FAULTS: Faults := _ => false

  // What a bind mount of a device node shows as its device.
  const DEVICE_FS: string := "devtmpfs"

  type Result = (Host, Outcome<()>)

  // ---------- the handlers as functions ----------

  function Stage(h: Host, target: Path, source: string, fails: Faults): Result {
    if fails(ExistsCall) || (target !in h.paths && fails(MkdirCall)) then (h, Error(Internal))
    else
      var g := if target in h.paths then h else MkdirAll(h, target);
      if fails(LookupCall) then (g, Error(Internal))
      else if DeviceAt(g.table, target) == source then (g, Done(()))
      else if fails(MountCall) then (g, Error(Internal))
      else (g.(table := g.table + [Entry(source, target)]), Done(()))
  }

  // Once the target exists, publishing binds a device there unless something is mounted already.
  function Bind(h: Host, target: Path, device: string, node: string, fails: Faults): Result {
    if fails(LookupCall) then (h, Error(Internal))
    else if DeviceAt(h.table, target) != "" then (h, Done(()))
    else if fails(MountCall) then (h, Error(Internal))
    else (h.(table := h.table + [Entry(device, target, node)]), Done(()))
  }

  function PublishMount(h: Host, staging: Path, target: Path, fails: Faults): Result {
    if fails(ExistsCall) || (target !in h.paths && fails(MkdirCall)) then (h, Error(Internal))
    else Bind(if target in h.paths then h else MkdirAll(h, target), target, DeviceUnder(h.table, staging), "", fails)
  }

  function PublishBlock(h: Host, source: string, target: Path, fails: Faults): Result {
    if fails(ExistsCall) || (target !in h.paths && fails(MkdirCall)) then (h, Error(Internal))
    else if target in h.paths then Bind(h, target, DEVICE_FS, source, fails)
    else
      var g := MkdirAll(h, Dir(target));
      if fails(MakeFileCall) then (g, Error(Internal))
      else Bind(g.(paths := g.paths + {target}), target, DEVICE_FS, source, fails)
  }

  function Remove(h: Host, target: Path, fails: Faults): Result {
    if fails(RemoveCall) || !CanRemove(h, target) then (h, Error(Internal))
    else (h.(paths := h.paths - {target}), Done(()))
  }

  // Unmount once if there is something to unmount, then remove the path.
  function TakeDown(h: Host, target: Path, mounted: bool, fails: Faults): Result {
    if mounted then
      if fails(UnmountCall) || At(h.table, target) == [] then (h, Error(Internal))
      else Remove(h.(table := Pop(h.table, target)), target, fails)
    else Remove(h, target, fails)
  }

  function Unpublish(h: Host, target: Path, fails: Faults): Result {
    if fails(ExistsCall) then (h, Error(Internal))
    else if target !in h.paths then (h, Done(()))
    else if fails(LookupCall) then (h, Error(Internal))
    else TakeDown(h, target, DeviceAt(h.table, target) != "", fails)
  }

  // Unstaging looks at the references to the device instead of at the device.
  function Unstage(h: Host, target: Path, fails: Faults): Result {
    if fails(ExistsCall) then (h, Error(Internal))
    else if target !in h.paths then (h, Done(()))
    else if fails(LookupCall) then (h, Error(Internal))
    else TakeDown(h, target, References(h.table, DeviceAt(h.table, target)) > 0, fails)
  }

  // ---------- the handlers as the program runs them ----------

  /** File system and mount calls.  `fails` is the environment's choice for the call. */
  class Mounter {
    var paths: set<Path>
    var table: seq<Entry>

    ghost function View(): Host
      reads this
    {
      Host(paths, table)
    }

    constructor (paths: set<Path>, table: seq<Entry>)
      ensures View() == Host(paths, table)
    {
      this.paths := paths;
      this.table := table;
    }

    method CreateDirs(p: Path, fails: bool) returns (ok: bool)
      modifies this
      ensures ok == !fails && View() == if ok then MkdirAll(old(View()), p) else old(View())
    {
      ok := !fails;
      if ok {
        paths := paths + Prefixes(p);
      }
    }

    method MakeFile(p: Path, fails: bool) returns (ok: bool)
      modifies this
      ensures ok == !fails && table == old(table) && paths == if ok then old(paths) + {p} else old(paths)
    {
      ok := !fails;
      if ok {
        paths := paths + {p};
      }
    }

    method Mount(device: string, p: Path, node: string, fails: bool) returns (ok: bool)
      modifies this
      ensures ok == !fails && paths == old(paths)
      ensures table == if ok then old(table) + [Entry(device, p, node)] else old(table)
    {
      ok := !fails;
      if ok {
        table := table + [Entry(device, p, node)];
      }
    }

    method Unmount(p: Path, fails: bool) returns (ok: bool)
      modifies this
      ensures ok == (!fails && At(old(table), p) != [])
      ensures paths == old(paths) && table == if ok then Pop(old(table), p) else old(table)
    {
      ok := !fails && At(table, p) != [];
      if ok {
        table := Pop(table, p);
      }
    }

    method RemovePath(p: Path, fails: bool) returns (ok: bool)
      modifies this
      ensures ok == (!fails && CanRemove(old(View()), p))
      ensures table == old(table) && paths == if ok then old(paths) - {p} else old(paths)
    {
      ok := !fails && CanRemove(Host(paths, table), p);
      if ok {
        paths := paths - {p};
      }
    }
  }

  datatype AccessType = Block | MountAccess | NoAccess

  // `text` is the request's String(), `accepted` whether the access mode is supported, and `serial` what
  // the publish context holds, if there is one.
  datatype StageRequest = StageRequest(volumeID: string, target: Path, accepted: bool, access: AccessType,
                                       serial: Option<string>, text: string)
  datatype PublishRequest = PublishRequest(volumeID: string, staging: Path, target: Path, accepted: bool,
                                           access: AccessType, serial: Option<string>)

  function BadStage(r: StageRequest): Option<Outcome<()>> {
    if r.volumeID == "" || r.target == [] then Some(Error(InvalidArgument))
    else if !r.accepted then Some(Error(FailedPrecondition))
    else if r.access.Block? then Some(Done(()))
    else if r.access.NoAccess? || r.serial.None? || r.serial.value == "" then Some(Error(InvalidArgument))
    else None
  }

  function BadPublish(r: PublishRequest): Option<Outcome<()>> {
    if !r.accepted then Some(Error(FailedPrecondition))
    else if r.access.NoAccess? || r.volumeID == "" || r.target == [] then Some(Error(InvalidArgument))
    else if r.access.MountAccess? && r.staging == [] then Some(Error(InvalidArgument))
    else if r.access.Block? && (r.serial.None? || r.serial.value == "") then Some(Error(InvalidArgument))
    else None
  }

  class NodeServer {
    const mounter: Mounter
    const inProcessRequests: KeyMutex
    // Sizes of the devices, and of the file systems on them.
    var deviceSizes: map<string, int64>
    var fileSystemSizes: map<string, int64>

    constructor (mounter: Mounter, deviceSizes: map<string, int64>)
      ensures this.mounter == mounter && inProcessRequests.kv == {}
    {
      this.mounter := mounter;
      this.inProcessRequests := new KeyMutex();
      this.deviceSizes := deviceSizes;
      this.fileSystemSizes := map[];
    }

    // What NodeStageVolume does between taking the lock and the deferred Unlock.
    method StageLocked(r: StageRequest, listing: Option<string>, fails: Faults) returns (outcome: Outcome<()>)
      requires BadStage(r).None?
      modifies mounter
      ensures var device := DevPath.DeviceOf(listing, r.serial.value);
              (mounter.View(), outcome) ==
                if device.Error? then (old(mounter.View()), Error(Internal))
                else Stage(old(mounter.View()), r.target, device.value, fails)
    {
      var source := DevPath.GetDevPath(listing, r.serial.value);
      if source.Error? {
        return Error(Internal);
      }
      if fails(ExistsCall) {
        return Error(Internal);
      }
      if r.target !in mounter.paths {
        var made := mounter.CreateDirs(r.target, fails(MkdirCall));
        if !made {
          return Error(Internal);
        }
      }
      if fails(LookupCall) {
        return Error(Internal);
      }
      var devPath := DeviceAt(mounter.table, r.target);
      if devPath == source.value {
        return Done(());
      }
      var mounted := mounter.Mount(source.value, r.target, "", fails(MountCall));
      if !mounted {
        return Error(Internal);
      }
      return Done(());
    }

    // `listing` is the output of the command that lists the serials.
    method NodeStageVolume(r: StageRequest, listing: Option<string>, fails: Faults) returns (outcome: Outcome<()>)
      modifies mounter, inProcessRequests
      ensures inProcessRequests.kv == old(inProcessRequests.kv)
      ensures BadStage(r).Some? ==> mounter.View() == old(mounter.View())
      ensures if r.volumeID == "" || r.target == [] then outcome == Error(InvalidArgument)
              else if !r.accepted then outcome == Error(FailedPrecondition)
              else if r.access.Block? then outcome.Done?
              else (r.access.NoAccess? || r.serial in {None, Some("")} ==> outcome == Error(InvalidArgument))
      ensures BadStage(r).None? && r.text in old(inProcessRequests.kv) ==>
                outcome == Error(Aborted) && mounter.View() == old(mounter.View())
      ensures BadStage(r).None? && r.text !in old(inProcessRequests.kv) ==>
                var device := DevPath.DeviceOf(listing, r.serial.value);
                (mounter.View(), outcome) ==
                  if device.Error? then (old(mounter.View()), Error(Internal))
                  else Stage(old(mounter.View()), r.target, device.value, fails)
    {
      if r.volumeID == "" || r.target == [] {
        return Error(InvalidArgument);
      }
      if !r.accepted {
        return Error(FailedPrecondition);
      }
      if r.access.Block? {
        return Done(());
      }
      if r.access.NoAccess? || r.serial.None? || r.serial.value == "" {
        return Error(InvalidArgument);
      }
      var locked := inProcessRequests.TryLock(r.text);
      if !locked {
        return Error(Aborted);
      }
      outcome := StageLocked(r, listing, fails);
      inProcessRequests.Unlock(r.text);
    }

    method NodeUnstageVolume(volumeID: string, target: Path, fails: Faults) returns (outcome: Outcome<()>)
      modifies mounter
      ensures (mounter.View(), outcome) ==
                if volumeID == "" || target == [] then (old(mounter.View()), Error(InvalidArgument))
                else Unstage(old(mounter.View()), target, fails)
    {
      if volumeID == "" || target == [] {
        return Error(InvalidArgument);
      }
      if fails(ExistsCall) {
        return Error(Internal);
      }
      if target !in mounter.paths {
        return Done(());
      }
      if fails(LookupCall) {
        return Error(Internal);
      }
      var refCount := References(mounter.table, DeviceAt(mounter.table, target));
      if refCount > 0 {
        var unmounted := mounter.Unmount(target, fails(UnmountCall));
        if !unmounted {
          return Error(Internal);
        }
      }
      var removed := mounter.RemovePath(target, fails(RemoveCall));
      return if removed then Done(()) else Error(Internal);
    }

    // The part that both kinds of publishing share: mount unless something is mounted.
    method BindTo(target: Path, device: string, node: string, fails: Faults) returns (outcome: Outcome<()>)
      modifies mounter
      ensures (mounter.View(), outcome) == Bind(old(mounter.View()), target, device, node, fails)
    {
      if fails(LookupCall) {
        return Error(Internal);
      }
      var dev := DeviceAt(mounter.table, target);
      if dev != "" {
        return Done(());
      }
      var mounted := mounter.Mount(device, target, node, fails(MountCall));
      return if mounted then Done(()) else Error(Internal);
    }

    method PublishBlockVolume(r: PublishRequest, listing: Option<string>, fails: Faults) returns (outcome: Outcome<()>)
      requires r.accepted && r.access.Block?
      modifies mounter
      ensures var h := old(mounter.View());
              (mounter.View(), outcome) ==
                if BadPublish(r).Some? then (h, BadPublish(r).value)
                else
                  var source := DevPath.DeviceOf(listing, r.serial.value);
                  if source.Error? then (h, Error(Internal)) else PublishBlock(h, source.value, r.target, fails)
    {
      if r.volumeID == "" || r.target == [] || r.serial.None? || r.serial.value == "" {
        return Error(InvalidArgument);
      }
      var source := DevPath.GetDevPath(listing, r.serial.value);
      if source.Error? || fails(ExistsCall) {
        return Error(Internal);
      }
      if r.target !in mounter.paths {
        var made := mounter.CreateDirs(Dir(r.target), fails(MkdirCall));
        if !made {
          return Error(Internal);
        }
        made := mounter.MakeFile(r.target, fails(MakeFileCall));
        if !made {
          return Error(Internal);
        }
      }
      outcome := BindTo(r.target, DEVICE_FS, source.value, fails);
    }

    method PublishMountVolume(r: PublishRequest, fails: Faults) returns (outcome: Outcome<()>)
      requires r.accepted && r.access.MountAccess?
      modifies mounter
      ensures (mounter.View(), outcome) ==
                if BadPublish(r).Some? then (old(mounter.View()), BadPublish(r).value)
                else PublishMount(old(mounter.View()), r.staging, r.target, fails)
    {
      if r.volumeID == "" || r.staging == [] || r.target == [] {
        return Error(InvalidArgument);
      }
      if fails(ExistsCall) {
        return Error(Internal);
      }
      if r.target !in mounter.paths {
        var made := mounter.CreateDirs(r.target, fails(MkdirCall));
        if !made {
          return Error(Internal);
        }
      }
      outcome := BindTo(r.target, DeviceUnder(mounter.table, r.staging), "", fails);
    }

    method NodePublishVolume(r: PublishRequest, listing: Option<string>, fails: Faults) returns (outcome: Outcome<()>)
      modifies mounter
      ensures var h := old(mounter.View());
              (mounter.View(), outcome) ==
                if BadPublish(r).Some? then (h, BadPublish(r).value)
                else if r.access.MountAccess? then PublishMount(h, r.staging, r.target, fails)
                else
                  var source := DevPath.DeviceOf(listing, r.serial.value);
                  if source.Error? then (h, Error(Internal)) else PublishBlock(h, source.value, r.target, fails)
      ensures if !r.accepted then outcome == Error(FailedPrecondition)
              else if r.volumeID == "" || r.target == [] || r.access.NoAccess? then outcome == Error(InvalidArgument)
              else (r.access.MountAccess? && r.staging == []) || (r.access.Block? && r.serial in {None, Some("")}) ==>
                outcome == Error(InvalidArgument)
    {
      if !r.accepted {
        return Error(FailedPrecondition);
      }
      match r.access
      case Block => outcome := PublishBlockVolume(r, listing, fails);
      case MountAccess => outcome := PublishMountVolume(r, fails);
      case NoAccess => outcome := Error(InvalidArgument);
    }

    method NodeUnpublishVolume(volumeID: string, target: Path, fails: Faults) returns (outcome: Outcome<()>)
      modifies mounter
      ensures (mounter.View(), outcome) ==
                if volumeID == "" || target == [] then (old(mounter.View()), Error(InvalidArgument))
                else Unpublish(old(mounter.View()), target, fails)
    {
      if volumeID == "" || target == [] {
        return Error(InvalidArgument);
      }
      if fails(ExistsCall) {
        return Error(Internal);
      }
      if target !in mounter.paths {
        return Done(());
      }
      if fails(LookupCall) {
        return Error(Internal);
      }
      var dev := DeviceAt(mounter.table, target);
      if dev != "" {
        var unmounted := mounter.Unmount(target, fails(UnmountCall));
        if !unmounted {
          return Error(Internal);
        }
      }
      var removed := mounter.RemovePath(target, fails(RemoveCall));
      return if removed then Done(()) else Error(Internal);
    }

    // The file system grows to its device exactly when the request is well formed, nothing fails and the
    // device is in range, where there is a range; a block volume is left alone.
    method NodeExpandVolume(volumeID: string, volumePath: Path, isBlock: bool, range: CapacityRange, fails: Faults)
      returns (outcome: Outcome<int64>)
      modifies this`fileSystemSizes
      ensures var device := DeviceAt(mounter.table, volumePath);
              if volumeID == "" || volumePath == [] then outcome == Error(InvalidArgument) && unchanged(this)
              else if isBlock then outcome == Done(0) && unchanged(this)
              else if fails(LookupCall) || fails(SizeCall) || device !in deviceSizes then
                outcome == Error(Internal) && unchanged(this)
              else if !NodeAccepts(deviceSizes[device], range) then outcome == Error(OutOfRange) && unchanged(this)
              else if fails(ResizeCall) then outcome == Error(Internal) && unchanged(this)
              else (outcome == Done(deviceSizes[device])
                    && fileSystemSizes == old(fileSystemSizes)[device := deviceSizes[device]])
    {
      if volumeID == "" || volumePath == [] {
        return Error(InvalidArgument);
      }
      if isBlock {
        return Done(0);
      }
      if fails(LookupCall) {
        return Error(Internal);
      }
      var devPath := DeviceAt(mounter.table, volumePath);
      if fails(SizeCall) || devPath !in deviceSizes {
        return Error(Internal);
      }
      var devSize := deviceSizes[devPath];
      if range.Range? {
        var limitBytes := devSize;
        if range.limit > 0 {
          limitBytes := range.limit;
        }
        if devSize > limitBytes || devSize < range.required {
          return Error(OutOfRange);
        }
      }
      if fails(ResizeCall) {
        return Error(Internal);
      }
      fileSystemSizes := fileSystemSizes[devPath := devSize];
      return Done(devSize);
    }
  }
}
