/** The virtual drive's data model and, for each of its operations, a function that
    gives the operation's result, the drive's state afterwards and the requests it makes
    to its collaborators, in order. The methods of `VDrive.VirtualDrive` are proved to
    behave as these functions say; the lemmas of `MountProps` are about them. */
module MountSpec {
  import opened Errors
  import opened Paths
  import opened Platform

  const MountRoot: string := "/mnt"
  const IsoFolder: string := "ISOS"
  const DevDir: string := "/dev"
  /** The mount programs `mount_partition` tries, in order. */
  const Mounters: seq<string> := ["mount", "mount.exfat", "mount.ntfs-3g"]

  const MountExternalWhileInternal: string := "Attempt to mount_external while mounted internal"
  const UnmountExternalWhileInternal: string := "Attempt to unmount_external while mounted internal"
  const MountInternalWhileExternal: string := "Attempt to mount_internal while mounted external"
  const UnmountInternalWhileExternal: string := "Attempt to unmount_internal while mounted external"
  const MountExternalFailed: string := "failed to mount drive external"
  const UnmountExternalFailed: string := "failed to unmount external"
  const NoLoopbackName: string := "loopback path has no file name"
  const InvalidFileName: string := "Invalid file name"

  /** What an internal mount holds: the loopback device, the mount points of the
      partitions that mounted, and the nested images found on them. */
  datatype MountInfo = MountInfo(loopbackPath: string, partMountPaths: seq<string>, isos: seq<Iso>)

  /** How the volume is exposed. */
  datatype MountState = Unmounted | Internal(info: MountInfo) | External(id: StorageId)

  /** The part of the drive's state that is saved and restored. */
  datatype PersistVDriveState = PersistVDriveState(externalMount: bool, readonly: bool, removable: bool)

  /** `PersistVDriveState::default()`. */
  function DefaultPersist(): (p: PersistVDriveState)
    ensures !p.externalMount && !p.readonly && p.removable
  {
    PersistVDriveState(false, false, true)
  }

  /** The drive's mutable state. */
  datatype Drive = Drive(state: MountState, persist: PersistVDriveState)

  /** What the drive's operations read but never change: the collaborators, the
      volume and the configuration. */
  datatype Env = Env(world: World, volume: LogicalVolume, config: Config)

  /** What one operation does: its result, the drive afterwards, the requests made. */
  datatype Outcome<T> = Outcome(result: Result<T>, drive: Drive, calls: seq<Call>)

  /** What a step of a scan does: its result and the requests made. */
  datatype Scan<T> = Scan(result: Result<T>, calls: seq<Call>)

  /** The `(bool, Vec<Action>)` an input handler returns: whether it consumed the
      event or action, and the actions it emits. */
  datatype Reply = Reply(handled: bool, actions: seq<Action>)

  const Unhandled: Reply := Reply(false, [])

  // ---------------------------------------------------------------------------
  // External mount

  /** `mount_external`. */
  function MountExternalSpec(env: Env, d: Drive): Outcome<()> {
    match d.state
    case External(_) => Outcome(Ok(()), d, [])
    case Internal(_) => Outcome(Err(Msg(MountExternalWhileInternal)), d, [])
    case Unmounted =>
      var w := env.world;
      if w.lockGadget.Err? then Outcome(Err(w.lockGadget.error), d, [LockGadget])
      else
        var path, ro, removable := env.volume.path, d.persist.readonly, d.persist.removable;
        var calls := [LockGadget, Export(path, false, ro, removable)];
        var id := w.exportFile(path, false, ro, removable);
        if id.Err? then Outcome(Err(Chained(MountExternalFailed, id.error)), d, calls)
        else Outcome(Ok(()), Drive(External(id.value), d.persist.(externalMount := true)), calls)
  }

  /** `unmount_external`. */
  function UnmountExternalSpec(env: Env, d: Drive): Outcome<()> {
    var released := Drive(Unmounted, d.persist.(externalMount := false));
    match d.state
    case Unmounted => Outcome(Ok(()), released, [])
    case Internal(_) => Outcome(Err(Msg(UnmountExternalWhileInternal)), d, [])
    case External(id) =>
      var w := env.world;
      if w.lockGadget.Err? then Outcome(Err(w.lockGadget.error), d, [LockGadget])
      else
        var calls := [LockGadget, Unexport(id)];
        if w.unexportFile(id).Err? then
          Outcome(Err(Chained(UnmountExternalFailed, w.unexportFile(id).error)), d, calls)
        else Outcome(Ok(()), released, calls)
  }

  // ---------------------------------------------------------------------------
  // Partitions of the loopback device

  /** Whether a `/dev` entry is taken for a partition of the loopback device
      `loopName`: its name starts with the device's name and is not the device's. */
  predicate IsPartitionDevice(name: string, loopName: string) {
    StartsWith(name, loopName) && name != loopName
  }

  /** The partition number of a device name: `split("p").last()`, the text after the
      last `p` (the whole name when it has none). */
  function PartitionNumber(devName: string): (n: string)
    ensures IsTextAfterLast(devName, n, 'p')
  {
    SplitLast(devName, 'p');
    var pieces := Split(devName, 'p');
    pieces[|pieces| - 1]
  }

  /** `format!("{} (partition {})", part_name, part_num)`. */
  function MountFolderName(partName: string, partNum: string): string {
    partName + " (partition " + partNum + ")"
  }

  /** Where the partition `devName` of the drive is mounted. */
  function MountPoint(env: Env, devName: string): string {
    Join(MountRoot, MountFolderName(env.config.translateDriveName(env.volume.name), PartitionNumber(devName)))
  }

  /** Index of the first program of `ms` that mounts `dev` at `target`; |ms| when none does. */
  function FirstMounter(w: World, ms: seq<string>, dev: string, target: string): (k: nat)
    ensures k <= |ms|
    ensures forall j :: 0 <= j < k ==> w.runCheckOutput(ms[j], [dev, target]).Err?
    ensures k < |ms| ==> w.runCheckOutput(ms[k], [dev, target]).Ok?
  {
    if ms == [] || w.runCheckOutput(ms[0], [dev, target]).Ok? then 0
    else 1 + FirstMounter(w, ms[1..], dev, target)
  }

  /** The requests that run each program of `ms` on `dev` and `target`. */
  function MounterCalls(ms: seq<string>, dev: string, target: string): seq<Call> {
    if ms == [] then [] else MounterCalls(ms[..|ms| - 1], dev, target) + [Exec(ms[|ms| - 1], [dev, target])]
  }

  /** `mount_partition(dev, target)`. */
  function MountPartitionSpec(w: World, dev: string, target: string): Scan<()> {
    var k := FirstMounter(w, Mounters, dev, target);
    if k < |Mounters| then Scan(Ok(()), MounterCalls(Mounters[..k + 1], dev, target))
    else Scan(Err(Msg("Failed to mount: " + dev + " to " + target)), MounterCalls(Mounters, dev, target))
  }

  // ---------------------------------------------------------------------------
  // Nested images of one mounted partition

  /** Whether an image entry is hidden (its name starts with `.`). */
  predicate Hidden(name: string) {
    StartsWith(name, ".")
  }

  /** One entry of a partition's `ISOS` folder (the body of the inner loop of
      `mount_internal`). */
  function IsoEntryStep(w: World, dir: string, e: Result<DirEntry>): Scan<seq<Iso>> {
    if e.Err? then Scan(Err(e.error), [])
    else if !e.value.utf8 then Scan(Err(Msg(InvalidFileName)), [])
    else if Hidden(e.value.name) then Scan(Ok([]), [])
    else
      var path := Join(dir, e.value.name);
      var made := w.newIso(path);
      Scan(if made.Ok? then Ok([Iso(path)]) else Err(made.error), [OpenIso(path)])
  }

  /** One more step of a scan of images: nothing more once a step has failed. */
  function AppendIsos(prev: Scan<seq<Iso>>, step: Scan<seq<Iso>>): Scan<seq<Iso>> {
    if prev.result.Err? then prev
    else if step.result.Err? then Scan(step.result, prev.calls + step.calls)
    else Scan(Ok(prev.result.value + step.result.value), prev.calls + step.calls)
  }

  /** The images of the folder `dir` listed as `es`, scanned in listing order. */
  function IsoScan(w: World, dir: string, es: seq<Result<DirEntry>>): Scan<seq<Iso>>
    decreases |es|
  {
    if es == [] then Scan(Ok([]), [])
    else AppendIsos(IsoScan(w, dir, es[..|es| - 1]), IsoEntryStep(w, dir, es[|es| - 1]))
  }

  // ---------------------------------------------------------------------------
  // The scan of /dev

  /** What a scan of `/dev` has collected: mount points and images. */
  datatype Found = Found(parts: seq<string>, isos: seq<Iso>)

  const NothingFound: Found := Found([], [])

  /** One entry of `/dev` (the body of the outer loop of `mount_internal`). */
  function DevEntryStep(env: Env, loopName: string, e: Result<DirEntry>): Scan<Found> {
    if e.Err? then Scan(Err(e.error), [])
    else if !IsPartitionDevice(e.value.name, loopName) then Scan(Ok(NothingFound), [])
    else PartitionStep(env.world, Join(DevDir, e.value.name), MountPoint(env, e.value.name))
  }

  /** A partition of the loopback device: its mount point is created, it is mounted
      there, and the images in its `ISOS` folder are opened. A partition that no
      mount program mounts is passed over. */
  function PartitionStep(w: World, dev: string, mountPoint: string): Scan<Found> {
    var made := [MakeDirs(mountPoint)];
    if w.createDirAll(mountPoint).Err? then Scan(Err(w.createDirAll(mountPoint).error), made)
    else
      var mounted := MountPartitionSpec(w, dev, mountPoint);
      if mounted.result.Err? then Scan(Ok(NothingFound), made + mounted.calls)
      else
        var isos := IsoFolderScan(w, Join(mountPoint, IsoFolder));
        var result := if isos.result.Err? then Err(isos.result.error) else Ok(Found([mountPoint], isos.result.value));
        Scan(result, made + mounted.calls + isos.calls)
  }

  /** The images of a mounted partition's `ISOS` folder; none when it does not exist. */
  function IsoFolderScan(w: World, isoPath: string): Scan<seq<Iso>> {
    var probed := [Probe(isoPath)];
    if !w.pathExists(isoPath) then Scan(Ok([]), probed)
    else
      var listed := probed + [ListDir(isoPath)];
      var listing := w.readDir(isoPath);
      if listing.Err? then Scan(Err(listing.error), listed)
      else
        var isos := IsoScan(w, isoPath, listing.value);
        Scan(isos.result, listed + isos.calls)
  }

  /** What two parts of a scan collected, one after the other. */
  function Merge(a: Found, b: Found): Found {
    Found(a.parts + b.parts, a.isos + b.isos)
  }

  /** One more step of the scan of `/dev`: nothing more once a step has failed. */
  function AppendFound(prev: Scan<Found>, step: Scan<Found>): Scan<Found> {
    if prev.result.Err? then prev
    else if step.result.Err? then Scan(step.result, prev.calls + step.calls)
    else Scan(Ok(Merge(prev.result.value, step.result.value)), prev.calls + step.calls)
  }

  /** Entries scanned in listing order, `step` giving what each one does. */
  function DevScanWith(step: Result<DirEntry> -> Scan<Found>, es: seq<Result<DirEntry>>): Scan<Found>
    decreases |es|
  {
    if es == [] then Scan(Ok(NothingFound), [])
    else AppendFound(DevScanWith(step, es[..|es| - 1]), step(es[|es| - 1]))
  }

  /** What the scan of `/dev` does with one entry, as a function value. */
  function DevStepOf(env: Env, loopName: string): Result<DirEntry> -> Scan<Found> {
    e => DevEntryStep(env, loopName, e)
  }

  /** Whether `step` does with every entry what DevEntryStep does. (A proof about a
      single entry's step can then leave DevEntryStep unexpanded.) */
  ghost predicate IsDevStep(step: Result<DirEntry> -> Scan<Found>, env: Env, loopName: string) {
    forall e {:trigger DevEntryStep(env, loopName, e)} :: step(e) == DevEntryStep(env, loopName, e)
  }

  /** The entries `es` of `/dev` scanned in listing order for partitions of `loopName`. */
  function DevScan(env: Env, loopName: string, es: seq<Result<DirEntry>>): Scan<Found> {
    DevScanWith(DevStepOf(env, loopName), es)
  }

  // ---------------------------------------------------------------------------
  // Internal mount and unmount

  /** `mount_internal`. */
  function MountInternalSpec(env: Env, d: Drive): Outcome<MountInfo> {
    match d.state
    case Internal(info) => Outcome(Ok(info), d, [])
    case External(_) => Outcome(Err(Msg(MountInternalWhileExternal)), d, [])
    case Unmounted =>
      var found := FindLoopbackSpec(env.world);
      if found.result.Err? then Outcome(Err(found.result.error), d, found.calls)
      else
        var o := AttachSpec(env, d, found.result.value.path, found.result.value.name);
        Outcome(o.result, o.drive, found.calls + o.calls)
  }

  /** A loopback device: its path under `/dev` and its file name. */
  datatype Loopback = Loopback(path: string, name: string)

  /** The first step of `mount_internal`: ask `losetup -f` for a free loopback device
      and take the file name of the path it prints. */
  function FindLoopbackSpec(w: World): Scan<Loopback> {
    var find := [Exec("losetup", ["-f"])];
    var found := w.runCheckOutput("losetup", ["-f"]);
    if found.Err? then Scan(Err(found.error), find)
    else
      var loopPath := TrimEnd(found.value);
      var loopName := FileName(loopPath);
      if loopName.None? then Scan(Err(Msg(NoLoopbackName)), find)
      else Scan(Ok(Loopback(loopPath, loopName.value)), find)
  }

  /** The rest of `mount_internal` once the free loopback device `loopPath` (named
      `loopName`) is known: attach the volume to it, then mount its partitions. */
  function AttachSpec(env: Env, d: Drive, loopPath: string, loopName: string): Outcome<MountInfo> {
    var w := env.world;
    var attach := [Exec("losetup", ["-fP", env.volume.path])];
    var attached := w.runCheckOutput("losetup", ["-fP", env.volume.path]);
    if attached.Err? then Outcome(Err(attached.error), d, attach)
    else
      var list := attach + [ListDir(DevDir)];
      var listing := w.readDir(DevDir);
      if listing.Err? then Outcome(Err(listing.error), d, list)
      else
        var scan := DevScan(env, loopName, listing.value);
        if scan.result.Err? then Outcome(Err(scan.result.error), d, list + scan.calls)
        else
          var info := MountInfo(loopPath, scan.result.value.parts, scan.result.value.isos);
          Outcome(Ok(info), d.(state := Internal(info)), list + scan.calls)
  }

  /** `prev`, then `next` when `prev` succeeded: the `?` operator between two steps. */
  function Then(prev: Scan<()>, next: Scan<()>): Scan<()> {
    if prev.result.Err? then prev else Scan(next.result, prev.calls + next.calls)
  }

  /** Unmounts the images in order, up to the first that fails. */
  function CloseIsos(w: World, isos: seq<Iso>): Scan<()>
    decreases |isos|
  {
    if isos == [] then Scan(Ok(()), [])
    else
      var iso := isos[|isos| - 1];
      Then(CloseIsos(w, isos[..|isos| - 1]), Scan(w.unmountIso(iso), [CloseIso(iso)]))
  }

  /** Unmounts one partition, then removes its mount point. */
  function ReleasePart(w: World, part: string): Scan<()> {
    Then(Scan(Discard(w.runCheckOutput("umount", [part])), [Exec("umount", [part])]),
         Scan(w.removeDirAll(part), [RemoveDirs(part)]))
  }

  /** Releases the partitions in order, up to the first request that fails. */
  function ReleaseParts(w: World, parts: seq<string>): Scan<()>
    decreases |parts|
  {
    if parts == [] then Scan(Ok(()), [])
    else Then(ReleaseParts(w, parts[..|parts| - 1]), ReleasePart(w, parts[|parts| - 1]))
  }

  /** The request that detaches the loopback device. */
  function Detach(info: MountInfo): Call {
    Exec("losetup", ["-d", info.loopbackPath])
  }

  /** Everything `unmount_internal` of a drive mounted as `info` asks for, in order,
      up to the first request that fails. */
  function Teardown(w: World, info: MountInfo): Scan<()> {
    var detach := Scan(Discard(w.runCheckOutput("losetup", ["-d", info.loopbackPath])), [Detach(info)]);
    Then(Then(CloseIsos(w, info.isos), ReleaseParts(w, info.partMountPaths)), detach)
  }

  /** `unmount_internal`: the drive becomes Unmounted only when the whole teardown succeeds. */
  function UnmountInternalSpec(env: Env, d: Drive): Outcome<()> {
    match d.state
    case Unmounted => Outcome(Ok(()), d, [])
    case External(_) => Outcome(Err(Msg(UnmountInternalWhileExternal)), d, [])
    case Internal(info) =>
      var t := Teardown(env.world, info);
      Outcome(t.result, if t.result.Ok? then d.(state := Unmounted) else d, t.calls)
  }

  /** The requests to unmount the images, in order. */
  function CloseCalls(isos: seq<Iso>): seq<Call>
    decreases |isos|
  {
    if isos == [] then [] else CloseCalls(isos[..|isos| - 1]) + [CloseIso(isos[|isos| - 1])]
  }

  /** The requests to release the partitions, in order: for each, umount and then
      the removal of its mount point. */
  function ReleaseCalls(parts: seq<string>): seq<Call>
    decreases |parts|
  {
    if parts == [] then []
    else
      var part := parts[|parts| - 1];
      ReleaseCalls(parts[..|parts| - 1]) + [Exec("umount", [part]), RemoveDirs(part)]
  }

  /** Everything `unmount_internal` asks for, in order, when nothing fails. */
  function TeardownCalls(info: MountInfo): seq<Call> {
    CloseCalls(info.isos) + ReleaseCalls(info.partMountPaths) + [Detach(info)]
  }

  /** Index of the first request of `calls` that fails; |calls| when none does. */
  function FirstFailure(w: World, calls: seq<Call>): (k: nat)
    ensures k <= |calls|
    ensures forall j :: 0 <= j < k ==> Answer(w, calls[j]).Ok?
    ensures k < |calls| ==> Answer(w, calls[k]).Err?
  {
    if calls == [] || Answer(w, calls[0]).Err? then 0
    else 1 + FirstFailure(w, calls[1..])
  }

  // ---------------------------------------------------------------------------
  // Composite operations

  /** `unmount`. */
  function UnmountSpec(env: Env, d: Drive): Outcome<()> {
    match d.state
    case Unmounted => Outcome(Ok(()), d, [])
    case Internal(_) => UnmountInternalSpec(env, d)
    case External(_) => UnmountExternalSpec(env, d)
  }

  /** `toggle_mount`: each step runs only when the one before succeeded. */
  function ToggleSpec(env: Env, d: Drive): Outcome<()> {
    match d.state
    case Unmounted => MountExternalSpec(env, d)
    case Internal(_) =>
      var u := UnmountInternalSpec(env, d);
      if u.result.Err? then u
      else
        var m := MountExternalSpec(env, u.drive);
        Outcome(m.result, m.drive, u.calls + m.calls)
    case External(_) =>
      var u := UnmountExternalSpec(env, d);
      if u.result.Err? then u
      else
        var m := MountInternalSpec(env, u.drive);
        Outcome(Discard(m.result), m.drive, u.calls + m.calls)
  }

  /** `on_load`, less the background `fstrim` runs. */
  function OnLoadSpec(env: Env, d: Drive): Outcome<()> {
    if d.persist.externalMount then MountExternalSpec(env, d)
    else
      var m := MountInternalSpec(env, d);
      Outcome(Discard(m.result), m.drive, m.calls)
  }

  /** `do_action` of the drive whose window is `window`. */
  function DoActionSpec(env: Env, window: WindowId, d: Drive, a: Action): Outcome<Reply> {
    match a
    case ToggleVDriveMount(id) =>
      if id == window then
        var t := ToggleSpec(env, d);
        Outcome(if t.result.Err? then Err(t.result.error) else Ok(Reply(true, [])), t.drive, t.calls)
      else Outcome(Ok(Unhandled), d, [])
    case ToggleDriveReadOnly(name) =>
      if name == env.volume.name then
        Outcome(Ok(Reply(true, [])), d.(persist := d.persist.(readonly := !d.persist.readonly)), [])
      else Outcome(Ok(Unhandled), d, [])
    case ToggleDriveNonRemovable(name) =>
      if name == env.volume.name then
        Outcome(Ok(Reply(true, [])), d.(persist := d.persist.(removable := !d.persist.removable)), [])
      else Outcome(Ok(Unhandled), d, [])
    case OtherAction(_) => Outcome(Ok(Unhandled), d, [])
  }
}
