/** The virtual drive: a logical volume that is either exposed to the USB host as
    mass storage (External), loop-mounted on the device with its partitions and the
    disk images on them opened (Internal), or neither (Unmounted). Every method is
    proved to do what the matching function of `MountSpec` says: the same result, the
    same new state, and the same requests to the collaborators in the same order. */
module VDrive {
  import opened Errors
  import opened Paths
  import opened Platform
  import opened MountSpec
  import opened MountProps

  class VirtualDrive {
    var state: MountState
    var persist: PersistVDriveState
    const window: WindowId
    const volume: LogicalVolume
    const config: Config
    /** The collaborators: the shell, the filesystem, the USB gadget, the image handles. */
    const host: Host

    /** The operations' fixed surroundings. */
    function Environment(): Env {
      Env(host.world, volume, config)
    }

    /** The drive's mutable state. */
    function Current(): Drive
      reads this
    {
      Drive(state, persist)
    }

    /** `VirtualDrive::new`, given the window the display manager allocated. */
    constructor (host: Host, window: WindowId, volume: LogicalVolume, config: Config)
      ensures this.host == host && this.window == window && this.volume == volume && this.config == config
      ensures state == Unmounted && persist == DefaultPersist()
    {
      this.host := host;
      this.window := window;
      this.volume := volume;
      this.config := config;
      state := Unmounted;
      persist := DefaultPersist();
    }

    function Name(): string {
      volume.name
    }

    function Size(): nat {
      volume.size
    }

    method MountExternal() returns (r: Result<()>)
      modifies this, host
      ensures var o := MountExternalSpec(Environment(), old(Current()));
        r == o.result && Current() == o.drive && host.trace == old(host.trace) + o.calls
    {
      match state {
        case External(_) =>
          r := Ok(());
        case Unmounted =>
          var locked := host.Lock();
          if locked.Err? {
            return Err(locked.error);
          }
          var id := host.ExportFile(volume.path, false, persist.readonly, persist.removable);
          if id.Err? {
            return Err(Chained(MountExternalFailed, id.error));
          }
          state := External(id.value);
          persist := persist.(externalMount := true);
          r := Ok(());
        case Internal(_) =>
          r := Err(Msg(MountExternalWhileInternal));
      }
    }

    method UnmountExternal() returns (r: Result<()>)
      modifies this, host
      ensures var o := UnmountExternalSpec(Environment(), old(Current()));
        r == o.result && Current() == o.drive && host.trace == old(host.trace) + o.calls
    {
      match state {
        case Unmounted =>
        case Internal(_) =>
          return Err(Msg(UnmountExternalWhileInternal));
        case External(id) =>
          var locked := host.Lock();
          if locked.Err? {
            return Err(locked.error);
          }
          var released := host.UnexportFile(id);
          if released.Err? {
            return Err(Chained(UnmountExternalFailed, released.error));
          }
      }
      state := Unmounted;
      persist := persist.(externalMount := false);
      r := Ok(());
    }

    method Unmount() returns (r: Result<()>)
      modifies this, host
      ensures var o := UnmountSpec(Environment(), old(Current()));
        r == o.result && Current() == o.drive && host.trace == old(host.trace) + o.calls
    {
      match state {
        case Unmounted =>
          r := Ok(());
        case Internal(_) =>
          r := UnmountInternal();
        case External(_) =>
          r := UnmountExternal();
      }
    }

    /** Tries each mount program in turn until one mounts `device` at `target`. */
    method MountPartition(device: string, target: string) returns (r: Result<()>)
      modifies host
      ensures var s := MountPartitionSpec(host.world, device, target);
        r == s.result && host.trace == old(host.trace) + s.calls
    {
      var mounters := Mounters;
      var i := 0;
      while i < |mounters|
        invariant 0 <= i <= |mounters|
        invariant i <= FirstMounter(host.world, mounters, device, target)
        invariant host.trace == old(host.trace) + MounterCalls(mounters[..i], device, target)
      {
        var fsmount := host.RunCheckOutput(mounters[i], [device, target]);
        assert mounters[..i + 1][..i] == mounters[..i];
        if fsmount.Ok? {
          return Ok(());
        }
        i := i + 1;
      }
      assert mounters[..i] == mounters;
      r := Err(Msg("Failed to mount: " + device + " to " + target));
    }

    method MountInternal() returns (r: Result<MountInfo>)
      modifies this, host
      ensures var o := MountInternalSpec(Environment(), old(Current()));
        r == o.result && Current() == o.drive && host.trace == old(host.trace) + o.calls
    {
      match state {
        case Unmounted =>
          r := MountLoopback();
        case Internal(info) =>
          r := Ok(info);
        case External(_) =>
          r := Err(Msg(MountInternalWhileExternal));
      }
    }

    /** `mount_internal` of an unmounted drive: find a free loopback device, then
        attach the volume to it. */
    method MountLoopback() returns (r: Result<MountInfo>)
      requires state.Unmounted?
      modifies this, host
      ensures var o := MountInternalSpec(Environment(), old(Current()));
        r == o.result && Current() == o.drive && host.trace == old(host.trace) + o.calls
    {
      var loopback := FindLoopback();
      if loopback.Err? {
        return Err(loopback.error);
      }
      r := Attach(loopback.value.path, loopback.value.name);
      AppendAssoc(old(host.trace), FindLoopbackSpec(host.world).calls,
                  AttachSpec(Environment(), old(Current()), loopback.value.path, loopback.value.name).calls);
    }

    /** A free loopback device, as `losetup -f` names it. */
    method FindLoopback() returns (r: Result<Loopback>)
      modifies host
      ensures var s := FindLoopbackSpec(host.world);
        r == s.result && host.trace == old(host.trace) + s.calls
    {
      var found := host.RunCheckOutput("losetup", ["-f"]);
      if found.Err? {
        return Err(found.error);
      }
      var loopbackPath := TrimEnd(found.value);
      var loopbackName := FileName(loopbackPath);
      if loopbackName.None? {
        return Err(Msg(NoLoopbackName));
      }
      r := Ok(Loopback(loopbackPath, loopbackName.value));
    }

    /** The rest of `mount_internal` once the free loopback device is known. */
    method Attach(loopbackPath: string, loopbackName: string) returns (r: Result<MountInfo>)
      requires state.Unmounted?
      modifies this, host
      ensures var o := AttachSpec(Environment(), old(Current()), loopbackPath, loopbackName);
        r == o.result && Current() == o.drive && host.trace == old(host.trace) + o.calls
    {
      var attached := host.RunCheckOutput("losetup", ["-fP", volume.path]);
      if attached.Err? {
        return Err(attached.error);
      }
      var listing := host.ReadDir(DevDir);
      if listing.Err? {
        return Err(listing.error);
      }
      DevStepOfIsDevStep(Environment(), loopbackName);
      ghost var listed := host.trace;
      var scanned := ScanDev(loopbackName, listing.value, DevStepOf(Environment(), loopbackName));
      ghost var s := DevScan(Environment(), loopbackName, listing.value);
      AppendAssoc(old(host.trace), [Exec("losetup", ["-fP", volume.path]), ListDir(DevDir)], s.calls);
      assert host.trace == listed + s.calls;
      if scanned.Err? {
        return Err(scanned.error);
      }
      var info := MountInfo(loopbackPath, scanned.value.parts, scanned.value.isos);
      state := Internal(info);
      r := Ok(info);
    }

    /** The loop of `mount_internal` over the entries of `/dev`; `step` is what
        MountDevEntry does with one entry. */
    method ScanDev(loopName: string, entries: seq<Result<DirEntry>>, ghost step: Result<DirEntry> -> Scan<Found>)
      returns (r: Result<Found>)
      requires IsDevStep(step, Environment(), loopName)
      modifies host
      ensures var s := DevScanWith(step, entries);
        r == s.result && host.trace == old(host.trace) + s.calls
    {
      var mountedPartitions, isos := [], [];
      var i := 0;
      while i < |entries|
        invariant 0 <= i <= |entries|
        invariant var s := DevScanWith(step, entries[..i]);
          s.result == Ok(Found(mountedPartitions, isos)) && host.trace == old(host.trace) + s.calls
      {
        DevScanSnoc(step, entries, i);
        var found := MountDevEntry(loopName, entries[i], step);
        if found.Err? {
          DevScanStops(step, entries, i);
          return Err(found.error);
        }
        mountedPartitions := mountedPartitions + found.value.parts;
        isos := isos + found.value.isos;
        i := i + 1;
      }
      assert entries[..i] == entries;
      r := Ok(Found(mountedPartitions, isos));
    }

    /** One entry of `/dev`: only the partitions of the loopback device are mounted. */
    method MountDevEntry(loopName: string, entry: Result<DirEntry>, ghost step: Result<DirEntry> -> Scan<Found>)
      returns (r: Result<Found>)
      requires IsDevStep(step, Environment(), loopName)
      modifies host
      ensures r == step(entry).result && host.trace == old(host.trace) + step(entry).calls
    {
      assert step(entry) == DevEntryStep(Environment(), loopName, entry);
      if entry.Err? {
        return Err(entry.error);
      }
      var devName := entry.value.name;
      if !StartsWith(devName, loopName) {
        return Ok(NothingFound);
      }
      // the base loopback device itself is skipped
      if devName == loopName {
        return Ok(NothingFound);
      }
      var partNum := PartitionNumber(devName);
      var partName := config.translateDriveName(Name());
      var mountPoint := Join(MountRoot, MountFolderName(partName, partNum));
      r := MountPartitionAt(Join(DevDir, devName), mountPoint);
    }

    /** A partition: create its mount point, mount it, open the images on it. */
    method MountPartitionAt(device: string, mountPoint: string) returns (r: Result<Found>)
      modifies host
      ensures var s := PartitionStep(host.world, device, mountPoint);
        r == s.result && host.trace == old(host.trace) + s.calls
    {
      var made := host.CreateDirAll(mountPoint);
      if made.Err? {
        return Err(made.error);
      }
      var mounted := MountPartition(device, mountPoint);
      if mounted.Err? {
        // the failure is only reported on the console; the scan goes on
        return Ok(NothingFound);
      }
      var isos := OpenIsoFolder(Join(mountPoint, IsoFolder));
      if isos.Err? {
        return Err(isos.error);
      }
      r := Ok(Found([mountPoint], isos.value));
    }

    /** The images in a mounted partition's `ISOS` folder, if it has one. */
    method OpenIsoFolder(isoPath: string) returns (r: Result<seq<Iso>>)
      modifies host
      ensures var s := IsoFolderScan(host.world, isoPath);
        r == s.result && host.trace == old(host.trace) + s.calls
    {
      var present := host.Exists(isoPath);
      if !present {
        return Ok([]);
      }
      var listing := host.ReadDir(isoPath);
      if listing.Err? {
        return Err(listing.error);
      }
      r := ScanIsoFolder(isoPath, listing.value);
    }

    /** The loop of `mount_internal` over a partition's `ISOS` folder. */
    method ScanIsoFolder(dir: string, entries: seq<Result<DirEntry>>) returns (r: Result<seq<Iso>>)
      modifies host
      ensures var s := IsoScan(host.world, dir, entries);
        r == s.result && host.trace == old(host.trace) + s.calls
    {
      var isos := [];
      var i := 0;
      while i < |entries|
        invariant 0 <= i <= |entries|
        invariant var s := IsoScan(host.world, dir, entries[..i]);
          s.result == Ok(isos) && host.trace == old(host.trace) + s.calls
      {
        IsoScanSnoc(host.world, dir, entries, i);
        var entry := entries[i];
        if entry.Err? {
          IsoScanStops(host.world, dir, entries, i);
          return Err(entry.error);
        }
        if !entry.value.utf8 {
          IsoScanStops(host.world, dir, entries, i);
          return Err(Msg(InvalidFileName));
        }
        if !Hidden(entry.value.name) {
          var iso := host.NewIso(Join(dir, entry.value.name));
          if iso.Err? {
            IsoScanStops(host.world, dir, entries, i);
            return Err(iso.error);
          }
          isos := isos + [iso.value];
        } else {
          assert isos + [] == isos;
          assert host.trace + [] == host.trace;
        }
        i := i + 1;
      }
      assert entries[..i] == entries;
      r := Ok(isos);
    }

    method UnmountInternal() returns (r: Result<()>)
      modifies this, host
      ensures var o := UnmountInternalSpec(Environment(), old(Current()));
        r == o.result && Current() == o.drive && host.trace == old(host.trace) + o.calls
    {
      match state {
        case Unmounted =>
        case Internal(info) =>
          r := ReleaseMount(info);
          if r.Err? {
            return;
          }
        case External(_) =>
          return Err(Msg(UnmountInternalWhileExternal));
      }
      state := Unmounted;
      r := Ok(());
    }

    /** The body of `unmount_internal` for a drive mounted as `info`: the images, then
        the partitions, then the loopback device, stopping at the first failure. */
    method ReleaseMount(info: MountInfo) returns (r: Result<()>)
      modifies host
      ensures var t := Teardown(host.world, info);
        r == t.result && host.trace == old(host.trace) + t.calls
    {
      r := CloseAll(info.isos);
      if r.Err? {
        return;
      }
      ghost var closed := CloseIsos(host.world, info.isos).calls;
      r := ReleaseAll(info.partMountPaths);
      ghost var released := ReleaseParts(host.world, info.partMountPaths).calls;
      AppendAssoc(old(host.trace), closed, released);
      if r.Err? {
        return;
      }
      var detached := host.RunCheckOutput("losetup", ["-d", info.loopbackPath]);
      AppendAssoc(old(host.trace), closed + released, [Detach(info)]);
      r := Discard(detached);
    }

    /** The first loop of `unmount_internal`: unmount each image, stopping at the
        first failure. */
    method CloseAll(isos: seq<Iso>) returns (r: Result<()>)
      modifies host
      ensures var s := CloseIsos(host.world, isos);
        r == s.result && host.trace == old(host.trace) + s.calls
    {
      r := Ok(());
      var i := 0;
      while i < |isos|
        invariant 0 <= i <= |isos|
        invariant var s := CloseIsos(host.world, isos[..i]);
          s.result == r && r.Ok? && host.trace == old(host.trace) + s.calls
      {
        assert isos[..i + 1][..i] == isos[..i];
        var closed := host.UnmountIso(isos[i]);
        assert CloseIsos(host.world, isos[..i + 1])
            == Then(CloseIsos(host.world, isos[..i]), Scan(closed, [CloseIso(isos[i])]));
        if closed.Err? {
          CloseIsosStop(host.world, isos, i);
          return closed;
        }
        r := closed;
        i := i + 1;
      }
      assert isos[..i] == isos;
    }

    /** The second loop of `unmount_internal`: unmount each partition and remove its
        mount point, stopping at the first failure. */
    method ReleaseAll(parts: seq<string>) returns (r: Result<()>)
      modifies host
      ensures var s := ReleaseParts(host.world, parts);
        r == s.result && host.trace == old(host.trace) + s.calls
    {
      r := Ok(());
      var j := 0;
      while j < |parts|
        invariant 0 <= j <= |parts|
        invariant var s := ReleaseParts(host.world, parts[..j]);
          s.result == r && r.Ok? && host.trace == old(host.trace) + s.calls
      {
        assert parts[..j + 1][..j] == parts[..j];
        assert ReleaseParts(host.world, parts[..j + 1])
            == Then(ReleaseParts(host.world, parts[..j]), ReleasePart(host.world, parts[j]));
        var unmounted := host.RunCheckOutput("umount", [parts[j]]);
        if unmounted.Err? {
          ReleasePartsStop(host.world, parts, j);
          return Err(unmounted.error);
        }
        var removed := host.RemoveDirAll(parts[j]);
        if removed.Err? {
          ReleasePartsStop(host.world, parts, j);
          return removed;
        }
        r := removed;
        j := j + 1;
      }
      assert parts[..j] == parts;
    }

    method ToggleMount() returns (r: Result<()>)
      modifies this, host
      ensures var o := ToggleSpec(Environment(), old(Current()));
        r == o.result && Current() == o.drive && host.trace == old(host.trace) + o.calls
    {
      match state {
        case Unmounted =>
          r := MountExternal();
        case Internal(_) =>
          r := InternalToExternal();
        case External(_) =>
          r := ExternalToInternal();
      }
    }

    /** `toggle_mount` of an internal mount: unmount it, then export the volume. */
    method InternalToExternal() returns (r: Result<()>)
      requires state.Internal?
      modifies this, host
      ensures var o := ToggleSpec(Environment(), old(Current()));
        r == o.result && Current() == o.drive && host.trace == old(host.trace) + o.calls
    {
      r := UnmountInternal();
      if r.Err? {
        return;
      }
      ghost var u := UnmountInternalSpec(Environment(), old(Current()));
      r := MountExternal();
      AppendAssoc(old(host.trace), u.calls, MountExternalSpec(Environment(), u.drive).calls);
    }

    /** `toggle_mount` of an external mount: withdraw the export, then mount internally. */
    method ExternalToInternal() returns (r: Result<()>)
      requires state.External?
      modifies this, host
      ensures var o := ToggleSpec(Environment(), old(Current()));
        r == o.result && Current() == o.drive && host.trace == old(host.trace) + o.calls
    {
      r := UnmountExternal();
      if r.Err? {
        return;
      }
      ghost var u := UnmountExternalSpec(Environment(), old(Current()));
      var info := MountInternal();
      AppendAssoc(old(host.trace), u.calls, MountInternalSpec(Environment(), u.drive).calls);
      if info.Err? {
        return Err(info.error);
      }
      r := Ok(());
    }

    /** `Input::on_event`: Select asks for this drive's mount to be toggled. */
    method OnEvent(event: Event) returns (r: Result<Reply>)
      ensures r.Ok? && (r.value.handled <==> event == Select)
      ensures r.value.actions == if event == Select then [ToggleVDriveMount(window)] else []
    {
      match event {
        case Select =>
          r := Ok(Reply(true, [ToggleVDriveMount(window)]));
        case _ =>
          r := Ok(Unhandled);
      }
    }

    /** `Input::do_action`. */
    method DoAction(action: Action) returns (r: Result<Reply>)
      modifies this, host
      ensures var o := DoActionSpec(Environment(), window, old(Current()), action);
        r == o.result && Current() == o.drive && host.trace == old(host.trace) + o.calls
    {
      match action {
        case ToggleVDriveMount(id) =>
          if id == window {
            var toggled := ToggleMount();
            if toggled.Err? {
              return Err(toggled.error);
            }
            return Ok(Reply(true, []));
          }
        case ToggleDriveReadOnly(name) =>
          if name == Name() {
            persist := persist.(readonly := !persist.readonly);
            return Ok(Reply(true, []));
          }
        case ToggleDriveNonRemovable(name) =>
          if name == Name() {
            persist := persist.(removable := !persist.removable);
            return Ok(Reply(true, []));
          }
        case OtherAction(_) =>
      }
      r := Ok(Unhandled);
    }

    /** `Stateful::on_load`, after `persist` has been restored. */
    method OnLoad() returns (r: Result<()>)
      modifies this, host
      ensures var o := OnLoadSpec(Environment(), old(Current()));
        r == o.result && Current() == o.drive && host.trace == old(host.trace) + o.calls
    {
      if persist.externalMount {
        r := MountExternal();
      } else {
        var info := MountInternal();
        if info.Err? {
          return Err(info.error);
        }
        // with auto_fstrim set, fstrim would now run on each partition in the background
        r := Ok(());
      }
    }
  }
}
