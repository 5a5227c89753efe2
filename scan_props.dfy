/** What `mount_internal` finds: which `/dev` entries are taken for partitions, where
    they are mounted, in which order the mount programs are tried, and which images
    are opened. Each scan of `MountSpec` is related here to a plain reference
    definition of what it collects. */
module ScanProps {
  import opened Errors
  import opened Paths
  import opened Platform
  import opened MountSpec
  import opened MountProps

  // ---------------------------------------------------------------------------
  // Partition devices and their mount points

  /** An entry taken for a partition has a name longer than the device's, and the
      device's name is its beginning. */
  lemma PartitionDeviceExtendsName(name: string, loopName: string)
    ensures IsPartitionDevice(name, loopName) ==> |loopName| < |name| && name[..|loopName|] == loopName
  {
  }

  /** The partition number is the text after the last `p` of the device name. */
  lemma PartitionNumberAfterLastP(prefix: string, n: string)
    requires 'p' !in n
    ensures PartitionNumber(prefix + "p" + n) == n
  {
    var s := prefix + "p" + n;
    assert s[|s| - |n|..] == n;
    TextAfterLastUnique(s, PartitionNumber(s), n, 'p');
  }

  /** How the loopback device `loop1` sees `/dev`: its partition `loop1p2` is partition
      "2"; `loop1` itself is skipped; but `loop10`, a different loopback device, is
      also taken for one of its partitions, numbered "10" (the text after the `p` of
      `loop`). */
  lemma LoopTenIsTakenForAPartitionOfLoopOne()
    ensures IsPartitionDevice("loop1p2", "loop1") && PartitionNumber("loop1p2") == "2"
    ensures !IsPartitionDevice("loop1", "loop1")
    ensures IsPartitionDevice("loop10", "loop1") && PartitionNumber("loop10") == "10"
  {
    assert "loop1" + "p" + "2" == "loop1p2";
    PartitionNumberAfterLastP("loop1", "2");
    assert "loo" + "p" + "10" == "loop10";
    PartitionNumberAfterLastP("loo", "10");
  }

  /** Because of the prefix test, `loop10` and `loop1p10` are both taken for
      partitions of `loop1`, and both are mounted at the same mount point. */
  lemma LoopTenSharesAMountPoint(env: Env)
    ensures IsPartitionDevice("loop10", "loop1") && IsPartitionDevice("loop1p10", "loop1")
    ensures MountPoint(env, "loop10") == MountPoint(env, "loop1p10")
  {
    assert "loop1" + "p" + "10" == "loop1p10";
    PartitionNumberAfterLastP("loop1", "10");
    assert "loo" + "p" + "10" == "loop10";
    PartitionNumberAfterLastP("loo", "10");
  }

  /** The mount point is `/mnt/<translated name> (partition <n>)`, unless the
      translated name is an absolute path, which then replaces `/mnt` altogether. */
  lemma MountPointShape(env: Env, devName: string)
    ensures var name := env.config.translateDriveName(env.volume.name);
      var folder := name + " (partition " + PartitionNumber(devName) + ")";
      MountPoint(env, devName) == if name != [] && name[0] == '/' then folder else "/mnt/" + folder
  {
  }

  // ---------------------------------------------------------------------------
  // The mount programs

  /** MounterCalls runs the programs in the order given. */
  lemma {:induction false} MounterCallsAt(ms: seq<string>, dev: string, target: string)
    ensures |MounterCalls(ms, dev, target)| == |ms|
    ensures forall j :: 0 <= j < |ms| ==> MounterCalls(ms, dev, target)[j] == Exec(ms[j], [dev, target])
    decreases |ms|
  {
    if ms != [] {
      MounterCallsAt(ms[..|ms| - 1], dev, target);
    }
  }

  /** `mount_partition` runs `mount`, `mount.exfat` and `mount.ntfs-3g` in this
      order, stops at the first that succeeds, and fails only when all three fail. */
  lemma MountPartitionTriesInOrder(w: World, dev: string, target: string)
    ensures var s := MountPartitionSpec(w, dev, target);
      && (s.result.Ok? <==> exists j :: 0 <= j < |Mounters| && w.runCheckOutput(Mounters[j], [dev, target]).Ok?)
      && 1 <= |s.calls| <= |Mounters|
      && (forall j :: 0 <= j < |s.calls| ==> s.calls[j] == Exec(Mounters[j], [dev, target]))
      && (forall j :: 0 <= j < |s.calls| - 1 ==> w.runCheckOutput(Mounters[j], [dev, target]).Err?)
      && (s.result.Ok? ==> w.runCheckOutput(Mounters[|s.calls| - 1], [dev, target]).Ok?)
      && (s.result.Err? ==> |s.calls| == |Mounters|)
  {
    var k := FirstMounter(w, Mounters, dev, target);
    if k < |Mounters| {
      MounterCallsAt(Mounters[..k + 1], dev, target);
    } else {
      MounterCallsAt(Mounters, dev, target);
    }
  }

  // ---------------------------------------------------------------------------
  // The images of a partition

  /** An entry is hidden exactly when its name begins with the character `.`. */
  lemma HiddenMeaning(name: string)
    ensures Hidden(name) <==> name != [] && name[0] == '.'
  {
  }

  /** Whether an image entry is gone through without error: it was read, its name is
      valid UTF-8, and, unless hidden, its image opens. */
  predicate IsoEntryOk(w: World, dir: string, e: Result<DirEntry>) {
    e.Ok? && e.value.utf8 && (Hidden(e.value.name) || w.newIso(Join(dir, e.value.name)).Ok?)
  }

  /** The images of a folder listed as `es`: one per entry that is not hidden, in
      listing order. */
  function VisibleIsos(dir: string, es: seq<Result<DirEntry>>): seq<Iso>
    decreases |es|
  {
    if es == [] then []
    else
      var e := es[|es| - 1];
      VisibleIsos(dir, es[..|es| - 1])
        + if e.Ok? && !Hidden(e.value.name) then [Iso(Join(dir, e.value.name))] else []
  }

  /** The scan of an image folder succeeds exactly when every entry is gone through
      without error, and then yields the images of the entries that are not hidden. */
  lemma {:induction false} IsoScanMeaning(w: World, dir: string, es: seq<Result<DirEntry>>)
    ensures var s := IsoScan(w, dir, es);
      && (s.result.Ok? <==> forall i :: 0 <= i < |es| ==> IsoEntryOk(w, dir, es[i]))
      && (s.result.Ok? ==> s.result.value == VisibleIsos(dir, es))
    decreases |es|
  {
    if es != [] {
      var init, e := es[..|es| - 1], es[|es| - 1];
      IsoScanMeaning(w, dir, init);
      assert forall i :: 0 <= i < |init| ==> init[i] == es[i];
      if IsoScan(w, dir, init).result.Ok? && IsoEntryOk(w, dir, e) {
        assert forall i :: 0 <= i < |es| ==> IsoEntryOk(w, dir, es[i]) by {
          forall i | 0 <= i < |es|
            ensures IsoEntryOk(w, dir, es[i])
          {
            if i < |init| {
              assert IsoEntryOk(w, dir, init[i]);
            }
          }
        }
      }
    }
  }

  /** Whether an image's file name is a name that is not hidden. */
  predicate NamedVisible(iso: Iso) {
    var n := FileName(iso.path);
    n.Some? && !Hidden(n.value)
  }

  /** Whether every image is named by a name that is not hidden. */
  predicate AllVisible(isos: seq<Iso>) {
    forall i :: 0 <= i < |isos| ==> NamedVisible(isos[i])
  }

  lemma AllVisibleConcat(a: seq<Iso>, b: seq<Iso>)
    requires AllVisible(a) && AllVisible(b)
    ensures AllVisible(a + b)
  {
    assert forall i :: 0 <= i < |b| ==> (a + b)[|a| + i] == b[i];
  }

  /** No entry whose name starts with `.` becomes an image. */
  lemma {:induction false} VisibleIsosAreVisible(dir: string, es: seq<Result<DirEntry>>)
    ensures AllVisible(VisibleIsos(dir, es))
    decreases |es|
  {
    if es != [] {
      var e := es[|es| - 1];
      VisibleIsosAreVisible(dir, es[..|es| - 1]);
      if e.Ok? && !Hidden(e.value.name) {
        FileNameOfJoin(dir, e.value.name);
      }
      AllVisibleConcat(VisibleIsos(dir, es[..|es| - 1]),
                       if e.Ok? && !Hidden(e.value.name) then [Iso(Join(dir, e.value.name))] else []);
    }
  }

  /** The images a partition's `ISOS` folder yields are never hidden entries. */
  lemma IsoFolderScanVisible(w: World, isoPath: string)
    ensures var s := IsoFolderScan(w, isoPath);
      s.result.Ok? ==> AllVisible(s.result.value)
  {
    if w.pathExists(isoPath) && w.readDir(isoPath).Ok? {
      IsoScanMeaning(w, isoPath, w.readDir(isoPath).value);
      VisibleIsosAreVisible(isoPath, w.readDir(isoPath).value);
    }
  }

  // ---------------------------------------------------------------------------
  // The partitions of the loopback device

  /** The mount point a `/dev` entry contributes: that of a partition of `loopName`
      whose mount point could be created and which one of the programs mounted. */
  function MountedPart(env: Env, loopName: string, e: Result<DirEntry>): seq<string> {
    if e.Ok? && IsPartitionDevice(e.value.name, loopName) then
      var mp := MountPoint(env, e.value.name);
      if env.world.createDirAll(mp).Ok? && MountPartitionSpec(env.world, Join(DevDir, e.value.name), mp).result.Ok?
      then [mp] else []
    else []
  }

  /** The mount points of the partitions among the entries `es`, in listing order. */
  function MountedParts(env: Env, loopName: string, es: seq<Result<DirEntry>>): seq<string>
    decreases |es|
  {
    if es == [] then []
    else MountedParts(env, loopName, es[..|es| - 1]) + MountedPart(env, loopName, es[|es| - 1])
  }

  /** Whether a partition's `ISOS` folder is gone through without error: it does not
      exist, or it is listed and every entry of the listing is gone through. */
  predicate IsoFolderOk(w: World, isoPath: string) {
    !w.pathExists(isoPath)
    || (w.readDir(isoPath).Ok?
        && forall i :: 0 <= i < |w.readDir(isoPath).value| ==> IsoEntryOk(w, isoPath, w.readDir(isoPath).value[i]))
  }

  /** The images of a partition's `ISOS` folder: none when it does not exist. */
  function FolderIsos(w: World, isoPath: string): seq<Iso> {
    if w.pathExists(isoPath) && w.readDir(isoPath).Ok? then VisibleIsos(isoPath, w.readDir(isoPath).value) else []
  }

  /** The scan of an `ISOS` folder succeeds exactly when the folder is gone through
      without error, and then yields its images that are not hidden. */
  lemma IsoFolderScanMeaning(w: World, isoPath: string)
    ensures var s := IsoFolderScan(w, isoPath);
      && (s.result.Ok? <==> IsoFolderOk(w, isoPath))
      && (s.result.Ok? ==> s.result.value == FolderIsos(w, isoPath))
  {
    if w.pathExists(isoPath) && w.readDir(isoPath).Ok? {
      IsoScanMeaning(w, isoPath, w.readDir(isoPath).value);
    }
  }

  /** Whether a `/dev` entry is gone through without error: it was read and, when it
      is a partition of `loopName`, its mount point is created and, once mounted, its
      `ISOS` folder is gone through without error. */
  predicate DevEntryOk(env: Env, loopName: string, e: Result<DirEntry>) {
    && e.Ok?
    && (IsPartitionDevice(e.value.name, loopName) ==>
          var mp := MountPoint(env, e.value.name);
          && env.world.createDirAll(mp).Ok?
          && (MountPartitionSpec(env.world, Join(DevDir, e.value.name), mp).result.Ok? ==>
                IsoFolderOk(env.world, Join(mp, IsoFolder))))
  }

  /** Whether every entry of `es` is gone through without error. */
  predicate AllDevEntriesOk(env: Env, loopName: string, es: seq<Result<DirEntry>>) {
    forall i :: 0 <= i < |es| ==> DevEntryOk(env, loopName, es[i])
  }

  lemma AllDevEntriesOkSnoc(env: Env, loopName: string, es: seq<Result<DirEntry>>, e: Result<DirEntry>)
    ensures AllDevEntriesOk(env, loopName, es + [e]) <==> AllDevEntriesOk(env, loopName, es) && DevEntryOk(env, loopName, e)
  {
    var all := es + [e];
    assert forall i :: 0 <= i < |es| ==> all[i] == es[i];
    assert all[|es|] == e;
  }

  /** The images a `/dev` entry contributes: those of the `ISOS` folder of the
      partition MountedPart keeps, if any. */
  function PartitionIsos(env: Env, loopName: string, e: Result<DirEntry>): seq<Iso> {
    var parts := MountedPart(env, loopName, e);
    if parts == [] then [] else FolderIsos(env.world, Join(parts[0], IsoFolder))
  }

  /** The images of the partitions among the entries `es`, in listing order. */
  function MountedIsos(env: Env, loopName: string, es: seq<Result<DirEntry>>): seq<Iso>
    decreases |es|
  {
    if es == [] then []
    else MountedIsos(env, loopName, es[..|es| - 1]) + PartitionIsos(env, loopName, es[|es| - 1])
  }

  /** What one `/dev` entry does: it is gone through exactly when DevEntryOk says,
      and then contributes its mounted partition and that partition's images. */
  lemma DevEntryStepFound(env: Env, loopName: string, e: Result<DirEntry>)
    ensures var s := DevEntryStep(env, loopName, e);
      && (s.result.Ok? <==> DevEntryOk(env, loopName, e))
      && (s.result.Ok? ==>
            && s.result.value.parts == MountedPart(env, loopName, e)
            && s.result.value.isos == PartitionIsos(env, loopName, e)
            && AllVisible(s.result.value.isos))
  {
    if e.Ok? && IsPartitionDevice(e.value.name, loopName) {
      var mp := MountPoint(env, e.value.name);
      var isoPath := Join(mp, IsoFolder);
      IsoFolderScanVisible(env.world, isoPath);
      IsoFolderScanMeaning(env.world, isoPath);
      assert DevEntryStep(env, loopName, e) == PartitionStep(env.world, Join(DevDir, e.value.name), mp);
    }
  }

  /** A scan of `/dev` succeeds exactly when every entry is gone through without
      error; it then mounts exactly the partitions MountedParts names and opens
      exactly the images MountedIsos names, in listing order, none of them hidden. */
  lemma {:induction false} DevScanFound(env: Env, loopName: string, es: seq<Result<DirEntry>>)
    ensures var s := DevScan(env, loopName, es);
      && (s.result.Ok? <==> AllDevEntriesOk(env, loopName, es))
      && (s.result.Ok? ==>
            && s.result.value.parts == MountedParts(env, loopName, es)
            && s.result.value.isos == MountedIsos(env, loopName, es)
            && AllVisible(s.result.value.isos))
    decreases |es|
  {
    if es != [] {
      var init, e := es[..|es| - 1], es[|es| - 1];
      DevScanFound(env, loopName, init);
      DevEntryStepFound(env, loopName, e);
      var prev, step := DevScan(env, loopName, init), DevEntryStep(env, loopName, e);
      assert DevScan(env, loopName, es) == AppendFound(prev, step);
      assert init + [e] == es;
      AllDevEntriesOkSnoc(env, loopName, init, e);
      if prev.result.Ok? && step.result.Ok? {
        AllVisibleConcat(prev.result.value.isos, step.result.value.isos);
      }
    }
  }

  /** A partition that no program mounts is passed over: the scan goes on with the
      entries after it and ends as if the partition were not there. */
  lemma FailedPartitionSkipped(env: Env, loopName: string, a: seq<Result<DirEntry>>, e: Result<DirEntry>, b: seq<Result<DirEntry>>)
    requires e.Ok? && IsPartitionDevice(e.value.name, loopName)
    requires var mp := MountPoint(env, e.value.name);
      env.world.createDirAll(mp).Ok? && MountPartitionSpec(env.world, Join(DevDir, e.value.name), mp).result.Err?
    ensures DevScan(env, loopName, a + [e] + b).result == DevScan(env, loopName, a + b).result
  {
    var step := DevStepOf(env, loopName);
    DevScanConcat(step, a + [e], b);
    DevScanConcat(step, a, [e]);
    DevScanConcat(step, a, b);
    var x, y := DevScanWith(step, a), DevScanWith(step, b);
    assert step(e).result == Ok(NothingFound);
    assert [e][..0] == [] && [e][0] == e;
    assert DevScanWith(step, [e]).result == Ok(Merge(NothingFound, NothingFound));
    assert Merge(NothingFound, NothingFound) == NothingFound;
    if x.result.Ok? {
      var v := x.result.value;
      assert Merge(v, NothingFound) == v by {
        assert v.parts + [] == v.parts && v.isos + [] == v.isos;
      }
    }
  }

  // ---------------------------------------------------------------------------
  // mount_internal as a whole

  /** Attaching the volume to a loopback device succeeds exactly when `losetup -fP`
      succeeds, `/dev` is listed, and every entry of the listing is gone through; the
      drive then records the mount of exactly the partitions MountedParts names and
      the images MountedIsos names, none of them hidden. */
  lemma AttachFinds(env: Env, d: Drive, loopPath: string, loopName: string)
    ensures var o, w := AttachSpec(env, d, loopPath, loopName), env.world;
      && (o.result.Ok? <==>
            && w.runCheckOutput("losetup", ["-fP", env.volume.path]).Ok?
            && w.readDir(DevDir).Ok?
            && AllDevEntriesOk(env, loopName, w.readDir(DevDir).value))
      && (o.result.Ok? ==>
        var info := o.result.value;
        && o.drive == d.(state := Internal(info))
        && info.loopbackPath == loopPath
        && info.partMountPaths == MountedParts(env, loopName, w.readDir(DevDir).value)
        && info.isos == MountedIsos(env, loopName, w.readDir(DevDir).value)
        && AllVisible(info.isos)
        && |o.calls| >= 2 && o.calls[..2] == [Exec("losetup", ["-fP", env.volume.path]), ListDir(DevDir)])
  {
    var w := env.world;
    var o := AttachSpec(env, d, loopPath, loopName);
    if w.runCheckOutput("losetup", ["-fP", env.volume.path]).Ok? && w.readDir(DevDir).Ok? {
      var listing := w.readDir(DevDir).value;
      var scan := DevScan(env, loopName, listing);
      DevScanFound(env, loopName, listing);
      assert o.result.Ok? <==> scan.result.Ok?;
      assert o.result.Ok? ==> o.result.value == MountInfo(loopPath, scan.result.value.parts, scan.result.value.isos);
      assert o.calls == [Exec("losetup", ["-fP", env.volume.path]), ListDir(DevDir)] + scan.calls;
    }
  }

  /** The free loopback device is found exactly when `losetup -f` succeeds and its
      trimmed output has a file name; that output is then the device's path and the
      file name its name. */
  lemma FindLoopbackMeaning(w: World)
    ensures var f, out := FindLoopbackSpec(w), w.runCheckOutput("losetup", ["-f"]);
      && f.calls == [Exec("losetup", ["-f"])]
      && (f.result.Ok? <==> out.Ok? && FileName(TrimEnd(out.value)).Some?)
      && (f.result.Ok? ==> f.result.value == Loopback(TrimEnd(out.value), FileName(TrimEnd(out.value)).value))
  {
  }

  /** `mount_internal` of an unmounted drive that succeeds: the loopback device is
      the one `losetup -f` printed (FindLoopbackMeaning); the drive records the mount
      of exactly the partitions of that device MountedParts names and the images
      MountedIsos names, none of them hidden. */
  lemma MountInternalFinds(env: Env, d: Drive)
    requires d.state.Unmounted?
    ensures var o, w, found := MountInternalSpec(env, d), env.world, FindLoopbackSpec(env.world);
      o.result.Ok? ==>
        var info := o.result.value;
        && found.result.Ok?
        && o.drive == d.(state := Internal(info))
        && info.loopbackPath == found.result.value.path
        && info.partMountPaths == MountedParts(env, found.result.value.name, w.readDir(DevDir).value)
        && info.isos == MountedIsos(env, found.result.value.name, w.readDir(DevDir).value)
        && AllVisible(info.isos)
  {
    var found := FindLoopbackSpec(env.world);
    if found.result.Ok? {
      var loop := found.result.value;
      AttachFinds(env, d, loop.path, loop.name);
      MountInternalOutcome(env, d);
      assert MountInternalSpec(env, d).result == AttachSpec(env, d, loop.path, loop.name).result;
    }
  }
}
