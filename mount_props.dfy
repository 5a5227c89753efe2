/** Properties of the virtual drive's operations, stated and proved on the functions
    of `MountSpec`. */
module MountProps {
  import opened Errors
  import opened Platform
  import opened MountSpec

  // ---------------------------------------------------------------------------
  // Scans compose: a scan of a + b is the scan of a followed by the scan of b.

  lemma AppendFoundAssoc(x: Scan<Found>, y: Scan<Found>, z: Scan<Found>)
    ensures AppendFound(AppendFound(x, y), z) == AppendFound(x, AppendFound(y, z))
  {
    if x.result.Ok? && y.result.Ok? {
      assert x.calls + y.calls + z.calls == x.calls + (y.calls + z.calls);
      if z.result.Ok? {
        var a, b, c := x.result.value, y.result.value, z.result.value;
        assert a.parts + b.parts + c.parts == a.parts + (b.parts + c.parts);
        assert a.isos + b.isos + c.isos == a.isos + (b.isos + c.isos);
      }
    } else if x.result.Ok? {
      assert x.calls + y.calls + z.calls == x.calls + (y.calls + z.calls);
    }
  }

  /** Scanning the entries a + b is scanning a, then b; the scan of b adds nothing
      once the scan of a has failed. */
  lemma {:induction false} DevScanConcat(step: Result<DirEntry> -> Scan<Found>, a: seq<Result<DirEntry>>, b: seq<Result<DirEntry>>)
    ensures DevScanWith(step, a + b) == AppendFound(DevScanWith(step, a), DevScanWith(step, b))
    decreases |b|
  {
    var x := DevScanWith(step, a);
    if b == [] {
      assert a + b == a;
      assert x.calls + [] == x.calls;
      if x.result.Ok? {
        var v := x.result.value;
        assert v.parts + [] == v.parts && v.isos + [] == v.isos;
      }
    } else {
      var b', e := b[..|b| - 1], b[|b| - 1];
      assert (a + b)[..|a + b| - 1] == a + b';
      assert (a + b)[|a + b| - 1] == e;
      DevScanConcat(step, a, b');
      AppendFoundAssoc(x, DevScanWith(step, b'), step(e));
    }
  }

  lemma AppendIsosAssoc(x: Scan<seq<Iso>>, y: Scan<seq<Iso>>, z: Scan<seq<Iso>>)
    ensures AppendIsos(AppendIsos(x, y), z) == AppendIsos(x, AppendIsos(y, z))
  {
    if x.result.Ok? {
      assert x.calls + y.calls + z.calls == x.calls + (y.calls + z.calls);
      if y.result.Ok? && z.result.Ok? {
        var a, b, c := x.result.value, y.result.value, z.result.value;
        assert a + b + c == a + (b + c);
      }
    }
  }

  /** Scanning the image entries a + b is scanning a, then b. */
  lemma {:induction false} IsoScanConcat(w: World, dir: string, a: seq<Result<DirEntry>>, b: seq<Result<DirEntry>>)
    ensures IsoScan(w, dir, a + b) == AppendIsos(IsoScan(w, dir, a), IsoScan(w, dir, b))
    decreases |b|
  {
    var x := IsoScan(w, dir, a);
    if b == [] {
      assert a + b == a;
      assert x.calls + [] == x.calls;
      if x.result.Ok? {
        assert x.result.value + [] == x.result.value;
      }
    } else {
      var b', e := b[..|b| - 1], b[|b| - 1];
      assert (a + b)[..|a + b| - 1] == a + b';
      assert (a + b)[|a + b| - 1] == e;
      IsoScanConcat(w, dir, a, b');
      AppendIsosAssoc(x, IsoScan(w, dir, b'), IsoEntryStep(w, dir, e));
    }
  }

  /** The scan of the first i + 1 entries of `/dev` is that of the first i and one step more. */
  lemma DevScanSnoc(step: Result<DirEntry> -> Scan<Found>, es: seq<Result<DirEntry>>, i: nat)
    requires i < |es|
    ensures DevScanWith(step, es[..i + 1]) == AppendFound(DevScanWith(step, es[..i]), step(es[i]))
  {
    assert es[..i + 1][..i] == es[..i];
  }

  /** A scan of `/dev` that has failed at entry i scans nothing after it. */
  lemma DevScanStops(step: Result<DirEntry> -> Scan<Found>, es: seq<Result<DirEntry>>, i: nat)
    requires i < |es| && DevScanWith(step, es[..i + 1]).result.Err?
    ensures DevScanWith(step, es) == DevScanWith(step, es[..i + 1])
  {
    DevScanConcat(step, es[..i + 1], es[i + 1..]);
    assert es[..i + 1] + es[i + 1..] == es;
  }

  /** DevStepOf is the step of the scan of `/dev`. */
  lemma DevStepOfIsDevStep(env: Env, loopName: string)
    ensures IsDevStep(DevStepOf(env, loopName), env, loopName)
  {
  }

  /** The scan of the first i + 1 image entries is that of the first i and one step more. */
  lemma IsoScanSnoc(w: World, dir: string, es: seq<Result<DirEntry>>, i: nat)
    requires i < |es|
    ensures IsoScan(w, dir, es[..i + 1]) == AppendIsos(IsoScan(w, dir, es[..i]), IsoEntryStep(w, dir, es[i]))
  {
    assert es[..i + 1][..i] == es[..i];
  }

  /** A scan of images that has failed at entry i scans nothing after it. */
  lemma IsoScanStops(w: World, dir: string, es: seq<Result<DirEntry>>, i: nat)
    requires i < |es| && IsoScan(w, dir, es[..i + 1]).result.Err?
    ensures IsoScan(w, dir, es) == IsoScan(w, dir, es[..i + 1])
  {
    IsoScanConcat(w, dir, es[..i + 1], es[i + 1..]);
    assert es[..i + 1] + es[i + 1..] == es;
  }

  // ---------------------------------------------------------------------------
  // Unmounting an internal mount

  /** Once unmounting the images has failed at image i, the later ones are left alone. */
  lemma {:induction false} CloseIsosStop(w: World, isos: seq<Iso>, i: nat)
    requires i < |isos| && CloseIsos(w, isos[..i + 1]).result.Err?
    ensures CloseIsos(w, isos) == CloseIsos(w, isos[..i + 1])
    decreases |isos|
  {
    if |isos| > i + 1 {
      var init := isos[..|isos| - 1];
      assert init[..i + 1] == isos[..i + 1];
      CloseIsosStop(w, init, i);
    } else {
      assert isos[..i + 1] == isos;
    }
  }

  /** Once releasing the partitions has failed at partition j, the later ones are left alone. */
  lemma {:induction false} ReleasePartsStop(w: World, parts: seq<string>, j: nat)
    requires j < |parts| && ReleaseParts(w, parts[..j + 1]).result.Err?
    ensures ReleaseParts(w, parts) == ReleaseParts(w, parts[..j + 1])
    decreases |parts|
  {
    if |parts| > j + 1 {
      var init := parts[..|parts| - 1];
      assert init[..j + 1] == parts[..j + 1];
      ReleasePartsStop(w, init, j);
    } else {
      assert parts[..j + 1] == parts;
    }
  }

  /** Whether `s` is what performing the requests `calls` in order, stopping at the
      first that fails, gives: the requests up to and including the failing one and
      its error, or all of them and success. */
  ghost predicate RunsUntilFailure(w: World, s: Scan<()>, calls: seq<Call>) {
    var k := FirstFailure(w, calls);
    if k < |calls| then s.calls == calls[..k + 1] && s.result == Answer(w, calls[k])
    else s.calls == calls && s.result == Ok(())
  }

  /** The first failure in a + b is the first in a, or else the first in b. */
  lemma {:induction false} FirstFailureConcat(w: World, a: seq<Call>, b: seq<Call>)
    ensures FirstFailure(w, a + b)
         == if FirstFailure(w, a) < |a| then FirstFailure(w, a) else |a| + FirstFailure(w, b)
    decreases |a|
  {
    if a != [] {
      assert (a + b)[0] == a[0];
      if Answer(w, a[0]).Ok? {
        assert (a + b)[1..] == a[1..] + b;
        FirstFailureConcat(w, a[1..], b);
      }
    } else {
      assert a + b == b;
    }
  }

  /** Two runs one after the other run the concatenated requests. */
  lemma ThenRuns(w: World, s: Scan<()>, a: seq<Call>, t: Scan<()>, b: seq<Call>)
    requires RunsUntilFailure(w, s, a) && RunsUntilFailure(w, t, b)
    ensures RunsUntilFailure(w, Then(s, t), a + b)
  {
    FirstFailureConcat(w, a, b);
    var k := FirstFailure(w, a);
    if k < |a| {
      assert (a + b)[..k + 1] == a[..k + 1];
      assert (a + b)[k] == a[k];
    } else {
      var m := FirstFailure(w, b);
      if m < |b| {
        assert (a + b)[..|a| + m + 1] == a + b[..m + 1];
        assert (a + b)[|a| + m] == b[m];
      }
    }
  }

  /** A single request runs as itself. */
  lemma RequestRuns(w: World, c: Call, r: Result<()>)
    requires r == Answer(w, c)
    ensures RunsUntilFailure(w, Scan(r, [c]), [c])
  {
    assert [c][1..] == [];
    if r.Ok? {
      assert FirstFailure(w, [c][1..]) == 0;
      match r.value { case () => }
    }
  }

  /** Unmounting the images performs CloseCalls up to the first failure. */
  lemma {:induction false} CloseIsosRuns(w: World, isos: seq<Iso>)
    ensures RunsUntilFailure(w, CloseIsos(w, isos), CloseCalls(isos))
    decreases |isos|
  {
    if isos != [] {
      var iso := isos[|isos| - 1];
      CloseIsosRuns(w, isos[..|isos| - 1]);
      RequestRuns(w, CloseIso(iso), w.unmountIso(iso));
      ThenRuns(w, CloseIsos(w, isos[..|isos| - 1]), CloseCalls(isos[..|isos| - 1]),
               Scan(w.unmountIso(iso), [CloseIso(iso)]), [CloseIso(iso)]);
    }
  }

  /** Releasing one partition performs umount, then the removal, up to the first failure. */
  lemma ReleasePartRuns(w: World, part: string)
    ensures RunsUntilFailure(w, ReleasePart(w, part), [Exec("umount", [part]), RemoveDirs(part)])
  {
    var umount, remove := Exec("umount", [part]), RemoveDirs(part);
    RequestRuns(w, umount, Discard(w.runCheckOutput("umount", [part])));
    RequestRuns(w, remove, w.removeDirAll(part));
    ThenRuns(w, Scan(Discard(w.runCheckOutput("umount", [part])), [umount]), [umount],
             Scan(w.removeDirAll(part), [remove]), [remove]);
    assert [umount] + [remove] == [umount, remove];
  }

  /** Releasing the partitions performs ReleaseCalls up to the first failure. */
  lemma {:induction false} ReleasePartsRuns(w: World, parts: seq<string>)
    ensures RunsUntilFailure(w, ReleaseParts(w, parts), ReleaseCalls(parts))
    decreases |parts|
  {
    if parts != [] {
      var part := parts[|parts| - 1];
      ReleasePartsRuns(w, parts[..|parts| - 1]);
      ReleasePartRuns(w, part);
      ThenRuns(w, ReleaseParts(w, parts[..|parts| - 1]), ReleaseCalls(parts[..|parts| - 1]),
               ReleasePart(w, part), [Exec("umount", [part]), RemoveDirs(part)]);
    }
  }

  /** The teardown of an internal mount performs TeardownCalls (images, then each
      partition's umount and removal, then the detach) up to the first failure. */
  lemma TeardownRuns(w: World, info: MountInfo)
    ensures RunsUntilFailure(w, Teardown(w, info), TeardownCalls(info))
  {
    CloseIsosRuns(w, info.isos);
    ReleasePartsRuns(w, info.partMountPaths);
    ThenRuns(w, CloseIsos(w, info.isos), CloseCalls(info.isos),
             ReleaseParts(w, info.partMountPaths), ReleaseCalls(info.partMountPaths));
    RequestRuns(w, Detach(info), Discard(w.runCheckOutput("losetup", ["-d", info.loopbackPath])));
    ThenRuns(w, Then(CloseIsos(w, info.isos), ReleaseParts(w, info.partMountPaths)),
             CloseCalls(info.isos) + ReleaseCalls(info.partMountPaths),
             Scan(Discard(w.runCheckOutput("losetup", ["-d", info.loopbackPath])), [Detach(info)]), [Detach(info)]);
  }

  /** `unmount_internal` of an internal mount stops at the first request that fails
      and returns its error, leaving the drive Internal; it becomes Unmounted only
      after every request has succeeded. */
  lemma UnmountInternalOrder(env: Env, d: Drive)
    requires d.state.Internal?
    ensures var o, calls := UnmountInternalSpec(env, d), TeardownCalls(d.state.info);
      var k := FirstFailure(env.world, calls);
      if k < |calls| then
        o.calls == calls[..k + 1] && o.result == Answer(env.world, calls[k]) && o.result.Err? && o.drive == d
      else
        o.calls == calls && o.result == Ok(()) && o.drive == d.(state := Unmounted)
  {
    TeardownRuns(env.world, d.state.info);
  }

  /** `mount_internal` of an unmounted drive changes the drive only when it
      succeeds, and then the drive is Internal with the mount it returned. */
  lemma MountInternalOutcome(env: Env, d: Drive)
    requires d.state.Unmounted?
    ensures var o := MountInternalSpec(env, d);
      o.drive == if o.result.Ok? then d.(state := Internal(o.result.value)) else d
  {
    var found := FindLoopbackSpec(env.world);
    if found.result.Ok? {
      var a := AttachSpec(env, d, found.result.value.path, found.result.value.name);
      assert MountInternalSpec(env, d).drive == a.drive && MountInternalSpec(env, d).result == a.result;
    }
  }
}
