/** What the virtual drive's operations promise, stated on the functions of
    `MountSpec` that the methods of `VDrive.VirtualDrive` are proved to follow. */
module DriveProps {
  import opened Errors
  import opened Platform
  import opened MountSpec
  import opened MountProps

  // ---------------------------------------------------------------------------
  // Mounting and unmounting the volume over USB

  /** The persisted flag says External exactly when the volume is exported. */
  predicate FlagConsistent(d: Drive) {
    d.state.External? <==> d.persist.externalMount
  }

  /** A new drive is unmounted, writable, removable and not to be exported on load. */
  lemma NewDriveConsistent()
    ensures FlagConsistent(Drive(Unmounted, DefaultPersist()))
  {
  }

  /** The export always offers the volume's own file, never as a direct attachment,
      with the persisted read-only and removable settings. */
  lemma ExportIsNeverDirect(env: Env, d: Drive)
    ensures forall c :: c in MountExternalSpec(env, d).calls && c.Export? ==>
      c == Export(env.volume.path, false, d.persist.readonly, d.persist.removable)
  {
  }

  /** `mount_external` succeeds from Unmounted exactly when the gadget lock and the
      export both succeed, and then the drive holds the id the export returned. */
  lemma MountExternalOk(env: Env, d: Drive)
    requires d.state.Unmounted?
    ensures var o, w := MountExternalSpec(env, d), env.world;
      var id := w.exportFile(env.volume.path, false, d.persist.readonly, d.persist.removable);
      && (o.result.Ok? <==> w.lockGadget.Ok? && id.Ok?)
      && (o.result.Ok? ==> o.drive == Drive(External(id.value), d.persist.(externalMount := true)))
      && (o.result.Err? ==> o.drive == d)
  {
  }

  /** `mount_external` is idempotent: on an exported drive it does nothing. */
  lemma MountExternalIdempotent(env: Env, d: Drive)
    requires MountExternalSpec(env, d).result.Ok?
    ensures var d' := MountExternalSpec(env, d).drive;
      MountExternalSpec(env, d') == Outcome(Ok(()), d', [])
  {
  }

  /** Round trip: exporting an unmounted drive and then withdrawing the export
      withdraws the very id the export returned and gives back the drive as it was. */
  lemma ExportRoundTrip(env: Env, d: Drive)
    requires d.state.Unmounted? && FlagConsistent(d)
    requires MountExternalSpec(env, d).result.Ok?
    ensures var m := MountExternalSpec(env, d);
      var u := UnmountExternalSpec(env, m.drive);
      && m.drive.state.External?
      && (u.result.Ok? ==> u.drive == d && u.calls == [LockGadget, Unexport(m.drive.state.id)])
  {
  }

  /** `unmount_external` clears the persisted flag even on a drive that was not
      exported, whereas `unmount` leaves such a drive alone. */
  lemma UnmountExternalClearsFlag(env: Env, d: Drive)
    requires d.state.Unmounted?
    ensures UnmountExternalSpec(env, d) == Outcome(Ok(()), d.(persist := d.persist.(externalMount := false)), [])
    ensures UnmountSpec(env, d) == Outcome(Ok(()), d, [])
  {
  }

  /** Each operation called in the wrong state is refused before any request is made,
      except `unmount_internal` of an unmounted drive, which has nothing to do. */
  lemma WrongStateRefused(env: Env, d: Drive)
    ensures d.state.Internal? ==>
      MountExternalSpec(env, d) == Outcome(Err(Msg(MountExternalWhileInternal)), d, [])
    ensures d.state.Internal? ==>
      UnmountExternalSpec(env, d) == Outcome(Err(Msg(UnmountExternalWhileInternal)), d, [])
    ensures d.state.External? ==>
      UnmountInternalSpec(env, d) == Outcome(Err(Msg(UnmountInternalWhileExternal)), d, [])
    ensures d.state.Unmounted? ==> UnmountInternalSpec(env, d) == Outcome(Ok(()), d, [])
  {
  }

  /** An operation that fails leaves the drive as it was. */
  lemma FailureChangesNothing(env: Env, d: Drive)
    ensures MountExternalSpec(env, d).result.Err? ==> MountExternalSpec(env, d).drive == d
    ensures UnmountExternalSpec(env, d).result.Err? ==> UnmountExternalSpec(env, d).drive == d
    ensures UnmountInternalSpec(env, d).result.Err? ==> UnmountInternalSpec(env, d).drive == d
    ensures UnmountSpec(env, d).result.Err? ==> UnmountSpec(env, d).drive == d
  {
  }

  /** A `mount_internal` that fails leaves the drive as it was (though partitions it
      had mounted before the failure stay mounted). */
  lemma MountInternalFailureChangesNothing(env: Env, d: Drive)
    ensures MountInternalSpec(env, d).result.Err? ==> MountInternalSpec(env, d).drive == d
  {
    if d.state.Unmounted? {
      var found := FindLoopbackSpec(env.world);
      if found.result.Ok? {
        var o := AttachSpec(env, d, found.result.value.path, found.result.value.name);
        assert o.result.Err? ==> o.drive == d;
      }
    }
  }

  /** `unmount` that succeeds leaves the drive unmounted, whatever its state was;
      each kind of mount is undone by its own unmount. */
  lemma UnmountDispatch(env: Env, d: Drive)
    ensures UnmountSpec(env, d).result.Ok? ==> UnmountSpec(env, d).drive.state.Unmounted?
    ensures d.state.Internal? ==> UnmountSpec(env, d) == UnmountInternalSpec(env, d)
    ensures d.state.External? ==> UnmountSpec(env, d) == UnmountExternalSpec(env, d)
  {
  }

  /** Mounting and unmounting keep the persisted flag in step with the state. */
  lemma MountingKeepsFlagConsistent(env: Env, d: Drive)
    requires FlagConsistent(d)
    ensures FlagConsistent(MountExternalSpec(env, d).drive)
    ensures FlagConsistent(UnmountExternalSpec(env, d).drive)
    ensures FlagConsistent(UnmountInternalSpec(env, d).drive)
    ensures FlagConsistent(UnmountSpec(env, d).drive)
  {
  }

  /** `mount_internal` keeps the persisted flag in step with the state. */
  lemma MountInternalKeepsFlagConsistent(env: Env, d: Drive)
    requires FlagConsistent(d)
    ensures FlagConsistent(MountInternalSpec(env, d).drive)
  {
    if d.state.Unmounted? {
      var found := FindLoopbackSpec(env.world);
      if found.result.Ok? {
        var o := AttachSpec(env, d, found.result.value.path, found.result.value.name);
        assert o.drive == d || o.drive == d.(state := Internal(o.result.value));
      }
    }
  }

  /** Every input the drive handles keeps the persisted flag in step with the state. */
  lemma InputKeepsFlagConsistent(env: Env, window: WindowId, d: Drive, a: Action)
    requires FlagConsistent(d)
    ensures FlagConsistent(ToggleSpec(env, d).drive)
    ensures FlagConsistent(DoActionSpec(env, window, d, a).drive)
  {
    MountingKeepsFlagConsistent(env, d);
    if d.state.Internal? {
      MountingKeepsFlagConsistent(env, UnmountInternalSpec(env, d).drive);
    } else if d.state.External? {
      MountInternalKeepsFlagConsistent(env, UnmountExternalSpec(env, d).drive);
    }
  }

  // ---------------------------------------------------------------------------
  // Mounting the volume on the device

  /** `mount_internal` is idempotent: once it has succeeded, calling it again
      returns the same mount and asks for nothing. */
  lemma MountInternalIdempotent(env: Env, d: Drive)
    requires MountInternalSpec(env, d).result.Ok?
    ensures var o := MountInternalSpec(env, d);
      && o.drive.state == Internal(o.result.value)
      && MountInternalSpec(env, o.drive) == Outcome(o.result, o.drive, [])
  {
    if d.state.Unmounted? {
      var found := FindLoopbackSpec(env.world);
      var a := AttachSpec(env, d, found.result.value.path, found.result.value.name);
      assert MountInternalSpec(env, d).drive == a.drive && MountInternalSpec(env, d).result == a.result;
      assert a.drive == d.(state := Internal(a.result.value));
    }
  }

  /** `mount_internal` of an exported drive is refused before any request is made. */
  lemma MountInternalRefusedWhenExternal(env: Env, d: Drive)
    requires d.state.External?
    ensures MountInternalSpec(env, d) == Outcome(Err(Msg(MountInternalWhileExternal)), d, [])
  {
  }

  /** `toggle_mount` that succeeds switches between the two mounts: an exported
      drive ends up mounted on the device, any other drive ends up exported. */
  lemma ToggleSwitches(env: Env, d: Drive)
    ensures var o := ToggleSpec(env, d);
      o.result.Ok? ==> (if d.state.External? then o.drive.state.Internal? else o.drive.state.External?)
  {
  }

  /** `toggle_mount` does not roll back: when the second half fails, the drive stays
      unmounted (and, coming from an export, with its flag cleared). */
  lemma ToggleNoRollback(env: Env, d: Drive)
    ensures var o := ToggleSpec(env, d);
      o.result.Err? && o.drive != d ==>
        && !d.state.Unmounted?
        && o.drive.state.Unmounted?
        && o.drive.persist == (if d.state.External? then d.persist.(externalMount := false) else d.persist)
  {
    if d.state.External? {
      var u := UnmountExternalSpec(env, d);
      if u.result.Ok? {
        MountInternalOutcome(env, u.drive);
      }
    }
  }

  // ---------------------------------------------------------------------------
  // Input handling and restoring

  /** Whether an action is addressed to this drive. */
  predicate Targets(a: Action, window: WindowId, name: string) {
    match a
    case ToggleVDriveMount(id) => id == window
    case ToggleDriveReadOnly(n) => n == name
    case ToggleDriveNonRemovable(n) => n == name
    case OtherAction(_) => false
  }

  /** `do_action` handles exactly the actions addressed to this drive, never emits
      actions, and leaves the drive alone and asks for nothing otherwise. */
  lemma DoActionHandlesOwnActions(env: Env, window: WindowId, d: Drive, a: Action)
    ensures var o := DoActionSpec(env, window, d, a);
      && (o.result.Ok? ==> (o.result.value.handled <==> Targets(a, window, env.volume.name)) && o.result.value.actions == [])
      && (!Targets(a, window, env.volume.name) ==> o == Outcome(Ok(Unhandled), d, []))
  {
  }

  /** The action `on_event` emits for Select toggles this drive's mount. */
  lemma SelectTogglesMount(env: Env, window: WindowId, d: Drive)
    ensures var o, t := DoActionSpec(env, window, d, ToggleVDriveMount(window)), ToggleSpec(env, d);
      o.drive == t.drive && o.calls == t.calls && (o.result.Ok? <==> t.result.Ok?)
  {
  }

  /** A read-only (or non-removable) toggle addressed to this drive flips that one
      setting, reports the action handled, and changes and asks for nothing else. */
  lemma SettingToggleFlipsOneSetting(env: Env, window: WindowId, d: Drive)
    ensures DoActionSpec(env, window, d, ToggleDriveReadOnly(env.volume.name))
      == Outcome(Ok(Reply(true, [])), d.(persist := d.persist.(readonly := !d.persist.readonly)), [])
    ensures DoActionSpec(env, window, d, ToggleDriveNonRemovable(env.volume.name))
      == Outcome(Ok(Reply(true, [])), d.(persist := d.persist.(removable := !d.persist.removable)), [])
  {
  }

  /** Toggling read-only (or non-removable) twice gives back the drive as it was. */
  lemma SettingTogglesAreInvolutions(env: Env, window: WindowId, d: Drive)
    ensures var a := ToggleDriveReadOnly(env.volume.name);
      DoActionSpec(env, window, DoActionSpec(env, window, d, a).drive, a).drive == d
    ensures var a := ToggleDriveNonRemovable(env.volume.name);
      DoActionSpec(env, window, DoActionSpec(env, window, d, a).drive, a).drive == d
  {
  }

  /** `on_load` of a restored drive resumes the mount the flag names: when it
      succeeds, the drive is exported exactly when the flag was set, and the flag
      and the state agree. */
  lemma OnLoadResumes(env: Env, d: Drive)
    requires d.state.Unmounted?
    ensures var o := OnLoadSpec(env, d);
      o.result.Ok? ==> (o.drive.state.External? <==> d.persist.externalMount) && FlagConsistent(o.drive)
  {
    if !d.persist.externalMount {
      MountInternalOutcome(env, d);
    }
  }

  /** A restore that fails to export a drive whose flag is set leaves the drive
      unmounted with the flag still set: the flag then disagrees with the state. */
  lemma FailedRestoreKeepsFlag(env: Env, d: Drive)
    requires d.state.Unmounted? && d.persist.externalMount
    ensures var o := OnLoadSpec(env, d);
      o.result.Err? ==> o.drive == d && !FlagConsistent(o.drive)
    ensures env.world.lockGadget.Err? ==> OnLoadSpec(env, d).result.Err?
  {
  }

  /** `on_load` with the flag set only locks the gadget and exports the volume; with
      the flag clear it starts by asking `losetup` for a free device. */
  lemma OnLoadRequests(env: Env, d: Drive)
    requires d.state.Unmounted?
    ensures var o := OnLoadSpec(env, d);
      if d.persist.externalMount then forall c :: c in o.calls ==> c == LockGadget || c.Export?
      else o.calls != [] && o.calls[0] == Exec("losetup", ["-f"])
  {
    if !d.persist.externalMount {
      var found := FindLoopbackSpec(env.world);
      if found.result.Ok? {
        var loop := found.result.value;
        assert MountInternalSpec(env, d).calls == found.calls + AttachSpec(env, d, loop.path, loop.name).calls;
      }
    }
  }
}
