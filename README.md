# pISO virtual drive: a verified model of `vdrive.rs`

pISO turns a Raspberry Pi into a USB mass-storage device. It carves the storage into
logical volumes, and each logical volume is one virtual drive. A drive is in one of
three states:

- **Unmounted**: neither state below.
- **External**: exported to the USB host through the mass-storage gadget, with the
  persisted read-only and removable settings.
- **Internal**: attached to a loopback device on the Pi. Its partitions are mounted
  under `/mnt`, and the disk images in each partition's `ISOS` folder are opened.

The drive moves between these states when the user selects it (`toggle_mount`). It
also restores its last external/internal choice when it is loaded again (`on_load`).

This project models that state machine and the mount logic of
`pISO/src/vdrive.rs` in Dafny, and proves properties of it.

- **`Platform`** (`platform.dfy`) models everything the drive calls: the shell (`losetup`,
  `mount`, `umount`), the filesystem, the USB gadget and the image handles.
  - `World` is a fixed oracle that answers every request.
  - `Host` is an object that makes the requests and records them, in order, in its
    `trace`.
- **`MountSpec`** (`mount_spec.dfy`) holds the data model (`MountState`, `MountInfo`,
  `PersistVDriveState`). For each operation it gives a function that returns three
  things: the result, the drive's new state, and the requests made, in order.
- **`VDrive.VirtualDrive`** (`vdrive.dfy`) is the drive as a class with mutable `state`
  and `persist` fields. Each Rust function becomes one or more methods, with the same
  loops and the same early returns:
  - `mount_internal` is split into `MountInternal`, `MountLoopback`, `FindLoopback`,
    `Attach`, `ScanDev`, `MountDevEntry`, `MountPartitionAt`, `OpenIsoFolder` and
    `ScanIsoFolder`;
  - `unmount_internal` into `UnmountInternal`, `ReleaseMount`, `CloseAll` and
    `ReleaseAll`;
  - `toggle_mount` into `ToggleMount`, `InternalToExternal` and `ExternalToInternal`. Each method is proved to do exactly what its `MountSpec`
  function says, including the requests it appends to `host.trace`.
- **`MountProps`**, **`ScanProps`** and **`DriveProps`** hold the lemmas about those
  functions. They cover:
  - the order of the teardown;
  - partition selection and mount points;
  - the order in which the mount programs are tried;
  - which images are opened;
  - idempotence, the round trip of an export, no rollback in `toggle_mount`;
  - the consistency of the persisted flag;
  - input handling and `on_load`.
- **`Paths`** (`paths.dfy`) models the Rust standard-library string and path functions the code uses:
  - `str::split`, `trim_right` and `starts_with`;
  - `Path::join` and `Path::file_name`.

It also proves the round trip between `split` and re-joining.

Where the code's behaviour is surprising, the model follows the code and the lemmas
state what the code does:

- **Partition selection.** A `/dev` entry is taken for a partition when its name
  starts with the loopback device's name and is not that name. On `loop1`, this also
  admits `loop10`, which is a different device
  (`ScanProps.LoopTenIsTakenForAPartitionOfLoopOne`). `loop10` and `loop1p10` then get
  the same mount point, `/mnt/<name> (partition 10)` (`ScanProps.LoopTenSharesAMountPoint`).
- **Partition number.** The "partition number" is the text after the last `p` of the
  device name, whatever that text is. No numeric suffix is parsed, and
  `split("p").last()` always returns something. So the "Failed to determine
  partition number" error can never be raised, and the model has no such error path.
- **Mount point.** The mount point is built with `Path::join`. If the translated drive
  name is an absolute path, it replaces `/mnt` entirely
  (`ScanProps.MountPointShape`).
- **`unmount_external` and `unmount` differ on an unmounted drive.**
  `unmount_external` clears the persisted external flag, while `unmount` leaves the
  drive as it is (`DriveProps.UnmountExternalClearsFlag`).
- **Failures leave resources held.** A failure part-way through `mount_internal`
  returns an error. The partitions mounted so far stay mounted and the loopback
  device stays attached, while the drive stays Unmounted. A failure part-way through
  `unmount_internal` stops the teardown and leaves the drive Internal
  (`MountProps.UnmountInternalOrder`).
- **The persisted flag can disagree with the state.** The mount operations,
  `toggle_mount` and `do_action` keep "flag set" equal to "state is External" when it
  held before. But a restored drive whose flag is set starts Unmounted. When the
  export in `on_load` fails, it stays Unmounted with the flag set
  (`DriveProps.FailedRestoreKeepsFlag`).
- **No rollback in `toggle_mount`.** When the second half of `toggle_mount` fails, the
  drive stays Unmounted (`DriveProps.ToggleNoRollback`).

## Model

| member | source | states |
|---|---|---|
| MountSpec.DefaultPersist | pISO/src/vdrive.rs:42-50 | the default persisted state: not exported on load, not read-only, removable |
| DriveProps.NewDriveConsistent | pISO/src/vdrive.rs:69-76 | a new drive is Unmounted with the default persisted state, so its flag and state agree |
| VDrive.VirtualDrive.constructor | pISO/src/vdrive.rs:62-77 | `new` keeps the window, volume and config, starts Unmounted with the default persisted state |
| VDrive.VirtualDrive.MountExternal | pISO/src/vdrive.rs:87-108 | result, new state and gadget requests are those of MountExternalSpec |
| DriveProps.MountExternalOk | pISO/src/vdrive.rs:90-103 | from Unmounted, `mount_external` succeeds iff the lock and the export succeed, and then the drive is External with the exported id and the flag set; otherwise it is unchanged |
| DriveProps.ExportIsNeverDirect | pISO/src/vdrive.rs:93-98 | every export request offers the volume's path, with direct attach false and the persisted read-only and removable values |
| DriveProps.MountExternalIdempotent | pISO/src/vdrive.rs:89 | a second `mount_external` after a successful one succeeds without any request or change |
| DriveProps.ExportRoundTrip | pISO/src/vdrive.rs:87-126 | exporting and then unexporting withdraws the same id the export returned and restores the original drive |
| VDrive.VirtualDrive.UnmountExternal | pISO/src/vdrive.rs:110-126 | result, new state and gadget requests are those of UnmountExternalSpec |
| DriveProps.UnmountExternalClearsFlag | pISO/src/vdrive.rs:110-134 | on an Unmounted drive, `unmount_external` succeeds without requests and clears the flag, while `unmount` changes nothing |
| DriveProps.WrongStateRefused | pISO/src/vdrive.rs:87-259 | `mount_external` and `unmount_external` on an Internal drive and `unmount_internal` on an External one fail with their messages, with no request and no change; `unmount_internal` of an Unmounted drive succeeds and does nothing |
| DriveProps.FailureChangesNothing | pISO/src/vdrive.rs:87-259 | a failing `mount_external`, `unmount_external`, `unmount_internal` or `unmount` leaves the drive unchanged |
| DriveProps.MountInternalFailureChangesNothing | pISO/src/vdrive.rs:160-232 | a failing `mount_internal` leaves the drive unchanged |
| VDrive.VirtualDrive.Unmount | pISO/src/vdrive.rs:128-134 | result, new state and requests are those of UnmountSpec |
| DriveProps.UnmountDispatch | pISO/src/vdrive.rs:128-134 | `unmount` dispatches to `unmount_internal` or `unmount_external` by state, and whenever it succeeds the drive is Unmounted |
| DriveProps.MountingKeepsFlagConsistent | pISO/src/vdrive.rs:87-134 | the mount and unmount operations keep the flag equal to "state is External" |
| DriveProps.MountInternalKeepsFlagConsistent | pISO/src/vdrive.rs:155-238 | `mount_internal` keeps the flag equal to "state is External" |
| DriveProps.InputKeepsFlagConsistent | pISO/src/vdrive.rs:261-330 | `toggle_mount` and `do_action` keep the flag equal to "state is External" |
| VDrive.VirtualDrive.MountPartition | pISO/src/vdrive.rs:136-153 | the mount loop makes the requests and returns the result of MountPartitionSpec |
| ScanProps.MountPartitionTriesInOrder | pISO/src/vdrive.rs:141-152 | `mount`, `mount.exfat` and `mount.ntfs-3g` run in this order and stop at the first success; the call fails iff all three fail, after all three have run |
| MountSpec.FirstMounter | pISO/src/vdrive.rs:142-147 | index of the first mount program that succeeds: all before it fail |
| ScanProps.MounterCallsAt | pISO/src/vdrive.rs:142-143 | the i-th mount request runs the i-th program on the device and the target |
| VDrive.VirtualDrive.MountInternal | pISO/src/vdrive.rs:155-238 | result, new state and requests are those of MountInternalSpec |
| MountProps.MountInternalOutcome | pISO/src/vdrive.rs:160-232 | from Unmounted, `mount_internal` changes the drive only when it succeeds, and then the drive is Internal with the returned mount |
| DriveProps.MountInternalIdempotent | pISO/src/vdrive.rs:223-233 | after a successful `mount_internal` the drive is Internal with the returned info, and a second call returns the same info without any request |
| DriveProps.MountInternalRefusedWhenExternal | pISO/src/vdrive.rs:234-236 | `mount_internal` on an External drive fails without any request or change |
| VDrive.VirtualDrive.MountLoopback | pISO/src/vdrive.rs:160-232 | the Unmounted branch of `mount_internal` follows MountInternalSpec |
| VDrive.VirtualDrive.FindLoopback | pISO/src/vdrive.rs:162-168 | asks `losetup -f`, trims the output and takes its file name, failing as FindLoopbackSpec says |
| Paths.TrimEnd | pISO/src/vdrive.rs:163 | `trim_right`: the result is a prefix of the input, does not end in whitespace, and only whitespace was dropped |
| Paths.FileName | pISO/src/vdrive.rs:164-166 | `file_name`: when present, the result is a valid single entry name |
| Paths.FileNameOfJoin | pISO/src/vdrive.rs:211-214 | the file name of a directory joined with an entry name is that name |
| VDrive.VirtualDrive.Attach | pISO/src/vdrive.rs:170-231 | attaches the volume, lists `/dev` and scans it, recording Internal on success, as AttachSpec says |
| ScanProps.AttachFinds | pISO/src/vdrive.rs:170-231 | attaching succeeds iff `losetup -fP` succeeds, `/dev` is listed and every entry is gone through; the drive then records the loopback path, exactly MountedParts and exactly MountedIsos, none hidden; the first requests are `losetup -fP` and the listing of `/dev` |
| ScanProps.FindLoopbackMeaning | pISO/src/vdrive.rs:162-168 | the free device is found iff `losetup -f` succeeds and its trimmed output has a file name; that output is then the path and the file name the name, after the one `losetup -f` request |
| ScanProps.MountInternalFinds | pISO/src/vdrive.rs:160-232 | a successful `mount_internal` from Unmounted uses the device `losetup -f` found, mounts exactly the MountedParts of that device, opens exactly its MountedIsos, none hidden, and records Internal |
| VDrive.VirtualDrive.ScanDev | pISO/src/vdrive.rs:174-222 | the loop over `/dev` makes the requests and returns the result of the scan, stopping at the first error |
| MountProps.DevScanConcat | pISO/src/vdrive.rs:174-222 | scanning entries a + b is scanning a and then b, and nothing after a failure |
| MountProps.DevScanStops | pISO/src/vdrive.rs:174-222 | a scan that fails at entry i does nothing with the later entries |
| ScanProps.DevScanFound | pISO/src/vdrive.rs:174-222 | a scan of `/dev` succeeds iff every entry is gone through without error (DevEntryOk); it then mounts exactly the MountedParts and opens exactly the MountedIsos (the non-hidden ISOS entries of each mounted partition), in listing order, none hidden |
| VDrive.VirtualDrive.MountDevEntry | pISO/src/vdrive.rs:175-196 | one `/dev` entry: errors propagate, non-partitions are skipped, and partitions are mounted at their MountPoint |
| ScanProps.DevEntryStepFound | pISO/src/vdrive.rs:175-219 | one `/dev` entry succeeds iff DevEntryOk holds, and then contributes MountedPart and PartitionIsos, none hidden |
| ScanProps.LoopTenIsTakenForAPartitionOfLoopOne | pISO/src/vdrive.rs:176-189 | for `loop1`: `loop1p2` is partition "2", `loop1` is skipped, and `loop10` is admitted as partition "10" |
| ScanProps.PartitionDeviceExtendsName | pISO/src/vdrive.rs:176-185 | an entry taken for a partition is longer than the device's name and starts with it |
| Paths.StartsWithMeaning | pISO/src/vdrive.rs:176-209 | `starts_with`: `s` starts with `prefix` iff it is `prefix` followed by the rest of `s` |
| MountSpec.PartitionNumber | pISO/src/vdrive.rs:187-189 | the partition number is the text after the last `p` (always defined) |
| ScanProps.PartitionNumberAfterLastP | pISO/src/vdrive.rs:187 | the partition number of prefix + "p" + n is n when n has no `p` |
| Paths.Split | pISO/src/vdrive.rs:187 | `split` always yields at least one piece |
| Paths.SplitLast | pISO/src/vdrive.rs:187 | the last piece of `split` is the text after the last separator |
| Paths.TextAfterLastUnique | pISO/src/vdrive.rs:187 | the text after the last separator is unique |
| Paths.JoinWithSplit | pISO/src/vdrive.rs:187 | joining the pieces of a split with the separator gives back the string |
| Paths.SplitJoinWith | pISO/src/vdrive.rs:187 | splitting pieces that were joined, none containing the separator, gives back the pieces |
| ScanProps.LoopTenSharesAMountPoint | pISO/src/vdrive.rs:176-194 | for `loop1`, both `loop10` and `loop1p10` are taken for partitions and get the same mount point |
| ScanProps.MountPointShape | pISO/src/vdrive.rs:191-194 | the mount point is `/mnt/<name> (partition <n>)`, or `<name> (partition <n>)` alone when the translated name is absolute |
| VDrive.VirtualDrive.MountPartitionAt | pISO/src/vdrive.rs:195-219 | creates the mount point and mounts; a mount failure skips the partition; otherwise the ISOS folder is opened, as PartitionStep says |
| ScanProps.FailedPartitionSkipped | pISO/src/vdrive.rs:196-219 | a partition that no program mounts does not change the result of the scan, and the entries after it are still scanned |
| VDrive.VirtualDrive.OpenIsoFolder | pISO/src/vdrive.rs:200-202 | opens images only when the ISOS folder exists; a listing error propagates |
| ScanProps.IsoFolderScanVisible | pISO/src/vdrive.rs:200-217 | no image opened from an ISOS folder has a hidden name |
| VDrive.VirtualDrive.ScanIsoFolder | pISO/src/vdrive.rs:202-216 | the loop over an ISOS folder makes the requests and returns the result of IsoScan |
| MountProps.IsoScanConcat | pISO/src/vdrive.rs:202-216 | scanning image entries a + b is scanning a and then b |
| MountProps.IsoScanStops | pISO/src/vdrive.rs:202-216 | an image scan that fails at entry i does nothing with the later entries |
| ScanProps.IsoScanMeaning | pISO/src/vdrive.rs:202-216 | an image scan succeeds iff every entry is readable, has a UTF-8 name, and (unless hidden) opens; then it yields VisibleIsos, in listing order |
| ScanProps.HiddenMeaning | pISO/src/vdrive.rs:204-209 | an entry is hidden iff its name starts with the character `.` |
| Paths.JoinShape | pISO/src/vdrive.rs:191-214 | `Path::join`: the result ends in the joined name; an absolute name is the whole result; otherwise the result starts with the base and adds at most one separator |
| ScanProps.IsoFolderScanMeaning | pISO/src/vdrive.rs:200-216 | the scan of an ISOS folder succeeds iff the folder is absent, or is listed and every entry is gone through; it then yields FolderIsos (none when absent) |
| ScanProps.VisibleIsosAreVisible | pISO/src/vdrive.rs:204-209 | entries whose names start with `.` never become images |
| VDrive.VirtualDrive.UnmountInternal | pISO/src/vdrive.rs:240-259 | result, new state and requests are those of UnmountInternalSpec |
| VDrive.VirtualDrive.ReleaseMount | pISO/src/vdrive.rs:243-252 | images, then partitions, then detach, stopping at the first failure, as Teardown says |
| VDrive.VirtualDrive.CloseAll | pISO/src/vdrive.rs:244-246 | unmounts the images in order and stops at the first failure |
| MountProps.CloseIsosStop | pISO/src/vdrive.rs:244-246 | after image i fails to unmount, the later images are not touched |
| VDrive.VirtualDrive.ReleaseAll | pISO/src/vdrive.rs:247-250 | runs `umount` and then removes the directory for each partition in order, stopping at the first failure |
| MountProps.ReleasePartsStop | pISO/src/vdrive.rs:247-250 | after partition j fails, the later partitions are not touched |
| MountProps.TeardownRuns | pISO/src/vdrive.rs:243-252 | the teardown makes the TeardownCalls requests (images, then umount and removal per partition, then detach) up to and including the first one that fails |
| MountProps.UnmountInternalOrder | pISO/src/vdrive.rs:240-259 | `unmount_internal` on Internal makes TeardownCalls up to the first failure and returns that failure's error with the drive unchanged; it becomes Unmounted only when every request succeeds |
| MountProps.FirstFailureConcat | pISO/src/vdrive.rs:243-252 | the first failing request of a + b is the first in a, or else the first in b |
| VDrive.VirtualDrive.ToggleMount | pISO/src/vdrive.rs:261-275 | result, new state and requests are those of ToggleSpec |
| VDrive.VirtualDrive.InternalToExternal | pISO/src/vdrive.rs:265-268 | `unmount_internal` followed by `mount_external`, with `?` between them |
| VDrive.VirtualDrive.ExternalToInternal | pISO/src/vdrive.rs:269-273 | `unmount_external` followed by `mount_internal`, with its result discarded |
| DriveProps.ToggleSwitches | pISO/src/vdrive.rs:261-275 | a successful toggle makes an External drive Internal, and any other drive External |
| DriveProps.ToggleNoRollback | pISO/src/vdrive.rs:261-275 | a toggle that fails after changing the drive leaves it Unmounted (with the flag cleared when it came from External) and does not restore it |
| VDrive.VirtualDrive.OnEvent | pISO/src/vdrive.rs:302-309 | Select is handled and emits ToggleVDriveMount of this window; any other event is unhandled and emits nothing |
| VDrive.VirtualDrive.DoAction | pISO/src/vdrive.rs:311-330 | result, new state and requests are those of DoActionSpec |
| DriveProps.DoActionHandlesOwnActions | pISO/src/vdrive.rs:311-330 | an action is handled iff it is addressed to this drive's window or name; no action is emitted; other actions change nothing |
| DriveProps.SelectTogglesMount | pISO/src/vdrive.rs:302-319 | the action that Select emits toggles this drive's mount |
| DriveProps.SettingToggleFlipsOneSetting | pISO/src/vdrive.rs:321-328 | a read-only or non-removable toggle addressed to this drive flips exactly that setting, is handled, emits nothing, makes no request and leaves the state alone |
| DriveProps.SettingTogglesAreInvolutions | pISO/src/vdrive.rs:321-328 | toggling read-only or non-removable twice restores the drive |
| VDrive.VirtualDrive.OnLoad | pISO/src/vdrive.rs:346-369 | result, new state and requests are those of OnLoadSpec |
| DriveProps.OnLoadResumes | pISO/src/vdrive.rs:346-369 | a successful `on_load` of an Unmounted drive leaves it External iff the persisted flag was set, with flag and state agreeing |
| DriveProps.FailedRestoreKeepsFlag | pISO/src/vdrive.rs:346-351 | with the flag set, a failed `on_load` leaves the drive Unmounted with the flag set, which disagrees with the state; it fails whenever the gadget lock fails |
| DriveProps.OnLoadRequests | pISO/src/vdrive.rs:346-351 | with the flag set, `on_load` only locks and exports; with it clear, its first request is `losetup -f` |
| Errors.Discard | pISO/src/vdrive.rs:271 | dropping a result's value keeps whether it succeeded and its error |

## Left out

- **Rendering** (`Render for VirtualDrive`: the label, the size in GB, the glyphs) is
  display output and is not modelled.
- **Widget tree** (`Widget`: children, window id, `DisplayManager::add_child`) is not
  modelled. The constructor takes the window id the display manager allocated.
- VDrive.VirtualDrive.constructor: the failure of `add_child` inside `new` is not
  modelled.
- VDrive.VirtualDrive.OnLoad: the background `fstrim` threads that `on_load` starts
  when `system.auto_fstrim` is set are not modelled, and neither is the switch
  itself. They are detached threads, and their results are ignored.
- **`Stateful` accessors** (`state`, `state_mut`, `key`) and serde serialisation of
  `PersistVDriveState` are not modelled. The model starts from a restored `persist`
  value.
- **`utils::translate_drive_name`** is an uninterpreted function in `Config`.
- **Collaborator internals** are outside the model, and each is one oracle answer in
  `World`:
  - `iso::Iso` (its own mounting and export);
  - the USB gadget;
  - the shell commands;
  - the filesystem.
- **Fixed answers.** `World` answers each request the same way every time. A real
  system can answer a repeated request differently (for instance, `losetup -f`
  before and after an attach). The proofs therefore hold for each fixed set of
  answers.
- **Unchecked device choice.** `losetup -fP` attaches to whatever device is free at
  that moment. The model, like the code, assumes this is the device that
  `losetup -f` printed.
- **Mutex poisoning** of the gadget lock is modelled as an error answer. Concurrent
  access to the gadget is not modelled.
- **Console output.** The `println!` of a failed partition mount is not modelled.
- **Path strings.** OS strings and lossy conversion are strings. A directory entry
  carries its lossy name and a flag saying whether the name was valid UTF-8.
- **Volume size.** The `u64` size is a `nat`, and it is only read.
