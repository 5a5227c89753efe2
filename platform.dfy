/** What the virtual drive sees of the rest of the device: the logical volume, the
    configuration, the input events and actions, and the operating system, USB gadget
    and disk-image collaborators it calls. The collaborators are modelled as a fixed
    oracle (`World`) that answers every request, and a `Host` object that performs the
    requests and records them, in order, in its trace. */
module Platform {
  import opened Errors
  import opened Paths

  /** The name of one directory entry (read_dir never yields `.`, `..`, or a name
      holding `/`). */
  type EntryName = s: string | ValidEntryName(s) witness "a"

  /** One entry of a directory listing: its name as `to_string_lossy` gives it, and
      whether the name is valid UTF-8 (`into_string` succeeds). */
  datatype DirEntry = DirEntry(name: EntryName, utf8: bool)

  /** The identifier the USB gadget hands back for an exported file (`usb::StorageID`). */
  datatype StorageId = StorageId(slot: nat)

  /** A nested disk-image handle (`iso::Iso`), known to the drive by the path it was
      created from. */
  datatype Iso = Iso(path: string)

  /** The logical volume behind the drive (`lvm::LogicalVolume`). */
  datatype LogicalVolume = LogicalVolume(name: string, size: nat, path: string)

  /** The part of `config::Config` the drive's mount logic uses: the display-name
      translation of `utils::translate_drive_name`. */
  datatype Config = Config(translateDriveName: string -> string)

  /** A window of the display manager. */
  type WindowId = nat

  /** A controller event (`controller::Event`): Select, or any other. */
  datatype Event = Select | OtherEvent(code: nat)

  /** A dispatched action (`action::Action`): the three the drive reacts to, or any other. */
  datatype Action =
    | ToggleVDriveMount(window: WindowId)
    | ToggleDriveReadOnly(drive: string)
    | ToggleDriveNonRemovable(drive: string)
    | OtherAction(code: nat)

  /** One request to a collaborator. */
  datatype Call =
    | Exec(program: string, args: seq<string>)   // utils::run_check_output
    | ListDir(path: string)                      // fs::read_dir
    | MakeDirs(path: string)                     // fs::create_dir_all
    | RemoveDirs(path: string)                   // fs::remove_dir_all
    | Probe(path: string)                        // Path::exists
    | LockGadget                                 // Mutex<UsbGadget>::lock
    | Export(file: string, directAttach: bool, readOnly: bool, removable: bool)  // UsbGadget::export_file
    | Unexport(id: StorageId)                    // UsbGadget::unexport_file
    | OpenIso(path: string)                      // iso::Iso::new
    | CloseIso(iso: Iso)                         // iso::Iso::unmount

  /** How the collaborators answer each request: success (with its value) or failure. */
  datatype World = World(
    runCheckOutput: (string, seq<string>) -> Result<string>,
    readDir: string -> Result<seq<Result<DirEntry>>>,
    createDirAll: string -> Result<()>,
    removeDirAll: string -> Result<()>,
    pathExists: string -> bool,
    lockGadget: Result<()>,
    exportFile: (string, bool, bool, bool) -> Result<StorageId>,
    unexportFile: StorageId -> Result<()>,
    newIso: string -> Result<()>,
    unmountIso: Iso -> Result<()>)

  /** Whether a request succeeds, and with which error it fails. */
  function Answer(w: World, c: Call): Result<()> {
    match c
    case Exec(program, args) => Discard(w.runCheckOutput(program, args))
    case ListDir(path) => Discard(w.readDir(path))
    case MakeDirs(path) => w.createDirAll(path)
    case RemoveDirs(path) => w.removeDirAll(path)
    case Probe(_) => Ok(())
    case LockGadget => w.lockGadget
    case Export(file, direct, ro, removable) => Discard(w.exportFile(file, direct, ro, removable))
    case Unexport(id) => w.unexportFile(id)
    case OpenIso(path) => w.newIso(path)
    case CloseIso(iso) => w.unmountIso(iso)
  }

  /** Requests recorded in three runs: the trace does not depend on how the runs are grouped. */
  lemma AppendAssoc<T>(a: seq<T>, b: seq<T>, c: seq<T>)
    ensures a + b + c == a + (b + c)
  {
  }

  /** The collaborators as the drive calls them. Every call is appended to `trace`. */
  class Host {
    const world: World
    var trace: seq<Call>

    constructor (world: World)
      ensures this.world == world && trace == []
    {
      this.world := world;
      trace := [];
    }

    method RunCheckOutput(program: string, args: seq<string>) returns (r: Result<string>)
      modifies this
      ensures trace == old(trace) + [Exec(program, args)]
      ensures r == world.runCheckOutput(program, args)
    {
      trace := trace + [Exec(program, args)];
      r := world.runCheckOutput(program, args);
    }

    method ReadDir(path: string) returns (r: Result<seq<Result<DirEntry>>>)
      modifies this
      ensures trace == old(trace) + [ListDir(path)]
      ensures r == world.readDir(path)
    {
      trace := trace + [ListDir(path)];
      r := world.readDir(path);
    }

    method CreateDirAll(path: string) returns (r: Result<()>)
      modifies this
      ensures trace == old(trace) + [MakeDirs(path)]
      ensures r == world.createDirAll(path)
    {
      trace := trace + [MakeDirs(path)];
      r := world.createDirAll(path);
    }

    method RemoveDirAll(path: string) returns (r: Result<()>)
      modifies this
      ensures trace == old(trace) + [RemoveDirs(path)]
      ensures r == world.removeDirAll(path)
    {
      trace := trace + [RemoveDirs(path)];
      r := world.removeDirAll(path);
    }

    method Exists(path: string) returns (r: bool)
      modifies this
      ensures trace == old(trace) + [Probe(path)]
      ensures r == world.pathExists(path)
    {
      trace := trace + [Probe(path)];
      r := world.pathExists(path);
    }

    method Lock() returns (r: Result<()>)
      modifies this
      ensures trace == old(trace) + [LockGadget]
      ensures r == world.lockGadget
    {
      trace := trace + [LockGadget];
      r := world.lockGadget;
    }

    method ExportFile(file: string, directAttach: bool, readOnly: bool, removable: bool)
      returns (r: Result<StorageId>)
      modifies this
      ensures trace == old(trace) + [Export(file, directAttach, readOnly, removable)]
      ensures r == world.exportFile(file, directAttach, readOnly, removable)
    {
      trace := trace + [Export(file, directAttach, readOnly, removable)];
      r := world.exportFile(file, directAttach, readOnly, removable);
    }

    method UnexportFile(id: StorageId) returns (r: Result<()>)
      modifies this
      ensures trace == old(trace) + [Unexport(id)]
      ensures r == world.unexportFile(id)
    {
      trace := trace + [Unexport(id)];
      r := world.unexportFile(id);
    }

    method NewIso(path: string) returns (r: Result<Iso>)
      modifies this
      ensures trace == old(trace) + [OpenIso(path)]
      ensures r == if world.newIso(path).Ok? then Ok(Iso(path)) else Err(world.newIso(path).error)
    {
      trace := trace + [OpenIso(path)];
      var made := world.newIso(path);
      r := if made.Ok? then Ok(Iso(path)) else Err(made.error);
    }

    method UnmountIso(iso: Iso) returns (r: Result<()>)
      modifies this
      ensures trace == old(trace) + [CloseIso(iso)]
      ensures r == world.unmountIso(iso)
    {
      trace := trace + [CloseIso(iso)];
      r := world.unmountIso(iso);
    }
  }
}
