/** The library's state and what every locked stretch of its operations does to it
    (internal/library/library.go). A stretch runs with mu held from one release point to the next. */
module LibraryState {
  import opened Common
  import opened Placement
  import opened Topology
  import opened Sorting
  import Barcode

  datatype CleaningState = Unset | Available | InUse | Expired

  datatype Volume = Volume(barcode: string, tapeSet: string, cleaning: bool,
                           state: CleaningState, uses: nat, loads: nat)

  datatype Cleaning = Cleaning(enabled: bool, robot: bool, maxUses: int)

  /** Tape sets and drive types that resolve against the catalog, with their formats and families. */
  datatype Settings = Settings(cleaning: Cleaning, offsite: bool,
                               tapeSets: map<string, Barcode.Spec>, driveFamilies: map<string, string>)

  datatype LogicalConfig = LogicalConfig(name: string, drives: seq<int>, magazines: seq<string>, mailboxes: seq<string>)

  /** A logical library: drive indices and the addresses of its slots and I/O slots. */
  datatype LogicalLibrary = LogicalLibrary(name: string, drives: set<int>, slots: set<int>, ioslots: set<int>)

  datatype Config = Config(layout: Layout, settings: Settings, libraries: seq<LogicalConfig>)

  datatype Door = MagazineDoor(id: string) | MailboxDoor(id: string)

  /** The arm's busy flag, the elements marked busy, and the count of open doors. */
  datatype Arm = Arm(busy: bool, elements: set<Ref>, doorCount: int)

  datatype Lib = Lib(store: Store, vols: seq<Volume>, openDoors: set<Door>, arm: Arm, roboticFault: bool,
                     settings: Settings, libraries: seq<LogicalLibrary>)

  datatype Error = NotFound | Empty | Full | DriveFault | RoboticFault | InvalidTarget | DoorClosed | OutsideOnly
                 | AlreadyExists | OutsideLibrary | CleaningTapeExpired | CleaningPoolFull | OffsiteDisabled
                 | IncompatibleFamily | InvalidBarcode | BarcodeExists | NoBarcodeLeft | PINRefused | ActionRefused

  datatype Result = Ok | Err(error: Error)

  /** What happened to the cartridges, in order. */
  datatype Event = Transferred(v: Cartridge, src: Place, dst: Place)
                 | Created(v: Cartridge)
                 | Deleted(v: Cartridge)
                 | Rebuilt(route: map<Ref, Ref>)

  datatype ActionKind = LoadAction | PickupAction | UnknownAction

  datatype DoorAction = DoorAction(kind: ActionKind, address: int, barcode: string)

  datatype Call =
    | Move(from: Ref, to: Ref, scope: string)
    | Load(from: Ref, drive: int, scope: string)
    | Unload(drive: int, to: Ref, scope: string)
    | OpenDoor(door: Door, pinAccepted: bool)
    | CloseDoor(door: Door, actions: seq<DoorAction>)
    | Reconfigure(config: Config)
    | AddLibrary(library: LogicalConfig)
    | UpdateLibrary(name: string, library: LogicalConfig)
    | DeleteLibrary(name: string)
    | OffsiteSend(from: Ref)
    | OffsiteRecall(barcode: string, to: Ref)
    | CreateCartridge(tapeSet: string, barcode: string)
    | CreateCartridges(tapeSet: string, count: int)
    | CreateCleaningTape
    | DeleteOutside(barcode: string)
    | SetDriveFault(drive: int, fault: bool)
    | SetRoboticFault(fault: bool)
    | SetCleaning(cleaning: Cleaning)
    | SetOffsite(offsite: bool)

  /** Where a call is between two release points, with what it captured. */
  datatype Stage =
    | Start
    | Travel(v: Cartridge, left: nat, cleaning: bool)
    | Washing(v: Cartridge)
    | Ejecting(v: Cartridge, origin: Option<Ref>, left: nat)
    | DoorMoving
    | Scanning(left: nat)

  /** A stretch ends by releasing mu for a simulated delay, by releasing both locks, or by returning. */
  datatype Next = Sleep(stage: Stage) | Drift(stage: Stage) | Return(result: Result)

  datatype Seg = Seg(lib: Lib, next: Next, events: seq<Event>)

  const MAX_CLEANING_TAPES := 5
  const CLEANING_SPEC := Barcode.Spec("cleaning", "CLN", 5)

  // ---- small changes

  function Fail(l: Lib, e: Error): Seg {
    Seg(l, Return(Err(e)), [])
  }

  function Claim(l: Lib, refs: set<Ref>): Lib {
    l.(arm := Arm(true, l.arm.elements + refs, l.arm.doorCount))
  }

  function Release(l: Lib, refs: set<Ref>): Lib {
    l.(arm := Arm(false, l.arm.elements - refs, l.arm.doorCount))
  }

  function WithVol(l: Lib, v: Cartridge, vol: Volume): Lib {
    if v < |l.vols| then l.(vols := l.vols[v := vol]) else l
  }

  /** A drive's Origin and its mounts since the last cleaning. */
  function Seat(s: Store, i: int, origin: Option<Ref>, mounts: nat): Store {
    if 0 <= i < |s.drives| then s.(drives := s.drives[i := s.drives[i].(origin := origin, mounts := mounts)]) else s
  }

  function MountsOf(s: Store, i: int): nat {
    if 0 <= i < |s.drives| then s.drives[i].mounts else 0
  }

  function OriginAt(s: Store, i: int): Option<Ref> {
    if 0 <= i < |s.drives| then s.drives[i].origin else None
  }

  function VolOf(l: Lib, v: Cartridge): Volume {
    if v < |l.vols| then l.vols[v] else Volume("", "", false, Unset, 0, 0)
  }

  /** A cleaning tape that leaves a drive is available again unless it has expired. */
  function Rested(vol: Volume): Volume {
    if vol.state == Expired then vol else vol.(state := Available)
  }

  // ---- logical libraries

  function Member(library: LogicalLibrary, r: Ref): bool {
    match r
    case SlotRef(a) => a in library.slots
    case IOSlotRef(a) => a in library.ioslots
    case DriveRef(i) => i in library.drives
  }

  /** Only the first library of that name is asked. */
  function InLibrary(libraries: seq<LogicalLibrary>, name: string, r: Ref): bool {
    if libraries == [] then false
    else if libraries[0].name == name then Member(libraries[0], r)
    else InLibrary(libraries[1..], name, r)
  }

  predicate InScope(l: Lib, scope: string, a: Ref, b: Ref) {
    scope == "" || (InLibrary(l.libraries, scope, a) && InLibrary(l.libraries, scope, b))
  }

  function AddressesIn(slots: seq<Slot>, ids: seq<string>): set<int> {
    set i | 0 <= i < |slots| && slots[i].unit in ids :: slots[i].address
  }

  function ResolveLibrary(s: Store, c: LogicalConfig): LogicalLibrary {
    LogicalLibrary(c.name, (set i | i in c.drives && 0 <= i < |s.drives|),
                   AddressesIn(s.slots, c.magazines), AddressesIn(s.ioslots, c.mailboxes))
  }

  function ResolveAll(s: Store, cs: seq<LogicalConfig>): (r: seq<LogicalLibrary>)
    ensures |r| == |cs| && forall k :: 0 <= k < |r| ==> r[k] == ResolveLibrary(s, cs[k])
  {
    seq(|cs|, k requires 0 <= k < |cs| => ResolveLibrary(s, cs[k]))
  }

  /** Another library already has one of these drives, magazines or mailboxes; unnamed units are not compared. */
  predicate Conflicts(s: Store, existing: LogicalLibrary, c: LogicalConfig) {
    || (exists i :: i in existing.drives && i in c.drives)
    || (exists i :: 0 <= i < |s.slots| && s.slots[i].address in existing.slots
                    && s.slots[i].unit != "" && s.slots[i].unit in c.magazines)
    || (exists i :: 0 <= i < |s.ioslots| && s.ioslots[i].address in existing.ioslots
                    && s.ioslots[i].unit != "" && s.ioslots[i].unit in c.mailboxes)
  }

  predicate AnyConflict(l: Lib, c: LogicalConfig, exclude: string) {
    exists k :: 0 <= k < |l.libraries| && l.libraries[k].name != exclude && Conflicts(l.store, l.libraries[k], c)
  }

  function IndexOf(libraries: seq<LogicalLibrary>, name: string): (r: Option<nat>)
    ensures r.Some? ==> r.value < |libraries|
  {
    if libraries == [] then None
    else if libraries[0].name == name then Some(0)
    else match IndexOf(libraries[1..], name)
         case None => None
         case Some(i) => Some(i + 1)
  }

  function AddLibraryStep(l: Lib, c: LogicalConfig): Seg {
    if IndexOf(l.libraries, c.name).Some? then Fail(l, AlreadyExists)
    else if AnyConflict(l, c, "") then Fail(l, AlreadyExists)
    else Seg(l.(libraries := l.libraries + [ResolveLibrary(l.store, c)]), Return(Ok), [])
  }

  function UpdateLibraryStep(l: Lib, name: string, c: LogicalConfig): Seg {
    match IndexOf(l.libraries, name)
    case None => Fail(l, NotFound)
    case Some(i) =>
      if AnyConflict(l, c, name) then Fail(l, AlreadyExists)
      else Seg(l.(libraries := l.libraries[i := ResolveLibrary(l.store, c.(name := name))]), Return(Ok), [])
  }

  function DeleteLibraryStep(l: Lib, name: string): Seg {
    match IndexOf(l.libraries, name)
    case None => Fail(l, NotFound)
    case Some(i) =>
      Seg(l.(libraries := l.libraries[..i] + l.libraries[i + 1..]), Return(Ok), [])
  }

  // ---- Move

  function MoveStart(l: Lib, from: Ref, to: Ref, scope: string): Seg {
    if !InScope(l, scope, from, to) then Fail(l, OutsideLibrary)
    else if l.roboticFault then Fail(l, RoboticFault)
    else if !Exists(l.store, from) then Fail(l, NotFound)
    else if !Exists(l.store, to) then Fail(l, NotFound)
    else match Get(l.store, from)
         case None => Fail(l, Empty)
         case Some(v) =>
           if Get(l.store, to).Some? then Fail(l, Full)
           else Seg(Claim(l, {from, to}), Sleep(Travel(v, 1, false)), [])
  }

  function MoveCommit(l: Lib, from: Ref, to: Ref, v: Cartridge): Seg {
    var freed := Release(l, {from, to});
    if Get(l.store, from) != Some(v) then Fail(freed, Empty)
    else if Get(l.store, to).Some? then Fail(freed, Full)
    else Seg(freed.(store := Shift(l.store, v, At(from), At(to))), Return(Ok), [Transferred(v, At(from), At(to))])
  }

  // ---- Load

  /** Families are compared only when both are known and neither is "generic". */
  predicate Incompatible(l: Lib, drive: Drive, vol: Volume) {
    && !vol.cleaning
    && drive.driveType != "" && drive.driveType in l.settings.driveFamilies
    && l.settings.driveFamilies[drive.driveType] != "" && l.settings.driveFamilies[drive.driveType] != "generic"
    && vol.tapeSet != "" && vol.tapeSet in l.settings.tapeSets
    && l.settings.tapeSets[vol.tapeSet].family != "generic"
    && l.settings.tapeSets[vol.tapeSet].family != l.settings.driveFamilies[drive.driveType]
  }

  function LoadStart(l: Lib, from: Ref, i: int, scope: string): Seg {
    if !InScope(l, scope, from, DriveRef(i)) then Fail(l, OutsideLibrary)
    else if !Exists(l.store, DriveRef(i)) then Fail(l, NotFound)
    else if l.store.drives[i].fault then Fail(l, DriveFault)
    else if l.roboticFault then Fail(l, RoboticFault)
    else if Get(l.store, DriveRef(i)).Some? then Fail(l, Full)
    else if !Exists(l.store, from) then Fail(l, NotFound)
    else match Get(l.store, from)
         case None => Fail(l, Empty)
         case Some(v) =>
           var cleaning := l.settings.cleaning.enabled && VolOf(l, v).cleaning;
           if cleaning && VolOf(l, v).state == Expired then Fail(l, CleaningTapeExpired)
           else if Incompatible(l, l.store.drives[i], VolOf(l, v)) then Fail(l, IncompatibleFamily)
           else Seg(Claim(l, {from, DriveRef(i)}), Sleep(Travel(v, 2, cleaning)), [])
  }

  function Mounted(vol: Volume, cleaning: bool): Volume {
    vol.(loads := vol.loads + 1, state := if cleaning then InUse else vol.state)
  }

  /** Only the source is checked again; a cleaning tape then washes with both locks released. */
  function LoadCommit(l: Lib, from: Ref, i: int, v: Cartridge, cleaning: bool): Seg {
    var freed := Release(l, {from, DriveRef(i)});
    if Get(l.store, from) != Some(v) then Fail(freed, Empty)
    else
      var mounts := MountsOf(l.store, i) + if cleaning then 0 else 1;
      var store := Seat(Shift(l.store, v, At(from), At(DriveRef(i))), i, Some(from), mounts);
      Seg(WithVol(freed.(store := store), v, Mounted(VolOf(l, v), cleaning)),
          if cleaning then Drift(Washing(v)) else Return(Ok),
          [Transferred(v, At(from), At(DriveRef(i)))])
  }

  function Used(c: Cleaning, vol: Volume): Volume {
    vol.(uses := vol.uses + 1, state := if c.maxUses > 0 && vol.uses + 1 >= c.maxUses then Expired else vol.state)
  }

  function OriginSet(origin: Option<Ref>): set<Ref> {
    match origin
    case None => {}
    case Some(r) => {r}
  }

  /** After the cleaning delay, with both locks held again: the drive is looked up afresh. */
  function WashDone(l: Lib, i: int, v: Cartridge): Seg {
    if Get(l.store, DriveRef(i)) != Some(v) then Seg(l, Return(Ok), [])
    else
      var origin := OriginAt(l.store, i);
      var counted := WithVol(l.(store := Seat(l.store, i, origin, 0)), v, Used(l.settings.cleaning, VolOf(l, v)));
      if l.settings.cleaning.robot then
        Seg(Claim(counted, {DriveRef(i)} + OriginSet(origin)), Sleep(Ejecting(v, origin, 2)), [])
      else
        Seg(counted, Return(Ok), [])
  }

  /** Back to the Origin when it exists and is empty, otherwise to the outside list. */
  function EjectPlace(s: Store, origin: Option<Ref>): Place {
    match origin
    case None => Outside
    case Some(r) => if Exists(s, r) && Get(s, r) == None then At(r) else Outside
  }

  function EjectCommit(l: Lib, i: int, v: Cartridge, origin: Option<Ref>): Seg {
    var freed := Release(l, {DriveRef(i)} + OriginSet(origin));
    var dst := EjectPlace(l.store, origin);
    var store := Seat(Shift(l.store, v, At(DriveRef(i)), dst), i, None, MountsOf(l.store, i));
    Seg(WithVol(freed.(store := store), v, Rested(VolOf(l, v))), Return(Ok), [Transferred(v, At(DriveRef(i)), dst)])
  }

  // ---- Unload

  function UnloadStart(l: Lib, i: int, to: Ref, scope: string): Seg {
    if !InScope(l, scope, DriveRef(i), to) then Fail(l, OutsideLibrary)
    else if !Exists(l.store, DriveRef(i)) then Fail(l, NotFound)
    else if l.roboticFault then Fail(l, RoboticFault)
    else match Get(l.store, DriveRef(i))
         case None => Fail(l, Empty)
         case Some(v) =>
           if !Exists(l.store, to) then Fail(l, NotFound)
           else if Get(l.store, to).Some? then Fail(l, Full)
           else Seg(Claim(l, {DriveRef(i), to}), Sleep(Travel(v, 2, false)), [])
  }

  /** The drive is emptied whatever happened meanwhile; a filled destination sends the tape outside. */
  function UnloadCommit(l: Lib, i: int, to: Ref, v: Cartridge): Seg {
    var freed := Release(l, {DriveRef(i), to});
    var vol := VolOf(l, v);
    var dst := if Get(l.store, to).Some? then Outside else At(to);
    var store := Seat(Shift(l.store, v, At(DriveRef(i)), dst), i, None, if vol.cleaning then 0
        else MountsOf(l.store, i));
    Seg(WithVol(freed.(store := store), v, if vol.cleaning then Rested(vol) else vol),
        Return(if dst == Outside then Err(Full) else Ok),
        [Transferred(v, At(DriveRef(i)), dst)])
  }

  // ---- doors

  function SlotsBehind(s: Store, door: Door): seq<Slot> {
    if door.MagazineDoor? then s.slots else s.ioslots
  }

  function RefBehind(door: Door, address: int): Ref {
    if door.MagazineDoor? then SlotRef(address) else IOSlotRef(address)
  }

  predicate UnitExists(s: Store, door: Door) {
    exists i :: 0 <= i < |SlotsBehind(s, door)| && SlotsBehind(s, door)[i].unit == door.id
  }

  /** The slot at an address is behind this door. */
  predicate Behind(s: Store, door: Door, address: int) {
    match door
    case MagazineDoor(id) => 0 < address <= |s.slots| && s.slots[address - 1].unit == id
    case MailboxDoor(id) =>
      |s.slots| < address <= |s.slots| + |s.ioslots| && s.ioslots[address - 1 - |s.slots|].unit == id
  }

  function OpenStart(l: Lib, door: Door, pinAccepted: bool): Seg {
    if !UnitExists(l.store, door) then Fail(l, NotFound)
    else if !pinAccepted then Fail(l, PINRefused)
    else if door in l.openDoors then Seg(l, Return(Ok), [])
    else Seg(l, Sleep(DoorMoving), [])
  }

  function OpenCommit(l: Lib, door: Door): Seg {
    Seg(l.(openDoors := l.openDoors + {door}, arm := l.arm.(doorCount := l.arm.doorCount + 1)), Return(Ok), [])
  }

  function Shut(l: Lib, door: Door): Lib {
    l.(openDoors := l.openDoors - {door}, arm := l.arm.(doorCount := l.arm.doorCount - 1))
  }

  function FindBarcode(vols: seq<Volume>, among: seq<Cartridge>, barcode: string): Option<Cartridge> {
    if among == [] then None
    else if among[0] < |vols| && vols[among[0]].barcode == barcode then Some(among[0])
    else FindBarcode(vols, among[1..], barcode)
  }

  function BarcodeOf(vols: seq<Volume>, v: Cartridge): string {
    if v < |vols| then vols[v].barcode else ""
  }

  /** One staged action: what it transfers, if it is accepted. */
  function ActionEvent(vols: seq<Volume>, door: Door, s: Store, a: DoorAction): Option<Event> {
    var r := RefBehind(door, a.address);
    match a.kind
    case UnknownAction => None
    case LoadAction =>
      if a.barcode == "" || !Exists(s, r) || !Behind(s, door, a.address) then None
      else (match FindBarcode(vols, s.outside, a.barcode)
            case None => None
            case Some(v) => if Get(s, r).Some? then None else Some(Transferred(v, Outside, At(r))))
    case PickupAction =>
      if !Exists(s, r) || !Behind(s, door, a.address) then None
      else (match Get(s, r)
            case None => None
            case Some(v) =>
              if FindBarcode(vols, s.outside, BarcodeOf(vols, v)).Some? then None
              else Some(Transferred(v, At(r), Outside)))
  }

  datatype Batch = Accepted(store: Store, events: seq<Event>) | Refused

  /** The staged actions applied one by one, in order; one bad action refuses them all. */
  function ApplyActions(vols: seq<Volume>, door: Door, s: Store, actions: seq<DoorAction>): Batch {
    if actions == [] then Accepted(s, [])
    else
      match ApplyActions(vols, door, s, actions[..|actions| - 1])
      case Refused => Refused
      case Accepted(t, events) =>
        match ActionEvent(vols, door, t, actions[|actions| - 1])
        case Some(Transferred(v, src, dst)) => Accepted(Shift(t, v, src, dst), events + [Transferred(v, src, dst)])
        case _ => Refused
  }

  predicate StringLess(a: string, b: string) {
    if b == "" then false
    else if a == "" then true
    else a[0] < b[0] || (a[0] == b[0] && StringLess(a[1..], b[1..]))
  }

  function BarcodeLess(vols: seq<Volume>): (Cartridge, Cartridge) -> bool {
    (u: Cartridge, v: Cartridge) => StringLess(BarcodeOf(vols, u), BarcodeOf(vols, v))
  }

  function SortByBarcode(vols: seq<Volume>, vs: seq<Cartridge>): seq<Cartridge> {
    SortBy(vs, BarcodeLess(vols))
  }

  /** The whole batch: the actions in order, then the outside list sorted by barcode. */
  function CloseBatch(vols: seq<Volume>, door: Door, s: Store, actions: seq<DoorAction>): Batch {
    match ApplyActions(vols, door, s, actions)
    case Refused => Refused
    case Accepted(t, events) => Accepted(t.(outside := SortByBarcode(vols, t.outside)), events)
  }

  function CloseStart(l: Lib, door: Door): Seg {
    if door !in l.openDoors then Fail(l, DoorClosed) else Seg(l, Sleep(DoorMoving), [])
  }

  function UnitSize(slots: seq<Slot>, id: string): nat {
    Count(slots, id, |slots|)
  }

  /** A mailbox is shut at once; a magazine is first scanned, slot by slot, with the arm busy. */
  function CloseCommit(l: Lib, door: Door, actions: seq<DoorAction>): Seg {
    match CloseBatch(l.vols, door, l.store, actions)
    case Refused => Fail(l, ActionRefused)
    case Accepted(store, events) =>
      var done := l.(store := store);
      match door
      case MailboxDoor(_) => Seg(Shut(done, door), Return(Ok), events)
      case MagazineDoor(id) =>
        var n := UnitSize(l.store.slots, id);
        Seg(Claim(done, {}), Sleep(Scanning(if n > 0 then n else 1)), events)
  }

  function ScanDone(l: Lib, door: Door): Seg {
    Seg(Shut(Release(l, {}), door), Return(Ok), [])
  }

  // ---- Reconfigure

  function RefsOf(s: Store): set<Ref> {
    (set a | 0 < a <= |s.slots| :: SlotRef(a))
    + (set a | |s.slots| < a <= |s.slots| + |s.ioslots| :: IOSlotRef(a))
    + (set i | 0 <= i < |s.drives| :: DriveRef(i))
  }

  /** Where each element's contents go: to the element of the same identity, if there is one. */
  function Route(s: Store, c: Layout): map<Ref, Ref> {
    var made := Build(c);
    map r | r in RefsOf(s) && Exists(s, r)
        && Resolve(made, IdentityOf(s, r)).Some? :: Resolve(made, IdentityOf(s, r)).value
  }

  function ReconfigureStep(l: Lib, c: Config): Seg {
    var store := Rebuild(l.store, c.layout);
    var doors := set d | d in l.openDoors && UnitExists(store, d);
    Seg(l.(store := store, openDoors := doors, arm := l.arm.(doorCount := |doors|), settings := c.settings,
           libraries := ResolveAll(store, c.libraries)),
        Return(Ok), [Rebuilt(Route(l.store, c.layout))])
  }

  // ---- calls that take mu alone

  function OffsiteSendStep(l: Lib, from: Ref): Seg {
    if !l.settings.offsite then Fail(l, OffsiteDisabled)
    else if !Exists(l.store, from) then Fail(l, NotFound)
    else match Get(l.store, from)
         case None => Fail(l, Empty)
         case Some(v) =>
           Seg(l.(store := Shift(l.store, v, At(from), Offsite)), Return(Ok), [Transferred(v, At(from), Offsite)])
  }

  function OffsiteRecallStep(l: Lib, barcode: string, to: Ref): Seg {
    if !l.settings.offsite then Fail(l, OffsiteDisabled)
    else match FindBarcode(l.vols, l.store.offsite, barcode)
         case None => Fail(l, NotFound)
         case Some(v) =>
           if !Exists(l.store, to) then Fail(l, NotFound)
           else if Get(l.store, to).Some? then Fail(l, Full)
           else Seg(l.(store := Shift(l.store, v, Offsite, At(to))), Return(Ok), [Transferred(v, Offsite, At(to))])
  }

  function Holding(slots: seq<Slot>): set<Cartridge> {
    set i | 0 <= i < |slots| && slots[i].vol.Some? :: slots[i].vol.value
  }

  /** Every cartridge in an element or on the outside list. */
  function Within(s: Store): set<Cartridge> {
    Holding(s.slots) + Holding(s.ioslots)
    + (set i | 0 <= i < |s.drives| && s.drives[i].vol.Some? :: s.drives[i].vol.value)
    + set v | v in s.outside
  }

  function Everywhere(s: Store): set<Cartridge> {
    Within(s) + set v | v in s.offsite
  }

  function Taken(l: Lib): set<string> {
    set v | v in Everywhere(l.store) :: BarcodeOf(l.vols, v)
  }

  /** New cartridges appear on the outside list, in order. */
  function Create(l: Lib, vols: seq<Volume>): Lib {
    l.(vols := l.vols + vols,
       store := l.store.(outside := l.store.outside + seq(|vols|, k requires 0 <= k < |vols| => |l.vols| + k)))
  }

  function Creations(l: Lib, n: nat): seq<Event> {
    seq(n, k requires 0 <= k < n => Created(|l.vols| + k))
  }

  predicate SafeName(bc: string) {
    1 <= |bc| <= 64 && forall i :: 0 <= i < |bc| ==>
      'A' <= bc[i] <= 'Z' || 'a' <= bc[i] <= 'z' || '0' <= bc[i] <= '9' || bc[i] in {'_', '.', '-'}
  }

  function CreateCartridgeStep(l: Lib, tapeSet: string, barcode: string): Seg {
    if tapeSet !in l.settings.tapeSets then Fail(l, NotFound)
    else if !SafeName(barcode) || !Barcode.Valid(l.settings.tapeSets[tapeSet], barcode) then Fail(l, InvalidBarcode)
    else if barcode in Taken(l) then Fail(l, BarcodeExists)
    else Seg(Create(l, [Volume(barcode, tapeSet, false, Unset, 0, 0)]), Return(Ok), Creations(l, 1))
  }

  function DataTapes(barcodes: seq<string>, tapeSet: string): seq<Volume> {
    seq(|barcodes|, k requires 0 <= k < |barcodes| => Volume(barcodes[k], tapeSet, false, Unset, 0, 0))
  }

  function CreateCartridgesStep(l: Lib, tapeSet: string, count: int): Seg {
    if tapeSet !in l.settings.tapeSets then Fail(l, NotFound)
    else match Barcode.NextAvailable(l.settings.tapeSets[tapeSet], Taken(l), count)
         case None => Fail(l, NoBarcodeLeft)
         case Some(barcodes) =>
           Seg(Create(l, DataTapes(barcodes, tapeSet)), Return(Ok), Creations(l, |barcodes|))
  }

  /** Cleaning tapes sent offsite are not counted against the pool. */
  function CreateCleaningTapeStep(l: Lib): Seg {
    if |set v | v in Within(l.store) && VolOf(l, v).cleaning| >= MAX_CLEANING_TAPES then Fail(l, CleaningPoolFull)
    else
      Barcode.NextAvailableIs(CLEANING_SPEC, Taken(l), 1);
      match Barcode.NextAvailable(CLEANING_SPEC, Taken(l), 1)
         case None => Fail(l, NoBarcodeLeft)
         case Some(barcodes) =>
           Seg(Create(l, [Volume(barcodes[0], "", true, Available, 0, 0)]), Return(Ok), Creations(l, 1))
  }

  function DeleteOutsideStep(l: Lib, barcode: string): Seg {
    match FindBarcode(l.vols, l.store.outside, barcode)
    case None => Fail(l, OutsideOnly)
    case Some(v) => Seg(l.(store := Take(l.store, Outside, v)), Return(Ok), [Deleted(v)])
  }

  function SetDriveFaultStep(l: Lib, i: int, fault: bool): Seg {
    if !Exists(l.store, DriveRef(i)) then Fail(l, NotFound)
    else Seg(l.(store := l.store.(drives := l.store.drives[i := l.store.drives[i].(fault := fault)])), Return(Ok), [])
  }

  // ---- dispatch

  /** These calls hold opMu throughout; the others take mu alone. */
  predicate NeedsArm(call: Call) {
    match call
    case Move(_, _, _) | Load(_, _, _) | Unload(_, _, _) | OpenDoor(_, _) | CloseDoor(_, _) => true
    case Reconfigure(_) | AddLibrary(_) | UpdateLibrary(_, _) | DeleteLibrary(_) => true
    case _ => false
  }

  /** A drive where only a slot will do is refused before any lock is taken. */
  predicate MisusesDrive(call: Call) {
    match call
    case Move(from, to, _) => from.DriveRef? || to.DriveRef?
    case Load(from, _, _) => from.DriveRef?
    case Unload(_, to, _) => to.DriveRef?
    case OffsiteSend(from) => from.DriveRef?
    case OffsiteRecall(_, to) => to.DriveRef?
    case _ => false
  }

  function Begin(l: Lib, call: Call): Seg {
    match call
    case Move(from, to, scope) => MoveStart(l, from, to, scope)
    case Load(from, i, scope) => LoadStart(l, from, i, scope)
    case Unload(i, to, scope) => UnloadStart(l, i, to, scope)
    case OpenDoor(door, pin) => OpenStart(l, door, pin)
    case CloseDoor(door, _) => CloseStart(l, door)
    case Reconfigure(c) => ReconfigureStep(l, c)
    case AddLibrary(c) => AddLibraryStep(l, c)
    case UpdateLibrary(name, c) => UpdateLibraryStep(l, name, c)
    case DeleteLibrary(name) => DeleteLibraryStep(l, name)
    case OffsiteSend(from) => OffsiteSendStep(l, from)
    case OffsiteRecall(barcode, to) => OffsiteRecallStep(l, barcode, to)
    case CreateCartridge(tapeSet, barcode) => CreateCartridgeStep(l, tapeSet, barcode)
    case CreateCartridges(tapeSet, count) => CreateCartridgesStep(l, tapeSet, count)
    case CreateCleaningTape => CreateCleaningTapeStep(l)
    case DeleteOutside(barcode) => DeleteOutsideStep(l, barcode)
    case SetDriveFault(i, fault) => SetDriveFaultStep(l, i, fault)
    case SetRoboticFault(fault) => Seg(l.(roboticFault := fault), Return(Ok), [])
    case SetCleaning(c) => Seg(l.(settings := l.settings.(cleaning := c)), Return(Ok), [])
    case SetOffsite(b) => Seg(l.(settings := l.settings.(offsite := b)), Return(Ok), [])
  }

  function Commit(l: Lib, call: Call, v: Cartridge, cleaning: bool): Seg {
    match call
    case Move(from, to, _) => MoveCommit(l, from, to, v)
    case Load(from, i, _) => LoadCommit(l, from, i, v, cleaning)
    case Unload(i, to, _) => UnloadCommit(l, i, to, v)
    case _ => Seg(l, Return(Ok), [])
  }

  /** The stretch a call runs from a stage, once it holds its locks. */
  function Exec(l: Lib, call: Call, stage: Stage): Seg {
    match stage
    case Start => Begin(l, call)
    case Travel(v, left, cleaning) =>
      if left > 0 then Seg(l, Sleep(Travel(v, left - 1, cleaning)), []) else Commit(l, call, v, cleaning)
    case Washing(v) => if call.Load? then WashDone(l, call.drive, v) else Seg(l, Return(Ok), [])
    case Ejecting(v, origin, left) =>
      if !call.Load? then Seg(l, Return(Ok), [])
      else if left > 0 then Seg(l, Sleep(Ejecting(v, origin, left - 1)), [])
      else EjectCommit(l, call.drive, v, origin)
    case DoorMoving =>
      (match call
       case OpenDoor(door, _) => OpenCommit(l, door)
       case CloseDoor(door, actions) => CloseCommit(l, door, actions)
       case _ => Seg(l, Return(Ok), []))
    case Scanning(left) =>
      if !call.CloseDoor? then Seg(l, Return(Ok), [])
      else if left > 0 then Seg(l, Sleep(Scanning(left - 1)), [])
      else ScanDone(l, call.door)
  }

  /** A close either returns at once or goes on to scan a magazine. */
  lemma CloseScansOrReturns(l: Lib, door: Door, actions: seq<DoorAction>)
    ensures var next := CloseCommit(l, door, actions).next; next.Return? || (next.Sleep? && next.stage.Scanning?)
  {
  }
}
