/** What each call of the library answers and changes, in terms of its elements, lists and settings alone
    (internal/library/library.go:232-306, 421-461, 552-640, 883-986, 1956-2114, 2437-2712, 2768-3230). */
module Answers {
  import opened Common
  import opened Placement
  import opened Topology
  import opened Rebuilding
  import opened LibraryState
  import opened Transfers
  import opened Batches
  import opened Stretches
  import opened Protocol
  import opened Interleaving
  import opened LibraryObject
  import opened Refusals
  import DoorStaging
  import Barcode

  /** Where each call starts: a drive where only a slot will do is refused before any lock; the arm, the
      doors, the topology and the logical libraries are opMu's; everything else takes mu alone. */
  lemma EntryIs(call: Call)
    ensures FirstPC(call) ==
              match call
              case Move(from, to, _) => if from.DriveRef? || to.DriveRef? then Finished(Err(InvalidTarget))
                  else WaitOp(Start)
              case Load(from, _, _) => if from.DriveRef? then Finished(Err(InvalidTarget)) else WaitOp(Start)
              case Unload(_, to, _) => if to.DriveRef? then Finished(Err(InvalidTarget)) else WaitOp(Start)
              case OpenDoor(_, _) | CloseDoor(_, _) | Reconfigure(_) => WaitOp(Start)
              case AddLibrary(_) | UpdateLibrary(_, _) | DeleteLibrary(_) => WaitOp(Start)
              case OffsiteSend(from) => if from.DriveRef? then Finished(Err(InvalidTarget)) else WaitMu(Start)
              case OffsiteRecall(_, to) => if to.DriveRef? then Finished(Err(InvalidTarget)) else WaitMu(Start)
              case CreateCartridge(_, _) | CreateCartridges(_,
                  _) | CreateCleaningTape | DeleteOutside(_) => WaitMu(Start)
              case SetDriveFault(_, _) | SetRoboticFault(_) | SetCleaning(_) | SetOffsite(_) => WaitMu(Start)
  {
  }

  // ---- doors

  ghost predicate UnitThere(s: Store, door: Door) {
    match door
    case MagazineDoor(id) => exists i :: 0 <= i < |s.slots| && s.slots[i].unit == id
    case MailboxDoor(id) => exists i :: 0 <= i < |s.ioslots| && s.ioslots[i].unit == id
  }

  lemma UnitThereIs(s: Store, door: Door)
    ensures UnitExists(s, door) <==> UnitThere(s, door)
  {
    var list := SlotsBehind(s, door);
    if i :| 0 <= i < |list| && list[i].unit == door.id {
      assert UnitThere(s, door);
    }
    if UnitThere(s, door) {
      var i :| 0 <= i < |list| && list[i].unit == door.id;
    }
  }

  /** An open is refused without such a unit, then for a wrong PIN; an open door stays open; a shut one
      starts to move. */
  lemma OpenAnswers(l: Lib, door: Door, pinAccepted: bool)
    ensures var seg := Begin(l, OpenDoor(door, pinAccepted));
            && seg.lib == l
            && (seg.next == Return(Err(NotFound)) <==> !UnitThere(l.store, door))
            && (seg.next == Return(Err(PINRefused)) <==> UnitThere(l.store, door) && !pinAccepted)
            && (seg.next == Return(Ok) <==> UnitThere(l.store, door) && pinAccepted && door in l.openDoors)
            && (seg.next == Sleep(DoorMoving) <==> UnitThere(l.store, door) && pinAccepted && door !in l.openDoors)
  {
    hide UnitExists, UnitThere;
    UnitThereIs(l.store, door);
  }

  /** A whole open, whatever others do while the door moves: refused without such a unit, then for a wrong
      PIN; otherwise it ends with the door of an existing unit open and everything else but the count of
      open doors as the others left it. */
  lemma WholeOpen(l: Lib, door: Door, pinAccepted: bool, gaps: seq<seq<Call>>)
    ensures var (m, next) := Hold(l, OpenDoor(door, pinAccepted), Start, gaps);
            var moved := if door in l.openDoors then l else Meanwhile(l, Gap(gaps));
            if !UnitThere(l.store, door) then m == l && next == Return(Err(NotFound))
            else if !pinAccepted then m == l && next == Return(Err(PINRefused))
            else next == Return(Ok) && door in m.openDoors && UnitThere(m.store, door)
                 && m == moved.(openDoors := moved.openDoors + {door}, arm := m.arm)
                 && m.arm == moved.arm.(doorCount := moved.arm.doorCount + if door in l.openDoors then 0 else 1)
  {
    hide Hold, Meanwhile, UnitThere, UnitExists, Begin;
    var call := OpenDoor(door, pinAccepted);
    OpenAnswers(l, door, pinAccepted);
    if UnitThere(l.store, door) && pinAccepted && door !in l.openDoors {
      UnitThereIs(l.store, door);
      HoldSleeps(l, call, Start, gaps);
      var moved := Meanwhile(l, Gap(gaps));
      MeanwhileReady(l, Gap(gaps), call, DoorMoving);
      UnitThereIs(moved.store, door);
      HoldEnds(moved, call, DoorMoving, LaterGaps(gaps));
    } else {
      HoldEnds(l, call, Start, gaps);
      assert door in l.openDoors ==> l.openDoors + {door} == l.openDoors;
    }
  }

  /** A close sets out exactly for an open door, magazine or mailbox. */
  lemma CloseAnswers(l: Lib, door: Door, actions: seq<DoorAction>)
    ensures var seg := Begin(l, CloseDoor(door, actions));
            && seg.lib == l
            && (seg.next == Sleep(DoorMoving) <==> door in l.openDoors)
            && (seg.next == Return(Err(DoorClosed)) <==> door !in l.openDoors)
  {
  }

  /** Slot i of the list behind the door has this address and belongs to the door's unit. */
  ghost predicate SlotAt(s: Store, door: Door, address: int, i: nat) {
    match door
    case MagazineDoor(id) => i < |s.slots| && s.slots[i].address == address && s.slots[i].unit == id
    case MailboxDoor(id) => i < |s.ioslots| && s.ioslots[i].address == address && s.ioslots[i].unit == id
  }

  ghost predicate Occupied(s: Store, door: Door, i: nat, v: Cartridge) {
    match door
    case MagazineDoor(_) => i < |s.slots| && s.slots[i].vol == Some(v)
    case MailboxDoor(_) => i < |s.ioslots| && s.ioslots[i].vol == Some(v)
  }

  ghost predicate BearerOutside(vols: seq<Volume>, s: Store, barcode: string) {
    exists v: Cartridge :: v in s.outside && Bears(vols, v, barcode)
  }

  /** A staged load needs a barcode, an empty slot behind the door, and a tape of that barcode outside; a
      staged pickup needs a full slot behind the door, and no tape of its barcode outside. */
  ghost predicate Performable(vols: seq<Volume>, door: Door, s: Store, a: DoorAction) {
    exists i: nat :: SlotAt(s, door, a.address, i) && PerformableAt(vols, door, s, a, i)
  }

  ghost predicate PerformableAt(vols: seq<Volume>, door: Door, s: Store, a: DoorAction, i: nat) {
    match a.kind
    case LoadAction => a.barcode != "" && BearerOutside(vols, s, a.barcode) && forall v :: !Occupied(s, door, i, v)
    case PickupAction => exists v :: Occupied(s, door, i, v) && !BearerOutside(vols, s, BarcodeOf(vols, v))
    case UnknownAction => false
  }

  lemma FoundIsBearer(vols: seq<Volume>, s: Store, barcode: string)
    ensures FindBarcode(vols, s.outside, barcode).Some? <==> BearerOutside(vols, s, barcode)
  {
    FindBarcodeIs(vols, s.outside, barcode);
    if v: Cartridge :| v in s.outside && Bears(vols, v, barcode) {
      assert vols[v].barcode == barcode;
    }
  }

  /** With slots numbered as the builder numbers them, the slot at an address is one place in its list. */
  lemma SlotAtIs(s: Store, door: Door, address: int)
    requires WellAddressed(s)
    ensures var i := if door.MagazineDoor? then address - 1 else address - 1 - |s.slots|;
            && (Behind(s, door, address) <==> i >= 0 && SlotAt(s, door, address, i))
            && (forall k: nat :: SlotAt(s, door, address, k) ==> k == i)
            && (Behind(s, door, address) ==>
                  && i >= 0 && Exists(s, RefBehind(door, address))
                  && forall v: Cartridge :: Get(s, RefBehind(door, address)) == Some(v) <==> Occupied(s, door, i, v))
  {
  }

  lemma PerformableAtIs(vols: seq<Volume>, door: Door, s: Store, a: DoorAction, i: nat, held: Option<Cartridge>)
    requires forall v: Cartridge :: held == Some(v) <==> Occupied(s, door, i, v)
    ensures PerformableAt(vols, door, s, a, i) <==>
              match a.kind
              case LoadAction => a.barcode != "" && BearerOutside(vols, s, a.barcode) && held == None
              case PickupAction => held.Some? && !BearerOutside(vols, s, BarcodeOf(vols, held.value))
              case UnknownAction => false
  {
    hide BearerOutside, Occupied;
    if held.Some? {
      assert Occupied(s, door, i, held.value);
    }
  }

  lemma ActionIsPerformable(vols: seq<Volume>, door: Door, s: Store, a: DoorAction)
    requires WellAddressed(s)
    ensures ActionEvent(vols, door, s, a).Some? <==> Performable(vols, door, s, a)
  {
    hide SlotAt, Behind, BearerOutside, Occupied, Get, WellAddressed, FindBarcode, PerformableAt;
    SlotAtIs(s, door, a.address);
    var r := RefBehind(door, a.address);
    FoundIsBearer(vols, s, a.barcode);
    if Get(s, r).Some? {
      FoundIsBearer(vols, s, BarcodeOf(vols, Get(s, r).value));
    }
    if Behind(s, door, a.address) {
      var i: nat := if door.MagazineDoor? then a.address - 1 else a.address - 1 - |s.slots|;
      assert SlotAt(s, door, a.address, i);
      PerformableAtIs(vols, door, s, a, i, Get(s, r));
    }
  }

  /** Action k cannot be done once all before it are. */
  ghost predicate Unperformable(l: Lib, door: Door, actions: seq<DoorAction>, k: nat) {
    && k < |actions| && ApplyActions(l.vols, door, l.store, actions[..k]).Accepted?
    && !Performable(l.vols, door, ApplyActions(l.vols, door, l.store, actions[..k]).store, actions[k])
  }

  lemma BadIsUnperformable(l: Lib, w: Where, door: Door, actions: seq<DoorAction>, k: nat)
    requires Placed(l, w) && WellAddressed(l.store)
    ensures BadAt(l.vols, door, l.store, actions, k) <==> Unperformable(l, door, actions, k)
  {
    hide ApplyActions, Performable, ActionEvent, WellAddressed, Represents;
    if k < |actions| && ApplyActions(l.vols, door, l.store, actions[..k]).Accepted? {
      ActionsTransfer(l.vols, door, l.store, w, actions[..k]);
      var t := ApplyActions(l.vols, door, l.store, actions[..k]).store;
      DoorStaging.ShapeKeepsAddresses(l.store, t);
      ActionIsPerformable(l.vols, door, t, actions[k]);
    }
  }

  /** The close of an open door, once the door has moved, is refused exactly for an action that cannot be done. */
  lemma CommitRefuses(l: Lib, door: Door, actions: seq<DoorAction>)
    requires Kept(l) && WellAddressed(l.store)
    ensures (exists k: nat :: Unperformable(l, door, actions, k)) <==>
            CloseBatch(l.vols, door, l.store, actions).Refused?
  {
    hide Unperformable, BadAt, ApplyActions, Placed, WellAddressed;
    var w: Where :| Placed(l, w);
    RefusedIs(l.vols, door, l.store, actions);
    forall k: nat ensures BadAt(l.vols, door, l.store, actions, k) <==> Unperformable(l, door, actions, k) {
      BadIsUnperformable(l, w, door, actions, k);
    }
  }

  lemma {:induction false} ScanEnds(l: Lib, call: Call, left: nat, gaps: seq<seq<Call>>)
    requires call.CloseDoor?
    ensures var (m, next) := Hold(l, call, Scanning(left), gaps); next == Return(Ok) && call.door !in m.openDoors
    decreases left
  {
    hide Hold, Meanwhile;
    if left > 0 {
      HoldScans(l, call, left, gaps);
      ScanEnds(Meanwhile(l, Gap(gaps)), call, left - 1, LaterGaps(gaps));
    } else {
      HoldEnds(l, call, Scanning(0), gaps);
    }
  }

  /** A whole close, whatever others do in its gaps: refused for a shut door; otherwise it ends with the
      door shut exactly when all actions can be done, one after the other, on the library as it is once
      the door has moved, and with nothing changed and an error when one cannot. */
  lemma WholeClose(l: Lib, door: Door, actions: seq<DoorAction>, gaps: seq<seq<Call>>)
    requires Kept(l) && WellAddressed(l.store)
    ensures var (m, next) := Hold(l, CloseDoor(door, actions), Start, gaps);
            var moved := Meanwhile(l, Gap(gaps));
            if door !in l.openDoors then m == l && next == Return(Err(DoorClosed))
            else if exists k: nat :: Unperformable(moved, door, actions, k) then
              m == moved && next == Return(Err(ActionRefused))
            else next == Return(Ok) && door !in m.openDoors
  {
    hide Hold, Meanwhile, CloseBatch, Kept, WellAddressed, Unperformable, UnitSize;
    var call := CloseDoor(door, actions);
    if door !in l.openDoors {
      HoldEnds(l, call, Start, gaps);
    } else {
      HoldSleeps(l, call, Start, gaps);
      var moved, later := Meanwhile(l, Gap(gaps)), LaterGaps(gaps);
      MeanwhileKeeps(l, Gap(gaps));
      MeanwhileAddressed(l, Gap(gaps));
      CommitRefuses(moved, door, actions);
      CloseScansOrReturns(moved, door, actions);
      var seg := CloseCommit(moved, door, actions);
      if seg.next.Sleep? {
        HoldSleeps(moved, call, DoorMoving, later);
        ScanEnds(Meanwhile(seg.lib, Gap(later)), call, seg.next.stage.left, LaterGaps(later));
      } else {
        HoldEnds(moved, call, DoorMoving, later);
      }
    }
  }

  lemma {:induction false} MeanwhileAddressed(l: Lib, calls: seq<Call>)
    requires WellAddressed(l.store)
    ensures WellAddressed(Meanwhile(l, calls).store)
  {
    hide Begin, WellAddressed, Bystander;
    if calls != [] {
      MeanwhileAddressed(l, calls[..|calls| - 1]);
      var before, call := Meanwhile(l, calls[..|calls| - 1]), calls[|calls| - 1];
      if !NeedsArm(call) && !MisusesDrive(call) {
        MuOnlyIsBystander(before, call);
        BystanderShape(before, Begin(before, call).lib);
        DoorStaging.ShapeKeepsAddresses(before.store, Begin(before, call).lib.store);
      }
    }
  }

  lemma BystanderShape(l: Lib, m: Lib)
    requires Bystander(l, m)
    ensures SameShape(l.store, m.store)
  {
  }

  // ---- the vault and the outside list

  /** Offsite send's answer, check by check. */
  lemma OffsiteSendAnswers(l: Lib, from: Ref)
    ensures var seg := Begin(l, OffsiteSend(from));
            && (seg.next == Return(Err(OffsiteDisabled)) <==> !l.settings.offsite)
            && (seg.next == Return(Err(NotFound)) <==> l.settings.offsite && !Exists(l.store, from))
            && (seg.next == Return(Err(Empty)) <==>
                  l.settings.offsite && Exists(l.store, from) && Get(l.store, from) == None)
            && (seg.next == Return(Ok) <==> l.settings.offsite && Get(l.store, from).Some?)
            && (seg.next != Return(Ok) ==> seg.lib == l)
  {
    hide Shift;
  }

  /** Offsite recall's answer, check by check. */
  lemma OffsiteRecallAnswers(l: Lib, barcode: string, to: Ref)
    ensures var seg := Begin(l, OffsiteRecall(barcode, to));
            var there := l.settings.offsite && Listed(l.vols, l.store.offsite, barcode) && Exists(l.store, to);
            && (seg.next == Return(Err(OffsiteDisabled)) <==> !l.settings.offsite)
            && (seg.next == Return(Err(NotFound)) <==> l.settings.offsite && !there)
            && (seg.next == Return(Err(Full)) <==> there && Get(l.store, to).Some?)
            && (seg.next == Return(Ok) <==> there && Get(l.store, to) == None)
            && (seg.next != Return(Ok) ==> seg.lib == l)
  {
    hide Shift, Get, Exists, Listed;
    FoundIsListed(l.vols, l.store.offsite, barcode);
  }

  /** Deletion refuses what is not outside. */
  lemma DeleteAnswers(l: Lib, barcode: string)
    ensures var seg := Begin(l, DeleteOutside(barcode));
            && (seg.next == Return(Err(OutsideOnly)) <==> !Listed(l.vols, l.store.outside, barcode))
            && (seg.next == Return(Ok) <==> Listed(l.vols, l.store.outside, barcode))
            && (seg.next != Return(Ok) ==> seg.lib == l)
  {
    hide Listed;
    FoundIsListed(l.vols, l.store.outside, barcode);
  }

  // ---- creation

  /** A safe file name: 1 to 64 letters, digits, underscores, dots and dashes. */
  ghost predicate SafeCharacters(bc: string) {
    1 <= |bc| <= 64 && forall i :: 0 <= i < |bc| ==>
      var ch := bc[i] as int;
      (65 <= ch <= 90) || (97 <= ch <= 122) || (48 <= ch <= 57) || ch == 95 || ch == 46 || ch == 45
  }

  /** Upper-case letters and digits only. */
  ghost predicate UpperCharacters(s: string) {
    forall i :: 0 <= i < |s| ==> (65 <= s[i] as int <= 90) || (48 <= s[i] as int <= 57)
  }

  /** A barcode of the format: a serial part of its length, then the media id. */
  ghost predicate OfFormat(spec: Barcode.Spec, bc: string) {
    && |bc| == spec.volSerLength + |spec.mediaId| && UpperCharacters(bc)
    && forall i :: 0 <= i < |spec.mediaId| ==> bc[spec.volSerLength + i] == spec.mediaId[i]
  }

  lemma FormatIs(spec: Barcode.Spec, bc: string)
    ensures SafeName(bc) <==> SafeCharacters(bc)
    ensures Barcode.Valid(spec, bc) <==> OfFormat(spec, bc)
  {
    if OfFormat(spec, bc) {
      assert bc[spec.volSerLength..] == spec.mediaId;
    }
    if Barcode.Valid(spec, bc) && spec.mediaId != "" {
      forall i | 0 <= i < |spec.mediaId| ensures bc[spec.volSerLength + i] == spec.mediaId[i] {
        assert bc[spec.volSerLength..][i] == spec.mediaId[i];
      }
    }
  }

  /** m is l with these new tapes, in order, behind the outside list. */
  ghost predicate Gains(l: Lib, m: Lib, tapes: seq<Volume>) {
    && m.vols == l.vols + tapes && |m.store.outside| == |l.store.outside| + |tapes|
    && l.store.outside <= m.store.outside
    && (forall k :: |l.store.outside| <= k < |m.store.outside| ==>
          m.store.outside[k] == |l.vols| + (k - |l.store.outside|))
    && m == l.(vols := m.vols, store := l.store.(outside := m.store.outside))
  }

  lemma CreateGains(l: Lib, tapes: seq<Volume>)
    ensures Gains(l, Create(l, tapes), tapes)
  {
  }

  /** A manual creation's answer, check by check; the new tape is unused, outside, and nothing else changes. */
  lemma CreateAnswers(l: Lib, w: Where, tapeSet: string, barcode: string)
    requires Placed(l, w)
    ensures var seg := Begin(l, CreateCartridge(tapeSet, barcode));
            var known := tapeSet in l.settings.tapeSets;
            var formed := known && SafeCharacters(barcode) && OfFormat(l.settings.tapeSets[tapeSet], barcode);
            && (seg.next == Return(Err(NotFound)) <==> !known)
            && (seg.next == Return(Err(InvalidBarcode)) <==> known && !formed)
            && (seg.next == Return(Err(BarcodeExists)) <==> formed && InUseAnywhere(l, barcode))
            && (seg.next == Return(Ok) <==> formed && !InUseAnywhere(l, barcode))
            && (seg.next != Return(Ok) ==> seg.lib == l)
            && (seg.next == Return(Ok) ==> Gains(l, seg.lib, [Volume(barcode, tapeSet, false, Unset, 0, 0)]))
  {
    hide SafeName, Barcode.Valid, SafeCharacters, OfFormat, Taken, InUseAnywhere, Gains, Create;
    TakenIs(l, w, barcode);
    CreateGains(l, [Volume(barcode, tapeSet, false, Unset, 0, 0)]);
    if tapeSet in l.settings.tapeSets {
      FormatIs(l.settings.tapeSets[tapeSet], barcode);
    }
  }

  /** The barcodes of these tapes, in order. */
  function BarcodesOf(tapes: seq<Volume>): (bcs: seq<string>)
    ensures |bcs| == |tapes| && forall k :: 0 <= k < |tapes| ==> bcs[k] == tapes[k].barcode
  {
    seq(|tapes|, k requires 0 <= k < |tapes| => tapes[k].barcode)
  }

  ghost predicate NewDataTapes(tapes: seq<Volume>, tapeSet: string) {
    forall k :: 0 <= k < |tapes| ==> tapes[k] == Volume(tapes[k].barcode, tapeSet, false, Unset, 0, 0)
  }

  /** A bulk creation's answer: it fails for an unknown set, for a count below 1 and when fewer numbers are unused;
      otherwise `count` new tapes appear whose barcodes are those of the lowest unused numbers, in order. */
  lemma BulkAnswers(l: Lib, tapeSet: string, count: int)
    ensures var seg := Begin(l, CreateCartridges(tapeSet, count));
            && (seg.next == Return(Err(NotFound)) <==> tapeSet !in l.settings.tapeSets)
            && (seg.next != Return(Ok) ==> seg.lib == l)
            && (tapeSet in l.settings.tapeSets ==>
                  var spec := l.settings.tapeSets[tapeSet];
                  && Barcode.Pow10(spec.volSerLength) >= 1
                  && seg.next == (if count < 1
                                    || |Barcode.UnusedUpTo(spec, Taken(l),
                                        Barcode.Pow10(spec.volSerLength) - 1)| < count
                                  then Return(Err(NoBarcodeLeft)) else Return(Ok))
                  && (seg.next == Return(Ok) ==>
                        var tapes := seg.lib.vols[|l.vols|..];
                        && |tapes| == count && NewDataTapes(tapes, tapeSet) && Gains(l, seg.lib, tapes)
                        && Barcode.Supplies(spec, Taken(l), BarcodesOf(tapes))))
  {
    hide Taken, Barcode.NextAvailable, Barcode.Supplies, Barcode.UnusedUpTo, Gains;
    if tapeSet in l.settings.tapeSets {
      var spec := l.settings.tapeSets[tapeSet];
      Barcode.PowPositive(spec.volSerLength);
      TooFew(spec, Taken(l), count);
      if count >= 1 {
        Barcode.SupplyByNumber(spec, Taken(l), count);
      }
      match Barcode.NextAvailable(spec, Taken(l), count) {
        case Some(bcs) =>
          var tapes := DataTapes(bcs, tapeSet);
          CreateGains(l, tapes);
          assert Create(l, tapes).vols[|l.vols|..] == tapes;
          assert BarcodesOf(tapes) == bcs;
        case None =>
      }
    }
  }

  lemma TooFew(spec: Barcode.Spec, taken: set<string>, count: int)
    ensures count < 1 ==> Barcode.NextAvailable(spec, taken, count) == None
  {
  }

  /** In the pool: a cleaning tape in an element or outside, not in the vault. */
  ghost predicate InPool(l: Lib, v: Cartridge) {
    v < |l.vols| && l.vols[v].cleaning && exists p: Place :: p != Offsite && Holds(l.store, p, v)
  }

  lemma WithinIs(s: Store, v: Cartridge)
    ensures v in Within(s) <==> exists p: Place :: p != Offsite && Holds(s, p, v)
  {
    if v in Within(s) {
      if i :| 0 <= i < |s.slots| && s.slots[i].vol == Some(v) {
        assert Holds(s, At(SlotRef(i + 1)), v);
      } else if i :| 0 <= i < |s.ioslots| && s.ioslots[i].vol == Some(v) {
        assert Holds(s, At(IOSlotRef(|s.slots| + i + 1)), v);
      } else if i :| 0 <= i < |s.drives| && s.drives[i].vol == Some(v) {
        assert Holds(s, At(DriveRef(i)), v);
      } else {
        assert Holds(s, Outside, v);
      }
    }
  }

  /** A cleaning tape's creation: refused when five are in the pool or no number is left; otherwise a new
      available cleaning tape of the lowest unused number appears outside. */
  lemma CleaningTapeAnswers(l: Lib) returns (pool: set<Cartridge>)
    ensures forall v :: v in pool <==> InPool(l, v)
    ensures var seg := Begin(l, CreateCleaningTape);
            var spec := Barcode.Spec("cleaning", "CLN", 5);
            && (seg.next == Return(Err(CleaningPoolFull)) <==> |pool| >= 5)
            && (seg.next == Return(Err(NoBarcodeLeft)) <==>
                |pool| < 5 && Barcode.UnusedUpTo(spec, Taken(l), 99999) == {})
            && (seg.next == Return(Ok) <==> |pool| < 5 && Barcode.UnusedUpTo(spec, Taken(l), 99999) != {})
            && (seg.next != Return(Ok) ==> seg.lib == l)
            && (seg.next == Return(Ok) ==>
                  exists bc :: Barcode.Supplies(spec, Taken(l), [bc])
                    && Gains(l, seg.lib, [Volume(bc, "", true, Available, 0, 0)]))
  {
    hide Taken, Barcode.NextAvailable, Barcode.Supplies, Barcode.UnusedUpTo, Gains, Within, Create;
    pool := set v | v in Within(l.store) && VolOf(l, v).cleaning;
    forall v ensures v in pool <==> InPool(l, v) {
      WithinIs(l.store, v);
    }
    FiveDigits();
    Barcode.SupplyByNumber(CLEANING_SPEC, Taken(l), 1);
    match Barcode.NextAvailable(CLEANING_SPEC, Taken(l), 1) {
      case Some(bcs) =>
        assert bcs == [bcs[0]];
        CreateGains(l, [Volume(bcs[0], "", true, Available, 0, 0)]);
      case None =>
    }
  }

  lemma FiveDigits()
    ensures Barcode.Pow10(5) == 100000
  {
    assert Barcode.Pow10(2) == 100;
    assert Barcode.Pow10(4) == 10000;
  }

  // ---- faults and settings

  /** A drive's fault is set as asked and nothing else changes; the drive must exist. */
  lemma DriveFaultAnswers(l: Lib, i: int, on: bool)
    ensures var seg := Begin(l, SetDriveFault(i, on));
            if 0 <= i < |l.store.drives| then
              var drives := seg.lib.store.drives;
              && seg.next == Return(Ok) && seg.lib == l.(store := l.store.(drives := drives))
              && |drives| == |l.store.drives| && drives[i] == l.store.drives[i].(fault := on)
              && forall j :: 0 <= j < |drives| && j != i ==> drives[j] == l.store.drives[j]
            else seg.next == Return(Err(NotFound)) && seg.lib == l
  {
  }

  /** The arm's fault, the cleaning settings and the vault's switch are set as asked, and nothing else. */
  lemma SettingsTakeEffect(l: Lib, on: bool, cleaning: Cleaning)
    ensures Begin(l, SetRoboticFault(on)) == Seg(l.(roboticFault := on), Return(Ok), [])
    ensures Begin(l, SetCleaning(cleaning)) == Seg(l.(settings := l.settings.(cleaning := cleaning)), Return(Ok), [])
    ensures Begin(l, SetOffsite(on)) == Seg(l.(settings := l.settings.(offsite := on)), Return(Ok), [])
  {
  }

  // ---- logical libraries

  /** The element belongs to the configured library: a slot or I/O slot of one of its units, or one of its
      drives that exists. */
  ghost predicate Configured(s: Store, c: LogicalConfig, r: Ref) {
    match r
    case SlotRef(a) => exists i :: 0 <= i < |s.slots| && s.slots[i].address == a && s.slots[i].unit in c.magazines
    case IOSlotRef(a) =>
      exists i :: 0 <= i < |s.ioslots| && s.ioslots[i].address == a && s.ioslots[i].unit in c.mailboxes
    case DriveRef(i) => i in c.drives && 0 <= i < |s.drives|
  }

  ghost predicate Resolves(s: Store, c: LogicalConfig, library: LogicalLibrary) {
    library.name == c.name && forall r :: Owns(library, r) <==> Configured(s, c, r)
  }

  lemma ResolvedIs(s: Store, c: LogicalConfig)
    ensures Resolves(s, c, ResolveLibrary(s, c))
  {
    var library := ResolveLibrary(s, c);
    forall r ensures Owns(library, r) <==> Configured(s, c, r) {
      match r {
        case SlotRef(a) =>
        case IOSlotRef(a) =>
        case DriveRef(i) =>
      }
    }
  }

  /** The existing library already has an element the configuration asks for: one of its drives, or a slot
      or I/O slot of one of its units with an id. */
  ghost predicate Clash(s: Store, existing: LogicalLibrary, c: LogicalConfig) {
    exists r: Ref :: Owns(existing, r) && AskedFor(s, c, r)
  }

  ghost predicate AskedFor(s: Store, c: LogicalConfig, r: Ref) {
    match r
    case SlotRef(a) =>
      exists i :: 0 <= i < |s.slots| && s.slots[i].address == a && s.slots[i].unit != ""
          && s.slots[i].unit in c.magazines
    case IOSlotRef(a) =>
      exists i :: 0 <= i < |s.ioslots| && s.ioslots[i].address == a && s.ioslots[i].unit != ""
                  && s.ioslots[i].unit in c.mailboxes
    case DriveRef(i) => i in c.drives
  }

  lemma ClashIs(s: Store, existing: LogicalLibrary, c: LogicalConfig)
    ensures Conflicts(s, existing, c) <==> Clash(s, existing, c)
  {
    if i :| i in existing.drives && i in c.drives {
      assert Owns(existing, DriveRef(i)) && AskedFor(s, c, DriveRef(i));
    }
    if i :| 0 <= i < |s.slots| && s.slots[i].address in existing.slots
            && s.slots[i].unit != "" && s.slots[i].unit in c.magazines {
      assert Owns(existing, SlotRef(s.slots[i].address)) && AskedFor(s, c, SlotRef(s.slots[i].address));
    }
    if i :| 0 <= i < |s.ioslots| && s.ioslots[i].address in existing.ioslots
            && s.ioslots[i].unit != "" && s.ioslots[i].unit in c.mailboxes {
      assert Owns(existing, IOSlotRef(s.ioslots[i].address)) && AskedFor(s, c, IOSlotRef(s.ioslots[i].address));
    }
    if r: Ref :| Owns(existing, r) && AskedFor(s, c, r) {
      match r {
        case SlotRef(a) =>
        case IOSlotRef(a) =>
        case DriveRef(_) =>
      }
    }
  }

  ghost predicate NameTaken(libraries: seq<LogicalLibrary>, name: string) {
    exists k: nat :: k < |libraries| && libraries[k].name == name
  }

  /** A library of another name has an element that is asked for. */
  ghost predicate SomeClash(l: Lib, c: LogicalConfig, exclude: string) {
    exists k: nat :: k < |l.libraries| && l.libraries[k].name != exclude && Clash(l.store, l.libraries[k], c)
  }

  lemma SomeClashIs(l: Lib, c: LogicalConfig, exclude: string)
    ensures AnyConflict(l, c, exclude) <==> SomeClash(l, c, exclude)
  {
    hide Conflicts, Clash;
    forall k | 0 <= k < |l.libraries| ensures Conflicts(l.store, l.libraries[k], c) <==>
        Clash(l.store, l.libraries[k], c) {
      ClashIs(l.store, l.libraries[k], c);
    }
    if AnyConflict(l, c, exclude) {
      var k :| 0 <= k < |l.libraries| && l.libraries[k].name != exclude && Conflicts(l.store, l.libraries[k], c);
      var n: nat := k;
      assert Clash(l.store, l.libraries[n], c);
    }
  }

  lemma {:induction false} PositionIs(libraries: seq<LogicalLibrary>, name: string)
    ensures match IndexOf(libraries, name)
            case Some(k) => FirstOfName(libraries, name, k)
            case None => !NameTaken(libraries, name)
  {
    if libraries != [] {
      PositionIs(libraries[1..], name);
    }
  }

  /** An Add is refused exactly when the name is taken or a named library has an element that is asked for;
      otherwise the library, resolved on the elements as they are, comes last and the others stay. */
  lemma AddAnswers(l: Lib, c: LogicalConfig)
    ensures var seg := Begin(l, AddLibrary(c));
            var n := |l.libraries|;
            if NameTaken(l.libraries, c.name) || SomeClash(l, c, "") then seg == Seg(l, Return(Err(AlreadyExists)), [])
            else
              && seg.next == Return(Ok) && seg.lib == l.(libraries := seg.lib.libraries)
              && |seg.lib.libraries| == n + 1 && seg.lib.libraries[..n] == l.libraries
              && Resolves(l.store, c, seg.lib.libraries[n])
  {
    hide AnyConflict, SomeClash, ResolveLibrary, Resolves;
    PositionIs(l.libraries, c.name);
    SomeClashIs(l, c, "");
    ResolvedIs(l.store, c);
  }

  /** An Update needs an existing name, and no other named library with an element that is asked for; then
      the first library of the name is resolved anew under that name and the others stay. */
  lemma UpdateAnswers(l: Lib, name: string, c: LogicalConfig)
    ensures var seg := Begin(l, UpdateLibrary(name, c));
            if !NameTaken(l.libraries, name) then seg == Seg(l, Return(Err(NotFound)), [])
            else if SomeClash(l, c, name) then seg == Seg(l, Return(Err(AlreadyExists)), [])
            else
              && seg.next == Return(Ok) && seg.lib == l.(libraries := seg.lib.libraries)
              && |seg.lib.libraries| == |l.libraries|
              && forall k :: 0 <= k < |l.libraries| ==>
                   if FirstOfName(l.libraries, name, k) then Resolves(l.store, c.(name := name), seg.lib.libraries[k])
                   else seg.lib.libraries[k] == l.libraries[k]
  {
    hide AnyConflict, SomeClash, ResolveLibrary, Resolves;
    PositionIs(l.libraries, name);
    SomeClashIs(l, c, name);
    ResolvedIs(l.store, c.(name := name));
  }

  /** A Delete takes the first library of the name out and leaves the others in order. */
  lemma DeleteLibraryAnswers(l: Lib, name: string)
    ensures var seg := Begin(l, DeleteLibrary(name));
            if !NameTaken(l.libraries, name) then seg == Seg(l, Return(Err(NotFound)), [])
            else
              && seg.next == Return(Ok) && seg.lib == l.(libraries := seg.lib.libraries)
              && |seg.lib.libraries| == |l.libraries| - 1
              && forall k, j :: 0 <= k < |l.libraries| - 1 && FirstOfName(l.libraries, name, j) ==>
                   seg.lib.libraries[k] == l.libraries[if k < j then k else k + 1]
  {
    PositionIs(l.libraries, name);
  }

  // ---- Reconfigure

  /** What a rebuild makes of a drive: index, path and type of its configuration; everything else of the
      drive of that index if the path is the same, or else nothing. */
  lemma RebuiltDrive(s: Store, c: Layout, i: nat)
    requires i < |c.devices|
    ensures var t := Rebuild(s, c);
            && |t.drives| == |c.devices|
            && var d := t.drives[i];
               && d.index == i && d.path == c.devices[i].path && d.driveType == c.devices[i].driveType
               && (if i < |s.drives| && s.drives[i].path == d.path
                   then d.vol == s.drives[i].vol && d.fault == s.drives[i].fault && d.mounts == s.drives[i].mounts
                   else d.vol == None && !d.fault && d.mounts == 0 && d.origin == None)
  {
  }

  /** A Reconfigure always succeeds. Settings are the new ones; each configured library is resolved anew on
      the new elements; a door stays open exactly if it was and its unit still exists, and the open ones are
      counted; tapes, the arm and its fault, and the two lists are untouched. */
  lemma ReconfigureAnswers(l: Lib, c: Config)
    ensures var seg := Begin(l, Reconfigure(c));
            var m := seg.lib;
            && seg.next == Return(Ok) && m.store == Rebuild(l.store, c.layout) && m.settings == c.settings
            && |m.libraries| == |c.libraries|
            && (forall k :: 0 <= k < |c.libraries| ==> Resolves(m.store, c.libraries[k], m.libraries[k]))
            && (forall d :: d in m.openDoors <==> d in l.openDoors && UnitThere(m.store, d))
            && m.arm == l.arm.(doorCount := |m.openDoors|)
            && m.vols == l.vols && m.roboticFault == l.roboticFault
            && m.store.outside == l.store.outside && m.store.offsite == l.store.offsite
  {
    hide Rebuild, ResolveLibrary, Resolves, UnitExists, UnitThere, Route;
    RebuildKeepsLists(l.store, c.layout);
    var store := Rebuild(l.store, c.layout);
    forall k | 0 <= k < |c.libraries| ensures Resolves(store, c.libraries[k], ResolveLibrary(store, c.libraries[k])) {
      ResolvedIs(store, c.libraries[k]);
    }
    forall d: Door ensures UnitExists(store, d) <==> UnitThere(store, d) {
      UnitThereIs(store, d);
    }
  }

  // ---- what the arm's commits change besides placement

  /** Everything but placement, one drive's Origin and mounts, one tape and the arm's marks is as before. */
  ghost predicate OnlyTouches(l: Lib, m: Lib, i: int, v: Cartridge) {
    && m == l.(store := m.store, vols := m.vols, arm := m.arm)
    && |m.vols| == |l.vols| && (forall u :: 0 <= u < |l.vols| && u != v ==> m.vols[u] == l.vols[u])
    && |m.store.drives| == |l.store.drives|
    && forall j :: 0 <= j < |l.store.drives| && j != i ==>
         m.store.drives[j].(vol := None) == l.store.drives[j].(vol := None)
  }

  /** The same drives, but for what they hold. */
  ghost predicate SameSeats(s: Store, t: Store) {
    && |t.drives| == |s.drives|
    && forall j :: 0 <= j < |s.drives| ==> t.drives[j].(vol := None) == s.drives[j].(vol := None)
  }

  lemma PutKeepsSeats(s: Store, r: Ref, v: Option<Cartridge>)
    ensures SameSeats(s, Put(s, r, v))
  {
  }

  lemma ShiftKeepsSeats(s: Store, v: Cartridge, src: Place, dst: Place)
    ensures SameSeats(s, Shift(s, v, src, dst))
  {
    hide Put;
    var t := Take(s, src, v);
    if src.At? {
      PutKeepsSeats(s, src.ref, None);
    }
    if dst.At? {
      PutKeepsSeats(t, dst.ref, Some(v));
    }
  }

  /** A successful commit of Load: the drive's Origin is the source, its mounts go up unless it is a
      cleaning, the tape's loads go up and it is in use if it is a cleaning. */
  lemma LoadTouches(l: Lib, from: Ref, i: int, v: Cartridge, cleaning: bool)
    requires 0 <= i < |l.store.drives| && v < |l.vols| && Get(l.store, from) == Some(v)
    ensures var m := LoadCommit(l, from, i, v, cleaning).lib;
            && OnlyTouches(l, m, i, v)
            && m.store.drives[i].origin == Some(from) && m.store.drives[i].fault == l.store.drives[i].fault
            && m.store.drives[i].mounts == l.store.drives[i].mounts + (if cleaning then 0 else 1)
            && m.vols[v] == l.vols[v].(loads := l.vols[v].loads + 1, state := if cleaning then InUse
                else l.vols[v].state)
  {
    hide Shift;
    ShiftKeepsSeats(l.store, v, At(from), At(DriveRef(i)));
  }

  /** A commit of Unload: the drive has no Origin, its mounts are reset by a cleaning tape, and a cleaning
      tape is available again unless expired. */
  lemma UnloadTouches(l: Lib, i: int, to: Ref, v: Cartridge)
    requires 0 <= i < |l.store.drives| && v < |l.vols|
    ensures var m, vol := UnloadCommit(l, i, to, v).lib, l.vols[v];
            && OnlyTouches(l, m, i, v)
            && m.store.drives[i].origin == None && m.store.drives[i].fault == l.store.drives[i].fault
            && m.store.drives[i].mounts == (if vol.cleaning then 0 else l.store.drives[i].mounts)
            && m.vols[v] == if vol.cleaning && vol.state != Expired then vol.(state := Available) else vol
  {
    hide Shift, Get;
    ShiftKeepsSeats(l.store, v, At(DriveRef(i)), if Get(l.store, to).Some? then Outside else At(to));
  }

  /** A commit of Move changes nothing but placement and the arm's marks; the eject after a cleaning clears
      the Origin and makes its tape available unless expired. */
  lemma MoveAndEjectTouch(l: Lib, from: Ref, to: Ref, i: int, v: Cartridge, origin: Option<Ref>)
    requires 0 <= i < |l.store.drives| && v < |l.vols|
    ensures var m := MoveCommit(l, from, to, v).lib;
            OnlyTouches(l, m, -1, v) && m.vols == l.vols
    ensures var m, vol := EjectCommit(l, i, v, origin).lib, l.vols[v];
            && OnlyTouches(l, m, i, v) && m.store.drives[i].origin == None
            && m.store.drives[i].fault == l.store.drives[i].fault
                && m.store.drives[i].mounts == l.store.drives[i].mounts
            && m.vols[v] == if vol.state == Expired then vol else vol.(state := Available)
  {
    hide Shift, Get;
    ShiftKeepsSeats(l.store, v, At(from), At(to));
    ShiftKeepsSeats(l.store, v, At(DriveRef(i)), EjectPlace(l.store, origin));
  }
}
