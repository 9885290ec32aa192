/** Each locked stretch keeps every cartridge in one place, given what its thread may rely on. */
module Stretches {
  import opened Common
  import opened Placement
  import opened Topology
  import opened LibraryState
  import opened Transfers
  import opened Batches

  // ---- what a thread relies on between its stretches

  /** Holds of the library whenever a thread that holds opMu is about to run this stage. */
  ghost predicate Ready(l: Lib, call: Call, stage: Stage) {
    && !MisusesDrive(call)
    && match stage
       case Start => true
       case Travel(v, _, cleaning) => (
         match call
         case Move(from, to, _) => Exists(l.store, from) && Exists(l.store, to) && from != to
         case Load(from, i, _) =>
           && Exists(l.store, DriveRef(i)) && Get(l.store, DriveRef(i)) == None
           && Exists(l.store, from) && v < |l.vols|
           && (cleaning ==> l.vols[v].cleaning && l.vols[v].state != Expired)
         case Unload(i, to, _) => Get(l.store, DriveRef(i)) == Some(v) && Exists(l.store, to)
         case _ => false)
       case Washing(v) => call.Load?
       case Ejecting(v, origin, _) =>
         call.Load? && Get(l.store, DriveRef(call.drive)) == Some(v) && OriginAt(l.store, call.drive) == origin
         && (origin.Some? ==> !origin.value.DriveRef?)
       case DoorMoving => (
         match call
         case OpenDoor(door, pinAccepted) => pinAccepted && door !in l.openDoors && UnitExists(l.store, door)
         case CloseDoor(door, _) => door in l.openDoors
         case _ => false)
       case Scanning(_) => call.CloseDoor? && call.door.MagazineDoor? && call.door in l.openDoors
  }

  lemma ReadyFits(l: Lib, call: Call, stage: Stage)
    requires Ready(l, call, stage)
    ensures !MisusesDrive(call)
  {
  }

  /** What a stretch does to placement: its events are legal, and lead to the new contents. */
  ghost predicate Sound(l: Lib, w: Where, seg: Seg) {
    AllLegal(w, seg.events) && Placed(seg.lib, Replay(w, seg.events))
  }

  lemma QuietIsSound(l: Lib, w: Where, seg: Seg)
    requires Placed(l, w) && seg.events == [] && seg.lib.store == l.store && seg.lib.vols == l.vols
    ensures Sound(l, w, seg)
  {
  }

  // ---- transfers by the arm

  lemma MoveSound(l: Lib, w: Where, from: Ref, to: Ref, v: Cartridge)
    requires Placed(l, w) && Exists(l.store, to) && from != to
    ensures Sound(l, w, MoveCommit(l, from, to, v))
  {
    hide Shift, AllLegal, Replay, Placed;
    if Get(l.store, from) == Some(v) && Get(l.store, to) == None {
      ShiftCommits(l, w, v, At(from), At(to), MoveCommit(l, from, to, v).lib);
    } else {
      QuietIsSound(l, w, MoveCommit(l, from, to, v));
    }
  }

  lemma LoadSound(l: Lib, w: Where, from: Ref, i: int, v: Cartridge, cleaning: bool)
    requires Placed(l, w) && !from.DriveRef? && Exists(l.store, DriveRef(i)) && Get(l.store, DriveRef(i)) == None
    ensures Sound(l, w, LoadCommit(l, from, i, v, cleaning))
  {
    hide Shift, AllLegal, Replay, Placed, Seat;
    var seg := LoadCommit(l, from, i, v, cleaning);
    if Get(l.store, from) == Some(v) {
      var vol := Mounted(VolOf(l, v), cleaning);
      assert vol.barcode == VolOf(l, v).barcode && seg.lib.vols == WithVol(l, v, vol).vols;
      CommitTransfers(l, w, v, At(from), At(DriveRef(i)), seg.lib, i, Some(from),
                      MountsOf(l.store, i) + if cleaning then 0 else 1);
    } else {
      QuietIsSound(l, w, seg);
    }
  }

  lemma UnloadSound(l: Lib, w: Where, i: int, to: Ref, v: Cartridge)
    requires Placed(l, w) && !to.DriveRef? && Exists(l.store, to) && Get(l.store, DriveRef(i)) == Some(v)
    ensures Sound(l, w, UnloadCommit(l, i, to, v))
  {
    hide Shift, AllLegal, Replay, Placed, Seat;
    var seg := UnloadCommit(l, i, to, v);
    var vol := VolOf(l, v);
    var vol1 := if vol.cleaning then Rested(vol) else vol;
    assert vol1.barcode == vol.barcode && seg.lib.vols == WithVol(l, v, vol1).vols;
    CommitTransfers(l, w, v, At(DriveRef(i)), if Get(l.store, to).Some? then Outside else At(to), seg.lib, i, None,
                    if vol.cleaning then 0 else MountsOf(l.store, i));
  }

  lemma EjectSound(l: Lib, w: Where, i: int, v: Cartridge, origin: Option<Ref>)
    requires Placed(l, w) && Get(l.store, DriveRef(i)) == Some(v) && (origin.Some? ==> !origin.value.DriveRef?)
    ensures Sound(l, w, EjectCommit(l, i, v, origin))
  {
    hide Shift, AllLegal, Replay, Placed, Seat;
    var seg := EjectCommit(l, i, v, origin);
    assert Rested(VolOf(l, v)).barcode == VolOf(l, v).barcode;
    assert seg.lib.vols == WithVol(l, v, Rested(VolOf(l, v))).vols;
    CommitTransfers(l, w, v, At(DriveRef(i)), EjectPlace(l.store, origin), seg.lib, i, None, MountsOf(l.store, i));
  }

  lemma WashSound(l: Lib, w: Where, i: int, v: Cartridge)
    requires Placed(l, w)
    ensures Sound(l, w, WashDone(l, i, v))
  {
    hide AllLegal, Replay, Represents, Seat;
    var seg := WashDone(l, i, v);
    if Get(l.store, DriveRef(i)) == Some(v) {
      assert seg.events == [] && AllLegal(w, []) && Replay(w, []) == w by { NothingReplayed(w); }
      SeatSameContents(l.store, i, OriginAt(l.store, i), 0);
      ContentsDecide(l.store, seg.lib.store, w);
      DistinctIgnoresState(l, w, v, Used(l.settings.cleaning, VolOf(l, v)));
    } else {
      NothingReplayed(w);
    }
  }

  lemma NothingReplayed(w: Where)
    ensures AllLegal(w, []) && Replay(w, []) == w
  {
  }

  // ---- doors and topology

  lemma CloseSound(l: Lib, w: Where, door: Door, actions: seq<DoorAction>)
    requires Placed(l, w)
    ensures Sound(l, w, CloseCommit(l, door, actions))
  {
    hide CloseBatch, AllLegal, Replay, Represents;
    if CloseBatch(l.vols, door, l.store, actions).Accepted? {
      BatchTransfers(l.vols, door, l.store, w, actions);
      DistinctWithoutMore(l.vols, w, Replay(w, CloseBatch(l.vols, door, l.store, actions).events));
    } else {
      QuietIsSound(l, w, CloseCommit(l, door, actions));
    }
  }

  lemma ReconfigureSound(l: Lib, w: Where, c: Config)
    requires Placed(l, w)
    ensures Sound(l, w, ReconfigureStep(l, c))
  {
    hide Rebuild, Route, Represents;
    var e := Rebuilt(Route(l.store, c.layout));
    RebuildFollowsRoute(l.store, c.layout, w);
    ReplayOne(w, e);
    DistinctWithoutMore(l.vols, w, Apply(w, e));
  }

  // ---- calls that take mu alone

  lemma OffsiteSendSound(l: Lib, w: Where, from: Ref)
    requires Placed(l, w)
    ensures Sound(l, w, OffsiteSendStep(l, from))
  {
    hide Shift, AllLegal, Replay, Placed;
    if l.settings.offsite && Get(l.store, from).Some? {
      ShiftCommits(l, w, Get(l.store, from).value, At(from), Offsite, OffsiteSendStep(l, from).lib);
    } else {
      QuietIsSound(l, w, OffsiteSendStep(l, from));
    }
  }

  lemma OffsiteRecallSound(l: Lib, w: Where, barcode: string, to: Ref)
    requires Placed(l, w)
    ensures Sound(l, w, OffsiteRecallStep(l, barcode, to))
  {
    hide Shift, AllLegal, Replay, Placed;
    var seg := OffsiteRecallStep(l, barcode, to);
    FindBarcodeIs(l.vols, l.store.offsite, barcode);
    if seg.next == Return(Ok) {
      ShiftCommits(l, w, FindBarcode(l.vols, l.store.offsite, barcode).value, Offsite, At(to), seg.lib);
    } else {
      QuietIsSound(l, w, seg);
    }
  }

  lemma DeleteSound(l: Lib, w: Where, barcode: string)
    requires Placed(l, w)
    ensures Sound(l, w, DeleteOutsideStep(l, barcode))
  {
    FindBarcodeIs(l.vols, l.store.outside, barcode);
    match FindBarcode(l.vols, l.store.outside, barcode) {
      case None =>
      case Some(v) =>
        assert Holds(l.store, Outside, v);
        RepresentedIsUnique(l.store, w);
        TakeIs(l.store, Outside, v);
        ReplayOne(w, Deleted(v));
    }
  }

  lemma EverywhereIs(s: Store, w: Where)
    requires Represents(s, w)
    ensures Everywhere(s) == w.Keys
  {
    forall v | v in Everywhere(s) ensures v in w {
      if i :| 0 <= i < |s.slots| && s.slots[i].vol == Some(v) {
        assert Holds(s, At(SlotRef(i + 1)), v);
      } else if i :| 0 <= i < |s.ioslots| && s.ioslots[i].vol == Some(v) {
        assert Holds(s, At(IOSlotRef(|s.slots| + i + 1)), v);
      } else if i :| 0 <= i < |s.drives| && s.drives[i].vol == Some(v) {
        assert Holds(s, At(DriveRef(i)), v);
      } else if v in s.outside {
        assert Holds(s, Outside, v);
      } else {
        assert Holds(s, Offsite, v);
      }
    }
    forall v | v in w ensures v in Everywhere(s) {
      assert Holds(s, w[v], v);
    }
  }

  /** The store after the first n of a run of creations. */
  function CreatedStore(s: Store, first: nat, n: nat): Store {
    s.(outside := s.outside + seq(n, k requires 0 <= k < n => first + k))
  }

  function CreatedEvents(first: nat, n: nat): seq<Event> {
    seq(n, k requires 0 <= k < n => Created(first + k))
  }

  lemma {:induction false} CreationsRepresent(s: Store, w: Where, first: nat, n: nat)
    requires Represents(s, w) && forall v :: v in w ==> v < first
    ensures var w1 := Replay(w, CreatedEvents(first, n));
            AllLegal(w, CreatedEvents(first, n)) && Represents(CreatedStore(s, first, n), w1)
            && forall v :: v in w1 <==> v in w || first <= v < first + n
  {
    hide AllLegal;
    if n == 0 {
      NothingReplayed(w);
      assert CreatedStore(s, first, 0) == s;
    } else {
      var before, evs := CreatedStore(s, first, n - 1), CreatedEvents(first, n - 1);
      CreationsRepresent(s, w, first, n - 1);
      var w1 := Replay(w, evs);
      assert CreatedEvents(first, n) == evs + [Created(first + n - 1)];
      AppendEvent(w, evs, Created(first + n - 1));
      assert CreatedStore(s, first, n).outside == before.outside + [first + n - 1];
      OneMoreOutside(before, w1, first + n - 1);
    }
  }

  lemma OneMoreOutside(s: Store, w: Where, v: Cartridge)
    requires Represents(s, w) && v !in w
    ensures Represents(s.(outside := s.outside + [v]), w[v := Outside])
  {
    var t := s.(outside := s.outside + [v]);
    assert forall p :: !Holds(s, p, v);
    assert !Holds(s, Outside, v);
    AppendFresh(s.outside, v);
    forall p, x ensures Holds(t, p, x) <==> x in w[v := Outside] && w[v := Outside][x] == p {
      assert p.At? ==> Get(t, p.ref) == Get(s, p.ref);
      assert Holds(s, p, x) <==> x in w && w[x] == p;
    }
  }

  lemma TakenBy(l: Lib, w: Where)
    requires Represents(l.store, w)
    ensures forall v :: v in w ==> BarcodeOf(l.vols, v) in Taken(l)
  {
    EverywhereIs(l.store, w);
    forall v | v in w ensures BarcodeOf(l.vols, v) in Taken(l) {
      assert v in Everywhere(l.store);
    }
  }

  /** Old barcodes and fresh ones together are distinct. */
  lemma FreshStaysDistinct(l: Lib, w: Where, vols: seq<Volume>, w1: Where)
    requires Placed(l, w)
    requires forall k :: 0 <= k < |vols| ==> vols[k].barcode !in Taken(l)
    requires forall j, k :: 0 <= j < k < |vols| ==> vols[j].barcode != vols[k].barcode
    requires forall v :: v in w1 <==> v in w || |l.vols| <= v < |l.vols| + |vols|
    ensures Distinct(l.vols + vols, w1)
  {
    hide Represents, Taken;
    TakenBy(l, w);
    var n, all := |l.vols|, l.vols + vols;
    forall u, v | u in w1 && v in w1 && u < v ensures all[u].barcode != all[v].barcode {
      assert u in w ==> BarcodeOf(l.vols, u) in Taken(l);
    }
  }

  /** Creating cartridges with fresh, distinct barcodes. */
  lemma CreateSound(l: Lib, w: Where, vols: seq<Volume>)
    requires Placed(l, w)
    requires forall k :: 0 <= k < |vols| ==> vols[k].barcode !in Taken(l)
    requires forall j, k :: 0 <= j < k < |vols| ==> vols[j].barcode != vols[k].barcode
    ensures Sound(l, w, Seg(Create(l, vols), Return(Ok), Creations(l, |vols|)))
  {
    hide Replay, AllLegal, Represents, Taken;
    var n := |vols|;
    CreationsRepresent(l.store, w, |l.vols|, n);
    assert Creations(l, n) == CreatedEvents(|l.vols|, n);
    assert Create(l, vols).store == CreatedStore(l.store, |l.vols|, n);
    FreshStaysDistinct(l, w, vols, Replay(w, Creations(l, n)));
  }

  lemma CreateCartridgeSound(l: Lib, w: Where, tapeSet: string, barcode: string)
    requires Placed(l, w)
    ensures Sound(l, w, CreateCartridgeStep(l, tapeSet, barcode))
  {
    hide Create, Creations, Placed, Sound, Taken;
    var seg := CreateCartridgeStep(l, tapeSet, barcode);
    if seg.next == Return(Ok) {
      CreateSound(l, w, [Volume(barcode, tapeSet, false, Unset, 0, 0)]);
    } else {
      QuietIsSound(l, w, seg);
    }
  }

  lemma FreshSupply(spec: Barcode.Spec, taken: set<string>, count: int, bcs: seq<string>)
    requires Barcode.NextAvailable(spec, taken, count) == Some(bcs)
    ensures |bcs| == count >= 1
    ensures forall k :: 0 <= k < |bcs| ==> bcs[k] !in taken
    ensures forall j, k :: 0 <= j < k < |bcs| ==> bcs[j] != bcs[k]
  {
    Barcode.NextAvailableIs(spec, taken, count);
    var n: nat :| n < Barcode.Pow10(spec.volSerLength) && bcs == Barcode.FreeUpTo(spec, taken, n);
    Barcode.FreeIsFresh(spec, taken, n);
    assert forall k :: 0 <= k < |bcs| ==> bcs[k] in bcs;
  }

  lemma CreateCartridgesSound(l: Lib, w: Where, tapeSet: string, count: int)
    requires Placed(l, w)
    ensures Sound(l, w, CreateCartridgesStep(l, tapeSet, count))
  {
    hide Create, Creations, Placed, Sound, Taken, Barcode.NextAvailable;
    var seg := CreateCartridgesStep(l, tapeSet, count);
    if seg.next == Return(Ok) {
      var bcs := Barcode.NextAvailable(l.settings.tapeSets[tapeSet], Taken(l), count).value;
      FreshSupply(l.settings.tapeSets[tapeSet], Taken(l), count, bcs);
      CreateSound(l, w, DataTapes(bcs, tapeSet));
    } else {
      QuietIsSound(l, w, seg);
    }
  }

  lemma CreateCleaningTapeSound(l: Lib, w: Where)
    requires Placed(l, w)
    ensures Sound(l, w, CreateCleaningTapeStep(l))
  {
    hide Create, Creations, Placed, Sound, Taken, Barcode.NextAvailable;
    var seg := CreateCleaningTapeStep(l);
    if seg.next == Return(Ok) {
      var bcs := Barcode.NextAvailable(CLEANING_SPEC, Taken(l), 1).value;
      FreshSupply(CLEANING_SPEC, Taken(l), 1, bcs);
      CreateSound(l, w, [Volume(bcs[0], "", true, Available, 0, 0)]);
    } else {
      QuietIsSound(l, w, seg);
    }
  }

  // ---- every stretch

  lemma SameStoreAndVols(l: Lib, w: Where, seg: Seg)
    requires Placed(l, w) && seg.events == [] && SameContents(l.store, seg.lib.store) && seg.lib.vols == l.vols
    ensures Sound(l, w, seg)
  {
    ContentsDecide(l.store, seg.lib.store, w);
  }

  lemma BeginSound(l: Lib, w: Where, call: Call)
    requires Placed(l, w)
    ensures Sound(l, w, Begin(l, call))
  {
    hide Placed, Sound, Get, Exists, ReconfigureStep, OffsiteSendStep, OffsiteRecallStep, CreateCartridgeStep,
      CreateCartridgesStep, CreateCleaningTapeStep, DeleteOutsideStep, InScope, Incompatible, AnyConflict;
    match call {
      case Reconfigure(c) => ReconfigureSound(l, w, c);
      case OffsiteSend(from) => OffsiteSendSound(l, w, from);
      case OffsiteRecall(barcode, to) => OffsiteRecallSound(l, w, barcode, to);
      case CreateCartridge(tapeSet, barcode) => CreateCartridgeSound(l, w, tapeSet, barcode);
      case CreateCartridges(tapeSet, count) => CreateCartridgesSound(l, w, tapeSet, count);
      case CreateCleaningTape => CreateCleaningTapeSound(l, w);
      case DeleteOutside(barcode) => DeleteSound(l, w, barcode);
      case SetDriveFault(i, fault) => FaultSound(l, w, i, fault);
      case _ => QuietIsSound(l, w, Begin(l, call));
    }
  }

  lemma FaultSound(l: Lib, w: Where, i: int, fault: bool)
    requires Placed(l, w)
    ensures Sound(l, w, SetDriveFaultStep(l, i, fault))
  {
    SameStoreAndVols(l, w, SetDriveFaultStep(l, i, fault));
  }

  lemma CommitSound(l: Lib, w: Where, call: Call, v: Cartridge, cleaning: bool)
    requires Placed(l, w) && Ready(l, call, Travel(v, 0, cleaning))
    ensures Sound(l, w, Commit(l, call, v, cleaning))
  {
    hide Placed, Sound, MoveCommit, LoadCommit, UnloadCommit;
    match call {
      case Move(from, to, _) => MoveSound(l, w, from, to, v);
      case Load(from, i, _) => LoadSound(l, w, from, i, v, cleaning);
      case Unload(i, to, _) => UnloadSound(l, w, i, to, v);
      case _ =>
    }
  }

  /** Every stretch of every call is a legal piece of the atomic placement specification. */
  lemma StretchSound(l: Lib, w: Where, call: Call, stage: Stage)
    requires Placed(l, w) && Ready(l, call, stage)
    ensures Sound(l, w, Exec(l, call, stage))
  {
    hide Placed, Sound, Begin, Commit, WashDone, EjectCommit, CloseCommit;
    match stage {
      case Start => BeginSound(l, w, call);
      case Travel(v, left, cleaning) =>
        if left > 0 { QuietIsSound(l, w, Exec(l, call, stage)); } else { CommitSound(l, w, call, v, cleaning); }
      case Washing(v) => WashSound(l, w, call.drive, v);
      case Ejecting(v, origin, left) =>
        if left > 0 { QuietIsSound(l, w, Exec(l, call, stage)); } else { EjectSound(l, w, call.drive, v, origin); }
      case DoorMoving =>
        match call {
          case CloseDoor(door, actions) => CloseSound(l, w, door, actions);
          case _ => QuietIsSound(l, w, Exec(l, call, stage));
        }
      case Scanning(left) => QuietIsSound(l, w, Exec(l, call, stage));
    }
  }

  // ---- which stretches reach into drives

  predicate SitsInDrive(p: Place) {
    p.At? && p.ref.DriveRef?
  }

  /** Nothing enters or leaves a drive; a rebuild keeps drives and slots apart. */
  predicate AvoidsDrives(e: Event) {
    match e
    case Transferred(_, src, dst) => !SitsInDrive(src) && !SitsInDrive(dst)
    case Rebuilt(route) => forall r :: r in route ==> (r.DriveRef? <==> route[r].DriveRef?)
    case _ => true
  }

  lemma RouteAvoidsDrives(s: Store, c: Layout)
    ensures AvoidsDrives(Rebuilt(Route(s, c)))
  {
    hide Build, Route;
    var route := Route(s, c);
    forall r | r in route ensures r.DriveRef? <==> route[r].DriveRef? {
      RouteIs(s, c, r, route[r]);
    }
  }

  lemma BeginAvoidsDrives(l: Lib, call: Call)
    requires !MisusesDrive(call)
    ensures forall e :: e in Begin(l, call).events ==> AvoidsDrives(e)
  {
    hide Rebuild, Shift, Get, Exists, Incompatible, InScope, AnyConflict, Route, Taken;
    match call {
      case OffsiteSend(_) =>
      case OffsiteRecall(_, _) =>
      case Reconfigure(c) => RouteAvoidsDrives(l.store, c.layout);
      case _ =>
    }
  }

  lemma CloseAvoidsDrives(l: Lib, w: Where, door: Door, actions: seq<DoorAction>)
    requires Placed(l, w)
    ensures forall e :: e in CloseCommit(l, door, actions).events ==> AvoidsDrives(e)
  {
    hide CloseBatch, Represents;
    var b := CloseBatch(l.vols, door, l.store, actions);
    if b.Accepted? {
      BatchTransfers(l.vols, door, l.store, w, actions);
      forall i | 0 <= i < |b.events| ensures AvoidsDrives(b.events[i]) {
        assert MatchesAction(l.vols, door, actions[i], b.events[i]);
      }
    }
  }
}
