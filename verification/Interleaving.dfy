/** Every interleaving of calls: what threads rely on holds when they need it, so the whole history
    of a run is a legal run of the atomic placement specification. */
module Interleaving {
  import opened Common
  import opened Placement
  import opened Topology
  import opened Rebuilding
  import opened LibraryState
  import opened Transfers
  import opened Batches
  import opened Stretches
  import opened Protocol

  // ---- what a call that does not hold opMu may change

  /** Slots may be emptied or filled and drives may fail; everything else stays. */
  ghost predicate Bystander(l: Lib, m: Lib) {
    && SameShape(l.store, m.store)
    && (forall i :: 0 <= i < |l.store.drives| ==>
          m.store.drives[i].vol == l.store.drives[i].vol && m.store.drives[i].origin == l.store.drives[i].origin)
    && |l.vols| <= |m.vols| && (forall v :: 0 <= v < |l.vols| ==> m.vols[v] == l.vols[v])
    && m.openDoors == l.openDoors && m.arm == l.arm && m.libraries == l.libraries
  }

  lemma MuOnlyIsBystander(l: Lib, call: Call)
    requires !NeedsArm(call) && !MisusesDrive(call)
    ensures Bystander(l, Begin(l, call).lib)
  {
    hide Shift, SafeName, Taken, Bystander, Get, Exists, Create;
    match call {
      case OffsiteSend(from) =>
        if Get(l.store, from).Some? {
          ShiftIsBystander(l, Get(l.store, from).value, At(from), Offsite);
        }
        SameIsBystander(l);
      case OffsiteRecall(barcode, to) =>
        if FindBarcode(l.vols, l.store.offsite, barcode).Some? {
          ShiftIsBystander(l, FindBarcode(l.vols, l.store.offsite, barcode).value, Offsite, At(to));
        }
        SameIsBystander(l);
      case CreateCartridge(_, _) => CreationIsBystander(l, call);
      case CreateCartridges(_, _) => CreationIsBystander(l, call);
      case CreateCleaningTape => CreationIsBystander(l, call);
      case _ => ListCallIsBystander(l, call);
    }
  }

  lemma SameIsBystander(l: Lib)
    ensures Bystander(l, l)
  {
  }

  lemma ShiftIsBystander(l: Lib, v: Cartridge, src: Place, dst: Place)
    requires src.At? ==> !src.ref.DriveRef?
    requires dst.At? ==> !dst.ref.DriveRef?
    ensures Bystander(l, l.(store := Shift(l.store, v, src, dst)))
  {
    hide Shift;
    SlotShiftKeepsDrives(l.store, v, src, dst);
    ShiftKeepsShape(l.store, v, src, dst);
  }

  lemma CreationIsBystander(l: Lib, call: Call)
    requires call.CreateCartridge? || call.CreateCartridges? || call.CreateCleaningTape?
    ensures Bystander(l, Begin(l, call).lib)
  {
    hide Begin, CreateCartridgeStep, CreateCartridgesStep, CreateCleaningTapeStep, Bystander;
    var m := Begin(l, call).lib;
    CreationGrows(l, call);
    if m != l {
      GrowingIsBystander(l, m);
    } else {
      SameIsBystander(l);
    }
  }

  /** A creation adds to the outside list and to the tapes, and changes nothing else. */
  ghost predicate Grows(l: Lib, m: Lib) {
    && m == l.(store := l.store.(outside := m.store.outside), vols := m.vols)
    && l.vols <= m.vols
  }

  lemma CreateGrows(l: Lib, vols: seq<Volume>)
    ensures Grows(l, Create(l, vols))
  {
  }

  lemma CreationGrows(l: Lib, call: Call)
    requires call.CreateCartridge? || call.CreateCartridges? || call.CreateCleaningTape?
    ensures Begin(l, call).lib == l || Grows(l, Begin(l, call).lib)
  {
    hide SafeName, Taken, Barcode.NextAvailable, Barcode.Valid, Within, VolOf, Create, Grows;
    match call {
      case CreateCartridge(tapeSet, barcode) => CreateGrows(l, [Volume(barcode, tapeSet, false, Unset, 0, 0)]);
      case CreateCartridges(tapeSet, count) =>
        if tapeSet in l.settings.tapeSets {
          var barcodes := Barcode.NextAvailable(l.settings.tapeSets[tapeSet], Taken(l), count);
          if barcodes.Some? {
            CreateGrows(l, DataTapes(barcodes.value, tapeSet));
          }
        }
      case CreateCleaningTape =>
        Barcode.NextAvailableIs(CLEANING_SPEC, Taken(l), 1);
        var barcodes := Barcode.NextAvailable(CLEANING_SPEC, Taken(l), 1);
        if barcodes.Some? {
          CreateGrows(l, [Volume(barcodes.value[0], "", true, Available, 0, 0)]);
        }
    }
  }

  lemma GrowingIsBystander(l: Lib, m: Lib)
    requires Grows(l, m)
    ensures Bystander(l, m)
  {
  }

  lemma ListCallIsBystander(l: Lib, call: Call)
    requires call.DeleteOutside? || call.SetDriveFault? || call.SetRoboticFault? || call.SetCleaning?
             || call.SetOffsite?
    ensures Bystander(l, Begin(l, call).lib)
  {
    hide FindBarcode, Get, Without;
  }

  lemma UnitFollowsShape(s: Store, t: Store, door: Door)
    requires SameShape(s, t)
    ensures UnitExists(s, door) ==> UnitExists(t, door)
  {
    if i :| 0 <= i < |SlotsBehind(s, door)| && SlotsBehind(s, door)[i].unit == door.id {
      assert SlotsBehind(t, door)[i].unit == door.id;
    }
  }

  /** The freshness checks are enough: what a thread relies on survives every bystander. */
  lemma ReadyIsStable(l: Lib, m: Lib, call: Call, stage: Stage)
    requires Ready(l, call, stage) && Bystander(l, m)
    ensures Ready(m, call, stage)
  {
    assert forall r :: Exists(l.store, r) == Exists(m.store, r);
    assert forall i :: Get(l.store, DriveRef(i)) == Get(m.store, DriveRef(i));
    if call.OpenDoor? {
      UnitFollowsShape(l.store, m.store, call.door);
    }
  }

  // ---- from one stretch to the next

  /** Only a load's cleaning wait gives opMu up in the middle. */
  predicate Resumable(call: Call, stage: Stage) {
    !MisusesDrive(call) && (stage == Start || (stage.Washing? && call.Load?))
  }

  ghost predicate NextReady(call: Call, seg: Seg) {
    match seg.next
    case Sleep(later) => Ready(seg.lib, call, later)
    case Drift(later) => Resumable(call, later)
    case Return(_) => true
  }

  lemma HeldIsKnown(l: Lib, w: Where, r: Ref)
    requires Placed(l, w)
    ensures Get(l.store, r).Some? ==> Get(l.store, r).value < |l.vols|
  {
    if Get(l.store, r).Some? {
      assert Holds(l.store, At(r), Get(l.store, r).value);
    }
  }

  lemma BeginReady(l: Lib, w: Where, call: Call)
    requires Placed(l, w) && NeedsArm(call) && !MisusesDrive(call)
    ensures NextReady(call, Begin(l, call))
  {
    hide ReconfigureStep, Placed, Incompatible, InScope, AnyConflict;
    match call {
      case Load(from, _, _) => HeldIsKnown(l, w, from);
      case Reconfigure(c) => ReconfigureReturns(l, c);
      case _ =>
    }
  }

  lemma ReconfigureReturns(l: Lib, c: Config)
    ensures ReconfigureStep(l, c).next == Return(Ok)
  {
  }

  lemma StretchReady(l: Lib, w: Where, call: Call, stage: Stage)
    requires Placed(l, w) && OriginsAreSlots(l.store) && NeedsArm(call) && Ready(l, call, stage)
    ensures NextReady(call, Exec(l, call, stage))
  {
    hide Begin, Placed, CloseBatch, Shift;
    if stage == Start {
      BeginReady(l, w, call);
    }
  }

  // ---- the system invariant

  ghost predicate ThreadReady(l: Lib, th: Thread) {
    match th.pc
    case WaitOp(stage) => Resumable(th.call, stage)
    case WaitMu(stage) => Ready(l, th.call, stage)
    case Running(stage) => Ready(l, th.call, stage)
    case Releasing(Again(stage)) => Resumable(th.call, stage)
    case Releasing(Done(_)) => !MisusesDrive(th.call)
    case Finished(_) => true
  }

  /** The history so far is a legal run of the specification that ends in the library's contents. */
  ghost predicate Refined(sys: Sys, w0: Where) {
    AllLegal(w0, sys.history) && Placed(sys.lib, Replay(w0, sys.history))
  }

  ghost predicate Consistent(sys: Sys, w0: Where) {
    && Locked(sys) && Refined(sys, w0) && OriginsAreSlots(sys.lib.store)
    && forall t :: 0 <= t < |sys.threads| ==> ThreadReady(sys.lib, sys.threads[t])
  }

  lemma SeatKeepsOrigins(s: Store, i: int, origin: Option<Ref>, mounts: nat)
    requires OriginsAreSlots(s) && (origin.Some? ==> !origin.value.DriveRef?)
    ensures OriginsAreSlots(Seat(s, i, origin, mounts))
  {
  }

  /** The same drives, but for their cartridges. */
  ghost predicate SameOrigins(s: Store, t: Store) {
    && |t.drives| == |s.drives|
    && forall i :: 0 <= i < |s.drives| ==>
         t.drives[i].origin == s.drives[i].origin && t.drives[i].path == s.drives[i].path
  }

  lemma PutKeepsOrigins(s: Store, r: Ref, v: Option<Cartridge>)
    ensures SameOrigins(s, Put(s, r, v))
  {
  }

  lemma ShiftKeepsOrigins(s: Store, v: Cartridge, src: Place, dst: Place)
    ensures SameOrigins(s, Shift(s, v, src, dst))
  {
    hide Put;
    var t := Take(s, src, v);
    if src.At? {
      PutKeepsOrigins(s, src.ref, None);
    }
    if dst.At? {
      PutKeepsOrigins(t, dst.ref, Some(v));
    }
  }

  lemma BystanderKeepsOrigins(l: Lib, m: Lib)
    requires Bystander(l, m) && OriginsAreSlots(l.store)
    ensures OriginsAreSlots(m.store)
  {
  }

  lemma BeginKeepsOrigins(l: Lib, call: Call)
    requires OriginsAreSlots(l.store) && !MisusesDrive(call)
    ensures OriginsAreSlots(Begin(l, call).lib.store)
  {
    if !NeedsArm(call) {
      MuOnlyIsBystander(l, call);
      BystanderKeepsOrigins(l, Begin(l, call).lib);
    } else {
      hide Rebuild, Route, OriginsAreSlots, Incompatible, InScope, AnyConflict;
      match call {
        case Reconfigure(c) => OriginsStaySlots(l.store, c.layout);
        case _ =>
      }
    }
  }

  lemma StretchKeepsOrigins(l: Lib, call: Call, stage: Stage)
    requires OriginsAreSlots(l.store) && Ready(l, call, stage)
    ensures OriginsAreSlots(Exec(l, call, stage).lib.store)
  {
    hide Begin, Shift, Seat, ApplyActions;
    match stage {
      case Start => BeginKeepsOrigins(l, call);
      case Travel(v, left, cleaning) =>
        match call {
          case Move(from, to, _) => ShiftKeepsOrigins(l.store, v, At(from), At(to));
          case Load(from, i, _) =>
            ShiftKeepsOrigins(l.store, v, At(from), At(DriveRef(i)));
            SeatKeepsOrigins(Shift(l.store, v, At(from), At(DriveRef(i))), i, Some(from),
                MountsOf(l.store, i) + if cleaning then 0 else 1);
          case Unload(i, to, _) =>
            var dst := if Get(l.store, to).Some? then Outside else At(to);
            ShiftKeepsOrigins(l.store, v, At(DriveRef(i)), dst);
            SeatKeepsOrigins(Shift(l.store, v, At(DriveRef(i)), dst), i, None, if VolOf(l, v).cleaning then 0
                else MountsOf(l.store, i));
          case _ =>
        }
      case Washing(v) => SeatKeepsOrigins(l.store, call.drive, OriginAt(l.store, call.drive), 0);
      case Ejecting(v, origin, left) =>
        var dst := EjectPlace(l.store, origin);
        ShiftKeepsOrigins(l.store, v, At(DriveRef(call.drive)), dst);
        SeatKeepsOrigins(Shift(l.store, v, At(DriveRef(call.drive)), dst), call.drive, None,
            MountsOf(l.store, call.drive));
      case DoorMoving =>
        if call.CloseDoor? && ApplyActions(l.vols, call.door, l.store, call.actions).Accepted? {
          ActionsKeepDrives(l.vols, call.door, l.store, call.actions);
        }
      case Scanning(left) =>
    }
  }

  lemma StretchRefines(sys: Sys, w0: Where, t: nat, stage: Stage)
    requires Refined(sys, w0) && t < |sys.threads| && Ready(sys.lib, sys.threads[t].call, stage)
    ensures Refined(RunStretch(sys, t, stage), w0)
  {
    hide Exec, HomeAfter, Placed, AllLegal, Replay, Ready;
    var w := Replay(w0, sys.history);
    StretchSound(sys.lib, w, sys.threads[t].call, stage);
    ReplayAppend(w0, sys.history, Exec(sys.lib, sys.threads[t].call, stage).events);
  }

  lemma StretchKeepsThreads(sys: Sys, w0: Where, t: nat)
    requires Consistent(sys, w0) && t < |sys.threads| && sys.threads[t].pc.Running?
    ensures var sys1 := RunStretch(sys, t, sys.threads[t].pc.stage);
            forall u :: 0 <= u < |sys1.threads| ==> ThreadReady(sys1.lib, sys1.threads[u])
  {
    hide Exec, HomeAfter, Ready, Placed, AllLegal, Replay, Bystander;
    var th := sys.threads[t];
    var stage := th.pc.stage;
    var seg := Exec(sys.lib, th.call, stage);
    var sys1 := RunStretch(sys, t, stage);
    assert ThreadReady(sys.lib, th);
    ReadyFits(sys.lib, th.call, stage);
    if NeedsArm(th.call) {
      StretchReady(sys.lib, Replay(w0, sys.history), th.call, stage);
      assert HoldsOp(th) && sys.opOwner == Some(t);
      forall u | 0 <= u < |sys.threads| && u != t ensures ThreadReady(seg.lib, sys.threads[u]) {
        OthersUnaffected(sys.lib, seg.lib, sys.threads[u]);
      }
    } else {
      MuOnlyStretch(sys.lib, th.call);
      forall u | 0 <= u < |sys.threads| && u != t ensures ThreadReady(seg.lib, sys.threads[u]) {
        ThreadReadyIsStable(sys.lib, seg.lib, sys.threads[u]);
      }
    }
  }

  lemma MuOnlyStretch(l: Lib, call: Call)
    requires !NeedsArm(call) && Ready(l, call, Start)
    ensures Bystander(l, Exec(l, call, Start).lib) && Exec(l, call, Start).next.Return?
  {
    hide Begin;
    MuOnlyIsBystander(l, call);
    MuOnlyReturns(l, call);
  }

  /** A thread without opMu relies on nothing in the library. */
  lemma OthersUnaffected(l: Lib, m: Lib, th: Thread)
    requires ThreadReady(l, th) && !HoldsOp(th) && (!NeedsArm(th.call) ==> MuOnly(th.pc))
    ensures ThreadReady(m, th)
  {
  }

  lemma ThreadReadyIsStable(l: Lib, m: Lib, th: Thread)
    requires ThreadReady(l, th) && Bystander(l, m)
    ensures ThreadReady(m, th)
  {
    hide Ready, Bystander;
    match th.pc {
      case WaitMu(stage) => ReadyIsStable(l, m, th.call, stage);
      case Running(stage) => ReadyIsStable(l, m, th.call, stage);
      case _ =>
    }
  }

  lemma StepKeepsConsistent(sys: Sys, w0: Where, step: Step)
    requires Consistent(sys, w0)
    ensures Consistent(Do(sys, step), w0)
  {
    hide Exec, HomeAfter, Placed, AllLegal, Replay, RunStretch, OriginsAreSlots;
    StepKeepsLocked(sys, step);
    match step {
      case Spawn(call) =>
      case Advance(t) =>
        if Enabled(sys, t) && sys.threads[t].pc.Running? {
          var stage := sys.threads[t].pc.stage;
          assert ThreadReady(sys.lib, sys.threads[t]);
          StretchRefines(sys, w0, t, stage);
          StretchKeepsThreads(sys, w0, t);
          StretchLib(sys, t, stage);
          StretchKeepsOrigins(sys.lib, sys.threads[t].call, stage);
        }
    }
  }

  lemma StretchLib(sys: Sys, t: nat, stage: Stage)
    requires t < |sys.threads|
    ensures RunStretch(sys, t, stage).lib == Exec(sys.lib, sys.threads[t].call, stage).lib
  {
  }

  lemma {:induction false} RunKeepsConsistent(sys: Sys, w0: Where, steps: seq<Step>)
    requires Consistent(sys, w0)
    ensures Consistent(Run(sys, steps), w0)
  {
    hide Do, Consistent;
    if steps != [] {
      RunKeepsConsistent(sys, w0, steps[..|steps| - 1]);
      StepKeepsConsistent(Run(sys, steps[..|steps| - 1]), w0, steps[|steps| - 1]);
    }
  }

  /** Nothing is running, every cartridge is where w0 says, and no drive's Origin is a drive. */
  ghost predicate Initial(sys: Sys, w0: Where) {
    Quiet(sys) && Placed(sys.lib, w0) && OriginsAreSlots(sys.lib.store)
  }

  lemma InitialIsConsistent(sys: Sys, w0: Where)
    requires Initial(sys, w0)
    ensures Consistent(sys, w0)
  {
    NothingReplayed(w0);
  }

  // ---- the main results

  /** Every interleaving refines the atomic placement specification: the history of the run is legal
      step by step and leads exactly to where the cartridges are. */
  lemma RunRefines(sys: Sys, w0: Where, steps: seq<Step>)
    requires Initial(sys, w0)
    ensures AllLegal(w0, Run(sys, steps).history)
    ensures Placed(Run(sys, steps).lib, Replay(w0, Run(sys, steps).history))
  {
    InitialIsConsistent(sys, w0);
    RunKeepsConsistent(sys, w0, steps);
  }

  /** In every reachable state each cartridge is in at most one place and barcodes are distinct. */
  lemma RunKeepsUnique(sys: Sys, w0: Where, steps: seq<Step>)
    requires Initial(sys, w0)
    ensures var l := Run(sys, steps).lib;
            && Unique(l.store)
            && forall p, q, u, v :: Holds(l.store, p, u) && Holds(l.store, q, v) && u != v ==>
                 BarcodeOf(l.vols, u) != BarcodeOf(l.vols, v)
  {
    hide Run;
    RunRefines(sys, w0, steps);
    RepresentedIsUnique(Run(sys, steps).lib.store, Replay(w0, Run(sys, steps).history));
  }

  /** The event that lost cartridge v: its deletion, or a rebuild without its element's identity. */
  ghost predicate LosesAt(w0: Where, events: seq<Event>, v: Cartridge, i: nat)
    requires i < |events|
  {
    var w := Replay(w0, events[..i]);
    v in w && (events[i] == Deleted(v) || (events[i].Rebuilt? && w[v].At? && w[v].ref !in events[i].route))
  }

  ghost predicate Lost(w0: Where, events: seq<Event>, v: Cartridge) {
    exists i: nat :: i < |events| && LosesAt(w0, events, v, i)
  }

  /** A cartridge disappears only by being deleted or by a rebuild that drops its element. */
  lemma {:induction false} LostOnlyThen(w0: Where, events: seq<Event>, v: Cartridge)
    requires v in w0 && v !in Replay(w0, events)
    ensures Lost(w0, events, v)
  {
    var n := |events| - 1;
    if events != [] {
      var init := events[..n];
      if v in Replay(w0, init) {
        assert LosesAt(w0, events, v, n);
      } else {
        LostOnlyThen(w0, init, v);
        var i: nat :| i < |init| && LosesAt(w0, init, v, i);
        assert init[..i] == events[..i];
        assert LosesAt(w0, events, v, i);
      }
    }
  }

  /** A cartridge appears only by being created. */
  lemma {:induction false} NewOnlyByCreation(w0: Where, events: seq<Event>, v: Cartridge)
    requires v !in w0 && v in Replay(w0, events)
    requires AllLegal(w0, events)
    ensures Created(v) in events
  {
    if events != [] {
      var init, e := events[..|events| - 1], events[|events| - 1];
      if v in Replay(w0, init) {
        NewOnlyByCreation(w0, init, v);
      }
    }
  }

  /** Conservation over every run. */
  lemma RunConserves(sys: Sys, w0: Where, steps: seq<Step>, v: Cartridge)
    requires Initial(sys, w0)
    ensures var r := Run(sys, steps);
            && (v in w0 && !Lost(w0, r.history, v) ==> exists p :: Holds(r.lib.store, p, v))
            && (v !in w0 && (exists p :: Holds(r.lib.store, p, v)) ==> Created(v) in r.history)
  {
    hide Run, Lost, AllLegal;
    RunRefines(sys, w0, steps);
    var r := Run(sys, steps);
    var w := Replay(w0, r.history);
    if v in w0 && !Lost(w0, r.history, v) {
      if v !in w {
        LostOnlyThen(w0, r.history, v);
        assert false;
      }
      assert Holds(r.lib.store, w[v], v);
    }
    if v !in w0 && v in w {
      NewOnlyByCreation(w0, r.history, v);
    }
  }
}
