/** What each call has done when it returns, and the arm's telemetry: busy marks and the door counter. */
module Outcomes {
  import opened Common
  import opened Placement
  import opened LibraryState
  import opened Transfers
  import opened Batches
  import opened Stretches
  import opened Protocol
  import opened Interleaving
  import opened CleaningLife
  import opened Topology

  // ---- what a call's own events are

  ghost predicate IsTransfer(e: Event, src: Place, dst: Place) {
    e.Transferred? && e.src == src && e.dst == dst
  }

  ghost predicate OneTransfer(log: seq<Event>, src: Place, dst: Place) {
    |log| == 1 && IsTransfer(log[0], src, dst)
  }

  /** A load, and after a robot-mode cleaning the eject of the same tape to a slot or the outside list. */
  ghost predicate LoadedThenEjected(log: seq<Event>, from: Ref, i: int) {
    && |log| == 2 && IsTransfer(log[0], At(from), At(DriveRef(i)))
    && log[1].Transferred? && log[1].v == log[0].v && log[1].src == At(DriveRef(i))
    && (log[1].dst == Outside || (log[1].dst.At? && !log[1].dst.ref.DriveRef?))
  }

  /** New cartridges of that tape set and kind, and nothing else. */
  ghost predicate AllCreated(vols: seq<Volume>, log: seq<Event>, tapeSet: string, cleaning: bool) {
    forall e :: e in log ==>
      e.Created? && e.v < |vols| && vols[e.v].tapeSet == tapeSet && vols[e.v].cleaning == cleaning
  }

  /** The events of a call that has returned: an error means nothing happened to any cartridge, except
      that an unload whose destination was filled meanwhile has put its tape outside. */
  ghost predicate Outcome(vols: seq<Volume>, call: Call, result: Result, log: seq<Event>) {
    match call
    case Move(from, to, _) => if result == Ok then OneTransfer(log, At(from), At(to)) else log == []
    case Load(from, i, _) =>
      if result == Ok then OneTransfer(log, At(from), At(DriveRef(i))) || LoadedThenEjected(log, from, i) else log == []
    case Unload(i, to, _) =>
      if result == Ok then OneTransfer(log, At(DriveRef(i)), At(to))
      else log == [] || (result == Err(Full) && OneTransfer(log, At(DriveRef(i)), Outside))
    case CloseDoor(door, actions) => if result == Ok then MatchesActions(vols, door, actions, log) else log == []
    case Reconfigure(_) => result == Ok && |log| == 1 && log[0].Rebuilt?
    case OffsiteSend(from) => if result == Ok then OneTransfer(log, At(from), Offsite) else log == []
    case OffsiteRecall(barcode, to) =>
      if result == Ok then OneTransfer(log, Offsite, At(to)) && Bears(vols, log[0].v, barcode) else log == []
    case CreateCartridge(tapeSet, barcode) =>
      if result == Ok then |log| == 1 && AllCreated(vols, log, tapeSet, false) && Bears(vols, log[0].v, barcode)
          else log == []
    case CreateCartridges(tapeSet, count) =>
      if result == Ok then |log| == count && AllCreated(vols, log, tapeSet, false) else log == []
    case CreateCleaningTape => if result == Ok then |log| == 1 && AllCreated(vols, log, "", true) else log == []
    case DeleteOutside(barcode) =>
      if result == Ok then |log| == 1 && log[0].Deleted? && Bears(vols, log[0].v, barcode) else log == []
    case _ => log == []
  }

  /** The events of a call that is still under way. */
  ghost predicate SoFar(vols: seq<Volume>, call: Call, stage: Stage, log: seq<Event>) {
    match stage
    case Washing(v) => call.Load? && OneTransfer(log, At(call.from), At(DriveRef(call.drive))) && log[0].v == v
    case Ejecting(v, _, _) => call.Load? && OneTransfer(log, At(call.from), At(DriveRef(call.drive))) && log[0].v == v
    case Scanning(_) => call.CloseDoor? && MatchesActions(vols, call.door, call.actions, log)
    case _ => log == []
  }

  ghost predicate Logged(vols: seq<Volume>, th: Thread) {
    match th.pc
    case WaitOp(stage) => SoFar(vols, th.call, stage, th.log)
    case WaitMu(stage) => SoFar(vols, th.call, stage, th.log)
    case Running(stage) => SoFar(vols, th.call, stage, th.log)
    case Releasing(Again(stage)) => SoFar(vols, th.call, stage, th.log)
    case Releasing(Done(result)) => Outcome(vols, th.call, result, th.log)
    case Finished(result) =>
      if MisusesDrive(th.call) then result == Err(InvalidTarget) && th.log == []
          else Outcome(vols, th.call, result, th.log)
  }

  lemma ActionsAge(vols: seq<Volume>, vols1: seq<Volume>, door: Door, actions: seq<DoorAction>, log: seq<Event>)
    requires MatchesActions(vols, door, actions, log) && Ages(vols, vols1)
    ensures MatchesActions(vols1, door, actions, log)
  {
    forall i | 0 <= i < |actions| ensures MatchesAction(vols1, door, actions[i], log[i]) {
      assert MatchesAction(vols, door, actions[i], log[i]);
      if actions[i].kind == LoadAction {
        assert AgesTo(vols[log[i].v], vols1[log[i].v]);
      }
    }
  }

  /** Barcodes and kinds stay, so what a log says of its cartridges stays true. */
  lemma OutcomeAges(vols: seq<Volume>, vols1: seq<Volume>, call: Call, result: Result, log: seq<Event>)
    requires Outcome(vols, call, result, log) && Ages(vols, vols1)
    ensures Outcome(vols1, call, result, log)
  {
    hide MatchesActions;
    forall v: Cartridge, barcode | Bears(vols, v, barcode) ensures Bears(vols1, v, barcode) {
      assert AgesTo(vols[v], vols1[v]);
    }
    forall e | e in log && e.Created? && e.v < |vols| ensures AgesTo(vols[e.v], vols1[e.v]) {
    }
    if call.CloseDoor? && result == Ok {
      ActionsAge(vols, vols1, call.door, call.actions, log);
    }
  }

  lemma LoggedAges(vols: seq<Volume>, vols1: seq<Volume>, th: Thread)
    requires Logged(vols, th) && Ages(vols, vols1)
    ensures Logged(vols1, th)
  {
    hide Outcome, Ages, OneTransfer, MatchesActions;
    var stage := StageOf(th);
    if stage.Some? && stage.value.Scanning? {
      ActionsAge(vols, vols1, th.call.door, th.call.actions, th.log);
    }
    match th.pc {
      case Releasing(Done(result)) => OutcomeAges(vols, vols1, th.call, result, th.log);
      case Finished(result) => if !MisusesDrive(th.call) { OutcomeAges(vols, vols1, th.call, result, th.log); }
      case _ =>
    }
  }

  ghost predicate SegLogged(call: Call, log: seq<Event>, seg: Seg) {
    match seg.next
    case Sleep(later) => SoFar(seg.lib.vols, call, later, log + seg.events)
    case Drift(later) => SoFar(seg.lib.vols, call, later, log + seg.events)
    case Return(result) => Outcome(seg.lib.vols, call, result, log + seg.events)
  }

  lemma BeginLogged(l: Lib, call: Call)
    ensures SegLogged(call, [], Begin(l, call))
  {
    hide Get, Exists, Incompatible, InScope, AnyConflict, Shift, Rebuild, Route, Outcome, SoFar, CreateCartridgeStep,
      CreateCartridgesStep, CreateCleaningTapeStep;
    var seg := Begin(l, call);
    assert [] + seg.events == seg.events;
    match call {
      case CreateCartridge(_, _) => CreationLogged(l, call);
      case CreateCartridges(_, _) => CreationLogged(l, call);
      case CreateCleaningTape => CreationLogged(l, call);
      case OffsiteSend(_) => ListCallLogged(l, call);
      case OffsiteRecall(_, _) => ListCallLogged(l, call);
      case DeleteOutside(_) => ListCallLogged(l, call);
      case _ => PlainCallLogged(l, call);
    }
  }

  lemma ListCallLogged(l: Lib, call: Call)
    requires call.OffsiteSend? || call.OffsiteRecall? || call.DeleteOutside?
    ensures Begin(l, call).next.Return?
            && Outcome(Begin(l, call).lib.vols, call, Begin(l, call).next.result, Begin(l, call).events)
  {
    hide Get, Exists, Shift, FindBarcode, Take;
    match call {
      case OffsiteRecall(barcode, _) => FindBarcodeIs(l.vols, l.store.offsite, barcode);
      case DeleteOutside(barcode) => FindBarcodeIs(l.vols, l.store.outside, barcode);
      case _ =>
    }
  }

  lemma PlainCallLogged(l: Lib, call: Call)
    requires NeedsArm(call) || call.SetDriveFault? || call.SetRoboticFault? || call.SetCleaning? || call.SetOffsite?
    ensures match Begin(l, call).next
            case Sleep(later) => SoFar(Begin(l, call).lib.vols, call, later, Begin(l, call).events)
            case Drift(later) => SoFar(Begin(l, call).lib.vols, call, later, Begin(l, call).events)
            case Return(result) => Outcome(Begin(l, call).lib.vols, call, result, Begin(l, call).events)
  {
    hide Get, Exists, Incompatible, InScope, AnyConflict, Shift, Rebuild, Route, VolOf, UnitExists;
  }

  lemma CreationLogged(l: Lib, call: Call)
    requires call.CreateCartridge? || call.CreateCartridges? || call.CreateCleaningTape?
    ensures Begin(l, call).next.Return?
            && Outcome(Begin(l, call).lib.vols, call, Begin(l, call).next.result, Begin(l, call).events)
  {
    hide SafeName, Taken, Barcode.Valid, Barcode.NextAvailable, VolOf, Within;
    var seg := Begin(l, call);
    match call {
      case CreateCartridges(tapeSet, count) =>
        if seg.next == Return(Ok) {
          FreshSupply(l.settings.tapeSets[tapeSet], Taken(l), count,
                      Barcode.NextAvailable(l.settings.tapeSets[tapeSet], Taken(l), count).value);
        }
      case _ =>
    }
  }

  lemma CommitLogged(l: Lib, call: Call, v: Cartridge, cleaning: bool)
    requires Ready(l, call, Travel(v, 0, cleaning))
    ensures SegLogged(call, [], Commit(l, call, v, cleaning))
  {
    hide Get, Exists, Shift, VolOf, MisusesDrive;
    var seg := Commit(l, call, v, cleaning);
    assert [] + seg.events == seg.events;
  }

  lemma CloseLogged(l: Lib, w: Where, door: Door, actions: seq<DoorAction>)
    requires Placed(l, w)
    ensures SegLogged(CloseDoor(door, actions), [], CloseCommit(l, door, actions))
  {
    hide CloseBatch, MatchesActions, Represents;
    var seg := CloseCommit(l, door, actions);
    assert [] + seg.events == seg.events;
    if CloseBatch(l.vols, door, l.store, actions).Accepted? {
      BatchTransfers(l.vols, door, l.store, w, actions);
    }
  }

  lemma StretchLogged(l: Lib, w: Where, call: Call, stage: Stage, log: seq<Event>)
    requires Placed(l, w) && Ready(l, call, stage) && SoFar(l.vols, call, stage, log)
    ensures SegLogged(call, log, Exec(l, call, stage))
  {
    hide Begin, Commit, CloseCommit, Shift, Placed, Get;
    var seg := Exec(l, call, stage);
    assert seg.events == [] ==> log + seg.events == log;
    match stage {
      case Start => BeginLogged(l, call);
      case Travel(v, left, cleaning) => if left == 0 { CommitLogged(l, call, v, cleaning); }
      case DoorMoving =>
        if call.CloseDoor? {
          CloseLogged(l, w, call.door, call.actions);
        }
      case _ =>
    }
  }

  // ---- the history is made of the calls' own events

  function Logs(ts: seq<Thread>): multiset<Event> {
    if ts == [] then multiset{} else Logs(ts[..|ts| - 1]) + multiset(ts[|ts| - 1].log)
  }

  lemma {:induction false} LogsAfterUpdate(ts: seq<Thread>, t: nat, th: Thread, events: seq<Event>)
    requires t < |ts| && th.log == ts[t].log + events
    ensures Logs(ts[t := th]) == Logs(ts) + multiset(events)
  {
    var n := |ts| - 1;
    if t < n {
      LogsAfterUpdate(ts[..n], t, th, events);
      assert ts[t := th][..n] == ts[..n][t := th];
    } else {
      assert ts[t := th][..n] == ts[..n];
    }
  }

  ghost predicate Accounted(sys: Sys) {
    && (forall t :: 0 <= t < |sys.threads| ==> Logged(sys.lib.vols, sys.threads[t]))
    && multiset(sys.history) == Logs(sys.threads)
  }

  lemma StepKeepsAccounted(sys: Sys, w0: Where, step: Step)
    requires Consistent(sys, w0) && Accounted(sys)
    ensures Accounted(Do(sys, step))
  {
    hide Exec, HomeAfter, Refined, Locked, Ready, Logs, Logged;
    match step {
      case Spawn(call) =>
        SpawnLogged(sys.lib.vols, call);
        LogsAfterSpawn(sys.threads, Thread(call, FirstPC(call), []));
      case Advance(t) =>
        if Enabled(sys, t) {
          if sys.threads[t].pc.Running? {
            StretchAccounted(sys, w0, t);
          } else {
            LockKeepsAccounted(sys, w0, t);
          }
        }
    }
  }

  /** Taking or giving back a lock changes no log. */
  lemma LockKeepsAccounted(sys: Sys, w0: Where, t: nat)
    requires Consistent(sys, w0) && Accounted(sys) && Enabled(sys, t) && !sys.threads[t].pc.Running?
    ensures Accounted(Advanced(sys, t))
  {
    hide Exec, HomeAfter, SoFar, Outcome, Refined, Locked, Ready, Logs, MisusesDrive, NeedsArm;
    var th := sys.threads[t];
    assert Logged(sys.lib.vols, th) && ThreadReady(sys.lib, th);
    if th.pc.WaitMu? {
      ReadyFits(sys.lib, th.call, th.pc.stage);
    }
    assert Advanced(sys, t).threads[t].log == th.log + [];
    LogsAfterUpdate(sys.threads, t, Advanced(sys, t).threads[t], []);
  }

  lemma SpawnLogged(vols: seq<Volume>, call: Call)
    ensures Logged(vols, Thread(call, FirstPC(call), []))
  {
  }

  lemma LogsAfterSpawn(ts: seq<Thread>, th: Thread)
    requires th.log == []
    ensures Logs(ts + [th]) == Logs(ts)
  {
    assert (ts + [th])[..|ts|] == ts;
  }

  lemma StretchAccounted(sys: Sys, w0: Where, t: nat)
    requires Consistent(sys, w0) && Accounted(sys) && t < |sys.threads| && sys.threads[t].pc.Running?
    ensures Accounted(RunStretch(sys, t, sys.threads[t].pc.stage))
  {
    hide Exec, HomeAfter, SoFar, Outcome, Locked, Ready, Logs, Ages;
    var th := sys.threads[t];
    var stage := th.pc.stage;
    var seg := Exec(sys.lib, th.call, stage);
    assert Logged(sys.lib.vols, th) && ThreadReady(sys.lib, th);
    StretchLogged(sys.lib, Replay(w0, sys.history), th.call, stage, th.log);
    var th1 := th.(pc := PCAfter(th.call, seg.next), log := th.log + seg.events);
    ReadyFits(sys.lib, th.call, stage);
    assert Logged(seg.lib.vols, th1);
    StretchAges(sys.lib, th.call, stage);
    forall u | 0 <= u < |sys.threads| && u != t ensures Logged(seg.lib.vols, sys.threads[u]) {
      LoggedAges(sys.lib.vols, seg.lib.vols, sys.threads[u]);
    }
    LogsAfterUpdate(sys.threads, t, th1, seg.events);
  }

  lemma {:induction false} RunKeepsAccounted(sys: Sys, w0: Where, steps: seq<Step>)
    requires Consistent(sys, w0) && Accounted(sys)
    ensures Accounted(Run(sys, steps)) && Consistent(Run(sys, steps), w0)
  {
    hide Do, Consistent, Accounted;
    if steps != [] {
      RunKeepsAccounted(sys, w0, steps[..|steps| - 1]);
      StepKeepsAccounted(Run(sys, steps[..|steps| - 1]), w0, steps[|steps| - 1]);
      StepKeepsConsistent(Run(sys, steps[..|steps| - 1]), w0, steps[|steps| - 1]);
    }
  }

  /** In every interleaving each returned call has made exactly its declared transfer, of the
      cartridges with the barcodes it was asked for, a failed one none at all (or an unload's documented fallback),
          and nothing else moved any cartridge. */
  lemma CallsDoWhatTheyReturn(sys: Sys, w0: Where, steps: seq<Step>, t: nat)
    requires Initial(sys, w0) && t < |Run(sys, steps).threads| && Run(sys, steps).threads[t].pc.Finished?
    ensures var th := Run(sys, steps).threads[t];
            if MisusesDrive(th.call) then th.pc.result == Err(InvalidTarget) && th.log == []
            else Outcome(Run(sys, steps).lib.vols, th.call, th.pc.result, th.log)
    ensures multiset(Run(sys, steps).history) == Logs(Run(sys, steps).threads)
  {
    hide Run, Outcome;
    InitialIsConsistent(sys, w0);
    RunKeepsAccounted(sys, w0, steps);
    assert Logged(Run(sys, steps).lib.vols, Run(sys, steps).threads[t]);
  }

  // ---- the arm and the doors

  /** The elements a call has marked busy at a stage. */
  function Claimed(call: Call, stage: Stage): set<Ref> {
    match stage
    case Travel(_, _, _) => (
      match call
      case Move(from, to, _) => {from, to}
      case Load(from, i, _) => {from, DriveRef(i)}
      case Unload(i, to, _) => {DriveRef(i), to}
      case _ => {})
    case Ejecting(_, origin, _) => if call.Load? then {DriveRef(call.drive)} + OriginSet(origin) else {}
    case _ => {}
  }

  predicate ArmBusy(stage: Stage) {
    stage.Travel? || stage.Ejecting? || stage.Scanning?
  }

  ghost predicate ArmAt(a: Arm, call: Call, stage: Stage) {
    a.busy == ArmBusy(stage) && a.elements == Claimed(call, stage)
  }

  ghost predicate ArmIdle(a: Arm) {
    !a.busy && a.elements == {}
  }

  ghost predicate ArmAfter(call: Call, seg: Seg) {
    match seg.next
    case Sleep(later) => ArmAt(seg.lib.arm, call, later)
    case Drift(_) => ArmIdle(seg.lib.arm)
    case Return(_) => ArmIdle(seg.lib.arm)
  }

  lemma BeginArm(l: Lib, call: Call)
    requires NeedsArm(call) && ArmIdle(l.arm)
    ensures ArmAfter(call, Begin(l, call))
  {
    hide Get, Exists, Incompatible, InScope, AnyConflict, Rebuild, VolOf, MisusesDrive, UnitExists, ResolveLibrary,
      Route;
  }

  lemma StretchArm(l: Lib, call: Call, stage: Stage)
    requires NeedsArm(call) && Ready(l, call, stage) && ArmAt(l.arm, call, stage)
    ensures ArmAfter(call, Exec(l, call, stage))
  {
    hide Begin, Get, Exists, CloseBatch, Shift, EjectPlace, VolOf, Seat, Count, Rested, MisusesDrive;
    if stage == Start {
      BeginArm(l, call);
    }
  }

  lemma BeginDoors(l: Lib, call: Call)
    requires NeedsArm(call) && l.arm.doorCount == |l.openDoors|
    ensures Begin(l, call).lib.arm.doorCount == |Begin(l, call).lib.openDoors|
  {
    hide Get, Exists, Incompatible, InScope, AnyConflict, Rebuild, VolOf, MisusesDrive, UnitExists, ResolveLibrary,
      Route;
  }

  lemma OpenAndShut(l: Lib, door: Door)
    requires l.arm.doorCount == |l.openDoors|
    ensures door !in l.openDoors ==> OpenCommit(l, door).lib.arm.doorCount == |OpenCommit(l, door).lib.openDoors|
    ensures door in l.openDoors ==> Shut(l, door).arm.doorCount == |Shut(l, door).openDoors|
  {
  }

  lemma CarryingKeepsDoors(l: Lib, call: Call, stage: Stage)
    requires stage.Travel? || stage.Washing? || stage.Ejecting?
    ensures var m := Exec(l, call, stage).lib; m.openDoors == l.openDoors && m.arm.doorCount == l.arm.doorCount
  {
    hide Begin, Get, Exists, Shift, EjectPlace, VolOf, Seat, Rested;
  }

  lemma StretchDoors(l: Lib, call: Call, stage: Stage)
    requires NeedsArm(call) && Ready(l, call, stage) && l.arm.doorCount == |l.openDoors|
    ensures Exec(l, call, stage).lib.arm.doorCount == |Exec(l, call, stage).lib.openDoors|
  {
    hide Begin, Commit, WashDone, EjectCommit, Get, Exists, CloseBatch, Count, MisusesDrive, Shut, OpenCommit;
    match stage {
      case Start => BeginDoors(l, call);
      case DoorMoving =>
        match call {
          case OpenDoor(door, _) => OpenAndShut(l, door);
          case CloseDoor(door, actions) =>
            var b := CloseBatch(l.vols, door, l.store, actions);
            if b.Accepted? {
              OpenAndShut(l.(store := b.store), door);
            }
          case _ =>
        }
      case Scanning(_) => OpenAndShut(Release(l, {}), call.door);
      case _ => CarryingKeepsDoors(l, call, stage);
    }
  }

  /** Free opMu means an idle arm; the door counter is always right. */
  ghost predicate Telemetry(sys: Sys) {
    && sys.lib.arm.doorCount == |sys.lib.openDoors|
    && match sys.opOwner
       case None => ArmIdle(sys.lib.arm)
       case Some(t) =>
         t < |sys.threads| &&
         match sys.threads[t].pc
         case WaitMu(stage) => ArmAt(sys.lib.arm, sys.threads[t].call, stage)
         case Running(stage) => ArmAt(sys.lib.arm, sys.threads[t].call, stage)
         case _ => ArmIdle(sys.lib.arm)
  }

  lemma StepKeepsTelemetry(sys: Sys, w0: Where, step: Step)
    requires Consistent(sys, w0) && Telemetry(sys)
    ensures Telemetry(Do(sys, step))
  {
    hide Exec, HomeAfter, Ready, Refined, Bystander;
    match step {
      case Spawn(call) =>
      case Advance(t) =>
        if Enabled(sys, t) {
          var th := sys.threads[t];
          assert ThreadReady(sys.lib, th);
          if th.pc.Running? {
            if NeedsArm(th.call) {
              assert HoldsOp(th);
              StretchArm(sys.lib, th.call, th.pc.stage);
              StretchDoors(sys.lib, th.call, th.pc.stage);
            } else {
              MuOnlyStretch(sys.lib, th.call);
              BystanderKeepsArm(sys.lib, Exec(sys.lib, th.call, Start).lib);
            }
          } else {
            IdleAtStart(th);
          }
        }
    }
  }

  lemma BystanderKeepsArm(l: Lib, m: Lib)
    requires Bystander(l, m)
    ensures m.arm == l.arm && m.openDoors == l.openDoors
  {
  }

  /** A thread asks for opMu only at stages that claim nothing. */
  lemma IdleAtStart(th: Thread)
    ensures th.pc.WaitOp? && Resumable(th.call, th.pc.stage) ==>
            !ArmBusy(th.pc.stage) && Claimed(th.call, th.pc.stage) == {}
  {
  }

  lemma {:induction false} RunKeepsTelemetry(sys: Sys, w0: Where, steps: seq<Step>)
    requires Consistent(sys, w0) && Telemetry(sys)
    ensures Telemetry(Run(sys, steps)) && Consistent(Run(sys, steps), w0)
  {
    hide Do, Consistent, Telemetry;
    if steps != [] {
      RunKeepsTelemetry(sys, w0, steps[..|steps| - 1]);
      StepKeepsTelemetry(Run(sys, steps[..|steps| - 1]), w0, steps[|steps| - 1]);
      StepKeepsConsistent(Run(sys, steps[..|steps| - 1]), w0, steps[|steps| - 1]);
    }
  }

  /** Whenever opMu is free the arm is idle and nothing is marked busy, and the open-door counter is
      the number of open magazines and mailboxes. */
  lemma ArmIdleWhenFree(sys: Sys, w0: Where, steps: seq<Step>)
    requires Initial(sys, w0) && ArmIdle(sys.lib.arm) && sys.lib.arm.doorCount == |sys.lib.openDoors|
    ensures Run(sys, steps).opOwner == None ==> ArmIdle(Run(sys, steps).lib.arm)
    ensures Run(sys, steps).lib.arm.doorCount == |Run(sys, steps).lib.openDoors|
  {
    InitialIsConsistent(sys, w0);
    RunKeepsTelemetry(sys, w0, steps);
  }

  // ---- doors as the calls leave them

  /** What a door call that is about to return Ok has achieved. */
  ghost predicate DoorDone(l: Lib, call: Call) {
    match call
    case OpenDoor(door, pinAccepted) => pinAccepted && door in l.openDoors && UnitExists(l.store, door)
    case CloseDoor(door, _) => door !in l.openDoors
    case _ => true
  }

  lemma StretchDoorDone(l: Lib, call: Call, stage: Stage)
    requires Ready(l, call, stage)
    ensures Exec(l, call, stage).next == Return(Ok) ==> DoorDone(Exec(l, call, stage).lib, call)
  {
    hide UnitExists, CloseBatch, Count;
  }

  lemma BystanderKeepsDoors(l: Lib, m: Lib, call: Call)
    requires Bystander(l, m) && DoorDone(l, call)
    ensures DoorDone(m, call)
  {
    if call.OpenDoor? {
      UnitFollowsShape(l.store, m.store, call.door);
    }
  }

  ghost predicate DoorsDone(sys: Sys) {
    forall t :: 0 <= t < |sys.threads| && sys.threads[t].pc == Releasing(Done(Ok)) ==>
        DoorDone(sys.lib, sys.threads[t].call)
  }

  lemma StepKeepsDoorsDone(sys: Sys, w0: Where, step: Step)
    requires Consistent(sys, w0) && DoorsDone(sys)
    ensures DoorsDone(Do(sys, step))
  {
    hide Exec, HomeAfter, Ready, Refined, Bystander, DoorDone, NeedsArm;
    match step {
      case Spawn(call) =>
      case Advance(t) =>
        if Enabled(sys, t) && sys.threads[t].pc.Running? {
          var th := sys.threads[t];
          var stage := th.pc.stage;
          assert ThreadReady(sys.lib, th);
          StretchDoorDone(sys.lib, th.call, stage);
          if !NeedsArm(th.call) {
            MuOnlyStretch(sys.lib, th.call);
          }
          var sys1 := RunStretch(sys, t, stage);
          forall u | 0 <= u < |sys.threads| && u != t && sys.threads[u].pc == Releasing(Done(Ok))
            ensures DoorDone(sys1.lib, sys.threads[u].call)
          {
            assert sys.opOwner == Some(u) || !NeedsArm(sys.threads[u].call);
            assert HoldsOp(th) <==> sys.opOwner == Some(t);
            BystanderKeepsDoors(sys.lib, sys1.lib, sys.threads[u].call);
          }
        }
    }
  }

  lemma {:induction false} RunKeepsDoorsDone(sys: Sys, w0: Where, steps: seq<Step>)
    requires Consistent(sys, w0) && DoorsDone(sys)
    ensures DoorsDone(Run(sys, steps)) && Consistent(Run(sys, steps), w0)
  {
    hide Do, Consistent, DoorsDone;
    if steps != [] {
      RunKeepsDoorsDone(sys, w0, steps[..|steps| - 1]);
      StepKeepsDoorsDone(Run(sys, steps[..|steps| - 1]), w0, steps[|steps| - 1]);
      StepKeepsConsistent(Run(sys, steps[..|steps| - 1]), w0, steps[|steps| - 1]);
    }
  }

  /** In every interleaving, when an OpenDoor returns Ok, still holding opMu, its PIN was accepted and its
      door is open on an existing unit, and when a CloseDoor does, its door is shut, whoever else has had
      mu since. */
  lemma DoorsAreAsReturned(sys: Sys, w0: Where, steps: seq<Step>, t: nat)
    requires Initial(sys, w0) && t < |Run(sys, steps).threads|
    requires Run(sys, steps).threads[t].pc == Releasing(Done(Ok))
    ensures var l, call := Run(sys, steps).lib, Run(sys, steps).threads[t].call;
            && (call.OpenDoor? ==> call.pinAccepted && call.door in l.openDoors && UnitExists(l.store, call.door))
            && (call.CloseDoor? ==> call.door !in l.openDoors)
  {
    hide Run, UnitExists;
    InitialIsConsistent(sys, w0);
    RunKeepsDoorsDone(sys, w0, steps);
  }
}
