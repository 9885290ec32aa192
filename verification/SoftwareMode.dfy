/** Why the use-count bound is a robot-mode result: in software mode a schedule exists, from any quiet
    library with a loadable cleaning tape one use short of its maximum, that counts one use too many
    (internal/library/library.go:2961-3012). */
module SoftwareMode {
  import opened Common
  import opened Placement
  import opened LibraryState
  import opened Transfers
  import opened Protocol
  import opened LibraryObject
  import opened ObjectRuns
  import opened Exchange

  // ---- one thread's turn with opMu, nobody else moving

  /** Both locks are free and only thread t and the library may differ. */
  ghost predicate OnlyThread(sys: Sys, sys1: Sys, t: nat) {
    && sys1.opOwner == None && sys1.muOwner == None && |sys1.threads| == |sys.threads| && t < |sys.threads|
    && sys1.threads[t].call == sys.threads[t].call
    && forall u :: 0 <= u < |sys.threads| && u != t ==> sys1.threads[u] == sys.threads[u]
  }

  lemma TwoSteps(sys: Sys, a: Step, b: Step)
    ensures Run(sys, [a, b]) == Do(Do(sys, a), b)
  {
    hide Do;
    assert [a, b][..1] == [a];
    OneStep(sys, a);
  }

  lemma {:induction false} HoldAlone(sys: Sys, t: nat, stage: Stage) returns (steps: seq<Step>)
    requires t < |sys.threads| && sys.threads[t].pc == Running(stage) && NeedsArm(sys.threads[t].call)
    requires sys.opOwner == Some(t) && sys.muOwner == Some(t)
    ensures var call, sys1 := sys.threads[t].call, Run(sys, steps);
            && OnlyThread(sys, sys1, t)
            && sys1.lib == Hold(sys.lib, call, stage, []).0
            && sys1.threads[t].pc == match Hold(sys.lib, call, stage, []).1
                                     case Drift(later) => WaitOp(later)
                                     case Return(r) => Finished(r)
                                     case Sleep(later) => WaitMu(later)
    decreases Phase(stage), Left(stage)
  {
    hide Exec, HomeAfter, Hold, NeedsArm;
    var call := sys.threads[t].call;
    var seg := Exec(sys.lib, call, stage);
    if seg.next.Sleep? {
      ExecMovesOn(sys.lib, call, stage);
      HoldSleeps(sys.lib, call, stage, []);
      var sys2 := Do(Do(sys, Advance(t)), Advance(t));
      TwoSteps(sys, Advance(t), Advance(t));
      var rest := HoldAlone(sys2, t, seg.next.stage);
      steps := [Advance(t), Advance(t)] + rest;
      RunAppend(sys, [Advance(t), Advance(t)], rest);
    } else {
      HoldEnds(sys.lib, call, stage, []);
      steps := [Advance(t), Advance(t)];
      TwoSteps(sys, Advance(t), Advance(t));
    }
  }

  /** A thread waiting for opMu gets it, runs until it gives it up or returns, and everybody else stays put. */
  lemma Turn(sys: Sys, t: nat, stage: Stage) returns (steps: seq<Step>)
    requires t < |sys.threads| && sys.threads[t].pc == WaitOp(stage) && NeedsArm(sys.threads[t].call)
    requires sys.opOwner == None && sys.muOwner == None
    ensures var call, sys1 := sys.threads[t].call, Run(sys, steps);
            && OnlyThread(sys, sys1, t)
            && sys1.lib == Hold(sys.lib, call, stage, []).0
            && sys1.threads[t].pc == match Hold(sys.lib, call, stage, []).1
                                     case Drift(later) => WaitOp(later)
                                     case Return(r) => Finished(r)
                                     case Sleep(later) => WaitMu(later)
  {
    hide Exec, HomeAfter, Hold, NeedsArm, RunStretch;
    var sys2 := Do(Do(sys, Advance(t)), Advance(t));
    TwoSteps(sys, Advance(t), Advance(t));
    var rest := HoldAlone(sys2, t, stage);
    steps := [Advance(t), Advance(t)] + rest;
    RunAppend(sys, [Advance(t), Advance(t)], rest);
  }

  /** A new arm call, and its first turn. */
  lemma SpawnAndTurn(sys: Sys, call: Call) returns (steps: seq<Step>)
    requires sys.opOwner == None && sys.muOwner == None && NeedsArm(call) && !MisusesDrive(call)
    ensures var sys1, n := Run(sys, steps), |sys.threads|;
            && |sys1.threads| == n + 1 && sys1.opOwner == None && sys1.muOwner == None
            && (forall u :: 0 <= u < n ==> sys1.threads[u] == sys.threads[u])
            && sys1.threads[n].call == call && sys1.lib == Hold(sys.lib, call, Start, []).0
            && sys1.threads[n].pc == match Hold(sys.lib, call, Start, []).1
                                     case Drift(later) => WaitOp(later)
                                     case Return(r) => Finished(r)
                                     case Sleep(later) => WaitMu(later)
  {
    hide Hold, Exec, NeedsArm, MisusesDrive;
    var spawned := Do(sys, Spawn(call));
    OneStep(sys, Spawn(call));
    var rest := Turn(spawned, |sys.threads|, Start);
    steps := [Spawn(call)] + rest;
    RunAppend(sys, [Spawn(call)], rest);
  }

  // ---- what the turns do to the tape

  /** Cleaning tape v sits in slot a, drive i is empty and healthy, cleaning is on in software mode. */
  ghost predicate Racked(l: Lib, a: Ref, i: int, v: Cartridge, uses: nat) {
    && !a.DriveRef? && Get(l.store, a) == Some(v) && Exists(l.store, DriveRef(i)) && Get(l.store, DriveRef(i)) == None
    && !l.store.drives[i].fault && Tape(l, v, uses) && l.vols[v].state != Expired
  }

  ghost predicate Tape(l: Lib, v: Cartridge, uses: nat) {
    && !l.roboticFault && l.settings.cleaning.enabled && !l.settings.cleaning.robot
    && v < |l.vols| && l.vols[v].cleaning && l.vols[v].uses == uses
  }

  /** The tape sits in the drive, and its slot is free for it. */
  ghost predicate Inserted(l: Lib, a: Ref, i: int, v: Cartridge, uses: nat) {
    && !a.DriveRef? && Get(l.store, DriveRef(i)) == Some(v) && Exists(l.store, a) && Get(l.store, a) == None
    && Exists(l.store, DriveRef(i)) && !l.store.drives[i].fault && Tape(l, v, uses)
  }

  lemma LoadInserts(l: Lib, a: Ref, i: int, v: Cartridge, uses: nat)
    requires Racked(l, a, i, v, uses)
    ensures var held := Hold(l, Load(a, i, ""), Start, []);
            held.1 == Drift(Washing(v)) && Inserted(held.0, a, i, v, uses) && held.0.vols[v].state != Expired
            && held.0.settings == l.settings
  {
    hide Shift, Get, Seat, Incompatible;
    var call, start := Load(a, i, ""), LoadStart(l, a, i, "");
    NotIncompatible(l, l.store.drives[i], l.vols[v]);
    NoVolume(l.store, a);
    QuietStart(l, call);
    QuietTravels(start.lib, call, v, 2, true);
    HoldEnds(start.lib, call, Travel(v, 0, true), []);
    var t := Shift(l.store, v, At(a), At(DriveRef(i)));
    ShiftCarries(l.store, v, a, DriveRef(i));
    SeatCarries(l.store, t, a, DriveRef(i), i, Some(a), MountsOf(l.store, i));
    ShiftSurroundings(l.store, v, At(a), At(DriveRef(i)));
    SeatSurroundings(t, i, Some(a), MountsOf(l.store, i));
  }

  lemma NotIncompatible(l: Lib, drive: Placement.Drive, vol: Volume)
    ensures vol.cleaning ==> !Incompatible(l, drive, vol)
  {
  }

  lemma UnloadRacks(l: Lib, a: Ref, i: int, v: Cartridge, uses: nat)
    requires Inserted(l, a, i, v, uses) && l.vols[v].state != Expired
    ensures var held := Hold(l, Unload(i, a, ""), Start, []);
            held.1 == Return(Ok) && Racked(held.0, a, i, v, uses) && held.0.settings == l.settings
  {
    hide Shift, Get, Seat;
    var call, start := Unload(i, a, ""), UnloadStart(l, i, a, "");
    QuietStart(l, call);
    QuietTravels(start.lib, call, v, 2, false);
    HoldEnds(start.lib, call, Travel(v, 0, false), []);
    var t := Shift(l.store, v, At(DriveRef(i)), At(a));
    ShiftCarries(l.store, v, DriveRef(i), a);
    SeatCarries(l.store, t, DriveRef(i), a, i, None, 0);
    ShiftSurroundings(l.store, v, At(DriveRef(i)), At(a));
    SeatSurroundings(t, i, None, 0);
  }

  lemma WakeCounts(l: Lib, a: Ref, i: int, v: Cartridge, uses: nat)
    requires Inserted(l, a, i, v, uses)
    ensures var held := Hold(l, Load(a, i, ""), Washing(v), []);
            held.1 == Return(Ok) && Inserted(held.0, a, i, v, uses + 1) && held.0.settings == l.settings
  {
    hide Get, Seat;
    HoldEnds(l, Load(a, i, ""), Washing(v), []);
    SeatSameContents(l.store, i, OriginAt(l.store, i), 0);
    SeatSurroundings(l.store, i, OriginAt(l.store, i), 0);
    SeatKeepsElements(l.store, i, OriginAt(l.store, i), 0);
  }

  lemma SeatKeepsElements(s: Store, i: int, origin: Option<Ref>, mounts: nat)
    ensures forall r :: Exists(Seat(s, i, origin, mounts), r) == Exists(s, r)
  {
  }

  // ---- the schedule

  /** From any quiet library in software mode with a cleaning tape one use short of its maximum: load
      it, unload it and load it again while the first load is still waiting; both waits then count. */
  lemma SoftwareModeOvershoots(sys: Sys, a: Ref, i: int, v: Cartridge, uses: nat) returns (steps: seq<Step>)
    requires Quiet(sys) && Racked(sys.lib, a, i, v, uses) && sys.lib.settings.cleaning.maxUses == uses + 1
    ensures var l := Run(sys, steps).lib;
            v < |l.vols| && l.settings == sys.lib.settings && l.vols[v].uses == l.settings.cleaning.maxUses + 1
  {
    hide Hold, Run, Racked, Inserted, Get, Exists;
    RackedSlot(sys.lib, a, i, v, uses);
    var load, unload := Load(a, i, ""), Unload(i, a, "");
    LoadInserts(sys.lib, a, i, v, uses);
    var first := SpawnAndTurn(sys, load);
    var sys1 := Run(sys, first);
    UnloadRacks(sys1.lib, a, i, v, uses);
    var second := SpawnAndTurn(sys1, unload);
    var sys2 := Run(sys1, second);
    LoadInserts(sys2.lib, a, i, v, uses);
    var third := SpawnAndTurn(sys2, load);
    var sys3 := Run(sys2, third);
    WakeCounts(sys3.lib, a, i, v, uses);
    var fourth := Turn(sys3, 0, Washing(v));
    var sys4 := Run(sys3, fourth);
    WakeCounts(sys4.lib, a, i, v, uses + 1);
    var fifth := Turn(sys4, 2, Washing(v));
    InsertedUses(Run(sys4, fifth).lib, a, i, v, uses + 2);
    steps := first + second + third + fourth + fifth;
    RunAppend(sys, first, second);
    RunAppend(sys, first + second, third);
    RunAppend(sys, first + second + third, fourth);
    RunAppend(sys, first + second + third + fourth, fifth);
  }

  lemma RackedSlot(l: Lib, a: Ref, i: int, v: Cartridge, uses: nat)
    requires Racked(l, a, i, v, uses)
    ensures !a.DriveRef?
  {
  }

  lemma InsertedUses(l: Lib, a: Ref, i: int, v: Cartridge, uses: nat)
    requires Inserted(l, a, i, v, uses)
    ensures v < |l.vols| && l.vols[v].uses == uses
  {
  }
}
