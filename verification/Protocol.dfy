/** The two-lock protocol as a state machine over threads: opMu is the robotic arm's lock, mu guards
    the data and is released around every simulated delay (internal/library/library.go:72-104,
    1839-1855, 2923-2968). */
module Protocol {
  import opened Common
  import opened Placement
  import opened Topology
  import opened LibraryState

  datatype After = Again(stage: Stage) | Done(result: Result)

  /** WaitOp and WaitMu request a lock, Running holds what it needs, Releasing still holds opMu. */
  datatype PC = WaitOp(stage: Stage) | WaitMu(stage: Stage) | Running(stage: Stage)
              | Releasing(after: After) | Finished(result: Result)

  datatype Thread = Thread(call: Call, pc: PC, log: seq<Event>)

  /** A tape that was loaded, and the identity of the slot it was taken from. */
  datatype Home = Home(tape: Cartridge, identity: Identity)

  /** `history` is everything that happened to cartridges; `home` is what each drive was last loaded with. */
  datatype Sys = Sys(lib: Lib, threads: seq<Thread>, opOwner: Option<nat>, muOwner: Option<nat>,
                     history: seq<Event>, home: map<int, Home>)

  datatype Step = Spawn(call: Call) | Advance(thread: nat)

  function FirstPC(call: Call): PC {
    if MisusesDrive(call) then Finished(Err(InvalidTarget))
    else if NeedsArm(call) then WaitOp(Start) else WaitMu(Start)
  }

  /** After a stretch: mu is released first, then opMu if the stretch gives it up. */
  function PCAfter(call: Call, next: Next): PC {
    match next
    case Sleep(stage) => WaitMu(stage)
    case Drift(stage) => Releasing(Again(stage))
    case Return(result) => if NeedsArm(call) then Releasing(Done(result)) else Finished(result)
  }

  /** A load into a drive records the tape and the identity of the slot it left. */
  function HomeAfter(s: Store, events: seq<Event>, home: map<int, Home>): map<int, Home> {
    if |events| == 1 && events[0].Transferred? && events[0].dst.At? && events[0].dst.ref.DriveRef?
       && events[0].src.At? && Exists(s, events[0].src.ref) then
      home[events[0].dst.ref.index := Home(events[0].v, IdentityOf(s, events[0].src.ref))]
    else
      home
  }

  function RunStretch(sys: Sys, t: nat, stage: Stage): Sys
    requires t < |sys.threads|
  {
    var th := sys.threads[t];
    var seg := Exec(sys.lib, th.call, stage);
    sys.(lib := seg.lib, muOwner := None, history := sys.history + seg.events,
         home := HomeAfter(sys.lib.store, seg.events, sys.home),
         threads := sys.threads[t := th.(pc := PCAfter(th.call, seg.next), log := th.log + seg.events)])
  }

  function SetPC(sys: Sys, t: nat, pc: PC): Sys
    requires t < |sys.threads|
  {
    sys.(threads := sys.threads[t := sys.threads[t].(pc := pc)])
  }

  predicate Enabled(sys: Sys, t: nat) {
    t < |sys.threads| &&
    match sys.threads[t].pc
    case WaitOp(_) => sys.opOwner == None
    case WaitMu(_) => sys.muOwner == None
    case Running(_) => true
    case Releasing(_) => true
    case Finished(_) => false
  }

  function Advanced(sys: Sys, t: nat): Sys
    requires Enabled(sys, t)
  {
    match sys.threads[t].pc
    case WaitOp(stage) => SetPC(sys, t, WaitMu(stage)).(opOwner := Some(t))
    case WaitMu(stage) => SetPC(sys, t, Running(stage)).(muOwner := Some(t))
    case Running(stage) => RunStretch(sys, t, stage)
    case Releasing(Again(stage)) => SetPC(sys, t, WaitOp(stage)).(opOwner := None)
    case Releasing(Done(result)) => SetPC(sys, t, Finished(result)).(opOwner := None)
    case Finished(_) => sys
  }

  /** A step of a thread that must wait changes nothing. */
  function Do(sys: Sys, step: Step): Sys {
    match step
    case Spawn(call) => sys.(threads := sys.threads + [Thread(call, FirstPC(call), [])])
    case Advance(t) => if Enabled(sys, t) then Advanced(sys, t) else sys
  }

  function Run(sys: Sys, steps: seq<Step>): Sys {
    if steps == [] then sys else Do(Run(sys, steps[..|steps| - 1]), steps[|steps| - 1])
  }

  lemma {:induction false} RunAppend(sys: Sys, a: seq<Step>, b: seq<Step>)
    ensures Run(sys, a + b) == Run(Run(sys, a), b)
  {
    hide Do;
    if b == [] {
      assert a + b == a;
    } else {
      assert (a + b)[..|a + b| - 1] == a + b[..|b| - 1];
      RunAppend(sys, a, b[..|b| - 1]);
    }
  }

  /** Nothing is running yet. */
  ghost predicate Quiet(sys: Sys) {
    sys.threads == [] && sys.opOwner == None && sys.muOwner == None && sys.history == []
  }

  // ---- locks

  predicate HoldsOp(th: Thread) {
    NeedsArm(th.call) && (th.pc.WaitMu? || th.pc.Running? || th.pc.Releasing?)
  }

  predicate HoldsMu(th: Thread) {
    th.pc.Running?
  }

  /** The lock owners are exactly the threads whose program counter says so; a call that takes mu
      alone never asks for opMu and runs a single stretch. */
  ghost predicate Locked(sys: Sys) {
    && (forall t: nat :: sys.opOwner == Some(t) <==> t < |sys.threads| && HoldsOp(sys.threads[t]))
    && (forall t: nat :: sys.muOwner == Some(t) <==> t < |sys.threads| && HoldsMu(sys.threads[t]))
    && (forall t :: 0 <= t < |sys.threads| && !NeedsArm(sys.threads[t].call) ==> MuOnly(sys.threads[t].pc))
  }

  predicate MuOnly(pc: PC) {
    match pc
    case WaitOp(_) => false
    case WaitMu(stage) => stage == Start
    case Running(stage) => stage == Start
    case Releasing(_) => false
    case Finished(_) => true
  }

  lemma MuOnlyReturns(l: Lib, call: Call)
    requires !NeedsArm(call)
    ensures Exec(l, call, Start).next.Return?
  {
  }

  lemma StepKeepsLocked(sys: Sys, step: Step)
    requires Locked(sys)
    ensures Locked(Do(sys, step))
  {
    hide NeedsArm, MisusesDrive, Exec, HomeAfter;
    match step {
      case Spawn(call) =>
      case Advance(t) =>
        if Enabled(sys, t) {
          if sys.threads[t].pc.Running? {
            StretchKeepsLocked(sys, t);
          } else {
            LockKeepsLocked(sys, t);
          }
        }
    }
  }

  lemma StretchKeepsLocked(sys: Sys, t: nat)
    requires Locked(sys) && Enabled(sys, t) && sys.threads[t].pc.Running?
    ensures Locked(Advanced(sys, t))
  {
    hide NeedsArm, Exec, HomeAfter;
    if !NeedsArm(sys.threads[t].call) {
      MuOnlyReturns(sys.lib, sys.threads[t].call);
    }
  }

  lemma LockKeepsLocked(sys: Sys, t: nat)
    requires Locked(sys) && Enabled(sys, t) && !sys.threads[t].pc.Running?
    ensures Locked(Advanced(sys, t))
  {
    hide NeedsArm;
  }

  lemma {:induction false} RunKeepsLocked(sys: Sys, steps: seq<Step>)
    requires Locked(sys)
    ensures Locked(Run(sys, steps))
  {
    if steps != [] {
      RunKeepsLocked(sys, steps[..|steps| - 1]);
      StepKeepsLocked(Run(sys, steps[..|steps| - 1]), steps[|steps| - 1]);
    }
  }

  /** In every run, a thread that asks for opMu does not hold mu, and each lock has one owner at most. */
  lemma LockOrder(sys: Sys, steps: seq<Step>, t: nat, u: nat)
    requires Quiet(sys) && t < |Run(sys, steps).threads| && u < |Run(sys, steps).threads|
    ensures var r := Run(sys, steps);
            && (r.threads[t].pc.WaitOp? ==> r.muOwner != Some(t) && r.opOwner != Some(t))
            && (HoldsMu(r.threads[t]) && HoldsMu(r.threads[u]) ==> t == u)
            && (HoldsOp(r.threads[t]) && HoldsOp(r.threads[u]) ==> t == u)
            && (HoldsMu(r.threads[t]) && NeedsArm(r.threads[t].call) ==> r.opOwner == Some(t))
  {
    hide Run;
    RunKeepsLocked(sys, steps);
    var r := Run(sys, steps);
    assert HoldsMu(r.threads[t]) <==> r.muOwner == Some(t);
    assert HoldsMu(r.threads[u]) <==> r.muOwner == Some(u);
    assert HoldsOp(r.threads[t]) <==> r.opOwner == Some(t);
    assert HoldsOp(r.threads[u]) <==> r.opOwner == Some(u);
  }

  // ---- progress

  predicate Unfinished(sys: Sys, t: nat) {
    t < |sys.threads| && !sys.threads[t].pc.Finished?
  }

  /** While anything is unfinished, something can move. */
  lemma NoDeadlock(sys: Sys, u: nat) returns (t: nat)
    requires Locked(sys) && Unfinished(sys, u)
    ensures Enabled(sys, t)
  {
    if sys.muOwner.Some? {
      t := sys.muOwner.value;
      assert sys.muOwner == Some(t);
    } else if sys.opOwner.Some? {
      t := sys.opOwner.value;
      assert sys.opOwner == Some(t);
    } else {
      t := u;
      assert sys.muOwner == None && sys.opOwner == None;
    }
  }

  function Phase(stage: Stage): nat {
    match stage
    case Start => 5
    case Travel(_, _, _) => 4
    case DoorMoving => 4
    case Washing(_) => 3
    case Ejecting(_, _, _) => 2
    case Scanning(_) => 2
  }

  function Left(stage: Stage): nat {
    match stage
    case Travel(_, left, _) => left
    case Ejecting(_, _, left) => left
    case Scanning(left) => left
    case _ => 0
  }

  predicate Follows(later: Stage, earlier: Stage) {
    Phase(later) < Phase(earlier) || (Phase(later) == Phase(earlier) && Left(later) < Left(earlier))
  }

  lemma ExecMovesOn(l: Lib, call: Call, stage: Stage)
    ensures match Exec(l, call, stage).next
            case Sleep(later) => Follows(later, stage)
            case Drift(later) => Phase(later) < Phase(stage)
            case Return(_) => true
  {
    hide Get, Exists, CloseBatch, Incompatible, InScope, AnyConflict, Shift, Rebuild, SafeName, Taken, EjectPlace,
      VolOf, Claim, Release, Seat, WithVol, Create, Count;
  }

  function PhaseOf(th: Thread): nat {
    match th.pc
    case WaitOp(stage) => Phase(stage)
    case WaitMu(stage) => Phase(stage)
    case Running(stage) => Phase(stage)
    case Releasing(Again(stage)) => Phase(stage)
    case _ => 0
  }

  function EffortOf(th: Thread): nat {
    match th.pc
    case WaitOp(stage) => 3 * Left(stage) + 3
    case WaitMu(stage) => 3 * Left(stage) + 2
    case Running(stage) => 3 * Left(stage) + 1
    case Releasing(Again(stage)) => 3 * Left(stage) + 4
    case Releasing(Done(_)) => 1
    case Finished(_) => 0
  }

  function Phases(ts: seq<Thread>): nat {
    if ts == [] then 0 else Phases(ts[..|ts| - 1]) + PhaseOf(ts[|ts| - 1])
  }

  function Efforts(ts: seq<Thread>): nat {
    if ts == [] then 0 else Efforts(ts[..|ts| - 1]) + EffortOf(ts[|ts| - 1])
  }

  lemma {:induction false} SumsAfterUpdate(ts: seq<Thread>, t: nat, th: Thread)
    requires t < |ts|
    ensures Phases(ts[t := th]) == Phases(ts) - PhaseOf(ts[t]) + PhaseOf(th)
    ensures Efforts(ts[t := th]) == Efforts(ts) - EffortOf(ts[t]) + EffortOf(th)
  {
    var n := |ts| - 1;
    if t < n {
      SumsAfterUpdate(ts[..n], t, th);
      assert ts[t := th][..n] == ts[..n][t := th];
    } else {
      assert ts[t := th][..n] == ts[..n];
    }
  }

  /** Every enabled step of a thread uses up work, so no run without new calls goes on for ever. */
  lemma StepUsesUpWork(sys: Sys, t: nat)
    requires Enabled(sys, t)
    ensures var sys1 := Do(sys, Advance(t));
            Phases(sys1.threads) < Phases(sys.threads)
            || (Phases(sys1.threads) == Phases(sys.threads) && Efforts(sys1.threads) < Efforts(sys.threads))
  {
    hide Exec, HomeAfter, Phases, Efforts;
    var th := sys.threads[t];
    if th.pc.Running? {
      ExecMovesOn(sys.lib, th.call, th.pc.stage);
    }
    SumsAfterUpdate(sys.threads, t, Advanced(sys, t).threads[t]);
  }

  /** Every state of a run can be driven to the end by its own threads alone. */
  lemma {:induction false} EverythingFinishes(sys: Sys) returns (steps: seq<Step>)
    requires Locked(sys)
    ensures forall step :: step in steps ==> step.Advance?
    ensures forall t :: !Unfinished(Run(sys, steps), t)
    decreases Phases(sys.threads), Efforts(sys.threads)
  {
    hide Do, Exec, Enabled;
    if t: nat :| Unfinished(sys, t) {
      var u := NoDeadlock(sys, t);
      StepUsesUpWork(sys, u);
      StepKeepsLocked(sys, Advance(u));
      var rest := EverythingFinishes(Do(sys, Advance(u)));
      steps := [Advance(u)] + rest;
      RunPrepend(sys, Advance(u), rest);
    } else {
      steps := [];
    }
  }

  lemma {:induction false} RunPrepend(sys: Sys, step: Step, rest: seq<Step>)
    ensures Run(sys, [step] + rest) == Run(Do(sys, step), rest)
  {
    hide Do;
    var all := [step] + rest;
    if rest == [] {
      assert all[..0] == [];
      assert Run(sys, all[..0]) == sys;
    } else {
      assert all[..|all| - 1] == [step] + rest[..|rest| - 1];
      RunPrepend(sys, step, rest[..|rest| - 1]);
    }
  }
}
