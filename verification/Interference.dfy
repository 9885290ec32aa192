/** Why an arm call that set out comes back with an error: the re-checks after the delays fail only
    because an offsite call got to the very same element meanwhile, and then they do fail
    (internal/library/library.go:1929-1947, 2872-2896, 3192-3230). */
module Interference {
  import opened Common
  import opened Placement
  import opened LibraryState
  import opened Transfers
  import opened Stretches
  import opened Protocol
  import opened Interleaving

  // ---- what happened between two states of a run

  /** `now` comes after `before`: threads stay, and their logs only grow. */
  ghost predicate Later(before: Sys, now: Sys) {
    && |before.threads| <= |now.threads|
    && forall u :: 0 <= u < |before.threads| ==>
         now.threads[u].call == before.threads[u].call && before.threads[u].log <= now.threads[u].log
  }

  /** What thread u has done to cartridges in between. */
  function Since(before: Sys, now: Sys, u: nat): seq<Event>
    requires u < |now.threads|
  {
    var seen := if u < |before.threads| then |before.threads[u].log| else 0;
    if seen <= |now.threads[u].log| then now.threads[u].log[seen..] else []
  }

  /** Thread u, an offsite send, has taken cartridge x out of element r. */
  ghost predicate Takes(before: Sys, now: Sys, u: nat, x: Cartridge, r: Ref) {
    u < |now.threads| && now.threads[u].call == OffsiteSend(r)
        && Transferred(x, At(r), Offsite) in Since(before, now, u)
  }

  /** Thread u, an offsite recall, has put cartridge x into element r. */
  ghost predicate Fills(before: Sys, now: Sys, u: nat, x: Cartridge, r: Ref) {
    && u < |now.threads| && now.threads[u].call.OffsiteRecall? && now.threads[u].call.to == r
    && Transferred(x, Offsite, At(r)) in Since(before, now, u)
  }

  ghost predicate Taken(before: Sys, now: Sys, x: Cartridge, r: Ref) {
    exists u: nat :: Takes(before, now, u, x, r)
  }

  ghost predicate Emptied(before: Sys, now: Sys, r: Ref) {
    exists x: Cartridge :: Taken(before, now, x, r)
  }

  ghost predicate Filled(before: Sys, now: Sys, r: Ref) {
    exists u: nat, x: Cartridge :: Fills(before, now, u, x, r)
  }

  // ---- one step

  /** No offsite call at this element is among the events. */
  ghost predicate SparesElement(events: seq<Event>, r: Ref) {
    forall x :: Transferred(x, At(r), Offsite) !in events && Transferred(x, Offsite, At(r)) !in events
  }

  /** What a call that takes mu alone does to one slot: nothing, or what an offsite call is for. */
  ghost predicate Touches(l: Lib, call: Call, r: Ref) {
    var seg := Exec(l, call, Start);
    var first, last := Get(l.store, r), Get(seg.lib.store, r);
    || (last == first && SparesElement(seg.events, r))
    || (call == OffsiteSend(r) && first.Some? && last == None
        && seg.events == [Transferred(first.value, At(r), Offsite)])
    || (call.OffsiteRecall? && call.to == r && first == None && last.Some?
        && seg.events == [Transferred(last.value, Offsite, At(r))])
  }

  lemma BystanderTouches(l: Lib, call: Call, r: Ref)
    requires !NeedsArm(call) && !MisusesDrive(call)
    ensures Touches(l, call, r)
  {
    hide Shift, Get, Exists, FindBarcode, Create, CreateCartridgeStep, CreateCartridgesStep, CreateCleaningTapeStep;
    match call {
      case OffsiteSend(from) =>
        if Get(l.store, from).Some? {
          OffsiteShiftTouches(l.store, Get(l.store, from).value, At(from), Offsite, r);
          TakenOut(l.store, from);
        }
      case OffsiteRecall(barcode, to) =>
        if FindBarcode(l.vols, l.store.offsite, barcode).Some? && Exists(l.store, to) && Get(l.store, to) == None {
          var v := FindBarcode(l.vols, l.store.offsite, barcode).value;
          OffsiteShiftTouches(l.store, v, Offsite, At(to), r);
          PutIn(l.store, v, to);
        }
      case CreateCartridge(_, _) => CreationTouches(l, call, r);
      case CreateCartridges(_, _) => CreationTouches(l, call, r);
      case CreateCleaningTape => CreationTouches(l, call, r);
      case _ => PlainCallTouches(l, call, r);
    }
  }

  lemma OffsiteShiftTouches(s: Store, v: Cartridge, src: Place, dst: Place, r: Ref)
    ensures At(r) != src && At(r) != dst ==> Get(Shift(s, v, src, dst), r) == Get(s, r)
  {
    if At(r) != src && At(r) != dst {
      ShiftTouches(s, v, src, dst, r);
    }
  }

  lemma TakenOut(s: Store, r: Ref)
    ensures Get(s, r).Some? ==> Get(Shift(s, Get(s, r).value, At(r), Offsite), r) == None
  {
  }

  lemma PutIn(s: Store, v: Cartridge, r: Ref)
    ensures Exists(s, r) ==> Get(Shift(s, v, Offsite, At(r)), r) == Some(v)
  {
  }

  lemma CreationTouches(l: Lib, call: Call, r: Ref)
    requires call.CreateCartridge? || call.CreateCartridges? || call.CreateCleaningTape?
    ensures Touches(l, call, r)
  {
    hide SafeName, LibraryState.Taken, Barcode.NextAvailable, Barcode.Valid, Within, VolOf, Get;
    var s, t := l.store, Exec(l, call, Start).lib.store;
    ListsElsewhere(s, t.outside, t.offsite, r);
    assert t == s.(outside := t.outside, offsite := t.offsite);
  }

  lemma PlainCallTouches(l: Lib, call: Call, r: Ref)
    requires call.DeleteOutside? || call.SetDriveFault? || call.SetRoboticFault? || call.SetCleaning?
             || call.SetOffsite?
    ensures Touches(l, call, r)
  {
    hide FindBarcode, Get, Without;
    var s, t := l.store, Exec(l, call, Start).lib.store;
    if call.SetDriveFault? {
      FaultKeepsContents(s, call.drive, call.fault, r);
    } else {
      ListsElsewhere(s, t.outside, t.offsite, r);
      assert t == s.(outside := t.outside, offsite := t.offsite);
    }
  }

  lemma FaultKeepsContents(s: Store, i: int, fault: bool, r: Ref)
    ensures 0 <= i < |s.drives| ==> Get(s.(drives := s.drives[i := s.drives[i].(fault := fault)]), r) == Get(s, r)
  {
  }

  /** Taking and giving locks, and new calls, add nothing. */
  lemma SameLogs(before: Sys, now: Sys, next: Sys)
    requires Later(before, now) && |now.threads| <= |next.threads|
    requires forall u :: 0 <= u < |now.threads| ==>
               next.threads[u].call == now.threads[u].call && next.threads[u].log == now.threads[u].log
    requires forall u :: |now.threads| <= u < |next.threads| ==> next.threads[u].log == []
    ensures Later(before, next)
    ensures forall u: nat, x, r :: Takes(before, next, u, x, r) <==> Takes(before, now, u, x, r)
    ensures forall u: nat, x, r :: Fills(before, next, u, x, r) <==> Fills(before, now, u, x, r)
  {
  }

  lemma StretchLogs(before: Sys, now: Sys, u: nat, stage: Stage)
    requires Later(before, now) && u < |now.threads|
    ensures var next, events := RunStretch(now, u, stage), Exec(now.lib, now.threads[u].call, stage).events;
            && Later(before, next)
            && forall k: nat :: k < |now.threads| ==>
                 Since(before, next, k) == Since(before, now, k) + if k == u then events else []
  {
    hide Exec, HomeAfter;
  }

  /** Each stretch adds its own events to what happened, and takes nothing back. */
  lemma StretchAdds(before: Sys, now: Sys, u: nat, stage: Stage, x: Cartridge, r: Ref)
    requires Later(before, now) && u < |now.threads|
    ensures var call, events := now.threads[u].call, Exec(now.lib, now.threads[u].call, stage).events;
            var next := RunStretch(now, u, stage);
            && Later(before, next)
            && (Taken(before, next, x, r) <==>
                  Taken(before, now, x, r) || (call == OffsiteSend(r) && Transferred(x, At(r), Offsite) in events))
  {
    hide Exec, HomeAfter, Since;
    var call, events := now.threads[u].call, Exec(now.lib, now.threads[u].call, stage).events;
    var next := RunStretch(now, u, stage);
    StretchLogs(before, now, u, stage);
    if k: nat :| Takes(before, now, k, x, r) {
      assert Takes(before, next, k, x, r);
    }
    if call == OffsiteSend(r) && Transferred(x, At(r), Offsite) in events {
      assert Takes(before, next, u, x, r);
    }
    if k: nat :| Takes(before, next, k, x, r) {
      assert k != u ==> Takes(before, now, k, x, r);
      assert Transferred(x, At(r), Offsite) in Since(before, now, k) ==> Takes(before, now, k, x, r);
    }
  }

  lemma StretchFills(before: Sys, now: Sys, u: nat, stage: Stage, r: Ref)
    requires Later(before, now) && u < |now.threads|
    ensures var call, events := now.threads[u].call, Exec(now.lib, now.threads[u].call, stage).events;
            var next := RunStretch(now, u, stage);
            Filled(before, next, r) <==>
              Filled(before, now, r)
              || (call.OffsiteRecall? && call.to == r && exists x :: Transferred(x, Offsite, At(r)) in events)
  {
    hide Exec, HomeAfter, Since;
    var call, events := now.threads[u].call, Exec(now.lib, now.threads[u].call, stage).events;
    var next := RunStretch(now, u, stage);
    StretchLogs(before, now, u, stage);
    if k: nat, x: Cartridge :| Fills(before, now, k, x, r) {
      assert Fills(before, next, k, x, r);
    }
    if x :| call.OffsiteRecall? && call.to == r && Transferred(x, Offsite, At(r)) in events {
      assert Fills(before, next, u, x, r);
    }
    if k: nat, x: Cartridge :| Fills(before, next, k, x, r) {
      assert k != u ==> Fills(before, now, k, x, r);
      assert Transferred(x, Offsite, At(r)) in Since(before, now, k) ==> Fills(before, now, k, x, r);
    }
  }

  // ---- a call on its way

  /** The tape is still in its source, or was taken away; taken away for good it is not there. */
  ghost predicate SourceWatched(before: Sys, now: Sys, v: Cartridge, r: Ref) {
    && (Get(now.lib.store, r) == Some(v) || Taken(before, now, v, r))
    && (Taken(before, now, v, r) && !Filled(before, now, r) ==> Get(now.lib.store, r) != Some(v))
  }

  /** The destination is still empty, or was filled; filled and not emptied again it is full. */
  ghost predicate TargetWatched(before: Sys, now: Sys, r: Ref) {
    && (Get(now.lib.store, r) == None || Filled(before, now, r))
    && (Filled(before, now, r) && !Emptied(before, now, r) ==> Get(now.lib.store, r).Some?)
  }

  ghost predicate Watched(before: Sys, now: Sys, call: Call, v: Cartridge) {
    match call
    case Move(from, to, _) => SourceWatched(before, now, v, from) && TargetWatched(before, now, to)
    case Load(from, _, _) => SourceWatched(before, now, v, from)
    case Unload(_, to, _) => TargetWatched(before, now, to)
    case _ => false
  }

  /** A call that set out fails only because of an offsite call at its own source or destination. */
  ghost predicate Explained(before: Sys, now: Sys, call: Call, v: Cartridge, result: Result) {
    match call
    case Move(from, to, _) =>
      || result == Ok || (result == Err(Empty) && Taken(before, now, v, from))
          || (result == Err(Full) && Filled(before, now, to))
    case Load(from, _, _) => result == Ok || (result == Err(Empty) && Taken(before, now, v, from))
    case Unload(_, to, _) => result == Ok || (result == Err(Full) && Filled(before, now, to))
    case _ => false
  }

  /** Where thread t is since it set out with cartridge v, and what that says. */
  ghost predicate Tracked(before: Sys, now: Sys, t: nat, v: Cartridge) {
    && Later(before, now) && t < |before.threads|
    && var call := before.threads[t].call;
       match now.threads[t].pc
       case WaitMu(stage) => OnItsWay(before, now, call, stage, v)
       case Running(stage) => OnItsWay(before, now, call, stage, v)
       case WaitOp(stage) => call.Load? && stage.Washing?
       case Releasing(Again(stage)) => call.Load? && stage.Washing?
       case Releasing(Done(result)) => Explained(before, now, call, v, result)
       case Finished(result) => Explained(before, now, call, v, result)
  }

  ghost predicate OnItsWay(before: Sys, now: Sys, call: Call, stage: Stage, v: Cartridge) {
    match stage
    case Travel(x, _, _) => x == v && Watched(before, now, call, v)
    case Washing(_) => call.Load?
    case Ejecting(_, _, _) => call.Load?
    case _ => false
  }

  lemma BystanderKeepsWatch(before: Sys, now: Sys, u: nat, call: Call, v: Cartridge)
    requires Later(before, now) && u < |now.threads| && Watched(before, now, call, v)
    requires !NeedsArm(now.threads[u].call) && !MisusesDrive(now.threads[u].call)
    ensures Watched(before, RunStretch(now, u, Start), call, v)
  {
    hide Exec, HomeAfter, SourceWatched, TargetWatched, NeedsArm, MisusesDrive;
    match call {
      case Move(from, to, _) =>
        SourceStaysWatched(before, now, u, v, from);
        TargetStaysWatched(before, now, u, to);
      case Load(from, _, _) => SourceStaysWatched(before, now, u, v, from);
      case Unload(_, to, _) => TargetStaysWatched(before, now, u, to);
      case _ =>
    }
  }

  lemma SourceStaysWatched(before: Sys, now: Sys, u: nat, v: Cartridge, r: Ref)
    requires Later(before, now) && u < |now.threads| && SourceWatched(before, now, v, r)
    requires !NeedsArm(now.threads[u].call) && !MisusesDrive(now.threads[u].call)
    ensures SourceWatched(before, RunStretch(now, u, Start), v, r)
  {
    hide Exec, HomeAfter, Taken, Filled, NeedsArm, MisusesDrive, Get;
    BystanderTouches(now.lib, now.threads[u].call, r);
    StretchAdds(before, now, u, Start, v, r);
    StretchFills(before, now, u, Start, r);
  }

  lemma TargetStaysWatched(before: Sys, now: Sys, u: nat, r: Ref)
    requires Later(before, now) && u < |now.threads| && TargetWatched(before, now, r)
    requires !NeedsArm(now.threads[u].call) && !MisusesDrive(now.threads[u].call)
    ensures TargetWatched(before, RunStretch(now, u, Start), r)
  {
    hide Exec, HomeAfter, Taken, Filled, NeedsArm, MisusesDrive, Get;
    BystanderTouches(now.lib, now.threads[u].call, r);
    StretchFills(before, now, u, Start, r);
    forall x: Cartridge
      ensures Taken(before, now, x, r) ==> Taken(before, RunStretch(now, u, Start), x, r)
    {
      StretchAdds(before, now, u, Start, x, r);
    }
    if Get(now.lib.store, r).Some? {
      StretchAdds(before, now, u, Start, Get(now.lib.store, r).value, r);
    }
  }

  lemma StaysExplained(before: Sys, now: Sys, u: nat, stage: Stage, call: Call, v: Cartridge, result: Result)
    requires Later(before, now) && u < |now.threads| && Explained(before, now, call, v, result)
    ensures Explained(before, RunStretch(now, u, stage), call, v, result)
  {
    hide Exec, HomeAfter, Taken, Filled;
    match call {
      case Move(from, to, _) =>
        StretchAdds(before, now, u, stage, v, from);
        StretchFills(before, now, u, stage, to);
      case Load(from, _, _) => StretchAdds(before, now, u, stage, v, from);
      case Unload(_, to, _) => StretchFills(before, now, u, stage, to);
      case _ =>
    }
  }

  /** The commit of a watched call is explained. */
  lemma CommitExplained(before: Sys, now: Sys, call: Call, v: Cartridge, cleaning: bool)
    requires Watched(before, now, call, v)
    ensures match Commit(now.lib, call, v, cleaning).next
            case Return(result) => Explained(before, now, call, v, result)
            case Drift(stage) => call.Load? && stage.Washing?
            case Sleep(_) => false
  {
    hide Get, Taken, Filled, Shift, Seat;
  }

  /** The thread's own stretch. */
  lemma OwnStretchTracked(before: Sys, now: Sys, t: nat, v: Cartridge, stage: Stage)
    requires Tracked(before, now, t, v) && now.threads[t].pc == Running(stage)
    ensures Tracked(before, RunStretch(now, t, stage), t, v)
  {
    hide Exec, HomeAfter, Explained, Watched;
    var call, next := before.threads[t].call, RunStretch(now, t, stage);
    var seg := Exec(now.lib, call, stage);
    StretchAdds(before, now, t, stage, v, SlotRef(0));
    match stage {
      case Travel(_, left, cleaning) =>
        TravelStretch(now.lib, call, v, left, cleaning);
        if left > 0 {
          SameWatch(before, now, next, call, v);
        } else {
          CommitExplained(before, now, call, v, cleaning);
          if seg.next.Return? {
            StaysExplained(before, now, t, stage, call, v, seg.next.result);
          }
        }
      case _ =>
        WashStretch(now.lib, call, stage);
        if seg.next.Return? {
          LoadedIsExplained(before, next, call, v);
        }
    }
  }

  lemma TravelStretch(l: Lib, call: Call, v: Cartridge, left: nat, cleaning: bool)
    ensures Exec(l, call, Travel(v, left, cleaning))
         == if left > 0 then Seg(l, Sleep(Travel(v, left - 1, cleaning)), []) else Commit(l, call, v, cleaning)
  {
  }

  lemma WashStretch(l: Lib, call: Call, stage: Stage)
    requires call.Load? && (stage.Washing? || stage.Ejecting?)
    ensures var next := Exec(l, call, stage).next; next == Return(Ok) || (next.Sleep? && next.stage.Ejecting?)
  {
  }

  lemma LoadedIsExplained(before: Sys, now: Sys, call: Call, v: Cartridge)
    requires call.Load?
    ensures Explained(before, now, call, v, Ok)
  {
  }

  /** Sleeping on changes nothing that is watched. */
  lemma SameWatch(before: Sys, now: Sys, next: Sys, call: Call, v: Cartridge)
    requires Watched(before, now, call, v) && next.lib == now.lib && Later(before, now)
    requires |now.threads| == |next.threads|
    requires forall u :: 0 <= u < |now.threads| ==>
               next.threads[u].call == now.threads[u].call && next.threads[u].log == now.threads[u].log
    ensures Watched(before, next, call, v)
  {
    hide Takes, Fills, Get;
    SameLogs(before, now, next);
    SameTaken(before, now, next);
  }

  lemma SameTaken(before: Sys, now: Sys, next: Sys)
    requires forall u: nat, x, r :: Takes(before, next, u, x, r) <==> Takes(before, now, u, x, r)
    requires forall u: nat, x, r :: Fills(before, next, u, x, r) <==> Fills(before, now, u, x, r)
    ensures forall x, r :: Taken(before, next, x, r) <==> Taken(before, now, x, r)
    ensures forall r :: Filled(before, next, r) <==> Filled(before, now, r)
    ensures forall r :: Emptied(before, next, r) <==> Emptied(before, now, r)
  {
    hide Takes, Fills;
  }

  /** A step that only takes or gives a lock, or starts a new call. */
  lemma QuietStepTracked(before: Sys, now: Sys, next: Sys, t: nat, v: Cartridge)
    requires Tracked(before, now, t, v) && next.lib == now.lib && |now.threads| <= |next.threads|
    requires forall u :: 0 <= u < |now.threads| ==>
               next.threads[u].call == now.threads[u].call && next.threads[u].log == now.threads[u].log
    requires forall u :: |now.threads| <= u < |next.threads| ==> next.threads[u].log == []
    requires next.threads[t].pc == now.threads[t].pc || Relocked(now.threads[t].pc, next.threads[t].pc)
    ensures Tracked(before, next, t, v)
  {
    hide Takes, Fills, Taken, Filled, Emptied, Get;
    SameLogs(before, now, next);
    SameTaken(before, now, next);
  }

  /** The same stage or result, with a lock more or less. */
  predicate Relocked(pc: PC, next: PC) {
    match pc
    case WaitOp(stage) => next == WaitMu(stage)
    case WaitMu(stage) => next == Running(stage)
    case Releasing(Again(stage)) => next == WaitOp(stage)
    case Releasing(Done(result)) => next == Finished(result)
    case _ => false
  }

  lemma OthersStretchTracked(before: Sys, now: Sys, w0: Where, t: nat, v: Cartridge, u: nat)
    requires Consistent(now, w0) && Tracked(before, now, t, v) && NeedsArm(before.threads[t].call)
    requires u < |now.threads| && u != t && now.threads[u].pc.Running?
    ensures Tracked(before, RunStretch(now, u, now.threads[u].pc.stage), t, v)
  {
    hide Exec, HomeAfter, Watched, Explained, NeedsArm, MisusesDrive, Ready, Refined;
    var call, stage, next := before.threads[t].call, now.threads[u].pc.stage,
        RunStretch(now, u, now.threads[u].pc.stage);
    assert now.threads[t].call == call && ThreadReady(now.lib, now.threads[u]);
    StretchAdds(before, now, u, stage, v, SlotRef(0));
    assert HoldsOp(now.threads[u]) <==> now.opOwner == Some(u);
    assert HoldsOp(now.threads[t]) <==> now.opOwner == Some(t);
    assert HoldsMu(now.threads[u]) <==> now.muOwner == Some(u);
    assert HoldsMu(now.threads[t]) <==> now.muOwner == Some(t);
    match now.threads[t].pc {
      case WaitMu(Travel(_, _, _)) =>
        ReadyFits(now.lib, now.threads[u].call, stage);
        BystanderKeepsWatch(before, now, u, call, v);
      case Releasing(Done(result)) => StaysExplained(before, now, u, stage, call, v, result);
      case Finished(result) => StaysExplained(before, now, u, stage, call, v, result);
      case _ =>
    }
  }

  lemma StepKeepsTracked(before: Sys, now: Sys, w0: Where, step: Step, t: nat, v: Cartridge)
    requires Consistent(now, w0) && Tracked(before, now, t, v) && NeedsArm(before.threads[t].call)
    ensures Tracked(before, Do(now, step), t, v)
  {
    hide Exec, HomeAfter, Tracked, Consistent, NeedsArm;
    assert Later(before, now) && t < |now.threads| by { TrackedThread(before, now, t, v); }
    match step {
      case Spawn(call) => QuietStepTracked(before, now, Do(now, step), t, v);
      case Advance(u) =>
        if Enabled(now, u) {
          match now.threads[u].pc {
            case Running(stage) =>
              if u == t {
                OwnStretchTracked(before, now, t, v, stage);
              } else {
                OthersStretchTracked(before, now, w0, t, v, u);
              }
            case _ => QuietStepTracked(before, now, Do(now, step), t, v);
          }
        }
    }
  }

  lemma TrackedThread(before: Sys, now: Sys, t: nat, v: Cartridge)
    requires Tracked(before, now, t, v)
    ensures Later(before, now) && t < |before.threads|
  {
  }

  lemma {:induction false} RunKeepsTracked(before: Sys, now: Sys, w0: Where, steps: seq<Step>, t: nat, v: Cartridge)
    requires Consistent(now, w0) && Tracked(before, now, t, v) && NeedsArm(before.threads[t].call)
    ensures Consistent(Run(now, steps), w0) && Tracked(before, Run(now, steps), t, v)
  {
    hide Do, Consistent, Tracked, NeedsArm;
    TrackedThread(before, now, t, v);
    if steps != [] {
      var init := steps[..|steps| - 1];
      RunKeepsTracked(before, now, w0, init, t, v);
      StepKeepsTracked(before, Run(now, init), w0, steps[|steps| - 1], t, v);
      StepKeepsConsistent(Run(now, init), w0, steps[|steps| - 1]);
    }
  }

  // ---- the main results

  /** Thread t, a Move, Load or Unload, passes its checks and sets out with cartridge v. */
  ghost predicate SetsOut(sys: Sys, t: nat, v: Cartridge) {
    && t < |sys.threads| && sys.threads[t].pc == Running(Start)
    && var call := sys.threads[t].call;
       && (call.Move? || call.Load? || call.Unload?)
       && var next := Begin(sys.lib, call).next;
          next.Sleep? && next.stage.Travel? && next.stage.v == v
  }

  lemma StartIsTracked(sys: Sys, w0: Where, t: nat, v: Cartridge)
    requires Consistent(sys, w0) && SetsOut(sys, t, v)
    ensures Tracked(sys, Do(sys, Advance(t)), t, v)
  {
    hide HomeAfter, InScope, Incompatible, Refined, Get, Exists;
    var now, call := Do(sys, Advance(t)), sys.threads[t].call;
    assert Begin(sys.lib, call).events == [];
    assert forall u: nat :: u < |now.threads| ==> Since(sys, now, u) == [];
  }

  lemma SetOutIsTracked(sys: Sys, w0: Where, toStart: seq<Step>, t: nat, v: Cartridge, more: seq<Step>)
    requires Initial(sys, w0) && SetsOut(Run(sys, toStart), t, v)
    ensures var start := Run(sys, toStart);
            Tracked(start, Run(Do(start, Advance(t)), more), t, v)
  {
    hide Run, Do, Tracked;
    var start := Run(sys, toStart);
    InitialIsConsistent(sys, w0);
    RunKeepsConsistent(sys, w0, toStart);
    StartIsTracked(start, w0, t, v);
    StepKeepsConsistent(start, w0, Advance(t));
    RunKeepsTracked(start, Do(start, Advance(t)), w0, more, t, v);
  }

  /** In every interleaving, a Move, Load or Unload that set out succeeds unless an offsite call of
      another thread got there since: it comes back Empty only if an offsite send took that very tape
      out of its source, and Full (for Unload, the fallback to the outside list) only if an offsite
      recall put a tape into its destination. */
  lemma FailsOnlyByInterference(sys: Sys, w0: Where, toStart: seq<Step>, t: nat, v: Cartridge, more: seq<Step>)
    requires Initial(sys, w0) && SetsOut(Run(sys, toStart), t, v)
    requires t < |Run(Do(Run(sys, toStart), Advance(t)), more).threads|
    requires Run(Do(Run(sys, toStart), Advance(t)), more).threads[t].pc.Finished?
    ensures var start, end := Run(sys, toStart), Run(Do(Run(sys, toStart), Advance(t)), more);
            Explained(start, end, start.threads[t].call, v, end.threads[t].pc.result)
  {
    hide Run, Do, Explained;
    SetOutIsTracked(sys, w0, toStart, t, v, more);
  }

  /** How the commit ends, by what offsite calls have done since the start. */
  ghost predicate Decided(before: Sys, now: Sys, call: Call, v: Cartridge, next: Next) {
    match call
    case Move(from, to, _) =>
      && (!Taken(before, now, v, from) && !Filled(before, now, to) ==> next == Return(Ok))
      && (Taken(before, now, v, from) && !Filled(before, now, from) ==> next == Return(Err(Empty)))
      && (!Taken(before, now, v, from) && Filled(before, now, to) && !Emptied(before, now, to) ==>
          next == Return(Err(Full)))
    case Load(from, _, _) =>
      && (!Taken(before, now, v, from) ==> next in {Return(Ok), Drift(Washing(v))})
      && (Taken(before, now, v, from) && !Filled(before, now, from) ==> next == Return(Err(Empty)))
    case Unload(_, to, _) =>
      && (!Filled(before, now, to) ==> next == Return(Ok))
      && (Filled(before, now, to) && !Emptied(before, now, to) ==> next == Return(Err(Full)))
    case _ => false
  }

  /** And the other way: at its commit such a call sees every offsite call at its elements that has not
      been undone by another one there. */
  lemma InterferenceIsSeen(sys: Sys, w0: Where, toStart: seq<Step>, t: nat, v: Cartridge, more: seq<Step>,
                           cleaning: bool)
    requires Initial(sys, w0) && SetsOut(Run(sys, toStart), t, v)
    requires t < |Run(Do(Run(sys, toStart), Advance(t)), more).threads|
    requires Run(Do(Run(sys, toStart), Advance(t)), more).threads[t].pc == Running(Travel(v, 0, cleaning))
    ensures var start, now := Run(sys, toStart), Run(Do(Run(sys, toStart), Advance(t)), more);
            Decided(start, now, start.threads[t].call, v,
                Exec(now.lib, start.threads[t].call, Travel(v, 0, cleaning)).next)
  {
    hide Run, Do, Get, Taken, Filled, Emptied, Shift, Seat;
    SetOutIsTracked(sys, w0, toStart, t, v, more);
  }

  // ---- the last offsite call decides

  /** What an element holds after offsite calls: the last one at this element decides. */
  function AfterOffsite(events: seq<Event>, r: Ref, held: Option<Cartridge>): Option<Cartridge> {
    if events == [] then held
    else
      match events[|events| - 1]
      case Transferred(x, src, dst) =>
        if src == At(r) && dst == Offsite then None
        else if src == Offsite && dst == At(r) then Some(x)
        else AfterOffsite(events[..|events| - 1], r, held)
      case _ => AfterOffsite(events[..|events| - 1], r, held)
  }

  lemma {:induction false} SparedStays(a: seq<Event>, b: seq<Event>, r: Ref, held: Option<Cartridge>)
    requires SparesElement(b, r)
    ensures AfterOffsite(a + b, r, held) == AfterOffsite(a, r, held)
  {
    if b == [] {
      assert a + b == a;
    } else {
      assert (a + b)[..|a + b| - 1] == a + b[..|b| - 1];
      SparedStays(a, b[..|b| - 1], r, held);
      assert b[|b| - 1] in b;
    }
  }

  lemma LastDecides(a: seq<Event>, e: Event, r: Ref, held: Option<Cartridge>)
    ensures forall x: Cartridge :: e == Transferred(x, At(r), Offsite) ==> AfterOffsite(a + [e], r, held) == None
    ensures forall x: Cartridge :: e == Transferred(x, Offsite, At(r)) ==> AfterOffsite(a + [e], r, held) == Some(x)
  {
  }

  /** What has happened to cartridges in between. */
  function Happened(before: Sys, now: Sys): seq<Event> {
    if |before.history| <= |now.history| then now.history[|before.history|..] else []
  }

  /** Since `before`, this element has been changed by offsite calls alone. */
  ghost predicate Followed(before: Sys, now: Sys, r: Ref) {
    && before.history <= now.history
    && Get(now.lib.store, r) == AfterOffsite(Happened(before, now), r, Get(before.lib.store, r))
  }

  ghost predicate Traced(before: Sys, now: Sys, call: Call) {
    match call
    case Move(from, to, _) => Followed(before, now, from) && Followed(before, now, to)
    case Load(from, _, _) => Followed(before, now, from)
    case Unload(_, to, _) => Followed(before, now, to)
    case _ => false
  }

  lemma BystanderFollowed(before: Sys, now: Sys, u: nat, r: Ref)
    requires Followed(before, now, r) && u < |now.threads|
    requires !NeedsArm(now.threads[u].call) && !MisusesDrive(now.threads[u].call)
    ensures Followed(before, RunStretch(now, u, Start), r)
  {
    hide Exec, HomeAfter, Get, AfterOffsite, NeedsArm, MisusesDrive;
    var events := Exec(now.lib, now.threads[u].call, Start).events;
    var n, held := |before.history|, Get(before.lib.store, r);
    assert (now.history + events)[n..] == now.history[n..] + events;
    BystanderTouches(now.lib, now.threads[u].call, r);
    if SparesElement(events, r) {
      SparedStays(now.history[n..], events, r, held);
    } else {
      LastDecides(now.history[n..], events[0], r, held);
    }
  }

  /** While thread t travels, its elements are followed. */
  ghost predicate TracedThread(before: Sys, now: Sys, t: nat) {
    && t < |before.threads| <= |now.threads|
    && match now.threads[t].pc
       case WaitMu(Travel(_, _, _)) => Traced(before, now, before.threads[t].call)
       case Running(Travel(_, _, _)) => Traced(before, now, before.threads[t].call)
       case _ => true
  }

  lemma BystanderTraced(before: Sys, now: Sys, u: nat, call: Call)
    requires Traced(before, now, call) && u < |now.threads|
    requires !NeedsArm(now.threads[u].call) && !MisusesDrive(now.threads[u].call)
    ensures Traced(before, RunStretch(now, u, Start), call)
  {
    hide Followed, RunStretch, NeedsArm, MisusesDrive;
    match call {
      case Move(from, to, _) =>
        BystanderFollowed(before, now, u, from);
        BystanderFollowed(before, now, u, to);
      case Load(from, _, _) => BystanderFollowed(before, now, u, from);
      case Unload(_, to, _) => BystanderFollowed(before, now, u, to);
      case _ =>
    }
  }

  lemma SameTraced(before: Sys, now: Sys, next: Sys, call: Call)
    requires Traced(before, now, call) && next.lib == now.lib && next.history == now.history
    ensures Traced(before, next, call)
  {
    hide AfterOffsite, Get;
  }

  lemma OwnStretchTraced(before: Sys, now: Sys, t: nat, v: Cartridge, stage: Stage)
    requires Tracked(before, now, t, v) && TracedThread(before, now, t) && now.threads[t].pc == Running(stage)
    ensures TracedThread(before, RunStretch(now, t, stage), t)
  {
    hide Exec, HomeAfter, Traced, Watched, Explained;
    var call, next := before.threads[t].call, RunStretch(now, t, stage);
    assert now.threads[t].call == call;
    match stage {
      case Travel(_, left, cleaning) =>
        TravelStretch(now.lib, call, v, left, cleaning);
        if left > 0 {
          SameTraced(before, now, next, call);
        } else {
          CommitStops(now.lib, call, v, cleaning);
        }
      case _ => WashStretch(now.lib, call, stage);
    }
  }

  lemma CommitStops(l: Lib, call: Call, v: Cartridge, cleaning: bool)
    ensures !Commit(l, call, v, cleaning).next.Sleep?
  {
  }

  lemma StepKeepsTraced(before: Sys, now: Sys, w0: Where, step: Step, t: nat, v: Cartridge)
    requires Consistent(now, w0) && Tracked(before, now, t, v) && NeedsArm(before.threads[t].call)
    requires TracedThread(before, now, t)
    ensures TracedThread(before, Do(now, step), t)
  {
    hide Exec, HomeAfter, Traced, Watched, Explained, NeedsArm, MisusesDrive, Ready, Refined, RunStretch;
    var call, next := before.threads[t].call, Do(now, step);
    match step {
      case Spawn(_) => if Traced(before, now, call) { SameTraced(before, now, next, call); }
      case Advance(u) =>
        if Enabled(now, u) {
          var pc := now.threads[u].pc;
          if !pc.Running? {
            if Traced(before, now, call) { SameTraced(before, now, next, call); }
          } else if u == t {
            OwnStretchTraced(before, now, t, v, pc.stage);
          } else {
            OthersStretchTraced(before, now, w0, t, v, u);
          }
        }
    }
  }

  lemma OthersStretchTraced(before: Sys, now: Sys, w0: Where, t: nat, v: Cartridge, u: nat)
    requires Consistent(now, w0) && Tracked(before, now, t, v) && NeedsArm(before.threads[t].call)
    requires TracedThread(before, now, t) && u < |now.threads| && u != t && now.threads[u].pc.Running?
    ensures TracedThread(before, RunStretch(now, u, now.threads[u].pc.stage), t)
  {
    hide Exec, HomeAfter, Traced, Watched, Explained, NeedsArm, MisusesDrive, Ready, Refined;
    var call, stage := before.threads[t].call, now.threads[u].pc.stage;
    assert now.threads[t].call == call && ThreadReady(now.lib, now.threads[u]);
    assert HoldsOp(now.threads[u]) <==> now.opOwner == Some(u);
    assert HoldsOp(now.threads[t]) <==> now.opOwner == Some(t);
    assert HoldsMu(now.threads[u]) <==> now.muOwner == Some(u);
    assert HoldsMu(now.threads[t]) <==> now.muOwner == Some(t);
    match now.threads[t].pc {
      case WaitMu(Travel(_, _, _)) =>
        ReadyFits(now.lib, now.threads[u].call, stage);
        BystanderTraced(before, now, u, call);
      case _ =>
    }
  }

  lemma {:induction false} RunKeepsTraced(before: Sys, now: Sys, w0: Where, steps: seq<Step>, t: nat, v: Cartridge)
    requires Consistent(now, w0) && Tracked(before, now, t, v) && NeedsArm(before.threads[t].call)
    requires TracedThread(before, now, t)
    ensures TracedThread(before, Run(now, steps), t)
  {
    hide Do, Consistent, Tracked, NeedsArm, TracedThread;
    TrackedThread(before, now, t, v);
    if steps != [] {
      var init := steps[..|steps| - 1];
      RunKeepsTraced(before, now, w0, init, t, v);
      RunKeepsTracked(before, now, w0, init, t, v);
      StepKeepsTraced(before, Run(now, init), w0, steps[|steps| - 1], t, v);
    }
  }

  lemma StartIsTraced(sys: Sys, t: nat, v: Cartridge)
    requires SetsOut(sys, t, v)
    ensures TracedThread(sys, Do(sys, Advance(t)), t)
  {
    hide HomeAfter, InScope, Incompatible, Get, Exists;
    var now := Do(sys, Advance(t));
    assert Begin(sys.lib, sys.threads[t].call).events == [];
    assert now.history == sys.history && now.history[|sys.history|..] == [];
  }

  /** How a call that set out with cartridge v ends, by what its elements hold after the offsite calls since. */
  function Ending(call: Call, v: Cartridge, cleaning: bool, since: seq<Event>): Next {
    match call
    case Move(from, to, _) =>
      Return(if AfterOffsite(since, from, Some(v)) != Some(v) then Err(Empty)
             else if AfterOffsite(since, to, None).Some? then Err(Full) else Ok)
    case Load(from, _, _) =>
      if AfterOffsite(since, from, Some(v)) != Some(v) then Return(Err(Empty))
      else if cleaning then Drift(Washing(v)) else Return(Ok)
    case Unload(_, to, _) => Return(if AfterOffsite(since, to, None).Some? then Err(Full) else Ok)
    case _ => Return(Ok)
  }

  lemma TracedDecides(before: Sys, now: Sys, t: nat, v: Cartridge, cleaning: bool)
    requires SetsOut(before, t, v) && Traced(before, now, before.threads[t].call)
    ensures var call := before.threads[t].call;
            Exec(now.lib, call, Travel(v, 0, cleaning)).next
            == Ending(call, v, cleaning, Happened(before, now))
  {
    hide AfterOffsite, Get, Shift, Seat, InScope, Incompatible, Exists;
  }

  /** Exactly how a Move, Load or Unload that set out ends, in every interleaving: each of its elements
      holds what the last offsite call there since has left, or what it held at the start, and that
      decides. */
  lemma LastOffsiteDecides(sys: Sys, w0: Where, toStart: seq<Step>, t: nat, v: Cartridge, more: seq<Step>,
                           cleaning: bool)
    requires Initial(sys, w0) && SetsOut(Run(sys, toStart), t, v)
    requires t < |Run(Do(Run(sys, toStart), Advance(t)), more).threads|
    requires Run(Do(Run(sys, toStart), Advance(t)), more).threads[t].pc == Running(Travel(v, 0, cleaning))
    ensures var start, now := Run(sys, toStart), Run(Do(Run(sys, toStart), Advance(t)), more);
            Exec(now.lib, start.threads[t].call, Travel(v, 0, cleaning)).next
            == Ending(start.threads[t].call, v, cleaning, Happened(start, now))
  {
    hide Run, Do, Traced, Exec, Ending;
    var start := Run(sys, toStart);
    InitialIsConsistent(sys, w0);
    RunKeepsConsistent(sys, w0, toStart);
    StartIsTracked(start, w0, t, v);
    StartIsTraced(start, t, v);
    StepKeepsConsistent(start, w0, Advance(t));
    RunKeepsTraced(start, Do(start, Advance(t)), w0, more, t, v);
    TracedDecides(start, Run(Do(start, Advance(t)), more), t, v, cleaning);
  }
}
