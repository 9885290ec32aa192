/** EXCHANGE MEDIUM while others are at work: its transfers are separate library calls, and between and
    during them anybody may get in (internal/scsi/changer.go:873-882, 921-993). */
module ExchangeRuns {
  import opened Common
  import opened Placement
  import opened LibraryState
  import opened Transfers
  import opened Protocol
  import opened Interleaving
  import opened Interference
  import opened Outcomes
  import opened Exchange

  // ---- what others leave alone

  /** The event neither takes from nor gives to these elements. */
  ghost predicate LeavesAlone(e: Event, refs: set<Ref>) {
    match e
    case Transferred(_, src, dst) => forall r :: r in refs ==> src != At(r) && dst != At(r)
    case Rebuilt(_) => false
    case _ => true
  }

  /** In between, no other thread has touched these elements. */
  ghost predicate OthersLeaveAlone(before: Sys, now: Sys, t: nat, refs: set<Ref>) {
    forall u: nat, e :: u < |now.threads| && u != t && e in Since(before, now, u) ==> LeavesAlone(e, refs)
  }

  // ---- histories

  /** The history goes on with exactly what the threads did in between. */
  ghost predicate Continued(before: Sys, now: Sys) {
    && Later(before, now) && before.history <= now.history
    && (forall e :: e in now.history[|before.history|..] ==> DoneSince(before, now, e))
    && (forall e :: DoneSince(before, now, e) ==> e in now.history[|before.history|..])
  }

  ghost predicate DoneSince(before: Sys, now: Sys, e: Event) {
    exists u: nat :: u < |now.threads| && e in Since(before, now, u)
  }

  lemma StretchContinues(before: Sys, now: Sys, t: nat, stage: Stage)
    requires Continued(before, now) && t < |now.threads|
    ensures Continued(before, RunStretch(now, t, stage))
  {
    hide Exec, HomeAfter, Since;
    var next, events := RunStretch(now, t, stage), Exec(now.lib, now.threads[t].call, stage).events;
    StretchLogs(before, now, t, stage);
    var n := |before.history|;
    assert next.history[n..] == now.history[n..] + events;
    forall e ensures e in next.history[n..] <==> DoneSince(before, next, e) {
      if DoneSince(before, now, e) {
        var u: nat :| u < |now.threads| && e in Since(before, now, u);
        assert e in Since(before, next, u);
      }
      if e in events {
        assert e in Since(before, next, t);
      }
      if DoneSince(before, next, e) {
        var u: nat :| u < |next.threads| && e in Since(before, next, u);
        assert e in Since(before, now, u) || e in events;
      }
    }
  }

  lemma QuietContinues(before: Sys, now: Sys, next: Sys)
    requires Continued(before, now) && next.history == now.history && |now.threads| <= |next.threads|
    requires forall u :: 0 <= u < |now.threads| ==>
               next.threads[u].call == now.threads[u].call && next.threads[u].log == now.threads[u].log
    requires forall u :: |now.threads| <= u < |next.threads| ==> next.threads[u].log == []
    ensures Continued(before, next)
  {
    assert forall u: nat :: u < |now.threads| ==> Since(before, next, u) == Since(before, now, u);
    assert forall u: nat :: |now.threads| <= u < |next.threads| ==> Since(before, next, u) == [];
    forall e ensures DoneSince(before, next, e) <==> DoneSince(before, now, e) {
      if u: nat :| u < |now.threads| && e in Since(before, now, u) {
        assert e in Since(before, next, u);
      }
    }
  }

  lemma StepContinues(before: Sys, now: Sys, step: Step)
    requires Continued(before, now)
    ensures Continued(before, Do(now, step))
  {
    hide Continued, Exec, HomeAfter, RunStretch;
    match step {
      case Spawn(call) => QuietContinues(before, now, Do(now, step));
      case Advance(t) =>
        if Enabled(now, t) {
          match now.threads[t].pc {
            case Running(stage) => StretchContinues(before, now, t, stage);
            case _ => QuietContinues(before, now, Do(now, step));
          }
        }
    }
  }

  lemma {:induction false} RunContinues(before: Sys, steps: seq<Step>)
    ensures Continued(before, Run(before, steps))
  {
    hide Do, Continued;
    if steps == [] {
      NothingYet(before);
    } else {
      RunContinues(before, steps[..|steps| - 1]);
      StepContinues(before, Run(before, steps[..|steps| - 1]), steps[|steps| - 1]);
    }
  }

  lemma NothingYet(before: Sys)
    ensures Continued(before, before)
  {
    assert forall u: nat :: u < |before.threads| ==> Since(before, before, u) == [];
  }

  // ---- one transfer in a legal history

  ghost predicate Occupies(w: Where, v: Cartridge, r: Ref) {
    v in w && w[v] == At(r)
  }

  /** On these elements, w1 is w. */
  ghost predicate Untouched(w: Where, w1: Where, refs: set<Ref>) {
    forall r, v :: r in refs ==> (Occupies(w1, v, r) <==> Occupies(w, v, r))
  }

  /** On these elements, w1 is w with the cartridge of a carried to the free element b. */
  ghost predicate CarriedOver(w: Where, w1: Where, refs: set<Ref>, x: Cartridge, a: Ref, b: Ref) {
    && a != b && Occupies(w, x, a) && (forall v :: !Occupies(w, v, b))
    && forall r, v :: r in refs ==>
         (Occupies(w1, v, r) <==> if r == a then false else if r == b then v == x else Occupies(w, v, r))
  }

  lemma AloneStays(w: Where, w1: Where, e: Event, refs: set<Ref>, x: Cartridge, a: Ref, b: Ref)
    requires Legal(w1, e) && LeavesAlone(e, refs)
    ensures Untouched(w, w1, refs) ==> Untouched(w, Apply(w1, e), refs)
    ensures CarriedOver(w, w1, refs, x, a, b) ==> CarriedOver(w, Apply(w1, e), refs, x, a, b)
  {
    assert forall r, v :: r in refs ==> (Occupies(Apply(w1, e), v, r) <==> Occupies(w1, v, r));
  }

  lemma TransferCarries(w: Where, w1: Where, refs: set<Ref>, x: Cartridge, a: Ref, b: Ref)
    requires Legal(w1, Transferred(x, At(a), At(b))) && a in refs && b in refs && Untouched(w, w1, refs)
    requires forall u, v :: Occupies(w, u, a) && Occupies(w, v, a) ==> u == v
    ensures CarriedOver(w, Apply(w1, Transferred(x, At(a), At(b))), refs, x, a, b)
  {
    assert Occupies(w1, x, a);
    assert forall v :: Occupies(w1, v, b) ==> w1[v] == At(b);
  }

  /** A legal history that touches these elements by one kind of transfer alone makes it at most once. */
  lemma {:induction false} HistoryCarries(w: Where, events: seq<Event>, refs: set<Ref>, x: Cartridge, a: Ref, b: Ref)
    requires AllLegal(w, events) && a in refs && b in refs
    requires forall u, v :: Occupies(w, u, a) && Occupies(w, v, a) ==> u == v
    requires forall e :: e in events ==> e == Transferred(x, At(a), At(b)) || LeavesAlone(e, refs)
    ensures if Transferred(x, At(a), At(b)) in events then CarriedOver(w, Replay(w, events), refs, x, a, b)
            else Untouched(w, Replay(w, events), refs)
  {
    hide Untouched, CarriedOver, LeavesAlone, Legal, Apply;
    if events == [] {
      SameUntouched(w, refs);
    } else {
      var init, e := events[..|events| - 1], events[|events| - 1];
      var w1 := Replay(w, init);
      HistoryCarries(w, init, refs, x, a, b);
      assert events == init + [e];
      if e == Transferred(x, At(a), At(b)) {
        if e in init {
          NotTwice(w, w1, refs, x, a, b);
        } else {
          TransferCarries(w, w1, refs, x, a, b);
        }
      } else {
        AloneStays(w, w1, e, refs, x, a, b);
      }
    }
  }

  lemma SameUntouched(w: Where, refs: set<Ref>)
    ensures Untouched(w, w, refs)
  {
  }

  lemma NotTwice(w: Where, w1: Where, refs: set<Ref>, x: Cartridge, a: Ref, b: Ref)
    requires CarriedOver(w, w1, refs, x, a, b) && a in refs
    ensures !Legal(w1, Transferred(x, At(a), At(b)))
  {
    assert !Occupies(w1, x, a);
  }

  lemma {:induction false} LegalSuffix(w: Where, a: seq<Event>, b: seq<Event>)
    requires AllLegal(w, a + b)
    ensures AllLegal(Replay(w, a), b)
  {
    if b != [] {
      assert (a + b)[..|a + b| - 1] == a + b[..|b| - 1];
      LegalSuffix(w, a, b[..|b| - 1]);
      ReplayAppend(w, a, b[..|b| - 1]);
    }
  }

  // ---- one transfer of the command, among others

  /** Thread t has made the transfer from a to b since `before`, by one library call that returned Ok, and
      nobody else has touched these elements since. */
  ghost predicate MakesTransfer(before: Sys, now: Sys, t: nat, a: Ref, b: Ref, scope: string, refs: set<Ref>) {
    && t < |now.threads| && now.threads[t].call == LegCall(a, b, scope) && now.threads[t].pc == Finished(Ok)
    && |now.threads[t].log| == 1 && (t < |before.threads| ==> before.threads[t].log == [])
    && OthersLeaveAlone(before, now, t, refs)
  }

  /** On these elements, t is s with the cartridge of a carried to b. */
  ghost predicate CarriedAmong(s: Store, t: Store, a: Ref, b: Ref, refs: set<Ref>) {
    && a != b && Get(s, a).Some? && Get(s, b) == None
    && forall r :: r in refs ==> Get(t, r) == if r == a then None else if r == b then Get(s, a) else Get(s, r)
  }

  lemma OccupiesIs(s: Store, w: Where, r: Ref)
    requires Represents(s, w)
    ensures forall v: Cartridge :: Occupies(w, v, r) <==> Get(s, r) == Some(v)
  {
    forall v: Cartridge ensures Occupies(w, v, r) <==> Get(s, r) == Some(v) {
      assert Holds(s, At(r), v) <==> v in w && w[v] == At(r);
    }
  }

  lemma CarriedOverIs(s: Store, w: Where, t: Store, w1: Where, refs: set<Ref>, x: Cartridge, a: Ref, b: Ref)
    requires Represents(s, w) && Represents(t, w1) && CarriedOver(w, w1, refs, x, a, b)
    ensures CarriedAmong(s, t, a, b, refs)
  {
    hide Represents, Get, Occupies;
    OccupiesIs(s, w, a);
    OccupiesIs(s, w, b);
    assert forall v: Cartridge :: !Occupies(w, v, b) by { TargetIsFree(w, w1, refs, x, a, b); }
    SameOccupantsSameContent(Get(s, b), None);
    forall r | r in refs ensures Get(t, r) == if r == a then None else if r == b then Get(s, a) else Get(s, r) {
      OccupiesIs(s, w, r);
      OccupiesIs(t, w1, r);
      SameOccupantsSameContent(Get(t, r), if r == a then None else if r == b then Get(s, a) else Get(s, r));
    }
  }

  lemma TargetIsFree(w: Where, w1: Where, refs: set<Ref>, x: Cartridge, a: Ref, b: Ref)
    requires CarriedOver(w, w1, refs, x, a, b)
    ensures forall v: Cartridge :: !Occupies(w, v, b)
  {
  }

  lemma SameOccupantsSameContent(a: Option<Cartridge>, b: Option<Cartridge>)
    requires forall v: Cartridge :: a == Some(v) <==> b == Some(v)
    ensures a == b
  {
    if a.Some? {
      assert a == Some(a.value);
    } else if b.Some? {
      assert b == Some(b.value);
    }
  }

  /** The log of a successful transfer call. */
  lemma LegLog(vols: seq<Volume>, a: Ref, b: Ref, scope: string, log: seq<Event>)
    requires Outcome(vols, LegCall(a, b, scope), Ok, log) && |log| == 1
    ensures log[0].Transferred? && log[0].src == At(a) && log[0].dst == At(b)
  {
  }

  lemma TransferAmongOthers(before: Sys, w0: Where, steps: seq<Step>, t: nat, a: Ref, b: Ref, scope: string,
                            refs: set<Ref>)
    requires Consistent(before, w0) && Accounted(before)
    requires MakesTransfer(before, Run(before, steps), t, a, b, scope, refs) && a in refs && b in refs
    ensures CarriedAmong(before.lib.store, Run(before, steps).lib.store, a, b, refs)
    ensures Consistent(Run(before, steps), w0) && Accounted(Run(before, steps))
  {
    hide Run, Outcome, Represents, AllLegal, Replay, CarriedAmong, LeavesAlone, Legal, Locked, ThreadReady;
    var now := Run(before, steps);
    RunKeepsAccounted(before, w0, steps);
    RunContinues(before, steps);
    assert Logged(now.lib.vols, now.threads[t]);
    LegLog(now.lib.vols, a, b, scope, now.threads[t].log);
    var x := now.threads[t].log[0].v;
    var since, w := now.history[|before.history|..], Replay(w0, before.history);
    assert now.history == before.history + since;
    LegalSuffix(w0, before.history, since);
    ReplayAppend(w0, before.history, since);
    OccupiesIs(before.lib.store, w, a);
    assert Since(before, now, t) == [Transferred(x, At(a), At(b))];
    assert DoneSince(before, now, Transferred(x, At(a), At(b)));
    HistoryCarries(w, since, refs, x, a, b);
    CarriedOverIs(before.lib.store, w, now.lib.store, Replay(w, since), refs, x, a, b);
  }

  // ---- when a transfer among others succeeds

  /** A transfer call of an ordinary tape sets out exactly when the transfer is possible, and otherwise
      returns an error at once. */
  lemma SetsOutWhenPossible(l: Lib, a: Ref, b: Ref, scope: string)
    requires !MisusesDrive(LegCall(a, b, scope)) && Ordinary(l, Get(l.store, a))
    ensures var next := Begin(l, LegCall(a, b, scope)).next;
            if Transferable(l, a, b, scope) then next.Sleep? && next.stage.Travel?
            else next.Return? && next.result != Ok
  {
    hide InScope, Get;
    NoVolume(l.store, a);
    NoVolume(l.store, b);
  }

  ghost predicate DoneWith(sys: Sys, t: nat, result: Result) {
    t < |sys.threads| && sys.threads[t].pc in {Releasing(Done(result)), Finished(result)}
  }

  lemma {:induction false} RunKeepsDone(sys: Sys, steps: seq<Step>, t: nat, result: Result)
    requires DoneWith(sys, t, result)
    ensures DoneWith(Run(sys, steps), t, result)
  {
    hide Exec, HomeAfter;
    if steps != [] {
      RunKeepsDone(sys, steps[..|steps| - 1], t, result);
    }
  }

  lemma NotTakenNorFilled(before: Sys, now: Sys, t: nat, call: Call, v: Cartridge, result: Result, a: Ref, b: Ref)
    requires Explained(before, now, call, v, result) && OthersLeaveAlone(before, now, t, {a, b})
    requires t < |now.threads| && now.threads[t].call == call && call == LegCall(a, b, call.scope)
    ensures result == Ok
  {
    hide Since, LeavesAlone;
    forall u: nat, x: Cartridge ensures !Takes(before, now, u, x, a) && !Fills(before, now, u, x, b) {
      OffsiteTouches(x, a, {a, b});
      OffsiteTouches(x, b, {a, b});
    }
  }

  lemma OffsiteTouches(x: Cartridge, r: Ref, refs: set<Ref>)
    requires r in refs
    ensures !LeavesAlone(Transferred(x, At(r), Offsite), refs) && !LeavesAlone(Transferred(x, Offsite, At(r)), refs)
  {
  }

  /** One transfer of an ordinary tape among any other calls that leave its two elements alone returns Ok
      exactly when it was possible as it began. */
  lemma TransferSucceeds(start: Sys, w0: Where, more: seq<Step>, t: nat, a: Ref, b: Ref, scope: string)
    requires Consistent(start, w0) && t < |start.threads| && start.threads[t].pc == Running(Start)
    requires start.threads[t].call == LegCall(a, b, scope) && Ordinary(start.lib, Get(start.lib.store, a))
    requires var now := Run(Do(start, Advance(t)), more);
             && t < |now.threads| && now.threads[t].pc.Finished? && OthersLeaveAlone(start, now, t, {a, b})
    ensures Run(Do(start, Advance(t)), more).threads[t].pc.result == Ok <==> Transferable(start.lib, a, b, scope)
  {
    hide Run, Explained, OthersLeaveAlone, Transferable, Ordinary, Refined, Locked, HomeAfter, Begin;
    var call, next := LegCall(a, b, scope), Begin(start.lib, LegCall(a, b, scope)).next;
    assert ThreadReady(start.lib, start.threads[t]);
    SetsOutWhenPossible(start.lib, a, b, scope);
    if Transferable(start.lib, a, b, scope) {
      var v := next.stage.v;
      StartIsTracked(start, w0, t, v);
      StepKeepsConsistent(start, w0, Advance(t));
      RunKeepsTracked(start, Do(start, Advance(t)), w0, more, t, v);
      NotTakenNorFilled(start, Run(Do(start, Advance(t)), more), t, call, v,
                        Run(Do(start, Advance(t)), more).threads[t].pc.result, a, b);
    } else {
      RunKeepsDone(Do(start, Advance(t)), more, t, next.result);
    }
  }

  // ---- the main results

  /** EXCHANGE MEDIUM among any other calls: when its three transfers have returned Ok and nobody else
      has touched the two elements or the scratch slot since it began, the two volumes are exchanged and
      the scratch slot is empty again, whatever happened elsewhere. */
  lemma SwapAmongOthers(sys: Sys, w0: Where, lead: seq<Step>, first: seq<Step>, second: seq<Step>, third: seq<Step>,
                        t1: nat, t2: nat, t3: nat, a: Ref, b: Ref, c: Ref, scope: string)
    requires Initial(sys, w0) && a != b
    requires var s0 := Run(sys, lead);
             var s1 := Run(s0, first);
             var s2 := Run(s1, second);
             && MakesTransfer(s0, s1, t1, a, c, scope, {a, b, c})
             && MakesTransfer(s1, s2, t2, b, a, scope, {a, b, c})
             && MakesTransfer(s2, Run(s2, third), t3, c, b, scope, {a, b, c})
    ensures var s, t := Run(sys, lead).lib.store, Run(Run(Run(Run(sys, lead), first), second), third).lib.store;
            Get(t, a) == Get(s, b) && Get(t, b) == Get(s, a) && Get(t, c) == Get(s, c) == None
  {
    hide Run, MakesTransfer, Accounted, Consistent, Get;
    var refs := {a, b, c};
    InitialIsConsistent(sys, w0);
    StartIsAccounted(sys, w0);
    RunKeepsAccounted(sys, w0, lead);
    var s0 := Run(sys, lead);
    var s1 := Run(s0, first);
    var s2 := Run(s1, second);
    TransferAmongOthers(s0, w0, first, t1, a, c, scope, refs);
    TransferAmongOthers(s1, w0, second, t2, b, a, scope, refs);
    TransferAmongOthers(s2, w0, third, t3, c, b, scope, refs);
  }

  lemma StartIsAccounted(sys: Sys, w0: Where)
    requires Initial(sys, w0)
    ensures Accounted(sys)
  {
  }
}
