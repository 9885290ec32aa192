/** What the library object's methods compute is what some interleaving of the protocol computes. */
module ObjectRuns {
  import opened Common
  import opened LibraryState
  import opened Protocol
  import opened LibraryObject

  /** The same threads so far, with more behind them, and nobody holding mu. */
  ghost predicate Continues(sys: Sys, sys1: Sys) {
    && |sys.threads| <= |sys1.threads| && (forall t :: 0 <= t < |sys.threads| ==> sys1.threads[t] == sys.threads[t])
    && sys1.opOwner == sys.opOwner && sys1.muOwner == None
  }

  lemma ThreeSteps(sys: Sys, a: Step, b: Step, c: Step)
    ensures Run(sys, [a, b, c]) == Do(Do(Do(sys, a), b), c)
  {
    hide Do;
    assert [a, b, c][..2] == [a, b] && [a, b][..1] == [a] && [a][..0] == [];
    assert Run(sys, [a]) == Do(sys, a);
  }

  /** A call that takes mu alone, start to end. */
  lemma BystanderRuns(sys: Sys, call: Call) returns (steps: seq<Step>)
    requires sys.muOwner == None && !NeedsArm(call) && !MisusesDrive(call)
    ensures Run(sys, steps).lib == Begin(sys.lib, call).lib && Continues(sys, Run(sys, steps))
  {
    hide HomeAfter, Begin, NeedsArm, MisusesDrive, Run;
    var n := |sys.threads|;
    steps := [Spawn(call), Advance(n), Advance(n)];
    ThreeSteps(sys, Spawn(call), Advance(n), Advance(n));
    var sys1 := Do(sys, Spawn(call));
    assert sys1.threads[n].pc == WaitMu(Start);
    var sys2 := Do(sys1, Advance(n));
    assert sys2.threads[n].pc == Running(Start);
  }

  lemma {:induction false} MeanwhileRuns(sys: Sys, calls: seq<Call>) returns (steps: seq<Step>)
    requires sys.muOwner == None
    ensures Run(sys, steps).lib == Meanwhile(sys.lib, calls) && Continues(sys, Run(sys, steps))
  {
    hide Begin, Do;
    steps := [];
    if calls != [] {
      steps := MeanwhileRuns(sys, calls[..|calls| - 1]);
      var sys1, call := Run(sys, steps), calls[|calls| - 1];
      if !NeedsArm(call) && !MisusesDrive(call) {
        var more := BystanderRuns(sys1, call);
        RunAppend(sys, steps, more);
        steps := steps + more;
      }
    }
  }

  lemma OneStep(sys: Sys, step: Step)
    ensures Run(sys, [step]) == Do(sys, step)
  {
    assert [step][..0] == [];
    assert Run(sys, [step][..0]) == sys;
  }

  /** A thread at a stage, driven through its stretches with other callers in its gaps, brings the
      library to exactly where the object's method brings it. */
  lemma {:induction false} HoldRuns(sys: Sys, t: nat, stage: Stage, gaps: seq<seq<Call>>) returns (steps: seq<Step>)
    requires t < |sys.threads| && sys.threads[t].pc == Running(stage)
    ensures var call, held := sys.threads[t].call, Hold(sys.lib, sys.threads[t].call, stage, gaps);
            && Run(sys, steps).lib == held.0
            && t < |Run(sys, steps).threads| && Run(sys, steps).threads[t].pc == PCAfter(call, held.1)
    decreases Phase(stage), Left(stage)
  {
    hide Exec, HomeAfter, Hold, Meanwhile;
    var call := sys.threads[t].call;
    var seg := Exec(sys.lib, call, stage);
    var sys1 := Do(sys, Advance(t));
    steps := [Advance(t)];
    OneStep(sys, Advance(t));
    if seg.next.Sleep? {
      ExecMovesOn(sys.lib, call, stage);
      HoldSleeps(sys.lib, call, stage, gaps);
      var others := MeanwhileRuns(sys1, Gap(gaps));
      var sys2 := Run(sys1, others);
      var sys3 := Do(sys2, Advance(t));
      OneStep(sys2, Advance(t));
      var rest := HoldRuns(sys3, t, seg.next.stage, LaterGaps(gaps));
      RunAppend(sys1, others, [Advance(t)]);
      RunAppend(sys1, others + [Advance(t)], rest);
      RunAppend(sys, [Advance(t)], others + [Advance(t)] + rest);
      steps := [Advance(t)] + (others + [Advance(t)] + rest);
    } else {
      HoldEnds(sys.lib, call, stage, gaps);
    }
  }
}
