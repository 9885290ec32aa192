/** Logical libraries: they partition the elements, and scoped calls stay inside their own
    (internal/library/library.go:421-461, 878-985, 1037-1069, 1875-1879, 2778-2783, 3001-3008, 3136-3141). */
module Isolation {
  import opened Common
  import opened Placement
  import opened Topology
  import opened LibraryState
  import opened Transfers
  import opened Stretches
  import opened Protocol
  import opened Interleaving
  import opened Origins

  // ---- exclusive membership

  ghost predicate Share(a: LogicalLibrary, b: LogicalLibrary) {
    exists r :: Member(a, r) && Member(b, r)
  }

  /** Names are distinct and no element is in two libraries. */
  ghost predicate Partition(libraries: seq<LogicalLibrary>) {
    forall j, k :: 0 <= j < k < |libraries| ==>
      libraries[j].name != libraries[k].name && !Share(libraries[j], libraries[k])
  }

  /** Library k and c share a slot or I/O slot of a magazine or mailbox whose id is empty. */
  ghost predicate ShareUnnamed(s: Store, existing: LogicalLibrary, c: LogicalConfig) {
    || (exists i :: 0 <= i < |s.slots| && s.slots[i].address in existing.slots
                    && s.slots[i].unit == "" && "" in c.magazines)
    || (exists i :: 0 <= i < |s.ioslots| && s.ioslots[i].address in existing.ioslots
                    && s.ioslots[i].unit == "" && "" in c.mailboxes)
  }

  /** Sharing is what the conflict check finds, but for unnamed units. */
  lemma SharingIsSeen(s: Store, existing: LogicalLibrary, c: LogicalConfig)
    ensures Share(existing, ResolveLibrary(s, c)) ==> Conflicts(s, existing, c) || ShareUnnamed(s, existing, c)
    ensures ShareUnnamed(s, existing, c) ==> Share(existing, ResolveLibrary(s, c))
  {
    var lib := ResolveLibrary(s, c);
    if r :| Member(existing, r) && Member(lib, r) {
      match r {
        case SlotRef(a) =>
          var i :| 0 <= i < |s.slots| && s.slots[i].unit in c.magazines && s.slots[i].address == a;
        case IOSlotRef(a) =>
          var i :| 0 <= i < |s.ioslots| && s.ioslots[i].unit in c.mailboxes && s.ioslots[i].address == a;
        case DriveRef(_) =>
      }
    }
    if i :| 0 <= i < |s.slots| && s.slots[i].address in existing.slots && s.slots[i].unit == "" && "" in c.magazines {
      assert Member(existing, SlotRef(s.slots[i].address)) && Member(lib, SlotRef(s.slots[i].address));
    }
    if i :| 0 <= i < |s.ioslots| && s.ioslots[i].address in existing.ioslots
            && s.ioslots[i].unit == "" && "" in c.mailboxes {
      assert Member(existing, IOSlotRef(s.ioslots[i].address)) && Member(lib, IOSlotRef(s.ioslots[i].address));
    }
  }

  lemma {:induction false} IndexOfIs(libraries: seq<LogicalLibrary>, name: string)
    ensures match IndexOf(libraries, name)
            case Some(i) => libraries[i].name == name && forall j :: 0 <= j < i ==> libraries[j].name != name
            case None => forall j :: 0 <= j < |libraries| ==> libraries[j].name != name
  {
    if libraries != [] {
      IndexOfIs(libraries[1..], name);
    }
  }

  /** The library without indices of drives that do not exist. */
  function Installed(s: Store, library: LogicalLibrary): LogicalLibrary {
    library.(drives := set i | i in library.drives && 0 <= i < |s.drives|)
  }

  /** What the check finds, of drives that exist, is shared. */
  lemma SeenIsShared(s: Store, existing: LogicalLibrary, c: LogicalConfig)
    ensures Conflicts(s, Installed(s, existing), c) ==> Share(existing, ResolveLibrary(s, c))
    ensures Share(existing, ResolveLibrary(s, c)) <==> Share(Installed(s, existing), ResolveLibrary(s, c))
  {
    var lib := ResolveLibrary(s, c);
    if i :| i in Installed(s, existing).drives && i in c.drives {
      assert Member(existing, DriveRef(i)) && Member(lib, DriveRef(i));
    }
    if i :| 0 <= i < |s.slots| && s.slots[i].address in existing.slots && s.slots[i].unit in c.magazines {
      assert Member(existing, SlotRef(s.slots[i].address)) && Member(lib, SlotRef(s.slots[i].address));
    }
    if i :| 0 <= i < |s.ioslots| && s.ioslots[i].address in existing.ioslots && s.ioslots[i].unit in c.mailboxes {
      assert Member(existing, IOSlotRef(s.ioslots[i].address)) && Member(lib, IOSlotRef(s.ioslots[i].address));
    }
    if r :| Member(existing, r) && Member(lib, r) {
      assert Member(Installed(s, existing), r);
    }
  }

  /** What the check lets through: its own conflicts with a library whose name is empty, which it never
      looks at, and units whose id is empty. */
  ghost predicate Escapes(l: Lib, c: LogicalConfig, existing: LogicalLibrary) {
    || (existing.name == "" && Conflicts(l.store, Installed(l.store, existing), c))
    || ShareUnnamed(l.store, existing, c)
  }

  /** An accepted Add keeps the libraries a partition exactly when nothing escapes the check. */
  lemma AddKeepsPartition(l: Lib, c: LogicalConfig)
    requires Partition(l.libraries) && AddLibraryStep(l, c).next == Return(Ok)
    ensures Partition(AddLibraryStep(l, c).lib.libraries)
       <==> forall k :: 0 <= k < |l.libraries| ==> !Escapes(l, c, l.libraries[k])
  {
    hide Share, Conflicts, ShareUnnamed, ResolveLibrary, Installed;
    var libs, added := l.libraries, ResolveLibrary(l.store, c);
    ResolvedName(l.store, c);
    IndexOfIs(libs, c.name);
    forall k | 0 <= k < |libs| ensures Share(libs[k], added) <==> Escapes(l, c, libs[k]) {
      SharingIsSeen(l.store, libs[k], c);
      SharingIsSeen(l.store, Installed(l.store, libs[k]), c);
      SeenIsShared(l.store, libs[k], c);
      SameUnnamed(l.store, libs[k], c);
    }
    var after := libs + [added];
    assert after[|libs|] == added;
    assert forall k :: 0 <= k < |libs| ==> after[k] == libs[k];
  }

  lemma SameUnnamed(s: Store, existing: LogicalLibrary, c: LogicalConfig)
    ensures ShareUnnamed(s, Installed(s, existing), c) == ShareUnnamed(s, existing, c)
  {
  }

  lemma ResolvedName(s: Store, c: LogicalConfig)
    ensures ResolveLibrary(s, c).name == c.name
  {
  }

  /** An accepted Update keeps a partition exactly when nothing escapes among the other libraries. */
  lemma UpdateKeepsPartition(l: Lib, name: string, c: LogicalConfig)
    requires Partition(l.libraries) && UpdateLibraryStep(l, name, c).next == Return(Ok)
    ensures Partition(UpdateLibraryStep(l, name, c).lib.libraries)
       <==> forall k :: 0 <= k < |l.libraries| && l.libraries[k].name != name ==>
           !ShareUnnamed(l.store, l.libraries[k], c)
  {
    hide Share, Conflicts, ShareUnnamed, ResolveLibrary;
    var libs := l.libraries;
    var c1 := c.(name := name);
    var updated := ResolveLibrary(l.store, c1);
    ResolvedName(l.store, c1);
    IndexOfIs(libs, name);
    var i := IndexOf(libs, name).value;
    SameUnitsShared(l.store, c, name);
    forall k | 0 <= k < |libs| && libs[k].name != name
      ensures (Share(libs[k], updated) <==> ShareUnnamed(l.store, libs[k], c))
              && Share(libs[k], updated) == Share(updated, libs[k])
    {
      SharingIsSeen(l.store, libs[k], c1);
      ShareSymmetric(libs[k], updated);
    }
    var after := libs[i := updated];
    assert forall k :: 0 <= k < |libs| && k != i ==> after[k] == libs[k] && libs[k].name != name;
    if Partition(after) {
      forall k | 0 <= k < |libs| && libs[k].name != name ensures !ShareUnnamed(l.store, libs[k], c) {
        assert after[i] == updated && after[k] == libs[k];
        assert k < i ==> !Share(after[k], after[i]);
        assert i < k ==> !Share(after[i], after[k]);
      }
    }
  }

  lemma SameUnitsShared(s: Store, c: LogicalConfig, name: string)
    ensures forall existing :: ShareUnnamed(s, existing, c.(name := name)) == ShareUnnamed(s, existing, c)
    ensures forall existing :: Conflicts(s, existing, c.(name := name)) == Conflicts(s, existing, c)
  {
  }

  lemma ShareSymmetric(a: LogicalLibrary, b: LogicalLibrary)
    ensures Share(a, b) == Share(b, a)
  {
  }

  lemma DeleteKeepsPartition(l: Lib, name: string)
    requires Partition(l.libraries)
    ensures Partition(DeleteLibraryStep(l, name).lib.libraries)
    ensures DeleteLibraryStep(l, name).next == Return(Ok) ==>
              forall r :: !InLibrary(DeleteLibraryStep(l, name).lib.libraries, name, r)
  {
    hide Share;
    IndexOfIs(l.libraries, name);
    var after := DeleteLibraryStep(l, name).lib.libraries;
    match IndexOf(l.libraries, name) {
      case None =>
      case Some(i) =>
        assert forall k :: 0 <= k < |after| ==> after[k] == l.libraries[if k < i then k else k + 1];
        forall r ensures !InLibrary(after, name, r) {
          NotNamedNotIn(after, name, r);
        }
    }
  }

  lemma {:induction false} NotNamedNotIn(libraries: seq<LogicalLibrary>, name: string, r: Ref)
    requires forall k :: 0 <= k < |libraries| ==> libraries[k].name != name
    ensures !InLibrary(libraries, name, r)
  {
    if libraries != [] {
      NotNamedNotIn(libraries[1..], name, r);
    }
  }

  /** A library without a name does not exclude anybody: the second library takes its drive. */
  lemma UnnamedLibraryIsOverlooked()
    ensures exists l: Lib, c: LogicalConfig ::
              && Partition(l.libraries) && AddLibraryStep(l, c).next == Return(Ok)
              && !Partition(AddLibraryStep(l, c).lib.libraries)
  {
    var drive := Placement.Drive(0, "/dev/a", "", None, false, None, 0);
    var first := LogicalLibrary("", {0}, {}, {});
    var l := Lib(Store([], [], [drive], [], []), [], {}, Arm(false, {}, 0), false,
                 Settings(Cleaning(false, false, 0), false, map[], map[]), [first]);
    var c := LogicalConfig("b", [0], [], []);
    var seg := AddLibraryStep(l, c);
    assert IndexOf(l.libraries, "b") == None;
    assert seg.lib.libraries == [first, ResolveLibrary(l.store, c)];
    assert Member(first, DriveRef(0)) && 0 in c.drives;
    assert Member(seg.lib.libraries[1], DriveRef(0));
    assert Share(seg.lib.libraries[0], seg.lib.libraries[1]);
  }

  // ---- scoped calls

  /** Move, Load and Unload bound to a logical library. */
  predicate Scoped(call: Call) {
    match call
    case Move(_, _, scope) => scope != ""
    case Load(_, _, scope) => scope != ""
    case Unload(_, _, scope) => scope != ""
    case _ => true
  }

  /** Neither the topology nor the logical libraries change. */
  predicate FixedLibraries(call: Call) {
    !call.Reconfigure? && !call.AddLibrary? && !call.UpdateLibrary? && !call.DeleteLibrary?
  }

  predicate ByArm(call: Call) {
    call.Move? || call.Load? || call.Unload?
  }

  function ScopeOf(call: Call): string {
    match call
    case Move(_, _, scope) => scope
    case Load(_, _, scope) => scope
    case Unload(_, _, scope) => scope
    case _ => ""
  }

  ghost predicate PlaceIn(libraries: seq<LogicalLibrary>, scope: string, p: Place) {
    p.At? ==> InLibrary(libraries, scope, p.ref)
  }

  /** Both ends of the event, where they are elements, belong to the library. */
  ghost predicate Inside(libraries: seq<LogicalLibrary>, scope: string, e: Event) {
    e.Transferred? && PlaceIn(libraries, scope, e.src) && PlaceIn(libraries, scope, e.dst)
  }

  /** The elements a call under way is bound to lie in its library, an eject's Origin included. */
  ghost predicate Admitted(libraries: seq<LogicalLibrary>, call: Call, stage: Stage) {
    && (ByArm(call) && stage != Start ==>
          match call
          case Move(from, to, scope) => InLibrary(libraries, scope, from) && InLibrary(libraries, scope, to)
          case Load(from, i, scope) => InLibrary(libraries, scope, from) && InLibrary(libraries, scope, DriveRef(i))
          case Unload(i, to, scope) => InLibrary(libraries, scope, DriveRef(i)) && InLibrary(libraries, scope, to)
          case _ => true)
    && (call.Load? && stage.Ejecting? && stage.origin.Some? ==> InLibrary(libraries, call.scope, stage.origin.value))
  }

  /** A drive's Origin is in every library the drive is in. */
  ghost predicate Kin(s: Store, libraries: seq<LogicalLibrary>) {
    forall i, name :: 0 <= i < |s.drives| && s.drives[i].origin.Some? && InLibrary(libraries, name, DriveRef(i)) ==>
      InLibrary(libraries, name, s.drives[i].origin.value)
  }

  /** No element is in two libraries. */
  ghost predicate Apart(libraries: seq<LogicalLibrary>) {
    forall a, b, r :: InLibrary(libraries, a, r) && InLibrary(libraries, b, r) ==> a == b
  }

  lemma {:induction false} FoundMember(libraries: seq<LogicalLibrary>, name: string, r: Ref) returns (k: nat)
    requires InLibrary(libraries, name, r)
    ensures k < |libraries| && libraries[k].name == name && Member(libraries[k], r)
  {
    if libraries[0].name == name {
      k := 0;
    } else {
      k := FoundMember(libraries[1..], name, r);
      k := k + 1;
    }
  }

  lemma PartitionIsApart(libraries: seq<LogicalLibrary>)
    requires Partition(libraries)
    ensures Apart(libraries)
  {
    forall a, b, r | InLibrary(libraries, a, r) && InLibrary(libraries, b, r) ensures a == b {
      var j := FoundMember(libraries, a, r);
      var k := FoundMember(libraries, b, r);
      assert Share(libraries[j], libraries[k]);
      assert Share(libraries[k], libraries[j]);
    }
  }

  lemma SeatsKeepKin(s: Store, t: Store, libraries: seq<LogicalLibrary>)
    requires Kin(s, libraries) && KeepsSeats(s, t)
    ensures Kin(t, libraries)
  {
  }

  lemma StretchKeepsLibraries(l: Lib, call: Call, stage: Stage)
    requires FixedLibraries(call)
    ensures Exec(l, call, stage).lib.libraries == l.libraries
  {
    hide Shift, Get, Exists, Incompatible, InScope, CloseBatch, Seat, EjectPlace, VolOf, Taken,
      Barcode.NextAvailable, FindBarcode, Count;
  }

  lemma LoadKeepsKin(l: Lib, call: Call, stage: Stage)
    requires Kin(l.store, l.libraries) && Apart(l.libraries) && Ready(l, call, stage) && call.Load? && stage.Travel?
    requires Admitted(l.libraries, call, stage)
    ensures Kin(Exec(l, call, stage).lib.store, l.libraries)
  {
    hide Shift, InLibrary;
    ShiftKeepsOrigins(l.store, stage.v, At(call.from), At(DriveRef(call.drive)));
  }

  lemma StretchKeepsKin(l: Lib, w: Where, call: Call, stage: Stage)
    requires Placed(l, w) && Kin(l.store, l.libraries) && Apart(l.libraries) && Ready(l, call, stage)
             && FixedLibraries(call)
    requires Admitted(l.libraries, call, stage)
    ensures Kin(Exec(l, call, stage).lib.store, l.libraries)
  {
    hide Exec, KeepsSeats, Kin, Apart, Placed;
    if call.Load? && stage.Travel? {
      LoadKeepsKin(l, call, stage);
    } else {
      StretchKeepsSeats(l, w, call, stage);
      SeatsKeepKin(l.store, Exec(l, call, stage).lib.store, l.libraries);
    }
  }

  ghost predicate NextAdmitted(call: Call, seg: Seg, libraries: seq<LogicalLibrary>) {
    match seg.next
    case Sleep(later) => Admitted(libraries, call, later)
    case Drift(later) => Admitted(libraries, call, later)
    case Return(_) => true
  }

  lemma BeginAdmits(l: Lib, call: Call)
    requires Scoped(call) && FixedLibraries(call)
    ensures NextAdmitted(call, Begin(l, call), l.libraries)
    ensures ByArm(call) ==> Begin(l, call).events == []
  {
    hide Get, Exists, Incompatible, InLibrary, Shift, Taken, Barcode.NextAvailable, FindBarcode, VolOf;
  }

  lemma StretchAdmits(l: Lib, call: Call, stage: Stage)
    requires Scoped(call) && FixedLibraries(call) && Kin(l.store, l.libraries) && Admitted(l.libraries, call, stage)
    requires Ready(l, call, stage)
    ensures NextAdmitted(call, Exec(l, call, stage), l.libraries)
  {
    hide Begin, Shift, CloseBatch, Seat, EjectPlace, InLibrary, VolOf;
    if stage == Start {
      BeginAdmits(l, call);
    }
  }

  /** Whatever a scoped call transfers, it transfers inside its library. */
  lemma StretchInside(l: Lib, call: Call, stage: Stage)
    requires Scoped(call) && ByArm(call) && Admitted(l.libraries, call, stage) && Ready(l, call, stage)
    ensures forall e :: e in Exec(l, call, stage).events ==> Inside(l.libraries, ScopeOf(call), e)
  {
    hide Begin, Shift, CloseBatch, Seat, InLibrary, VolOf;
    if stage == Start {
      BeginAdmits(l, call);
    }
  }

  // ---- every scoped run

  ghost predicate ThreadConfined(libraries: seq<LogicalLibrary>, th: Thread) {
    && Scoped(th.call) && FixedLibraries(th.call)
    && (ByArm(th.call) ==> forall e :: e in th.log ==> Inside(libraries, ScopeOf(th.call), e))
    && (match th.pc
        case WaitOp(stage) => Admitted(libraries, th.call, stage)
        case WaitMu(stage) => Admitted(libraries, th.call, stage)
        case Running(stage) => Admitted(libraries, th.call, stage)
        case Releasing(Again(stage)) => Admitted(libraries, th.call, stage)
        case _ => true)
  }

  ghost predicate Confined(sys: Sys, libraries: seq<LogicalLibrary>) {
    && sys.lib.libraries == libraries && Apart(libraries) && Kin(sys.lib.store, libraries)
    && forall t :: 0 <= t < |sys.threads| ==> ThreadConfined(libraries, sys.threads[t])
  }

  predicate ScopedStep(step: Step) {
    step.Spawn? ==> Scoped(step.call) && FixedLibraries(step.call)
  }

  lemma StartAdmitted(libraries: seq<LogicalLibrary>, call: Call)
    ensures Admitted(libraries, call, Start)
  {
  }

  lemma StepKeepsConfined(sys: Sys, w0: Where, step: Step, libraries: seq<LogicalLibrary>)
    requires Consistent(sys, w0) && Confined(sys, libraries) && ScopedStep(step)
    ensures Confined(Do(sys, step), libraries)
  {
    hide Exec, HomeAfter, Ready, Locked, Placed, AllLegal, Replay, Apart, Kin, Admitted, Inside;
    match step {
      case Spawn(call) => StartAdmitted(libraries, call);
      case Advance(t) =>
        if Enabled(sys, t) {
          var th := sys.threads[t];
          assert ThreadReady(sys.lib, th) && ThreadConfined(libraries, th);
          if th.pc.Running? {
            var stage := th.pc.stage;
            StretchKeepsLibraries(sys.lib, th.call, stage);
            StretchKeepsKin(sys.lib, Replay(w0, sys.history), th.call, stage);
            StretchAdmits(sys.lib, th.call, stage);
            if ByArm(th.call) {
              StretchInside(sys.lib, th.call, stage);
            }
          }
        }
    }
  }

  lemma {:induction false} RunKeepsConfined(sys: Sys, w0: Where, steps: seq<Step>, libraries: seq<LogicalLibrary>)
    requires Consistent(sys, w0) && Confined(sys, libraries)
    requires forall i :: 0 <= i < |steps| ==> ScopedStep(steps[i])
    ensures Confined(Run(sys, steps), libraries)
  {
    hide Do, Consistent, Confined;
    if steps != [] {
      var init := steps[..|steps| - 1];
      RunKeepsConfined(sys, w0, init, libraries);
      RunKeepsConsistent(sys, w0, init);
      StepKeepsConfined(Run(sys, init), w0, steps[|steps| - 1], libraries);
    }
  }

  ghost predicate Touches(e: Event, r: Ref) {
    e.Transferred? && (e.src == At(r) || e.dst == At(r))
  }

  /** In any interleaved run of scoped calls on fixed libraries, an element of library `name` is changed
      by a Move, Load or Unload only if that call is scoped to `name`, automatic ejects included. */
  lemma ScopedCallsStayInside(sys: Sys, w0: Where, steps: seq<Step>, t: nat, r: Ref, name: string)
    requires Initial(sys, w0) && Partition(sys.lib.libraries) && Kin(sys.lib.store, sys.lib.libraries)
    requires forall i :: 0 <= i < |steps| ==> ScopedStep(steps[i])
    requires t < |Run(sys, steps).threads| && ByArm(Run(sys, steps).threads[t].call)
    requires exists e :: e in Run(sys, steps).threads[t].log && Touches(e, r)
    requires InLibrary(sys.lib.libraries, name, r)
    ensures ScopeOf(Run(sys, steps).threads[t].call) == name
    ensures Run(sys, steps).lib.libraries == sys.lib.libraries
  {
    hide Run, Share;
    var libraries := sys.lib.libraries;
    InitialIsConsistent(sys, w0);
    PartitionIsApart(libraries);
    RunKeepsConfined(sys, w0, steps, libraries);
    var th := Run(sys, steps).threads[t];
    assert ThreadConfined(libraries, th);
    var e :| e in th.log && Touches(e, r);
    assert Inside(libraries, ScopeOf(th.call), e);
  }
}
