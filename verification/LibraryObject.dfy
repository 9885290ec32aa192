/** The library as the object it is: fields updated in place, loops over its lists, maps for the door
    batches and the rebuild. `View` is its state; every method is one of the stretches, or a whole
    call with what other callers do in its gaps. */
module LibraryObject {
  import opened Common
  import opened Placement
  import opened Topology
  import opened LibraryState
  import opened Protocol
  import opened Rebuilding
  import opened Transfers
  import opened Batches
  import opened Stretches
  import opened Interleaving
  import DoorStaging
  import RebuildLoops

  // ---- calls in the gaps

  /** What other callers, each taking mu alone, make of the library. */
  function Meanwhile(l: Lib, calls: seq<Call>): Lib {
    if calls == [] then l
    else
      var before := Meanwhile(l, calls[..|calls| - 1]);
      var call := calls[|calls| - 1];
      if NeedsArm(call) || MisusesDrive(call) then before else Begin(before, call).lib
  }

  function Gap(gaps: seq<seq<Call>>): seq<Call> {
    if gaps == [] then [] else gaps[0]
  }

  function LaterGaps(gaps: seq<seq<Call>>): seq<seq<Call>> {
    if gaps == [] then [] else gaps[1..]
  }

  /** A call's stretches for as long as it holds opMu, with what happens in each gap between them. */
  function Hold(l: Lib, call: Call, stage: Stage, gaps: seq<seq<Call>>): (Lib, Next)
    decreases Phase(stage), Left(stage)
  {
    var seg := Exec(l, call, stage);
    ExecMovesOn(l, call, stage);
    match seg.next
    case Sleep(later) => Hold(Meanwhile(seg.lib, Gap(gaps)), call, later, LaterGaps(gaps))
    case _ => (seg.lib, seg.next)
  }

  /** A stretch that sleeps is followed by what happens in its gap and the next stretch. */
  lemma HoldSleeps(l: Lib, call: Call, stage: Stage, gaps: seq<seq<Call>>)
    requires Exec(l, call, stage).next.Sleep?
    ensures var seg := Exec(l, call, stage);
            Hold(l, call, stage, gaps) == Hold(Meanwhile(seg.lib, Gap(gaps)), call, seg.next.stage, LaterGaps(gaps))
  {
  }

  lemma HoldEnds(l: Lib, call: Call, stage: Stage, gaps: seq<seq<Call>>)
    requires !Exec(l, call, stage).next.Sleep?
    ensures Hold(l, call, stage, gaps) == (Exec(l, call, stage).lib, Exec(l, call, stage).next)
  {
  }

  /** Two delays in a row, as in Move. */
  lemma HoldTravels(l: Lib, call: Call, v: Cartridge, left: nat, cleaning: bool, gaps: seq<seq<Call>>)
    requires left > 0
    ensures Hold(l, call, Travel(v, left, cleaning), gaps)
         == Hold(Meanwhile(l, Gap(gaps)), call, Travel(v, left - 1, cleaning), LaterGaps(gaps))
  {
  }

  lemma HoldEjects(l: Lib, call: Call, v: Cartridge, origin: Option<Ref>, left: nat, gaps: seq<seq<Call>>)
    requires left > 0 && call.Load?
    ensures Hold(l, call, Ejecting(v, origin, left), gaps)
         == Hold(Meanwhile(l, Gap(gaps)), call, Ejecting(v, origin, left - 1), LaterGaps(gaps))
  {
  }

  lemma HoldScans(l: Lib, call: Call, left: nat, gaps: seq<seq<Call>>)
    requires left > 0 && call.CloseDoor?
    ensures Hold(l, call, Scanning(left), gaps)
            == Hold(Meanwhile(l, Gap(gaps)), call, Scanning(left - 1), LaterGaps(gaps))
  {
  }

  // ---- what every call keeps

  /** Origins are slots, and every cartridge is in one place with a barcode of its own. */
  ghost predicate Kept(l: Lib) {
    OriginsAreSlots(l.store) && exists w: Where :: Placed(l, w)
  }

  lemma StoreAndVolsDecide(l: Lib, m: Lib)
    requires Kept(l) && m.store == l.store && m.vols == l.vols
    ensures Kept(m)
  {
    var w: Where :| Placed(l, w);
    assert Placed(m, w);
  }

  lemma StretchKeeps(l: Lib, call: Call, stage: Stage)
    requires Kept(l) && Ready(l, call, stage)
    ensures Kept(Exec(l, call, stage).lib)
  {
    hide Exec, Placed, OriginsAreSlots, Replay;
    var w: Where :| Placed(l, w);
    StretchSound(l, w, call, stage);
    StretchKeepsOrigins(l, call, stage);
    assert Placed(Exec(l, call, stage).lib, Replay(w, Exec(l, call, stage).events));
  }

  lemma BeginKeeps(l: Lib, call: Call)
    requires Kept(l) && !MisusesDrive(call)
    ensures Kept(Begin(l, call).lib)
  {
    hide Begin, Kept;
    StretchKeeps(l, call, Start);
  }

  /** Which stretch these calls are. */
  lemma BeginIs(l: Lib, call: Call)
    ensures match call
            case OffsiteSend(from) => Begin(l, call) == OffsiteSendStep(l, from)
            case OffsiteRecall(barcode, to) => Begin(l, call) == OffsiteRecallStep(l, barcode, to)
            case DeleteOutside(barcode) => Begin(l, call) == DeleteOutsideStep(l, barcode)
            case CreateCartridges(tapeSet, count) => Begin(l, call) == CreateCartridgesStep(l, tapeSet, count)
            case Reconfigure(c) => Begin(l, call) == ReconfigureStep(l, c)
            case _ => true
  {
  }

  lemma RecallIs(s: Store, v: Cartridge, to: Ref)
    ensures Shift(s, v, Offsite, At(to)) == Put(s.(offsite := Without(s.offsite, v)), to, Some(v))
    ensures Get(s.(offsite := Without(s.offsite, v)), to) == Get(s, to)
  {
  }

  lemma SendIs(s: Store, v: Cartridge, from: Ref)
    ensures Shift(s, v, At(from), Offsite) == Put(s, from, None).(offsite := s.offsite + [v])
    ensures Put(s, from, None).offsite == s.offsite
  {
  }

  lemma ArmStarts(l: Lib, call: Call)
    ensures Exec(l, call, Start) == Begin(l, call)
    ensures match call
            case Move(from, to, scope) => Begin(l, call) == MoveStart(l, from, to, scope)
            case Load(from, i, scope) => Begin(l, call) == LoadStart(l, from, i, scope)
            case Unload(i, to, scope) => Begin(l, call) == UnloadStart(l, i, to, scope)
            case _ => true
    ensures var next := Begin(l, call).next;
            match call
            case Move(_, _, _) => next.Sleep? ==> next.stage == Travel(next.stage.v, 1, false)
            case Load(_, _, _) => next.Sleep? ==> next.stage == Travel(next.stage.v, 2, next.stage.cleaning)
            case Unload(_, _, _) => next.Sleep? ==> next.stage == Travel(next.stage.v, 2, false)
            case _ => true
    ensures call.Move? || call.Load? || call.Unload? ==> Begin(l, call).next.Sleep? || Begin(l, call).next.Return?
  {
  }

  lemma ArmCommits(l: Lib, call: Call, v: Cartridge, cleaning: bool)
    ensures match call
            case Move(from, to, _) => Exec(l, call, Travel(v, 0, cleaning)) == MoveCommit(l, from, to, v)
            case Load(from, i, _) => Exec(l, call, Travel(v, 0, cleaning)) == LoadCommit(l, from, i, v, cleaning)
            case Unload(i, to, _) => Exec(l, call, Travel(v, 0, cleaning)) == UnloadCommit(l, i, to, v)
            case _ => true
    ensures !Exec(l, call, Travel(v, 0, cleaning)).next.Sleep?
  {
  }

  /** What happens in a gap keeps that, and what the sleeping call relies on. */
  lemma {:induction false} MeanwhileKeeps(l: Lib, calls: seq<Call>)
    requires Kept(l)
    ensures Kept(Meanwhile(l, calls))
  {
    hide Begin, Kept;
    if calls != [] {
      MeanwhileKeeps(l, calls[..|calls| - 1]);
      var before, call := Meanwhile(l, calls[..|calls| - 1]), calls[|calls| - 1];
      if !NeedsArm(call) && !MisusesDrive(call) {
        BeginKeeps(before, call);
      }
    }
  }

  lemma {:induction false} MeanwhileReady(l: Lib, calls: seq<Call>, call: Call, stage: Stage)
    requires Ready(l, call, stage)
    ensures Ready(Meanwhile(l, calls), call, stage)
  {
    hide Begin, Ready, Bystander;
    if calls != [] {
      MeanwhileReady(l, calls[..|calls| - 1], call, stage);
      var before, other := Meanwhile(l, calls[..|calls| - 1]), calls[|calls| - 1];
      if !NeedsArm(other) && !MisusesDrive(other) {
        MuOnlyIsBystander(before, other);
        ReadyIsStable(before, Begin(before, other).lib, call, stage);
      }
    }
  }

  lemma NextStretchReady(l: Lib, call: Call, stage: Stage)
    requires Kept(l) && NeedsArm(call) && Ready(l, call, stage)
    ensures NextReady(call, Exec(l, call, stage))
  {
    hide Exec, Placed, OriginsAreSlots, NextReady;
    var w: Where :| Placed(l, w);
    StretchReady(l, w, call, stage);
  }

  /** A whole hold of opMu, whatever others do in its gaps. */
  lemma {:induction false} HoldKeeps(l: Lib, call: Call, stage: Stage, gaps: seq<seq<Call>>)
    requires Kept(l) && NeedsArm(call) && Ready(l, call, stage)
    ensures Kept(Hold(l, call, stage, gaps).0)
    decreases Phase(stage), Left(stage)
  {
    hide Exec, Kept, Ready, Meanwhile, Hold;
    var seg := Exec(l, call, stage);
    StretchKeeps(l, call, stage);
    NextStretchReady(l, call, stage);
    if seg.next.Sleep? {
      HoldSleeps(l, call, stage, gaps);
      ExecMovesOn(l, call, stage);
      MeanwhileKeeps(seg.lib, Gap(gaps));
      MeanwhileReady(seg.lib, Gap(gaps), call, seg.next.stage);
      HoldKeeps(Meanwhile(seg.lib, Gap(gaps)), call, seg.next.stage, LaterGaps(gaps));
    } else {
      HoldEnds(l, call, stage, gaps);
    }
  }

  /** After its wait a load no longer looks at the element it came from. */
  lemma {:induction false} WashIgnoresSource(l: Lib, a: Ref, b: Ref, i: int, scope: string, stage: Stage,
                                             gaps: seq<seq<Call>>)
    requires stage.Washing? || stage.Ejecting?
    ensures Hold(l, Load(a, i, scope), stage, gaps) == Hold(l, Load(b, i, scope), stage, gaps)
    decreases Phase(stage), Left(stage)
  {
    hide Hold, Meanwhile, WashDone, EjectCommit;
    var seg := Exec(l, Load(a, i, scope), stage);
    assert seg == Exec(l, Load(b, i, scope), stage);
    WashSleepsToEject(l, i, stage);
    if seg.next.Sleep? {
      ExecMovesOn(l, Load(a, i, scope), stage);
      HoldSleeps(l, Load(a, i, scope), stage, gaps);
      HoldSleeps(l, Load(b, i, scope), stage, gaps);
      WashIgnoresSource(Meanwhile(seg.lib, Gap(gaps)), a, b, i, scope, seg.next.stage, LaterGaps(gaps));
    } else {
      HoldEnds(l, Load(a, i, scope), stage, gaps);
      HoldEnds(l, Load(b, i, scope), stage, gaps);
    }
  }

  lemma WashSleepsToEject(l: Lib, i: int, stage: Stage)
    ensures stage.Washing? ==> var next := WashDone(l, i, stage.v).next; next.Sleep? ==> next.stage.Ejecting?
    ensures stage.Ejecting? ==> EjectCommit(l, i, stage.v, stage.origin).next == Return(Ok)
  {
  }

  lemma OriginIsSlot(l: Lib, i: int, v: Cartridge)
    requires Kept(l)
    ensures var next := WashDone(l, i, v).next;
            next.Sleep? ==> next.stage.Ejecting? && (next.stage.origin.Some? ==> !next.stage.origin.value.DriveRef?)
  {
  }

  lemma WashKeeps(l: Lib, from: Ref, i: int, scope: string, v: Cartridge, gaps: seq<seq<Call>>)
    requires Kept(l)
    ensures Kept(WashDone(l, i, v).lib)
    ensures var next := WashDone(l, i, v).next;
            next.Sleep? ==> next.stage.Ejecting? && (next.stage.origin.Some? ==> !next.stage.origin.value.DriveRef?)
    ensures Kept(Hold(l, Load(from, i, scope), Washing(v), gaps).0)
  {
    hide Kept, Hold;
    var call := Load(SlotRef(0), i, scope);
    OriginIsSlot(l, i, v);
    StretchKeeps(l, call, Washing(v));
    HoldKeeps(l, call, Washing(v), gaps);
    WashIgnoresSource(l, from, SlotRef(0), i, scope, Washing(v), gaps);
  }

  lemma BuildIs(c: Layout)
    ensures var t, slots := Build(c), Slots(c.magazines, 0);
            && t.slots == slots && t.ioslots == Slots(c.mailboxes, |slots|) && t.outside == [] && t.offsite == []
            && |t.drives| == |c.devices|
            && forall i :: 0 <= i < |t.drives| ==>
                 t.drives[i] == Drive(i, c.devices[i].path, c.devices[i].driveType, None, false, None, 0)
  {
  }

  /** Freshly built elements hold nothing. */
  lemma NewIsKept(c: Layout, l: Lib)
    requires l.store == Build(c)
    ensures WellAddressed(l.store) && Kept(l)
  {
    RebuildLoops.BuiltIsAddressed(c);
    forall p, v ensures !Holds(Build(c), p, v) {
      BuiltIsEmpty(c, p, v);
    }
    assert Placed(l, map[]);
  }

  lemma BuiltIsEmpty(c: Layout, p: Place, v: Cartridge)
    ensures !Holds(Build(c), p, v)
  {
  }

  class Library {
    var slots: seq<Slot>
    var ioslots: seq<Slot>
    var drives: seq<Drive>
    var outside: seq<Cartridge>
    var offsite: seq<Cartridge>
    var vols: seq<Volume>
    var openDoors: set<Door>
    var armBusy: bool
    var busyElements: set<Ref>
    var armOpenDoors: int
    var roboticFault: bool
    var settings: Settings
    var libraries: seq<LogicalLibrary>

    function Elements(): Store
      reads this
    {
      Store(slots, ioslots, drives, outside, offsite)
    }

    function View(): Lib
      reads this
    {
      Lib(Elements(), vols, openDoors, Arm(armBusy, busyElements, armOpenDoors), roboticFault, settings, libraries)
    }

    /** Elements numbered as the builder numbers them; the steps inside a call keep this much. */
    ghost predicate Addressed()
      reads this
    {
      WellAddressed(Elements())
    }

    /** Every call finds and leaves a library whose Origins are slots and whose cartridges are each in one
        place, with a barcode of their own. */
    ghost predicate Valid()
      reads this
    {
      Addressed() && Kept(View())
    }

    /** A new library: the elements of its configuration, all empty. */
    constructor (c: Config)
      ensures Valid()
      ensures View() == Lib(Build(c.layout), [], {}, Arm(false, {}, 0), false, c.settings,
              ResolveAll(Build(c.layout), c.libraries))
    {
      outside, offsite, vols := [], [], [];
      openDoors, armBusy, busyElements, armOpenDoors := {}, false, {}, 0;
      roboticFault, settings, libraries := false, c.settings, [];
      new;
      hide Build;
      var inMagazines := RebuildLoops.MakeSlots(c.layout.magazines, 0);
      var inMailboxes := RebuildLoops.MakeSlots(c.layout.mailboxes, |inMagazines|);
      var built := RebuildLoops.MakeDrives(c.layout.devices);
      slots, ioslots, drives := inMagazines, inMailboxes, built;
      BuildIs(c.layout);
      ghost var l := View();
      NewIsKept(c.layout, l);
      var resolved := ResolvedAll(c.libraries);
      libraries := resolved;
      StoreAndVolsDecide(l, View());
    }

    // ---- lookups

    method FindSlot(address: int) returns (r: Option<nat>)
      requires Addressed()
      ensures r == if Exists(Elements(), SlotRef(address)) then Some(address - 1) else None
    {
      for i := 0 to |slots|
        invariant !(0 < address <= i)
      {
        if slots[i].address == address {
          return Some(i);
        }
      }
      r := None;
    }

    method FindIOSlot(address: int) returns (r: Option<nat>)
      requires Addressed()
      ensures r == if Exists(Elements(), IOSlotRef(address)) then Some(address - 1 - |slots|) else None
    {
      for i := 0 to |ioslots|
        invariant !(|slots| < address <= |slots| + i)
      {
        if ioslots[i].address == address {
          return Some(i);
        }
      }
      r := None;
    }

    method FindDrive(index: int) returns (r: Option<nat>)
      requires Addressed()
      ensures r == if Exists(Elements(), DriveRef(index)) then Some(index) else None
    {
      for i := 0 to |drives|
        invariant !(0 <= index < i)
      {
        if drives[i].index == index {
          return Some(i);
        }
      }
      r := None;
    }

    /** Whether the element exists, and what it holds. */
    method Peek(ref: Ref) returns (found: bool, vol: Option<Cartridge>)
      requires Addressed()
      ensures found == Exists(Elements(), ref) && vol == Get(Elements(), ref)
    {
      match ref {
        case SlotRef(a) =>
          var i := FindSlot(a);
          return i.Some?, if i.Some? then slots[i.value].vol else None;
        case IOSlotRef(a) =>
          var i := FindIOSlot(a);
          return i.Some?, if i.Some? then ioslots[i.value].vol else None;
        case DriveRef(n) =>
          var i := FindDrive(n);
          return i.Some?, if i.Some? then drives[i.value].vol else None;
      }
    }

    /** Puts a cartridge into the element, or empties it. */
    method Set(ref: Ref, vol: Option<Cartridge>)
      requires Addressed()
      modifies this`slots, this`ioslots, this`drives
      ensures Addressed() && Elements() == Put(old(Elements()), ref, vol)
    {
      match ref {
        case SlotRef(a) =>
          var i := FindSlot(a);
          if i.Some? {
            slots := slots[i.value := slots[i.value].(vol := vol)];
          }
        case IOSlotRef(a) =>
          var i := FindIOSlot(a);
          if i.Some? {
            ioslots := ioslots[i.value := ioslots[i.value].(vol := vol)];
          }
        case DriveRef(n) =>
          var i := FindDrive(n);
          if i.Some? {
            drives := drives[i.value := drives[i.value].(vol := vol)];
          }
      }
    }

    /** The first cartridge of a list with that barcode, and its position. */
    method FindIn(list: seq<Cartridge>, barcode: string) returns (r: Option<nat>)
      ensures match r
              case None => FindBarcode(vols, list, barcode) == None
              case Some(i) => i < |list| && FindBarcode(vols, list, barcode) == Some(list[i])
                              && list[..i] + list[i + 1..] == Without(list, list[i])
    {
      for i := 0 to |list|
        invariant FindBarcode(vols, list, barcode) == FindBarcode(vols, list[i..], barcode)
        invariant forall j :: 0 <= j < i ==> !(list[j] < |vols| && vols[list[j]].barcode == barcode)
      {
        if list[i] < |vols| && vols[list[i]].barcode == barcode {
          FirstWithout(list, i);
          return Some(i);
        }
        assert list[i..][1..] == list[i + 1..];
      }
      r := None;
    }

    method Remove(list: seq<Cartridge>, i: nat) returns (r: seq<Cartridge>)
      requires i < |list|
      ensures r == list[..i] + list[i + 1..]
    {
      r := list[..i] + list[i + 1..];
    }

    // ---- calls that take mu alone

    method OffsiteSend(from: Ref) returns (r: Result)
      requires Valid()
      modifies this
      ensures Valid()
      ensures if from.DriveRef? then r == Err(InvalidTarget) && View() == old(View())
              else View() == OffsiteSendStep(old(View()), from).lib
                   && Return(r) == OffsiteSendStep(old(View()), from).next
    {
      hide Shift, Begin, Kept, Put, Get, Exists;
      if from.DriveRef? {
        return Err(InvalidTarget);
      }
      BeginKeeps(View(), Call.OffsiteSend(from));
      BeginIs(View(), Call.OffsiteSend(from));
      if !settings.offsite {
        return Err(OffsiteDisabled);
      }
      var found, vol := Peek(from);
      if !found {
        return Err(NotFound);
      }
      if vol.None? {
        return Err(Empty);
      }
      SendIs(Elements(), vol.value, from);
      Set(from, None);
      offsite := offsite + [vol.value];
      r := Ok;
    }

    method OffsiteRecall(barcode: string, to: Ref) returns (r: Result)
      requires Valid()
      modifies this
      ensures Valid()
      ensures if to.DriveRef? then r == Err(InvalidTarget) && View() == old(View())
              else View() == OffsiteRecallStep(old(View()), barcode, to).lib
                   && Return(r) == OffsiteRecallStep(old(View()), barcode, to).next
    {
      hide Shift, Begin, Kept, Put, Get, Exists, FindBarcode, Without;
      if to.DriveRef? {
        return Err(InvalidTarget);
      }
      ghost var l := View();
      BeginKeeps(l, Call.OffsiteRecall(barcode, to));
      BeginIs(l, Call.OffsiteRecall(barcode, to));
      if !settings.offsite {
        return Err(OffsiteDisabled);
      }
      var i := FindIn(offsite, barcode);
      if i.None? {
        return Err(NotFound);
      }
      var v := offsite[i.value];
      var found, vol := Peek(to);
      if !found {
        return Err(NotFound);
      }
      if vol.Some? {
        return Err(Full);
      }
      RecallIs(l.store, v, to);
      FromVault(i.value, to);
      assert View() == OffsiteRecallStep(l, barcode, to).lib;
      r := Ok;
    }

    /** Takes a cartridge out of the vault and puts it into the element. */
    method FromVault(i: nat, to: Ref)
      requires Addressed() && i < |offsite|
      modifies this
      ensures Addressed()
      ensures var s, rest := old(Elements()), old(offsite)[..i] + old(offsite)[i + 1..];
              View() == old(View()).(store := Put(s.(offsite := rest), to, Some(s.offsite[i])))
    {
      hide Put, Exists, Get;
      var v := offsite[i];
      offsite := Remove(offsite, i);
      Set(to, Some(v));
    }

    method DeleteOutside(barcode: string) returns (r: Result)
      requires Valid()
      modifies this
      ensures Valid()
      ensures View() == DeleteOutsideStep(old(View()), barcode).lib
              && Return(r) == DeleteOutsideStep(old(View()), barcode).next
    {
      hide Begin, Kept, FindBarcode, Without;
      BeginKeeps(View(), Call.DeleteOutside(barcode));
      BeginIs(View(), Call.DeleteOutside(barcode));
      var i := FindIn(outside, barcode);
      if i.None? {
        return Err(OutsideOnly);
      }
      outside := Remove(outside, i.value);
      r := Ok;
    }

    method InDrives() returns (held: set<Cartridge>)
      ensures held == set i | 0 <= i < |drives| && drives[i].vol.Some? :: drives[i].vol.value
    {
      held := {};
      for i := 0 to |drives|
        invariant held == set j | 0 <= j < i && drives[j].vol.Some? :: drives[j].vol.value
      {
        if drives[i].vol.Some? {
          held := held + {drives[i].vol.value};
        }
      }
    }

    method Held(list: seq<Slot>) returns (held: set<Cartridge>)
      ensures held == Holding(list)
    {
      held := {};
      for i := 0 to |list|
        invariant held == set j | 0 <= j < i && list[j].vol.Some? :: list[j].vol.value
      {
        if list[i].vol.Some? {
          held := held + {list[i].vol.value};
        }
      }
    }

    /** The barcodes in use anywhere, offsite included. */
    method TakenBarcodes() returns (taken: set<string>)
      ensures taken == Taken(View())
    {
      var inSlots := Held(slots);
      var inIOSlots := Held(ioslots);
      var inDrives := InDrives();
      var everything := inSlots + inIOSlots + inDrives + (set v | v in outside) + (set v | v in offsite);
      assert everything == Everywhere(Elements());
      taken := set v | v in everything :: BarcodeOf(vols, v);
    }

    method CreateCartridge(tapeSet: string, barcode: string) returns (r: Result)
      requires Valid()
      modifies this
      ensures Valid()
      ensures View() == CreateCartridgeStep(old(View()), tapeSet, barcode).lib
              && Return(r) == CreateCartridgeStep(old(View()), tapeSet, barcode).next
    {
      hide Kept;
      BeginKeeps(View(), Call.CreateCartridge(tapeSet, barcode));
      if tapeSet !in settings.tapeSets {
        return Err(NotFound);
      }
      if !SafeName(barcode) || !Barcode.Valid(settings.tapeSets[tapeSet], barcode) {
        return Err(InvalidBarcode);
      }
      var taken := TakenBarcodes();
      if barcode in taken {
        return Err(BarcodeExists);
      }
      Append(Volume(barcode, tapeSet, false, Unset, 0, 0));
      r := Ok;
    }

    /** One new cartridge, outside. */
    method Append(vol: Volume)
      requires Addressed()
      modifies this`vols, this`outside
      ensures Addressed() && View() == Create(old(View()), [vol])
    {
      outside := outside + [|vols|];
      vols := vols + [vol];
      assert seq(1, k requires 0 <= k < 1 => old(|vols|) + k) == [old(|vols|)];
    }

    method CreateCartridges(tapeSet: string, count: int) returns (r: Result)
      requires Valid()
      modifies this
      ensures Valid()
      ensures View() == CreateCartridgesStep(old(View()), tapeSet, count).lib
              && Return(r) == CreateCartridgesStep(old(View()), tapeSet, count).next
    {
      hide Begin, Kept, WellAddressed, Taken, Barcode.NextAvailable;
      BeginKeeps(View(), Call.CreateCartridges(tapeSet, count));
      BeginIs(View(), Call.CreateCartridges(tapeSet, count));
      if tapeSet !in settings.tapeSets {
        return Err(NotFound);
      }
      var taken := TakenBarcodes();
      var barcodes := Barcode.FindAvailable(settings.tapeSets[tapeSet], taken, count);
      if barcodes.None? {
        return Err(NoBarcodeLeft);
      }
      ghost var before := View();
      for k := 0 to |barcodes.value|
        invariant Addressed() && settings == before.settings
        invariant View() == Create(before, DataTapes(barcodes.value[..k], tapeSet))
      {
        Append(Volume(barcodes.value[k], tapeSet, false, Unset, 0, 0));
        CreateOneMore(before, DataTapes(barcodes.value[..k], tapeSet), DataTapes(barcodes.value[..k + 1], tapeSet));
      }
      assert barcodes.value[..|barcodes.value|] == barcodes.value;
      r := Ok;
    }

    method CreateCleaningTape() returns (r: Result)
      requires Valid()
      modifies this
      ensures Valid()
      ensures View() == CreateCleaningTapeStep(old(View())).lib && Return(r) == CreateCleaningTapeStep(old(View())).next
    {
      hide Kept;
      BeginKeeps(View(), Call.CreateCleaningTape);
      var pool := CleaningPool();
      if |pool| >= MAX_CLEANING_TAPES {
        return Err(CleaningPoolFull);
      }
      var taken := TakenBarcodes();
      var barcodes := Barcode.FindAvailable(CLEANING_SPEC, taken, 1);
      Barcode.NextAvailableIs(CLEANING_SPEC, taken, 1);
      if barcodes.None? {
        return Err(NoBarcodeLeft);
      }
      Append(Volume(barcodes.value[0], "", true, Available, 0, 0));
      r := Ok;
    }

    /** The cleaning tapes in elements and outside. */
    method CleaningPool() returns (pool: set<Cartridge>)
      ensures pool == set v | v in Within(Elements()) && VolOf(View(), v).cleaning
    {
      var inSlots := Held(slots);
      var inIOSlots := Held(ioslots);
      var inDrives := InDrives();
      var all := inSlots + inIOSlots + inDrives + (set v | v in outside);
      pool := set v | v in all && v < |vols| && vols[v].cleaning;
    }

    method SetDriveFault(index: int, fault: bool) returns (r: Result)
      requires Valid()
      modifies this
      ensures Valid()
      ensures View() == SetDriveFaultStep(old(View()), index, fault).lib
              && Return(r) == SetDriveFaultStep(old(View()), index, fault).next
    {
      hide Kept;
      BeginKeeps(View(), Call.SetDriveFault(index, fault));
      var i := FindDrive(index);
      if i.None? {
        return Err(NotFound);
      }
      drives := drives[i.value := drives[i.value].(fault := fault)];
      r := Ok;
    }

    // ---- gaps

    /** One call of another caller that takes mu alone. */
    method Bystand(call: Call)
      requires Valid() && !NeedsArm(call) && !MisusesDrive(call)
      modifies this
      ensures Valid() && View() == Begin(old(View()), call).lib
    {
      hide Kept;
      BeginKeeps(View(), call);
      match call {
        case OffsiteSend(from) => var _ := OffsiteSend(from);
        case OffsiteRecall(barcode, to) => var _ := OffsiteRecall(barcode, to);
        case CreateCartridge(tapeSet, barcode) => var _ := CreateCartridge(tapeSet, barcode);
        case CreateCartridges(tapeSet, count) => var _ := CreateCartridges(tapeSet, count);
        case CreateCleaningTape => var _ := CreateCleaningTape();
        case DeleteOutside(barcode) => var _ := DeleteOutside(barcode);
        case SetDriveFault(i, fault) => var _ := SetDriveFault(i, fault);
        case SetRoboticFault(fault) => roboticFault := fault;
        case SetCleaning(c) => settings := settings.(cleaning := c);
        case SetOffsite(b) => settings := settings.(offsite := b);
      }
    }

    /** Releases mu for a delay: other callers that need only mu get through. */
    method SleepUnlocked(others: seq<Call>)
      requires Valid()
      modifies this
      ensures Valid() && View() == Meanwhile(old(View()), others)
    {
      hide Kept;
      ghost var l := View();
      for i := 0 to |others|
        invariant Valid() && View() == Meanwhile(l, others[..i])
      {
        assert others[..i + 1][..i] == others[..i];
        if !NeedsArm(others[i]) && !MisusesDrive(others[i]) {
          Bystand(others[i]);
        }
      }
      assert others[..|others|] == others;
    }

    // ---- the arm

    method InLogicalLibrary(name: string, ref: Ref) returns (b: bool)
      ensures b == InLibrary(libraries, name, ref)
    {
      for k := 0 to |libraries|
        invariant InLibrary(libraries, name, ref) == InLibrary(libraries[k..], name, ref)
      {
        assert libraries[k..][1..] == libraries[k + 1..];
        if libraries[k].name == name {
          return Member(libraries[k], ref);
        }
      }
      b := false;
    }

    method BothInScope(scope: string, a: Ref, b: Ref) returns (ok: bool)
      ensures ok == InScope(View(), scope, a, b)
    {
      if scope == "" {
        return true;
      }
      ok := InLogicalLibrary(scope, a);
      if ok {
        ok := InLogicalLibrary(scope, b);
      }
    }

    method Mark(refs: set<Ref>)
      modifies this`armBusy, this`busyElements
      ensures View() == Claim(old(View()), refs)
    {
      armBusy := true;
      busyElements := busyElements + refs;
    }

    method Unmark(refs: set<Ref>)
      modifies this`armBusy, this`busyElements
      ensures View() == Release(old(View()), refs)
    {
      armBusy := false;
      busyElements := busyElements - refs;
    }

    /** The checks of Move, and its marks if they pass: the tape to carry, or the error. */
    method BeginMove(from: Ref, to: Ref, scope: string) returns (next: Next)
      requires Addressed()
      modifies this
      ensures Addressed() && Seg(View(), next, []) == MoveStart(old(View()), from, to, scope)
    {
      var ok := BothInScope(scope, from, to);
      if !ok {
        return Return(Err(OutsideLibrary));
      }
      if roboticFault {
        return Return(Err(RoboticFault));
      }
      var foundFrom, vol := Peek(from);
      if !foundFrom {
        return Return(Err(NotFound));
      }
      var foundTo, there := Peek(to);
      if !foundTo {
        return Return(Err(NotFound));
      }
      if vol.None? {
        return Return(Err(Empty));
      }
      if there.Some? {
        return Return(Err(Full));
      }
      Mark({from, to});
      next := Sleep(Travel(vol.value, 1, false));
    }

    /** Move: the source and the destination are looked at again after the delays. */
    method Move(from: Ref, to: Ref, scope: string, gaps: seq<seq<Call>>) returns (r: Result)
      requires Valid()
      modifies this
      ensures Valid()
      ensures if MisusesDrive(Call.Move(from, to, scope)) then r == Err(InvalidTarget) && View() == old(View())
              else (View(), Return(r)) == Hold(old(View()), Call.Move(from, to, scope), Start, gaps)
    {
      hide Kept, WellAddressed, Meanwhile, Hold, Begin, Exec, Commit, MoveStart, MoveCommit;
      if from.DriveRef? || to.DriveRef? {
        return Err(InvalidTarget);
      }
      ghost var l, call := View(), Call.Move(from, to, scope);
      BeginKeeps(l, call);
      ArmStarts(l, call);
      HoldKeeps(l, call, Start, gaps);
      var next := BeginMove(from, to, scope);
      if next.Return? {
        HoldEnds(l, call, Start, gaps);
        return next.result;
      }
      var v := next.stage.v;
      HoldSleeps(l, call, Start, gaps);
      SleepUnlocked(Gap(gaps));
      HoldTravels(View(), call, v, 1, false, LaterGaps(gaps));
      SleepUnlocked(Gap(LaterGaps(gaps)));
      ArmCommits(View(), call, v, false);
      HoldEnds(View(), call, Travel(v, 0, false), LaterGaps(LaterGaps(gaps)));
      r := CommitMove(from, to, v);
    }

    method CommitMove(from: Ref, to: Ref, v: Cartridge) returns (r: Result)
      requires Addressed()
      modifies this
      ensures Addressed() && View() == MoveCommit(old(View()), from, to, v).lib
              && Return(r) == MoveCommit(old(View()), from, to, v).next
    {
      Unmark({from, to});
      var _, vol := Peek(from);
      if vol != Some(v) {
        return Err(Empty);
      }
      var _, there := Peek(to);
      if there.Some? {
        return Err(Full);
      }
      Set(from, None);
      Set(to, Some(v));
      r := Ok;
    }

    method BeginLoad(from: Ref, index: int, scope: string) returns (next: Next)
      requires Addressed()
      modifies this
      ensures Addressed() && Seg(View(), next, []) == LoadStart(old(View()), from, index, scope)
    {
      var ok := BothInScope(scope, from, DriveRef(index));
      if !ok {
        return Return(Err(OutsideLibrary));
      }
      var d := FindDrive(index);
      if d.None? {
        return Return(Err(NotFound));
      }
      var drive := drives[d.value];
      if drive.fault {
        return Return(Err(DriveFault));
      }
      if roboticFault {
        return Return(Err(RoboticFault));
      }
      if drive.vol.Some? {
        return Return(Err(Full));
      }
      var found, vol := Peek(from);
      if !found {
        return Return(Err(NotFound));
      }
      if vol.None? {
        return Return(Err(Empty));
      }
      var tape := VolOf(View(), vol.value);
      var cleaning := settings.cleaning.enabled && tape.cleaning;
      if cleaning && tape.state == Expired {
        return Return(Err(CleaningTapeExpired));
      }
      if Incompatible(View(), drive, tape) {
        return Return(Err(IncompatibleFamily));
      }
      Mark({from, DriveRef(index)});
      next := Sleep(Travel(vol.value, 2, cleaning));
    }

    /** Updates one volume's counters. */
    method Record(v: Cartridge, vol: Volume)
      modifies this`vols
      ensures View() == WithVol(old(View()), v, vol)
    {
      if v < |vols| {
        vols := vols[v := vol];
      }
    }

    /** Sets a drive's Origin and its mounts since the last cleaning. */
    method SetSeat(index: int, origin: Option<Ref>, mounts: nat)
      requires Addressed()
      modifies this`drives
      ensures Addressed() && View() == old(View()).(store := Seat(old(View()).store, index, origin, mounts))
    {
      var d := FindDrive(index);
      if d.Some? {
        drives := drives[d.value := drives[d.value].(origin := origin, mounts := mounts)];
      }
    }

    /** Load, as far as it holds opMu: to its end, or to the wait of a cleaning tape. */
    method Load(from: Ref, index: int, scope: string, gaps: seq<seq<Call>>) returns (next: Next)
      requires Valid()
      modifies this
      ensures Valid()
      ensures if MisusesDrive(Call.Load(from, index, scope)) then next == Return(Err(InvalidTarget))
              && View() == old(View())
              else (View(), next) == Hold(old(View()), Call.Load(from, index, scope), Start, gaps)
    {
      hide Kept, WellAddressed, Meanwhile, Hold, Begin, Exec, Commit, LoadStart, LoadCommit;
      if from.DriveRef? {
        return Return(Err(InvalidTarget));
      }
      ghost var l, call := View(), Call.Load(from, index, scope);
      BeginKeeps(l, call);
      ArmStarts(l, call);
      HoldKeeps(l, call, Start, gaps);
      next := BeginLoad(from, index, scope);
      if next.Return? {
        HoldEnds(l, call, Start, gaps);
        return;
      }
      var v, cleaning := next.stage.v, next.stage.cleaning;
      HoldSleeps(l, call, Start, gaps);
      SleepUnlocked(Gap(gaps));
      HoldTravels(View(), call, v, 2, cleaning, LaterGaps(gaps));
      SleepUnlocked(Gap(LaterGaps(gaps)));
      HoldTravels(View(), call, v, 1, cleaning, LaterGaps(LaterGaps(gaps)));
      SleepUnlocked(Gap(LaterGaps(LaterGaps(gaps))));
      ArmCommits(View(), call, v, cleaning);
      HoldEnds(View(), call, Travel(v, 0, cleaning), LaterGaps(LaterGaps(LaterGaps(gaps))));
      next := CommitLoad(from, index, v, cleaning);
    }

    method CommitLoad(from: Ref, index: int, v: Cartridge, cleaning: bool) returns (next: Next)
      requires Addressed()
      modifies this
      ensures Addressed()
      ensures View() == LoadCommit(old(View()), from, index, v, cleaning).lib
              && next == LoadCommit(old(View()), from, index, v, cleaning).next
    {
      hide Put, Seat, Get, Exists, WellAddressed, MountsOf;
      Unmark({from, DriveRef(index)});
      var _, vol := Peek(from);
      if vol != Some(v) {
        return Return(Err(Empty));
      }
      var mounts := MountsOf(Elements(), index) + if cleaning then 0 else 1;
      Set(from, None);
      Set(DriveRef(index), Some(v));
      SetSeat(index, Some(from), mounts);
      Record(v, Mounted(VolOf(View(), v), cleaning));
      next := if cleaning then Drift(Washing(v)) else Return(Ok);
    }

    /** The rest of a cleaning load, once both locks are held again: count the use, and in robot mode
        bring the tape back to its drive's Origin as it is now. */
    method FinishCleaning(from: Ref, index: int, scope: string, v: Cartridge, gaps: seq<seq<Call>>) returns (r: Result)
      requires Valid()
      modifies this
      ensures Valid() && (View(), Return(r)) == Hold(old(View()), Call.Load(from, index, scope), Washing(v), gaps)
    {
      hide Kept, WellAddressed, Meanwhile, Get;
      ghost var l, call := View(), Call.Load(from, index, scope);
      WashKeeps(l, from, index, scope, v, gaps);
      var next := CountUse(index, v);
      if next.Return? {
        HoldEnds(l, call, Washing(v), gaps);
        return next.result;
      }
      var origin := next.stage.origin;
      HoldSleeps(l, call, Washing(v), gaps);
      SleepUnlocked(Gap(gaps));
      HoldEjects(View(), call, v, origin, 2, LaterGaps(gaps));
      SleepUnlocked(Gap(LaterGaps(gaps)));
      HoldEjects(View(), call, v, origin, 1, LaterGaps(LaterGaps(gaps)));
      SleepUnlocked(Gap(LaterGaps(LaterGaps(gaps))));
      HoldEnds(View(), call, Ejecting(v, origin, 0), LaterGaps(LaterGaps(LaterGaps(gaps))));
      Eject(index, v, origin);
      r := Ok;
    }

    method CountUse(index: int, v: Cartridge) returns (next: Next)
      requires Addressed()
      modifies this
      ensures Addressed() && Seg(View(), next, []) == WashDone(old(View()), index, v)
    {
      var d := FindDrive(index);
      if d.None? || drives[d.value].vol != Some(v) {
        return Return(Ok);
      }
      var origin := drives[d.value].origin;
      Record(v, Used(settings.cleaning, VolOf(View(), v)));
      SetSeat(index, origin, 0);
      if settings.cleaning.robot {
        Mark({DriveRef(index)} + OriginSet(origin));
        next := Sleep(Ejecting(v, origin, 2));
      } else {
        next := Return(Ok);
      }
    }

    method Eject(index: int, v: Cartridge, origin: Option<Ref>)
      requires Addressed() && (origin.Some? ==> !origin.value.DriveRef?)
      modifies this
      ensures Addressed() && View() == EjectCommit(old(View()), index, v, origin).lib
    {
      hide Put, Seat, Get, Exists, WellAddressed, MountsOf;
      ghost var before := Elements();
      Unmark({DriveRef(index)} + OriginSet(origin));
      var mounts := MountsOf(Elements(), index);
      Set(DriveRef(index), None);
      SetSeat(index, None, mounts);
      Record(v, Rested(VolOf(View(), v)));
      ghost var emptied := Put(before, DriveRef(index), None);
      if origin.Some? {
        PutElsewhere(before, DriveRef(index), None, origin.value);
      }
      ExistsAfterPut(before, DriveRef(index), None);
      SeatSameContents(emptied, index, None, mounts);
      SeatThenGive(emptied, index, None, mounts, EjectPlace(before, origin), v);
      var found, there := false, None;
      if origin.Some? {
        found, there := Peek(origin.value);
      }
      if found && there.None? {
        Set(origin.value, Some(v));
      } else {
        SetDown(v);
      }
    }

    /** Places a cartridge outside the library. */
    method SetDown(v: Cartridge)
      requires Addressed()
      modifies this`outside
      ensures Addressed() && View() == old(View()).(store := Give(old(View()).store, Outside, v))
    {
      outside := outside + [v];
    }

    method BeginUnload(index: int, to: Ref, scope: string) returns (next: Next)
      requires Addressed()
      modifies this
      ensures Addressed() && Seg(View(), next, []) == UnloadStart(old(View()), index, to, scope)
    {
      var ok := BothInScope(scope, DriveRef(index), to);
      if !ok {
        return Return(Err(OutsideLibrary));
      }
      var d := FindDrive(index);
      if d.None? {
        return Return(Err(NotFound));
      }
      if roboticFault {
        return Return(Err(RoboticFault));
      }
      var vol := drives[d.value].vol;
      if vol.None? {
        return Return(Err(Empty));
      }
      var found, there := Peek(to);
      if !found {
        return Return(Err(NotFound));
      }
      if there.Some? {
        return Return(Err(Full));
      }
      Mark({DriveRef(index), to});
      next := Sleep(Travel(vol.value, 2, false));
    }

    /** Unload: past the delays there is no way back, so a filled destination sends the tape outside. */
    method Unload(index: int, to: Ref, scope: string, gaps: seq<seq<Call>>) returns (r: Result)
      requires Valid()
      modifies this
      ensures Valid()
      ensures if MisusesDrive(Call.Unload(index, to, scope)) then r == Err(InvalidTarget) && View() == old(View())
              else (View(), Return(r)) == Hold(old(View()), Call.Unload(index, to, scope), Start, gaps)
    {
      hide Kept, WellAddressed, Meanwhile, Hold, Begin, Exec, Commit, UnloadStart, UnloadCommit;
      if to.DriveRef? {
        return Err(InvalidTarget);
      }
      ghost var l, call := View(), Call.Unload(index, to, scope);
      BeginKeeps(l, call);
      ArmStarts(l, call);
      HoldKeeps(l, call, Start, gaps);
      var next := BeginUnload(index, to, scope);
      if next.Return? {
        HoldEnds(l, call, Start, gaps);
        return next.result;
      }
      var v := next.stage.v;
      HoldSleeps(l, call, Start, gaps);
      SleepUnlocked(Gap(gaps));
      HoldTravels(View(), call, v, 2, false, LaterGaps(gaps));
      SleepUnlocked(Gap(LaterGaps(gaps)));
      HoldTravels(View(), call, v, 1, false, LaterGaps(LaterGaps(gaps)));
      SleepUnlocked(Gap(LaterGaps(LaterGaps(gaps))));
      ArmCommits(View(), call, v, false);
      HoldEnds(View(), call, Travel(v, 0, false), LaterGaps(LaterGaps(LaterGaps(gaps))));
      r := CommitUnload(index, to, v);
    }

    method CommitUnload(index: int, to: Ref, v: Cartridge) returns (r: Result)
      requires Addressed() && !to.DriveRef?
      modifies this
      ensures Addressed() && View() == UnloadCommit(old(View()), index, to, v).lib
              && Return(r) == UnloadCommit(old(View()), index, to, v).next
    {
      hide Put, Seat, Get, Exists, WellAddressed, MountsOf;
      ghost var before := Elements();
      Unmark({DriveRef(index), to});
      var vol := VolOf(View(), v);
      var mounts := if vol.cleaning then 0 else MountsOf(Elements(), index);
      Set(DriveRef(index), None);
      SetSeat(index, None, mounts);
      if vol.cleaning {
        Record(v, Rested(vol));
      }
      ghost var emptied := Put(before, DriveRef(index), None);
      PutElsewhere(before, DriveRef(index), None, to);
      SeatSameContents(emptied, index, None, mounts);
      SeatThenGive(emptied, index, None, mounts, if Get(before, to).Some? then Outside else At(to), v);
      var _, there := Peek(to);
      if there.Some? {
        SetDown(v);
        return Err(Full);
      }
      Set(to, Some(v));
      r := Ok;
    }

    // ---- doors

    method HasUnit(door: Door) returns (b: bool)
      ensures b == UnitExists(Elements(), door)
    {
      var list := SlotsBehind(Elements(), door);
      for i := 0 to |list|
        invariant forall j :: 0 <= j < i ==> list[j].unit != door.id
      {
        if list[i].unit == door.id {
          return true;
        }
      }
      b := false;
    }

    method OpenDoor(door: Door, pinAccepted: bool, gaps: seq<seq<Call>>) returns (r: Result)
      requires Valid()
      modifies this
      ensures Valid()
      ensures (View(), Return(r)) == Hold(old(View()), Call.OpenDoor(door, pinAccepted), Start, gaps)
    {
      hide Hold, Meanwhile, Kept;
      ghost var l, call := View(), Call.OpenDoor(door, pinAccepted);
      HoldKeeps(l, call, Start, gaps);
      var found := HasUnit(door);
      if !found || !pinAccepted || door in openDoors {
        HoldEnds(l, call, Start, gaps);
        return if !found then Err(NotFound) else if !pinAccepted then Err(PINRefused) else Ok;
      }
      HoldSleeps(l, call, Start, gaps);
      SleepUnlocked(Gap(gaps));
      HoldEnds(View(), call, DoorMoving, LaterGaps(gaps));
      openDoors := openDoors + {door};
      armOpenDoors := armOpenDoors + 1;
      r := Ok;
    }

    method SlotsOfMagazine(id: string) returns (n: nat)
      ensures n == UnitSize(slots, id)
    {
      n := 0;
      for i := 0 to |slots|
        invariant n == Count(slots, id, i)
      {
        if slots[i].unit == id {
          n := n + 1;
        }
      }
    }

    method ShutDoor(door: Door)
      requires Addressed()
      modifies this`openDoors, this`armOpenDoors
      ensures Addressed() && View() == Shut(old(View()), door)
    {
      openDoors := openDoors - {door};
      armOpenDoors := armOpenDoors - 1;
    }

    method SetElements(t: Store)
      requires WellAddressed(t)
      modifies this`slots, this`ioslots, this`drives, this`outside, this`offsite
      ensures Addressed() && View() == old(View()).(store := t)
    {
      slots, ioslots, drives, outside, offsite := t.slots, t.ioslots, t.drives, t.outside, t.offsite;
    }

    /** The staged actions, on the lists as they are after the door's delay. */
    method CommitClose(door: Door, actions: seq<DoorAction>) returns (next: Next)
      requires Valid()
      modifies this
      ensures Addressed()
      ensures View() == CloseCommit(old(View()), door, actions).lib
              && next == CloseCommit(old(View()), door, actions).next
    {
      hide CloseBatch, Represents, Distinct, WellAddressed, Count;
      ghost var l := View();
      ghost var w: Where :| Placed(l, w);
      var ok, t := DoorStaging.RunBatch(vols, door, Elements(), actions, w);
      if !ok {
        return Return(Err(ActionRefused));
      }
      CloseKeepsAddresses(l, w, door, actions);
      var n := 0;
      if door.MagazineDoor? {
        n := SlotsOfMagazine(door.id);
      }
      SetElements(t);
      if door.MailboxDoor? {
        ShutDoor(door);
        return Return(Ok);
      }
      Mark({});
      next := Sleep(Scanning(if n > 0 then n else 1));
    }

    /** Close: all staged actions or none; a magazine is then scanned before it counts as shut. */
    method CloseDoor(door: Door, actions: seq<DoorAction>, gaps: seq<seq<Call>>) returns (r: Result)
      requires Valid()
      modifies this
      ensures Valid()
      ensures (View(), Return(r)) == Hold(old(View()), Call.CloseDoor(door, actions), Start, gaps)
    {
      hide CloseCommit, Kept;
      ghost var l, call := View(), Call.CloseDoor(door, actions);
      HoldKeeps(l, call, Start, gaps);
      if door !in openDoors {
        HoldEnds(l, call, Start, gaps);
        return Err(DoorClosed);
      }
      HoldSleeps(l, call, Start, gaps);
      SleepUnlocked(Gap(gaps));
      MeanwhileReady(l, Gap(gaps), call, DoorMoving);
      var left := LaterGaps(gaps);
      ghost var atCommit := View();
      var next := CommitClose(door, actions);
      StretchKeeps(atCommit, call, DoorMoving);
      CloseScansOrReturns(atCommit, door, actions);
      if next.Return? {
        HoldEnds(atCommit, call, DoorMoving, left);
        return next.result;
      }
      HoldSleeps(atCommit, call, DoorMoving, left);
      r := Scan(door, actions, next.stage.left, left);
    }

    /** The scan: a delay before the first slot and one for each, then the door is shut. */
    method Scan(door: Door, actions: seq<DoorAction>, n: nat, gaps: seq<seq<Call>>) returns (r: Result)
      requires Valid()
      modifies this
      ensures Valid()
      ensures (View(), Return(r))
              == Hold(Meanwhile(old(View()), Gap(gaps)), Call.CloseDoor(door, actions), Scanning(n), LaterGaps(gaps))
    {
      hide Hold, Meanwhile, Kept;
      ghost var call := Call.CloseDoor(door, actions);
      ghost var outcome := Hold(Meanwhile(View(), Gap(gaps)), call, Scanning(n), LaterGaps(gaps));
      SleepUnlocked(Gap(gaps));
      var rest := LaterGaps(gaps);
      var left := n;
      while left > 0
        invariant Valid()
        invariant Hold(View(), call, Scanning(left), rest) == outcome
      {
        HoldScans(View(), call, left, rest);
        SleepUnlocked(Gap(rest));
        rest := LaterGaps(rest);
        left := left - 1;
      }
      HoldEnds(View(), call, Scanning(0), rest);
      ghost var l := View();
      Unmark({});
      ShutDoor(door);
      StoreAndVolsDecide(l, View());
      r := Ok;
    }

    // ---- topology and logical libraries

    method AddressesOf(list: seq<Slot>, ids: seq<string>) returns (r: set<int>)
      ensures r == AddressesIn(list, ids)
    {
      r := {};
      for k := 0 to |ids|
        invariant r == AddressesIn(list, ids[..k])
      {
        for i := 0 to |list|
          invariant r == AddressesIn(list, ids[..k]) + set j | 0 <= j < i && list[j].unit == ids[k] :: list[j].address
        {
          if list[i].unit == ids[k] {
            r := r + {list[i].address};
          }
        }
        OneMoreId(list, ids, k);
      }
      assert ids[..|ids|] == ids;
    }

    method Resolved(c: LogicalConfig) returns (library: LogicalLibrary)
      ensures library == ResolveLibrary(Elements(), c)
    {
      var indices: set<int> := {};
      for k := 0 to |c.drives|
        invariant indices == set i | i in c.drives[..k] && 0 <= i < |drives|
      {
        if 0 <= c.drives[k] < |drives| {
          indices := indices + {c.drives[k]};
        }
      }
      assert c.drives[..|c.drives|] == c.drives;
      var ofMagazines := AddressesOf(slots, c.magazines);
      var ofMailboxes := AddressesOf(ioslots, c.mailboxes);
      library := LogicalLibrary(c.name, indices, ofMagazines, ofMailboxes);
    }

    method PositionOf(name: string) returns (r: Option<nat>)
      ensures r == IndexOf(libraries, name)
    {
      for k := 0 to |libraries|
        invariant forall j :: 0 <= j < k ==> libraries[j].name != name
      {
        if libraries[k].name == name {
          FirstNamed(libraries, name, k);
          return Some(k);
        }
      }
      NoneNamed(libraries, name);
      r := None;
    }

    method SlotsClash(list: seq<Slot>, owned: set<int>, ids: seq<string>) returns (b: bool)
      ensures b == exists i :: 0 <= i < |list| && list[i].address in owned && list[i].unit != "" && list[i].unit in ids
    {
      for i := 0 to |list|
        invariant forall j :: 0 <= j < i ==> !(list[j].address in owned && list[j].unit != "" && list[j].unit in ids)
      {
        if list[i].address in owned && list[i].unit != "" && list[i].unit in ids {
          return true;
        }
      }
      b := false;
    }

    method DrivesClash(owned: set<int>, indices: seq<int>) returns (b: bool)
      ensures b == exists i :: i in owned && i in indices
    {
      for k := 0 to |indices|
        invariant forall j :: 0 <= j < k ==> indices[j] !in owned
      {
        if indices[k] in owned {
          var shared := indices[k];
          assert shared in owned && shared in indices;
          return true;
        }
      }
      b := false;
    }

    method HasConflict(c: LogicalConfig, exclude: string) returns (b: bool)
      ensures b == AnyConflict(View(), c, exclude)
    {
      for k := 0 to |libraries|
        invariant forall j :: 0 <= j < k ==> !(libraries[j].name != exclude && Conflicts(Elements(), libraries[j], c))
      {
        if libraries[k].name != exclude {
          var inDrives := DrivesClash(libraries[k].drives, c.drives);
          var inSlots := SlotsClash(slots, libraries[k].slots, c.magazines);
          var inIOSlots := SlotsClash(ioslots, libraries[k].ioslots, c.mailboxes);
          if inDrives || inSlots || inIOSlots {
            return true;
          }
        }
      }
      b := false;
    }

    method AddLibrary(c: LogicalConfig) returns (r: Result)
      requires Valid()
      modifies this`libraries
      ensures Valid()
      ensures View() == AddLibraryStep(old(View()), c).lib && Return(r) == AddLibraryStep(old(View()), c).next
    {
      hide Kept;
      BeginKeeps(View(), Call.AddLibrary(c));
      hide Conflicts, ResolveLibrary;
      var at := PositionOf(c.name);
      if at.Some? {
        return Err(AlreadyExists);
      }
      var conflict := HasConflict(c, "");
      if conflict {
        return Err(AlreadyExists);
      }
      var library := Resolved(c);
      libraries := libraries + [library];
      r := Ok;
    }

    method UpdateLibrary(name: string, c: LogicalConfig) returns (r: Result)
      requires Valid()
      modifies this`libraries
      ensures Valid()
      ensures View() == UpdateLibraryStep(old(View()), name, c).lib
              && Return(r) == UpdateLibraryStep(old(View()), name, c).next
    {
      hide Kept;
      BeginKeeps(View(), Call.UpdateLibrary(name, c));
      hide Conflicts, ResolveLibrary;
      var at := PositionOf(name);
      if at.None? {
        return Err(NotFound);
      }
      var conflict := HasConflict(c, name);
      if conflict {
        return Err(AlreadyExists);
      }
      var library := Resolved(c.(name := name));
      libraries := libraries[at.value := library];
      r := Ok;
    }

    method DeleteLibrary(name: string) returns (r: Result)
      requires Valid()
      modifies this`libraries
      ensures Valid()
      ensures View() == DeleteLibraryStep(old(View()), name).lib
              && Return(r) == DeleteLibraryStep(old(View()), name).next
    {
      hide Kept;
      BeginKeeps(View(), Call.DeleteLibrary(name));
      var at := PositionOf(name);
      if at.None? {
        return Err(NotFound);
      }
      libraries := libraries[..at.value] + libraries[at.value + 1..];
      r := Ok;
    }

    /** Reconfigure: rebuild, drop the open marks of vanished units, recount the open doors. */
    method Reconfigure(c: Config)
      requires Valid()
      modifies this
      ensures Valid() && View() == ReconfigureStep(old(View()), c).lib
    {
      hide Begin, Kept, Rebuild, ResolveLibrary, ResolveAll, WellAddressed, Route, UnitExists, Exists, Get;
      ghost var l := View();
      BeginKeeps(l, Call.Reconfigure(c));
      BeginIs(l, Call.Reconfigure(c));
      var t := RebuildLoops.RebuildStore(Elements(), c.layout);
      RebuiltIsAddressed(Elements(), c.layout);
      SetElements(t);
      var resolved := ResolvedAll(c.libraries);
      settings, libraries := c.settings, resolved;
      PruneDoors();
      assert View() == ReconfigureStep(l, c).lib;
    }

    method ResolvedAll(cs: seq<LogicalConfig>) returns (r: seq<LogicalLibrary>)
      ensures r == ResolveAll(Elements(), cs)
    {
      r := [];
      for k := 0 to |cs|
        invariant |r| == k && forall j :: 0 <= j < k ==> r[j] == ResolveLibrary(Elements(), cs[j])
      {
        var library := Resolved(cs[k]);
        r := r + [library];
      }
    }

    method PruneDoors()
      requires Addressed()
      modifies this`openDoors, this`armOpenDoors
      ensures Addressed() && openDoors == set d | d in old(openDoors) && UnitExists(Elements(), d)
      ensures armOpenDoors == |openDoors|
    {
      var rest := openDoors;
      var kept: set<Door> := {};
      while rest != {}
        invariant rest <= openDoors == old(openDoors) && Addressed()
        invariant kept == set d | d in openDoors - rest && UnitExists(Elements(), d)
        decreases rest
      {
        var d :| d in rest;
        var found := HasUnit(d);
        if found {
          kept := kept + {d};
        }
        rest := rest - {d};
      }
      openDoors := kept;
      armOpenDoors := |kept|;
    }
  }

  lemma RebuiltIsAddressed(s: Store, c: Layout)
    ensures WellAddressed(Rebuild(s, c))
  {
  }

  lemma CloseKeepsAddresses(l: Lib, w: Where, door: Door, actions: seq<DoorAction>)
    requires Placed(l, w) && WellAddressed(l.store) && CloseBatch(l.vols, door, l.store, actions).Accepted?
    ensures WellAddressed(CloseBatch(l.vols, door, l.store, actions).store)
  {
    hide CloseBatch, Represents, Distinct;
    BatchTransfers(l.vols, door, l.store, w, actions);
    DoorStaging.ShapeKeepsAddresses(l.store, CloseBatch(l.vols, door, l.store, actions).store);
  }

  lemma OneMoreId(list: seq<Slot>, ids: seq<string>, k: nat)
    requires k < |ids|
    ensures AddressesIn(list, ids[..k + 1])
         == AddressesIn(list, ids[..k]) + set j | 0 <= j < |list| && list[j].unit == ids[k] :: list[j].address
  {
    assert forall u :: u in ids[..k + 1] <==> u in ids[..k] || u == ids[k];
  }

  lemma {:induction false} FirstNamed(libraries: seq<LogicalLibrary>, name: string, k: nat)
    requires k < |libraries| && libraries[k].name == name && forall j :: 0 <= j < k ==> libraries[j].name != name
    ensures IndexOf(libraries, name) == Some(k)
  {
    if k > 0 {
      assert libraries[1..][k - 1] == libraries[k];
      FirstNamed(libraries[1..], name, k - 1);
    }
  }

  lemma {:induction false} NoneNamed(libraries: seq<LogicalLibrary>, name: string)
    requires forall j :: 0 <= j < |libraries| ==> libraries[j].name != name
    ensures IndexOf(libraries, name) == None
  {
    if libraries != [] {
      NoneNamed(libraries[1..], name);
    }
  }

  lemma ExistsAfterPut(s: Store, r: Ref, v: Option<Cartridge>)
    ensures forall q :: Exists(Put(s, r, v), q) == Exists(s, q)
    ensures forall i, origin, mounts, q :: Exists(Seat(Put(s, r, v), i, origin, mounts), q) == Exists(s, q)
  {
  }

  /** Seating a drive and filling a slot or list do not interfere. */
  lemma SeatThenGive(s: Store, i: int, origin: Option<Ref>, mounts: nat, dst: Place, v: Cartridge)
    requires dst.At? ==> !dst.ref.DriveRef?
    ensures Give(Seat(s, i, origin, mounts), dst, v) == Seat(Give(s, dst, v), i, origin, mounts)
  {
  }

  lemma {:induction false} FirstWithout(list: seq<Cartridge>, i: nat)
    requires i < |list| && forall j :: 0 <= j < i ==> list[j] != list[i]
    ensures list[..i] + list[i + 1..] == Without(list, list[i])
  {
    if i > 0 {
      assert list[1..][i - 1] == list[i];
      FirstWithout(list[1..], i - 1);
      assert list[1..][..i - 1] == list[1..i];
      assert list[..i] == [list[0]] + list[1..i];
      assert list[1..][i..] == list[i + 1..];
    }
  }

  lemma CreateOneMore(l: Lib, some: seq<Volume>, more: seq<Volume>)
    requires |more| == |some| + 1 && more[..|some|] == some
    ensures Create(Create(l, some), [more[|some|]]) == Create(l, more)
  {
    assert more == some + [more[|some|]];
    assert l.vols + more == (l.vols + some) + [more[|some|]];
    var n := |l.vols|;
    assert seq(|more|, k requires 0 <= k < |more| => n + k)
        == seq(|some|, k requires 0 <= k < |some| => n + k) + [n + |some|];
    assert seq(1, k requires 0 <= k < 1 => |l.vols + some| + k) == [n + |some|];
    assert Create(l, more).store.outside == Create(Create(l, some), [more[|some|]]).store.outside;
  }
}
