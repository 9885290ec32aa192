/** When the calls go ahead and why they are refused, in terms of what is in the library
    (internal/library/library.go:1865-1947, 1956-2052, 2459-2712, 2768-2884, 3126-3215). */
module Refusals {
  import opened Common
  import opened Placement
  import opened LibraryState
  import opened Transfers
  import opened Batches
  import opened Stretches
  import Barcode

  // ---- scope

  /** The element is among the library's own slots, I/O slots or drives. */
  ghost predicate Owns(library: LogicalLibrary, r: Ref) {
    || (r.SlotRef? && r.address in library.slots)
    || (r.IOSlotRef? && r.address in library.ioslots)
    || (r.DriveRef? && r.index in library.drives)
  }

  /** Library k is the first one of that name. */
  ghost predicate FirstOfName(libraries: seq<LogicalLibrary>, name: string, k: nat) {
    k < |libraries| && libraries[k].name == name && forall j :: 0 <= j < k ==> libraries[j].name != name
  }

  /** Without a scope any two elements will do; with one, both must belong to the first library of that name. */
  ghost predicate Admitted(l: Lib, scope: string, a: Ref, b: Ref) {
    || scope == ""
    || exists k: nat :: FirstOfName(l.libraries, scope, k) && Owns(l.libraries[k], a) && Owns(l.libraries[k], b)
  }

  lemma {:induction false} InLibraryIs(libraries: seq<LogicalLibrary>, name: string, r: Ref)
    ensures InLibrary(libraries, name, r) <==> exists k: nat :: FirstOfName(libraries, name, k) && Owns(libraries[k], r)
  {
    if libraries != [] {
      var rest := libraries[1..];
      InLibraryIs(rest, name, r);
      if libraries[0].name == name {
        assert FirstOfName(libraries, name, 0);
      } else {
        if k: nat :| FirstOfName(rest, name, k) && Owns(rest[k], r) {
          assert libraries[k + 1] == rest[k];
          assert FirstOfName(libraries, name, k + 1);
        }
        if k: nat :| FirstOfName(libraries, name, k) && Owns(libraries[k], r) {
          assert rest[k - 1] == libraries[k];
          assert FirstOfName(rest, name, k - 1);
        }
      }
    }
  }

  lemma ScopeIs(l: Lib, scope: string, a: Ref, b: Ref)
    ensures InScope(l, scope, a, b) <==> Admitted(l, scope, a, b)
  {
    hide InLibrary, Owns;
    InLibraryIs(l.libraries, scope, a);
    InLibraryIs(l.libraries, scope, b);
    if InScope(l, scope, a, b) && scope != "" {
      var k: nat :| FirstOfName(l.libraries, scope, k) && Owns(l.libraries[k], a);
      var j: nat :| FirstOfName(l.libraries, scope, j) && Owns(l.libraries[j], b);
      assert j == k;
    }
  }

  /** The scope check of a call of the arm. */
  ghost predicate CallAdmitted(l: Lib, call: Call) {
    match call
    case Move(from, to, scope) => Admitted(l, scope, from, to)
    case Load(from, i, scope) => Admitted(l, scope, from, DriveRef(i))
    case Unload(i, to, scope) => Admitted(l, scope, DriveRef(i), to)
    case _ => true
  }

  lemma CallScopeIs(l: Lib, call: Call)
    ensures match call
            case Move(from, to, scope) => InScope(l, scope, from, to) <==> CallAdmitted(l, call)
            case Load(from, i, scope) => InScope(l, scope, from, DriveRef(i)) <==> CallAdmitted(l, call)
            case Unload(i, to, scope) => InScope(l, scope, DriveRef(i), to) <==> CallAdmitted(l, call)
            case _ => true
  {
    hide InScope, Admitted;
    match call {
      case Move(from, to, scope) => ScopeIs(l, scope, from, to);
      case Load(from, i, scope) => ScopeIs(l, scope, from, DriveRef(i));
      case Unload(i, to, scope) => ScopeIs(l, scope, DriveRef(i), to);
      case _ =>
    }
  }

  // ---- the arm

  /** Both families are known, neither is generic, and they differ. */
  ghost predicate FamiliesClash(l: Lib, drive: Placement.Drive, vol: Volume) {
    exists d: string, t: string ::
      && d != t && d != "generic" && t != "generic" && d != ""
      && KnownDriveFamily(l, drive, d) && KnownTapeFamily(l, vol, t)
  }

  predicate KnownDriveFamily(l: Lib, drive: Placement.Drive, family: string) {
    drive.driveType != "" && drive.driveType in l.settings.driveFamilies
        && l.settings.driveFamilies[drive.driveType] == family
  }

  predicate KnownTapeFamily(l: Lib, vol: Volume, family: string) {
    vol.tapeSet != "" && vol.tapeSet in l.settings.tapeSets && l.settings.tapeSets[vol.tapeSet].family == family
  }

  lemma IncompatibleIs(l: Lib, drive: Placement.Drive, vol: Volume)
    ensures Incompatible(l, drive, vol) <==> !vol.cleaning && FamiliesClash(l, drive, vol)
  {
    if Incompatible(l, drive, vol) {
      assert KnownDriveFamily(l, drive, l.settings.driveFamilies[drive.driveType]);
      assert KnownTapeFamily(l, vol, l.settings.tapeSets[vol.tapeSet].family);
    }
  }

  /** An expired cleaning tape is not loaded while cleaning is managed. */
  predicate Worn(l: Lib, v: Cartridge) {
    l.settings.cleaning.enabled && VolOf(l, v).cleaning && VolOf(l, v).state == Expired
  }

  /** The arm sets out exactly when the call is in scope, the arm is well, the tape is there and its
      way is free; a load also asks for a healthy drive and a tape that is fit for it. */
  lemma ArmSetsOut(l: Lib, call: Call)
    requires call.Move? || call.Load? || call.Unload?
    ensures Begin(l, call).next.Sleep? <==>
            CallAdmitted(l, call) && !l.roboticFault &&
            match call
            case Move(from, to, _) =>
              Get(l.store, from).Some? && Exists(l.store, to) && Get(l.store, to) == None
            case Load(from, i, _) =>
              && Get(l.store, from).Some?
              && 0 <= i < |l.store.drives| && l.store.drives[i].vol == None && !l.store.drives[i].fault
              && var v := Get(l.store, from).value;
                 !Worn(l, v) && (FamiliesClash(l, l.store.drives[i], VolOf(l, v)) ==> VolOf(l, v).cleaning)
            case Unload(i, to, _) =>
              && Get(l.store, DriveRef(i)).Some?
              && Exists(l.store, to) && Get(l.store, to) == None
            case _ => false
  {
    hide InScope, CallAdmitted, FamiliesClash, Incompatible;
    CallScopeIs(l, call);
    if call.Load? && Exists(l.store, DriveRef(call.drive)) && Get(l.store, call.from).Some? {
      IncompatibleIs(l, l.store.drives[call.drive], VolOf(l, Get(l.store, call.from).value));
    }
  }

  /** What each refusal of an arm call says about the library. */
  ghost predicate Cause(l: Lib, call: Call, e: Error) {
    match e
    case OutsideLibrary => !CallAdmitted(l, call)
    case RoboticFault => l.roboticFault
    case DriveFault => call.Load? && 0 <= call.drive < |l.store.drives| && l.store.drives[call.drive].fault
    case NotFound =>
      (match call
       case Move(from, to, _) => !Exists(l.store, from) || !Exists(l.store, to)
       case Load(from, i, _) => !Exists(l.store, from) || !Exists(l.store, DriveRef(i))
       case Unload(i, to, _) => !Exists(l.store, DriveRef(i)) || !Exists(l.store, to)
       case _ => false)
    case Empty =>
      (match call
       case Move(from, _, _) => Get(l.store, from) == None
       case Load(from, _, _) => Get(l.store, from) == None
       case Unload(i, _, _) => Get(l.store, DriveRef(i)) == None
       case _ => false)
    case Full =>
      (match call
       case Move(_, to, _) => Get(l.store, to).Some?
       case Load(_, i, _) => Get(l.store, DriveRef(i)).Some?
       case Unload(_, to, _) => Get(l.store, to).Some?
       case _ => false)
    case CleaningTapeExpired => call.Load? && Get(l.store, call.from).Some? && Worn(l, Get(l.store, call.from).value)
    case IncompatibleFamily =>
      call.Load? && 0 <= call.drive < |l.store.drives| && Get(l.store, call.from).Some?
      && FamiliesClash(l, l.store.drives[call.drive], VolOf(l, Get(l.store, call.from).value))
    case _ => false
  }

  lemma MoveRefusal(l: Lib, from: Ref, to: Ref, scope: string, e: Error)
    requires MoveStart(l, from, to, scope).next == Return(Err(e))
    ensures Cause(l, Move(from, to, scope), e) && MoveStart(l, from, to, scope).lib == l
  {
    hide InScope, CallAdmitted, Get, Exists;
    CallScopeIs(l, Move(from, to, scope));
  }

  lemma LoadRefusal(l: Lib, from: Ref, i: int, scope: string, e: Error)
    requires LoadStart(l, from, i, scope).next == Return(Err(e))
    ensures Cause(l, Load(from, i, scope), e) && LoadStart(l, from, i, scope).lib == l
  {
    hide InScope, CallAdmitted, FamiliesClash, Incompatible;
    CallScopeIs(l, Load(from, i, scope));
    if Exists(l.store, DriveRef(i)) && Get(l.store, from).Some? {
      IncompatibleIs(l, l.store.drives[i], VolOf(l, Get(l.store, from).value));
    }
  }

  lemma UnloadRefusal(l: Lib, i: int, to: Ref, scope: string, e: Error)
    requires UnloadStart(l, i, to, scope).next == Return(Err(e))
    ensures Cause(l, Unload(i, to, scope), e) && UnloadStart(l, i, to, scope).lib == l
  {
    hide InScope, CallAdmitted, Get, Exists;
    CallScopeIs(l, Unload(i, to, scope));
  }

  /** A refused arm call names a true cause and has changed nothing. */
  lemma RefusalsAreTrue(l: Lib, call: Call, e: Error)
    requires call.Move? || call.Load? || call.Unload?
    requires Begin(l, call).next == Return(Err(e))
    ensures Cause(l, call, e) && Begin(l, call).lib == l
  {
    hide MoveStart, LoadStart, UnloadStart, Cause;
    match call {
      case Move(from, to, scope) => MoveRefusal(l, from, to, scope, e);
      case Load(from, i, scope) => LoadRefusal(l, from, i, scope, e);
      case Unload(i, to, scope) => UnloadRefusal(l, i, to, scope, e);
    }
  }

  /** Move's answer, check by check: the first that fails decides. */
  lemma MoveAnswers(l: Lib, from: Ref, to: Ref, scope: string)
    ensures var next := Begin(l, Move(from, to, scope)).next;
            var admitted := Admitted(l, scope, from, to);
            var well := admitted && !l.roboticFault;
            var there := well && Exists(l.store, from) && Exists(l.store, to);
            var full := there && Get(l.store, from).Some?;
            && (next == Return(Err(OutsideLibrary)) <==> !admitted)
            && (next == Return(Err(RoboticFault)) <==> admitted && !well)
            && (next == Return(Err(NotFound)) <==> well && !there)
            && (next == Return(Err(Empty)) <==> there && !full)
            && (next == Return(Err(Full)) <==> full && Get(l.store, to).Some?)
            && (next.Sleep? <==> full && Get(l.store, to) == None)
            && (next.Sleep? ==> next.stage.Travel? && Get(l.store, from) == Some(next.stage.v))
  {
    hide InScope, Admitted, Get, Exists;
    ScopeIs(l, scope, from, to);
  }

  /** Load's answer, check by check. */
  lemma LoadAnswers(l: Lib, from: Ref, i: int, scope: string)
    ensures var next := Begin(l, Load(from, i, scope)).next;
            var admitted := Admitted(l, scope, from, DriveRef(i));
            var there := admitted && 0 <= i < |l.store.drives|;
            var sound := there && !l.store.drives[i].fault;
            var well := sound && !l.roboticFault;
            var free := well && l.store.drives[i].vol == None;
            var found := free && Exists(l.store, from);
            var full := found && Get(l.store, from).Some?;
            var usable := full && !Worn(l, Get(l.store, from).value);
            && (next == Return(Err(OutsideLibrary)) <==> !admitted)
            && (next == Return(Err(NotFound)) <==> (admitted && !there) || (free && !found))
            && (next == Return(Err(DriveFault)) <==> there && !sound)
            && (next == Return(Err(RoboticFault)) <==> sound && !well)
            && (next == Return(Err(Full)) <==> well && !free)
            && (next == Return(Err(Empty)) <==> found && !full)
            && (next == Return(Err(CleaningTapeExpired)) <==> full && !usable)
            && (usable ==>
                  var vol := VolOf(l, Get(l.store, from).value);
                  var clash := !vol.cleaning && FamiliesClash(l, l.store.drives[i], vol);
                  && (next == Return(Err(IncompatibleFamily)) <==> clash)
                  && (next.Sleep? <==> !clash))
            && (next.Sleep? ==>
                  && usable && next.stage.Travel? && Get(l.store, from) == Some(next.stage.v)
                  && next.stage.cleaning == (l.settings.cleaning.enabled && VolOf(l, next.stage.v).cleaning))
  {
    hide InScope, Admitted, FamiliesClash, Incompatible;
    ScopeIs(l, scope, from, DriveRef(i));
    if Exists(l.store, DriveRef(i)) && Get(l.store, from).Some? {
      IncompatibleIs(l, l.store.drives[i], VolOf(l, Get(l.store, from).value));
    }
  }

  /** Unload's answer, check by check. */
  lemma UnloadAnswers(l: Lib, i: int, to: Ref, scope: string)
    ensures var next := Begin(l, Unload(i, to, scope)).next;
            var admitted := Admitted(l, scope, DriveRef(i), to);
            var there := admitted && 0 <= i < |l.store.drives|;
            var well := there && !l.roboticFault;
            var full := well && l.store.drives[i].vol.Some?;
            var found := full && Exists(l.store, to);
            && (next == Return(Err(OutsideLibrary)) <==> !admitted)
            && (next == Return(Err(NotFound)) <==> (admitted && !there) || (full && !found))
            && (next == Return(Err(RoboticFault)) <==> there && !well)
            && (next == Return(Err(Empty)) <==> well && !full)
            && (next == Return(Err(Full)) <==> found && Get(l.store, to).Some?)
            && (next.Sleep? <==> found && Get(l.store, to) == None)
            && (next.Sleep? ==> next.stage.Travel? && l.store.drives[i].vol == Some(next.stage.v))
  {
    hide InScope, Admitted;
    ScopeIs(l, scope, DriveRef(i), to);
  }

  /** Some cartridge in the list has the barcode. */
  ghost predicate Listed(vols: seq<Volume>, list: seq<Cartridge>, barcode: string) {
    exists v :: v in list && v < |vols| && vols[v].barcode == barcode
  }

  lemma FoundIsListed(vols: seq<Volume>, list: seq<Cartridge>, barcode: string)
    ensures FindBarcode(vols, list, barcode).Some? <==> Listed(vols, list, barcode)
  {
    FindBarcodeIs(vols, list, barcode);
  }

  /** A barcode is in use when a cartridge anywhere has it. */
  ghost predicate InUseAnywhere(l: Lib, barcode: string) {
    exists p: Place, v: Cartridge :: Holds(l.store, p, v) && BarcodeOf(l.vols, v) == barcode
  }

  lemma TakenIs(l: Lib, w: Where, barcode: string)
    requires Placed(l, w)
    ensures barcode in Taken(l) <==> InUseAnywhere(l, barcode)
  {
    EverywhereIs(l.store, w);
    if barcode in Taken(l) {
      var v :| v in Everywhere(l.store) && BarcodeOf(l.vols, v) == barcode;
      assert Holds(l.store, w[v], v);
    }
    if p: Place, v: Cartridge :| Holds(l.store, p, v) && BarcodeOf(l.vols, v) == barcode {
      assert v in Everywhere(l.store);
    }
  }

  /** Offsite calls succeed exactly when vaulting is on, the tape is there and its slot is free. */
  lemma OffsiteSucceeds(l: Lib, r: Ref, barcode: string)
    ensures OffsiteSendStep(l, r).next == Return(Ok) <==> l.settings.offsite && Get(l.store, r).Some?
    ensures OffsiteRecallStep(l, barcode, r).next == Return(Ok) <==>
              l.settings.offsite && Listed(l.vols, l.store.offsite, barcode) && Exists(l.store, r)
                  && Get(l.store, r) == None
  {
    hide Shift;
    FoundIsListed(l.vols, l.store.offsite, barcode);
  }

  /** Deletion succeeds exactly for a barcode on the outside list. */
  lemma DeleteSucceeds(l: Lib, barcode: string)
    ensures DeleteOutsideStep(l, barcode).next == Return(Ok) <==> Listed(l.vols, l.store.outside, barcode)
  {
    FoundIsListed(l.vols, l.store.outside, barcode);
  }

  /** A manual creation succeeds exactly for a known set and a well-formed barcode nobody has anywhere. */
  lemma CreateSucceeds(l: Lib, w: Where, tapeSet: string, barcode: string)
    requires Placed(l, w)
    ensures CreateCartridgeStep(l, tapeSet, barcode).next == Return(Ok) <==>
              && tapeSet in l.settings.tapeSets && SafeName(barcode)
              && Barcode.Valid(l.settings.tapeSets[tapeSet], barcode) && !InUseAnywhere(l, barcode)
  {
    TakenIs(l, w, barcode);
  }

  /** A bulk creation succeeds exactly when enough numbers of the format's width are unused. */
  lemma BulkSucceeds(l: Lib, tapeSet: string, count: int)
    requires tapeSet in l.settings.tapeSets && count >= 1
    ensures var spec := l.settings.tapeSets[tapeSet];
            Barcode.Pow10(spec.volSerLength) >= 1
            && (CreateCartridgesStep(l, tapeSet, count).next == Return(Ok) <==>
                |Barcode.FreeUpTo(spec, Taken(l), Barcode.Pow10(spec.volSerLength) - 1)| >= count)
  {
    hide Taken;
    Barcode.NextAvailableIs(l.settings.tapeSets[tapeSet], Taken(l), count);
  }

  /** Whatever a bulk creation may supply under a valid format could as well have been asked for by hand. */
  lemma SupplyIsWellFormed(spec: Barcode.Spec, n: int)
    requires Barcode.ValidSpec(spec) && Barcode.Generate(spec, n).Some?
    ensures SafeName(Barcode.Generate(spec, n).value) && Barcode.Valid(spec, Barcode.Generate(spec, n).value)
  {
    hide Barcode.Generate;
    Barcode.GeneratedIsValid(spec, n);
  }
}
