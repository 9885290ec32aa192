/** MOVE MEDIUM and EXCHANGE MEDIUM, built from the library's own Move, Load and Unload
    (internal/scsi/changer.go:785-827, 861-993; SCSI-2 sections 17.2.1 and 17.2.2). */
module Exchange {
  import opened Common
  import opened Placement
  import opened Rebuilding
  import opened LibraryState
  import opened Transfers
  import opened Stretches
  import opened Protocol
  import opened Interleaving
  import opened LibraryObject
  import opened ElementStatus

  datatype Reply = Good | InvalidField | SourceEmpty | DestinationFull | MoveFailed(error: Error)

  function ElementRef(e: Element): Ref {
    match e.kind
    case Storage => SlotRef(e.physical)
    case ImportExport => IOSlotRef(e.physical)
    case DataTransfer => DriveRef(e.physical)
  }

  /** One transfer becomes the one library call that can make it; a drive-to-drive one is an Unload with
      a drive for a destination, which the library refuses. */
  function LegCall(src: Ref, dst: Ref, scope: string): Call {
    if src.DriveRef? then Unload(src.index, dst, scope)
    else if dst.DriveRef? then Load(src, dst.index, scope)
    else Move(src, dst, scope)
  }

  /** A call carried through with nobody else about: a cleaning load includes its wait. */
  function Whole(l: Lib, call: Call): (Lib, Result) {
    if MisusesDrive(call) then (l, Err(InvalidTarget))
    else
      var held := Hold(l, call, Start, []);
      if held.1.Return? then (held.0, held.1.result)
      else
        var rest := Hold(held.0, call, held.1.stage, []);
        (rest.0, if rest.1.Return? then rest.1.result else Ok)
  }

  function Leg(l: Lib, src: Ref, dst: Ref, scope: string): (Lib, Result) {
    Whole(l, LegCall(src, dst, scope))
  }

  /** The last element of an address, as a map filled in order would give it. */
  function Lookup(es: seq<Element>, address: nat): Option<Element> {
    if es == [] then None
    else if es[|es| - 1].address == address then Some(es[|es| - 1])
    else Lookup(es[..|es| - 1], address)
  }

  /** The first free storage slot. */
  function Scratch(es: seq<Element>): Option<Element> {
    if es == [] then None
    else if es[0].kind == Storage && !es[0].full then Some(es[0])
    else Scratch(es[1..])
  }

  function MoveOutcome(l: Lib, st: Status, src: nat, dst: nat, scope: string): (Lib, Reply) {
    match (Lookup(Elements(st), src), Lookup(Elements(st), dst))
    case (Some(a), Some(b)) =>
      if !a.full then (l, SourceEmpty)
      else if b.full then (l, DestinationFull)
      else
        var (m, r) := Leg(l, ElementRef(a), ElementRef(b), scope);
        (m, Answer(r))
    case _ => (l, InvalidField)
  }

  function Answer(r: Result): Reply {
    if r == Ok then Good else MoveFailed(r.error)
  }

  /** Transfers one after the other; the first that fails ends the sequence. */
  function Legs(l: Lib, path: seq<(Ref, Ref)>, scope: string): (Lib, Reply)
    decreases |path|
  {
    if path == [] then (l, Good)
    else
      var (m, r) := Leg(l, path[0].0, path[0].1, scope);
      if r == Ok then Legs(m, path[1..], scope) else (m, Answer(r))
  }

  /** With no second destination, or the source as second destination, the two volumes are swapped
      through a free storage slot. */
  function ExchangeOutcome(l: Lib, st: Status, src: nat, dst1: nat, second: nat, scope: string): (Lib, Reply) {
    var es := Elements(st);
    var dst2 := if second == 0 then src else second;
    match (Lookup(es, src), Lookup(es, dst1))
    case (Some(a), Some(b)) =>
      if !a.full || !b.full then (l, SourceEmpty)
      else if dst2 == src then
        (match Scratch(es)
         case None => (l, DestinationFull)
         case Some(c) => Legs(l,
             [(ElementRef(a), ElementRef(c)), (ElementRef(b), ElementRef(a)), (ElementRef(c), ElementRef(b))], scope))
      else
        (match Lookup(es, dst2)
         case None => (l, InvalidField)
         case Some(c) =>
           if c.full then (l, DestinationFull)
           else Legs(l, [(ElementRef(b), ElementRef(c)), (ElementRef(a), ElementRef(b))], scope))
    case _ => (l, InvalidField)
  }

  // ---- one transfer

  /** t is s with the volume of element a carried to the free element b. */
  ghost predicate Carried(s: Store, t: Store, a: Ref, b: Ref) {
    && a != b && Get(s, a).Some? && Exists(s, b) && Get(s, b) == None
    && Get(t, a) == None && Get(t, b) == Get(s, a)
    && (forall r :: r != a && r != b ==> Get(t, r) == Get(s, r))
    && (forall r :: Exists(t, r) == Exists(s, r))
    && t.outside == s.outside && t.offsite == s.offsite
  }

  lemma ShiftCarries(s: Store, v: Cartridge, a: Ref, b: Ref)
    requires Get(s, a) == Some(v) && Exists(s, b) && Get(s, b) == None && a != b
    ensures Carried(s, Shift(s, v, At(a), At(b)), a, b)
  {
    var t := Shift(s, v, At(a), At(b));
    forall r | r != a && r != b ensures Get(t, r) == Get(s, r) {
      ShiftTouches(s, v, At(a), At(b), r);
    }
    GetPut(s, a, None, b);
    GetPut(s, a, None, a);
    GetPut(Put(s, a, None), b, Some(v), a);
    GetPut(Put(s, a, None), b, Some(v), b);
  }

  lemma SeatCarries(s: Store, t: Store, a: Ref, b: Ref, i: int, origin: Option<Ref>, mounts: nat)
    requires Carried(s, t, a, b)
    ensures Carried(s, Seat(t, i, origin, mounts), a, b)
  {
    SeatSameContents(t, i, origin, mounts);
  }

  /** What no transfer changes: settings, libraries, faults, drive types, and what a tape is. */
  ghost predicate SameSurroundings(l: Lib, m: Lib) {
    && m.roboticFault == l.roboticFault && m.libraries == l.libraries && m.settings == l.settings
    && |m.store.drives| == |l.store.drives| && |m.vols| == |l.vols|
    && (forall i :: 0 <= i < |l.store.drives| ==>
          m.store.drives[i].fault == l.store.drives[i].fault
              && m.store.drives[i].driveType == l.store.drives[i].driveType)
    && (forall v :: 0 <= v < |l.vols| ==>
        m.vols[v].cleaning == l.vols[v].cleaning && m.vols[v].tapeSet == l.vols[v].tapeSet)
  }

  /** A tape that will not start a cleaning when loaded. */
  predicate Ordinary(l: Lib, vol: Option<Cartridge>) {
    vol.Some? ==> !(l.settings.cleaning.enabled && VolOf(l, vol.value).cleaning)
  }

  /** The element accepts the tape: a drive must be free of faults and of its family. */
  predicate Accepts(l: Lib, r: Ref, v: Cartridge) {
    r.DriveRef? && 0 <= r.index < |l.store.drives| ==>
      !l.store.drives[r.index].fault && !Incompatible(l, l.store.drives[r.index], VolOf(l, v))
  }

  /** The transfer's own preconditions, as a caller can check them. */
  predicate Transferable(l: Lib, a: Ref, b: Ref, scope: string) {
    && !(a.DriveRef? && b.DriveRef?)
    && InScope(l, scope, a, b) && !l.roboticFault && Exists(l.store, b)
    && Get(l.store, a).Some? && Get(l.store, b) == None && Accepts(l, b, Get(l.store, a).value)
  }

  lemma QuietMove(l: Lib, a: Ref, b: Ref, scope: string)
    requires !a.DriveRef? && !b.DriveRef?
    ensures var r := Leg(l, a, b, scope);
            && (r.1 == Ok <==> Transferable(l, a, b, scope))
            && (r.1 == Ok ==> Carried(l.store, r.0.store, a, b) && SameSurroundings(l, r.0))
            && (r.1 != Ok ==> r.0 == l)
  {
    hide Shift, Get, InScope;
    var call, start := Move(a, b, scope), MoveStart(l, a, b, scope);
    if start.next.Return? {
      HoldEnds(l, call, Start, []);
      NoVolume(l.store, a);
    } else {
      var v := start.next.stage.v;
      QuietStart(l, call);
      QuietTravels(start.lib, call, v, 1, false);
      HoldEnds(start.lib, call, Travel(v, 0, false), []);
      ShiftCarries(l.store, v, a, b);
      ShiftSurroundings(l.store, v, At(a), At(b));
    }
  }

  lemma NoVolume(s: Store, r: Ref)
    ensures !Exists(s, r) ==> Get(s, r) == None
  {
  }

  lemma QuietStart(l: Lib, call: Call)
    requires Begin(l, call).next.Sleep?
    ensures Hold(l, call, Start, []) == Hold(Begin(l, call).lib, call, Begin(l, call).next.stage, [])
  {
    HoldSleeps(l, call, Start, []);
  }

  lemma {:induction false} QuietTravels(l: Lib, call: Call, v: Cartridge, left: nat, cleaning: bool)
    ensures Hold(l, call, Travel(v, left, cleaning), []) == Hold(l, call, Travel(v, 0, cleaning), [])
  {
    if left > 0 {
      HoldTravels(l, call, v, left, cleaning, []);
      QuietTravels(l, call, v, left - 1, cleaning);
    }
  }

  lemma ShiftSurroundings(s: Store, v: Cartridge, src: Place, dst: Place)
    ensures var t := Shift(s, v, src, dst);
            && |t.drives| == |s.drives|
            && forall i :: 0 <= i < |s.drives| ==>
                t.drives[i].fault == s.drives[i].fault && t.drives[i].driveType == s.drives[i].driveType
  {
  }

  lemma SeatSurroundings(s: Store, i: int, origin: Option<Ref>, mounts: nat)
    ensures var t := Seat(s, i, origin, mounts);
            && |t.drives| == |s.drives|
            && forall j :: 0 <= j < |s.drives| ==>
                t.drives[j].fault == s.drives[j].fault && t.drives[j].driveType == s.drives[j].driveType
  {
  }

  lemma QuietLoad(l: Lib, a: Ref, i: int, scope: string)
    requires !a.DriveRef? && Ordinary(l, Get(l.store, a))
    ensures var r := Leg(l, a, DriveRef(i), scope);
            && (r.1 == Ok <==> Transferable(l, a, DriveRef(i), scope))
            && (r.1 == Ok ==> Carried(l.store, r.0.store, a, DriveRef(i)) && SameSurroundings(l, r.0))
            && (r.1 != Ok ==> r.0 == l)
  {
    hide Shift, Get, InScope, Seat, Incompatible;
    var call, start := Load(a, i, scope), LoadStart(l, a, i, scope);
    if start.next.Return? {
      HoldEnds(l, call, Start, []);
      NoVolume(l.store, a);
    } else {
      var v := start.next.stage.v;
      QuietStart(l, call);
      QuietTravels(start.lib, call, v, 2, false);
      HoldEnds(start.lib, call, Travel(v, 0, false), []);
      var t, mounts := Shift(l.store, v, At(a), At(DriveRef(i))), MountsOf(l.store, i) + 1;
      ShiftCarries(l.store, v, a, DriveRef(i));
      SeatCarries(l.store, t, a, DriveRef(i), i, Some(a), mounts);
      ShiftSurroundings(l.store, v, At(a), At(DriveRef(i)));
      SeatSurroundings(t, i, Some(a), mounts);
    }
  }

  lemma QuietUnload(l: Lib, i: int, b: Ref, scope: string)
    requires !b.DriveRef?
    ensures var r := Leg(l, DriveRef(i), b, scope);
            && (r.1 == Ok <==> Transferable(l, DriveRef(i), b, scope))
            && (r.1 == Ok ==> Carried(l.store, r.0.store, DriveRef(i), b) && SameSurroundings(l, r.0))
            && (r.1 != Ok ==> r.0 == l)
  {
    hide Shift, Get, InScope, Seat;
    var call, start := Unload(i, b, scope), UnloadStart(l, i, b, scope);
    if start.next.Return? {
      HoldEnds(l, call, Start, []);
      NoVolume(l.store, DriveRef(i));
    } else {
      var v := start.next.stage.v;
      QuietStart(l, call);
      QuietTravels(start.lib, call, v, 2, false);
      HoldEnds(start.lib, call, Travel(v, 0, false), []);
      var t, mounts := Shift(l.store, v, At(DriveRef(i)), At(b)), if VolOf(l, v).cleaning then 0
          else MountsOf(l.store, i);
      ShiftCarries(l.store, v, DriveRef(i), b);
      SeatCarries(l.store, t, DriveRef(i), b, i, None, mounts);
      ShiftSurroundings(l.store, v, At(DriveRef(i)), At(b));
      SeatSurroundings(t, i, None, mounts);
    }
  }

  /** A transfer of an ordinary tape with nobody else about succeeds exactly under its preconditions,
      carries exactly that tape, and changes nothing when it fails. */
  lemma LegIs(l: Lib, a: Ref, b: Ref, scope: string)
    requires Ordinary(l, Get(l.store, a))
    ensures var r := Leg(l, a, b, scope);
            && (r.1 == Ok <==> Transferable(l, a, b, scope))
            && (r.1 == Ok ==> Carried(l.store, r.0.store, a, b) && SameSurroundings(l, r.0))
            && (r.1 != Ok ==> r.0 == l)
  {
    hide Hold, Carried, SameSurroundings, Ordinary;
    if a.DriveRef? && b.DriveRef? {
    } else if a.DriveRef? {
      QuietUnload(l, a.index, b, scope);
    } else if b.DriveRef? {
      QuietLoad(l, a, b.index, scope);
    } else {
      QuietMove(l, a, b, scope);
    }
  }

  // ---- the swap

  /** t is s with the volumes of a and b exchanged, and nothing else changed. */
  ghost predicate Swapped(s: Store, t: Store, a: Ref, b: Ref) {
    && Get(t, a) == Get(s, b) && Get(t, b) == Get(s, a)
    && (forall r :: r != a && r != b ==> Get(t, r) == Get(s, r))
    && t.outside == s.outside && t.offsite == s.offsite
  }

  lemma ThreeCarriesSwap(s0: Store, s1: Store, s2: Store, s3: Store, a: Ref, b: Ref, c: Ref)
    requires Carried(s0, s1, a, c) && Carried(s1, s2, b, a) && Carried(s2, s3, c, b)
    ensures Swapped(s0, s3, a, b) && Get(s3, c) == None
  {
    hide Get, Exists;
    assert Get(s1, b) == Get(s0, b);
    assert Get(s2, c) == Get(s1, c);
  }

  /** What is asked of a swap: two full elements, not both drives, a free slot, no fault, everything in
      scope, and each element accepting the other's tape. */
  predicate Swappable(l: Lib, a: Ref, b: Ref, c: Ref, scope: string) {
    && a != b && !(a.DriveRef? && b.DriveRef?) && !c.DriveRef?
    && Get(l.store, a).Some? && Get(l.store, b).Some? && Exists(l.store, c) && Get(l.store, c) == None
    && !l.roboticFault && InScope(l, scope, a, c) && InScope(l, scope, b, a) && InScope(l, scope, c, b)
    && Accepts(l, a, Get(l.store, b).value) && Accepts(l, b, Get(l.store, a).value)
  }

  lemma SurroundingsDecide(l: Lib, m: Lib, r: Ref, q: Ref, v: Cartridge, scope: string)
    requires SameSurroundings(l, m)
    ensures InScope(m, scope, r, q) == InScope(l, scope, r, q)
    ensures Accepts(m, r, v) == Accepts(l, r, v)
    ensures Ordinary(m, Some(v)) == Ordinary(l, Some(v))
    ensures m.roboticFault == l.roboticFault
  {
  }

  lemma SurroundingsTransitive(l: Lib, m: Lib, n: Lib)
    requires SameSurroundings(l, m) && SameSurroundings(m, n)
    ensures SameSurroundings(l, n)
  {
  }

  /** The three transfers of a swap. */
  function SwapPath(a: Ref, b: Ref, c: Ref): seq<(Ref, Ref)> {
    [(a, c), (b, a), (c, b)]
  }

  lemma LegsUnfold(l: Lib, path: seq<(Ref, Ref)>, scope: string)
    requires path != []
    ensures var (m, r) := Leg(l, path[0].0, path[0].1, scope);
            Legs(l, path, scope) == if r == Ok then Legs(m, path[1..], scope) else (m, Answer(r))
  {
  }

  lemma LegsOfSwap(l: Lib, a: Ref, b: Ref, c: Ref, scope: string)
    ensures var (m1, r1) := Leg(l, a, c, scope);
            if r1 != Ok then Legs(l, SwapPath(a, b, c), scope) == (m1, Answer(r1))
            else
              var (m2, r2) := Leg(m1, b, a, scope);
              if r2 != Ok then Legs(l, SwapPath(a, b, c), scope) == (m2, Answer(r2))
              else
                var (m3, r3) := Leg(m2, c, b, scope);
                Legs(l, SwapPath(a, b, c), scope) == (m3, Answer(r3))
  {
    hide Leg, Legs;
    var path := SwapPath(a, b, c);
    LegsUnfold(l, path, scope);
    var m1 := Leg(l, a, c, scope).0;
    LegsUnfold(m1, path[1..], scope);
    var m2 := Leg(m1, b, a, scope).0;
    LegsUnfold(m2, path[1..][1..], scope);
    var m3 := Leg(m2, c, b, scope).0;
    NoLegs(m3, path[1..][1..][1..], scope);
  }

  lemma NoLegs(l: Lib, path: seq<(Ref, Ref)>, scope: string)
    requires path == []
    ensures Legs(l, path, scope) == (l, Good)
  {
  }

  /** The swap form answers GOOD exactly when the swap is possible, and then has exactly its net effect. */
  lemma SwapIs(l: Lib, a: Ref, b: Ref, c: Ref, scope: string)
    requires Get(l.store, a).Some? && Get(l.store, b).Some? && a != b
    requires !c.DriveRef? && Exists(l.store, c) && Get(l.store, c) == None
    requires Ordinary(l, Get(l.store, a)) && Ordinary(l, Get(l.store, b))
    ensures var (m, reply) := Legs(l, SwapPath(a, b, c), scope);
            && (reply == Good <==> Swappable(l, a, b, c, scope))
            && (reply == Good ==> Swapped(l.store, m.store, a, b) && Get(m.store, c) == None)
  {
    hide Leg, Legs, Ordinary, Accepts, InScope, SameSurroundings, Get, Exists;
    var va, vb := Get(l.store, a).value, Get(l.store, b).value;
    LegsOfSwap(l, a, b, c, scope);
    LegIs(l, a, c, scope);
    AcceptsSlot(l, c, va);
    var m1 := Leg(l, a, c, scope).0;
    if Leg(l, a, c, scope).1 == Ok {
      SurroundingsDecide(l, m1, b, a, vb, scope);
      SurroundingsDecide(l, m1, a, b, vb, scope);
      assert Get(m1.store, b) == Some(vb);
      LegIs(m1, b, a, scope);
      NoVolume(l.store, a);
      var m2 := Leg(m1, b, a, scope).0;
      if Leg(m1, b, a, scope).1 == Ok {
        SurroundingsTransitive(l, m1, m2);
        SurroundingsDecide(l, m2, c, b, va, scope);
        SurroundingsDecide(l, m2, b, c, va, scope);
        assert Get(m2.store, c) == Some(va);
        LegIs(m2, c, b, scope);
        NoVolume(l.store, b);
        var m3 := Leg(m2, c, b, scope).0;
        if Leg(m2, c, b, scope).1 == Ok {
          ThreeCarriesSwap(l.store, m1.store, m2.store, m3.store, a, b, c);
        }
      }
    }
  }

  lemma AcceptsSlot(l: Lib, r: Ref, v: Cartridge)
    ensures !r.DriveRef? ==> Accepts(l, r, v)
  {
  }

  /** Between two drives the swap always fails, and leaves the source's volume in the scratch slot. */
  lemma DriveSwapStrands(l: Lib, a: Ref, b: Ref, c: Ref, scope: string)
    requires a.DriveRef? && b.DriveRef? && !c.DriveRef? && Ordinary(l, Get(l.store, a))
    requires Transferable(l, a, c, scope)
    ensures var (m, reply) := Legs(l, SwapPath(a, b, c), scope);
            reply == MoveFailed(InvalidTarget) && Carried(l.store, m.store, a, c)
  {
    hide Legs, Ordinary, InScope, Get, Exists, Carried, Hold;
    LegsOfSwap(l, a, b, c, scope);
    LegIs(l, a, c, scope);
  }

  // ---- from addresses to elements

  /** The status was taken from this library. */
  ghost predicate Reports(l: Lib, st: Status) {
    && WellAddressed(l.store) && st.vols == l.vols
    && (forall x :: x in st.slots ==> x in l.store.slots)
    && (forall x :: x in st.ioslots ==> x in l.store.ioslots)
    && (forall d :: d in st.drives ==> d in l.store.drives)
  }

  ghost predicate Truthful(l: Lib, e: Element) {
    Exists(l.store, ElementRef(e)) && e.full == Get(l.store, ElementRef(e)).Some?
  }

  lemma SlotIsTruthful(l: Lib, x: Slot, k: ElementKind, vols: seq<Volume>, i: nat)
    requires WellAddressed(l.store)
    ensures k == Storage && x in l.store.slots ==> Truthful(l, OfSlot(k, x, vols, i))
    ensures k == ImportExport && x in l.store.ioslots ==> Truthful(l, OfSlot(k, x, vols, i))
  {
    if k == Storage && x in l.store.slots {
      var j :| 0 <= j < |l.store.slots| && l.store.slots[j] == x;
      assert l.store.slots[j].address == j + 1;
    }
    if k == ImportExport && x in l.store.ioslots {
      var j :| 0 <= j < |l.store.ioslots| && l.store.ioslots[j] == x;
      assert l.store.ioslots[j].address == |l.store.slots| + j + 1;
    }
  }

  lemma DriveIsTruthful(l: Lib, d: Placement.Drive, vols: seq<Volume>, i: nat)
    requires WellAddressed(l.store) && d in l.store.drives
    ensures Truthful(l, OfDrive(d, vols, i))
  {
    var j :| 0 <= j < |l.store.drives| && l.store.drives[j] == d;
    assert l.store.drives[j].index == j;
  }

  lemma SameMembers<T>(xs: seq<T>, ys: seq<T>)
    requires multiset(xs) == multiset(ys)
    ensures forall x :: x in ys ==> x in xs
  {
    forall x | x in ys ensures x in xs {
      assert x in multiset(ys);
    }
  }

  lemma ElementsAreTruthful(l: Lib, st: Status)
    requires Reports(l, st)
    ensures forall e :: e in Elements(st) ==> Truthful(l, e)
  {
    hide Truthful, SortedSlots, SortedDrives;
    var slots, ioslots, drives := SortedSlots(st.slots), SortedSlots(st.ioslots), SortedDrives(st.drives);
    SortedSlotsAre(st.slots);
    SortedSlotsAre(st.ioslots);
    SortedDrivesAre(st.drives);
    SameMembers(st.slots, slots);
    SameMembers(st.ioslots, ioslots);
    SameMembers(st.drives, drives);
    var a, b, c := SlotPart(Storage, slots, st.vols, 0), SlotPart(ImportExport, ioslots, st.vols, |st.slots|),
                   DrivePart(drives, st.vols, |st.slots| + |st.ioslots|);
    forall i | 0 <= i < |a| ensures Truthful(l, a[i]) {
      assert slots[i] in slots;
      SlotIsTruthful(l, slots[i], Storage, st.vols, i);
    }
    forall i | 0 <= i < |b| ensures Truthful(l, b[i]) {
      assert ioslots[i] in ioslots;
      SlotIsTruthful(l, ioslots[i], ImportExport, st.vols, |st.slots| + i);
    }
    forall i | 0 <= i < |c| ensures Truthful(l, c[i]) {
      assert drives[i] in drives;
      DriveIsTruthful(l, drives[i], st.vols, |st.slots| + |st.ioslots| + i);
    }
  }

  lemma {:induction false} LookupIs(es: seq<Element>, address: nat)
    ensures match Lookup(es, address)
            case Some(e) => e in es && e.address == address
            case None => forall e :: e in es ==> e.address != address
  {
    if es != [] {
      var init, last := es[..|es| - 1], es[|es| - 1];
      LookupIs(init, address);
      forall e | e in es ensures e == last || e in init {
        var i :| 0 <= i < |es| && es[i] == e;
        assert i < |init| ==> init[i] == e;
      }
      assert forall i :: 0 <= i < |init| ==> init[i] == es[i];
    }
  }

  lemma {:induction false} ScratchIs(es: seq<Element>)
    ensures match Scratch(es)
            case Some(e) => e in es && e.kind == Storage && !e.full
            case None => forall e :: e in es && e.kind == Storage ==> e.full
  {
    if es != [] {
      ScratchIs(es[1..]);
    }
  }

  /** EXCHANGE MEDIUM with two different full elements of ordinary tapes: GOOD exactly when a storage
      slot is free and the swap is possible through it, and then exactly a swap. */
  lemma ExchangeSwaps(l: Lib, st: Status, src: nat, dst: nat, second: nat, scope: string)
    requires Reports(l, st) && (second == 0 || second == src)
    requires Lookup(Elements(st), src).Some? && Lookup(Elements(st), dst).Some?
    requires var a, b := Lookup(Elements(st), src).value, Lookup(Elements(st), dst).value;
             && ElementRef(a) != ElementRef(b) && a.full && b.full
             && Ordinary(l, Get(l.store, ElementRef(a))) && Ordinary(l, Get(l.store, ElementRef(b)))
    ensures var (m, reply) := ExchangeOutcome(l, st, src, dst, second, scope);
            var a, b, c := ElementRef(Lookup(Elements(st), src).value), ElementRef(Lookup(Elements(st), dst).value),
                Scratch(Elements(st));
            && (reply == Good <==> c.Some? && Swappable(l, a, b, ElementRef(c.value), scope))
            && (reply == Good ==> Swapped(l.store, m.store, a, b) && Get(m.store, ElementRef(c.value)) == None)
            && (c == None ==> reply == DestinationFull && m == l)
  {
    hide Legs, Elements, Lookup, Scratch, Swappable, Swapped, Get, Ordinary, Exists;
    var es := Elements(st);
    LookupIs(es, src);
    LookupIs(es, dst);
    ScratchIs(es);
    ElementsAreTruthful(l, st);
    var a, b := Lookup(es, src).value, Lookup(es, dst).value;
    assert Truthful(l, a) && Truthful(l, b);
    match Scratch(es) {
      case Some(c) =>
        assert Truthful(l, c);
        SwapIs(l, ElementRef(a), ElementRef(b), ElementRef(c), scope);
      case None =>
    }
  }

  /** MOVE MEDIUM of an ordinary tape: an address that names no element, an empty source and a full
      destination are each reported; otherwise GOOD exactly when the transfer is possible, and then
      exactly that tape is carried. Every other answer leaves the library as it was. */
  lemma MoveMediumIs(l: Lib, st: Status, src: nat, dst: nat, scope: string)
    requires Reports(l, st)
    requires match Lookup(Elements(st), src) case Some(a) => Ordinary(l, Get(l.store, ElementRef(a))) case None => true
    ensures var (m, reply) := MoveOutcome(l, st, src, dst, scope);
            match (Lookup(Elements(st), src), Lookup(Elements(st), dst))
            case (Some(a), Some(b)) =>
              var from, to := ElementRef(a), ElementRef(b);
              && (reply == SourceEmpty <==> Get(l.store, from) == None)
              && (reply == DestinationFull <==> Get(l.store, from).Some? && Get(l.store, to).Some?)
              && (reply == Good <==> a.full && !b.full && Transferable(l, from, to, scope))
              && (reply == Good ==> Carried(l.store, m.store, from, to) && SameSurroundings(l, m))
              && (reply != Good ==> m == l)
            case _ => reply == InvalidField && m == l
  {
    hide Leg, Elements, Transferable, Carried, SameSurroundings, Ordinary, Get, Exists;
    var es := Elements(st);
    LookupIs(es, src);
    LookupIs(es, dst);
    ElementsAreTruthful(l, st);
    match (Lookup(es, src), Lookup(es, dst)) {
      case (Some(a), Some(b)) =>
        assert Truthful(l, a) && Truthful(l, b);
        LegIs(l, ElementRef(a), ElementRef(b), scope);
      case _ =>
    }
  }

  // ---- the three-location form

  /** What is asked of it: the second volume can go to the third element, and the first can follow. */
  predicate Shiftable(l: Lib, a: Ref, b: Ref, c: Ref, scope: string) {
    && Transferable(l, b, c, scope)
    && !(a.DriveRef? && b.DriveRef?) && InScope(l, scope, a, b) && Exists(l.store, b)
    && Get(l.store, a).Some? && Accepts(l, b, Get(l.store, a).value)
  }

  /** t is s with the volume of b carried to c and that of a to b, and nothing else changed. */
  ghost predicate Shifted(s: Store, t: Store, a: Ref, b: Ref, c: Ref) {
    && Get(t, c) == Get(s, b) && Get(t, b) == Get(s, a) && Get(t, a) == None
    && (forall r :: r != a && r != b && r != c ==> Get(t, r) == Get(s, r))
    && t.outside == s.outside && t.offsite == s.offsite
  }

  lemma TwoCarriesShift(s0: Store, s1: Store, s2: Store, a: Ref, b: Ref, c: Ref)
    requires Carried(s0, s1, b, c) && Carried(s1, s2, a, b) && a != c
    ensures Shifted(s0, s2, a, b, c)
  {
    hide Get, Exists;
    assert Get(s1, a) == Get(s0, a);
    assert Get(s2, c) == Get(s1, c);
  }

  lemma LegsOfShift(l: Lib, a: Ref, b: Ref, c: Ref, scope: string)
    ensures var (m1, r1) := Leg(l, b, c, scope);
            if r1 != Ok then Legs(l, [(b, c), (a, b)], scope) == (m1, Answer(r1))
            else
              var (m2, r2) := Leg(m1, a, b, scope);
              Legs(l, [(b, c), (a, b)], scope) == (m2, Answer(r2))
  {
    hide Leg, Legs;
    var path := [(b, c), (a, b)];
    LegsUnfold(l, path, scope);
    var m1 := Leg(l, b, c, scope).0;
    LegsUnfold(m1, path[1..], scope);
    NoLegs(Leg(m1, a, b, scope).0, path[1..][1..], scope);
  }

  /** The two transfers answer GOOD exactly when both are possible, and then have exactly that effect;
      otherwise nothing has changed, or the second volume alone has gone to the third element. */
  lemma ShiftIs(l: Lib, a: Ref, b: Ref, c: Ref, scope: string)
    requires Get(l.store, a).Some? && Get(l.store, b).Some? && a != b && a != c
    requires Ordinary(l, Get(l.store, a)) && Ordinary(l, Get(l.store, b))
    ensures var (m, reply) := Legs(l, [(b, c), (a, b)], scope);
            && (reply == Good <==> Shiftable(l, a, b, c, scope))
            && (reply == Good ==> Shifted(l.store, m.store, a, b, c))
            && (reply != Good ==> m == l || Carried(l.store, m.store, b, c))
  {
    hide Leg, Legs, Ordinary, Accepts, InScope, SameSurroundings, Shifted, Get, Exists;
    LegsOfShift(l, a, b, c, scope);
    LegIs(l, b, c, scope);
    if Leg(l, b, c, scope).1 == Ok {
      var m1, va := Leg(l, b, c, scope).0, Get(l.store, a).value;
      SurroundingsDecide(l, m1, a, b, va, scope);
      SurroundingsDecide(l, m1, b, a, va, scope);
      assert Get(m1.store, a) == Some(va);
      LegIs(m1, a, b, scope);
      if Leg(m1, a, b, scope).1 == Ok {
        TwoCarriesShift(l.store, m1.store, Leg(m1, a, b, scope).0.store, a, b, c);
      }
    }
  }

  /** EXCHANGE MEDIUM with a second destination of its own: a full one is reported and nothing changes;
      otherwise GOOD exactly when both transfers are possible, and then exactly their effect. */
  lemma ExchangeShifts(l: Lib, st: Status, src: nat, dst: nat, second: nat, scope: string)
    requires Reports(l, st) && second != 0 && second != src
    requires Lookup(Elements(st), src).Some? && Lookup(Elements(st), dst).Some? && Lookup(Elements(st), second).Some?
    requires var a, b, c := Lookup(Elements(st), src).value, Lookup(Elements(st), dst).value,
             Lookup(Elements(st), second).value;
             && ElementRef(a) != ElementRef(b) && ElementRef(a) != ElementRef(c) && a.full && b.full
             && Ordinary(l, Get(l.store, ElementRef(a))) && Ordinary(l, Get(l.store, ElementRef(b)))
    ensures var (m, reply) := ExchangeOutcome(l, st, src, dst, second, scope);
            var a, b, c := ElementRef(Lookup(Elements(st), src).value), ElementRef(Lookup(Elements(st), dst).value),
                           ElementRef(Lookup(Elements(st), second).value);
            && (reply == Good <==> Shiftable(l, a, b, c, scope))
            && (reply == Good ==> Shifted(l.store, m.store, a, b, c))
            && (Get(l.store, c).Some? ==> reply == DestinationFull && m == l)
            && (reply != Good ==> m == l || Carried(l.store, m.store, b, c))
  {
    hide Legs, Elements, Lookup, Shifted, Carried, Accepts, InScope, Get, Ordinary, Exists;
    var es := Elements(st);
    LookupIs(es, src);
    LookupIs(es, dst);
    LookupIs(es, second);
    ElementsAreTruthful(l, st);
    var a, b, c := Lookup(es, src).value, Lookup(es, dst).value, Lookup(es, second).value;
    assert Truthful(l, a) && Truthful(l, b) && Truthful(l, c);
    ShiftIs(l, ElementRef(a), ElementRef(b), ElementRef(c), scope);
  }

  // ---- every answer

  /** The first free storage slot of the list. */
  lemma {:induction false} ScratchIsFirst(es: seq<Element>)
    ensures match Scratch(es)
            case Some(e) => exists k: nat :: k < |es| && es[k] == e && Serves(e) && forall j :: 0 <= j < k ==>
                !Serves(es[j])
            case None => forall j :: 0 <= j < |es| ==> !Serves(es[j])
  {
    if es != [] && !Serves(es[0]) {
      ScratchIsFirst(es[1..]);
      if Scratch(es).Some? {
        var k: nat :| k < |es[1..]| && es[1..][k] == Scratch(es).value && forall j :: 0 <= j < k ==>
            !Serves(es[1..][j]);
        assert es[k + 1] == Scratch(es).value;
        forall j | 0 <= j < k + 1 ensures !Serves(es[j]) {
          assert j > 0 ==> es[j] == es[1..][j - 1];
        }
      } else {
        forall j | 0 <= j < |es| ensures !Serves(es[j]) {
          assert j > 0 ==> es[j] == es[1..][j - 1];
        }
      }
    }
  }

  predicate Serves(e: Element) {
    e.kind == Storage && !e.full
  }

  /** EXCHANGE MEDIUM before any transfer: an unknown source or first destination is an invalid field; an
      empty one, source empty. Then, for a swap, no free storage slot means destination full; otherwise an
      unknown second destination is an invalid field and a full one, destination full. In all these cases
      nothing has changed; in all others the transfers are begun. */
  lemma ExchangeAnswers(l: Lib, st: Status, src: nat, dst: nat, second: nat, scope: string)
    ensures var (m, reply) := ExchangeOutcome(l, st, src, dst, second, scope);
            var es := Elements(st);
            var a, b, c := Lookup(es, src), Lookup(es, dst), Lookup(es, second);
            var swap := second == 0 || second == src;
            if a == None || b == None then m == l && reply == InvalidField
            else if !a.value.full || !b.value.full then m == l && reply == SourceEmpty
            else if swap && Scratch(es) == None then m == l && reply == DestinationFull
            else if !swap && c == None then m == l && reply == InvalidField
            else if !swap && c.value.full then m == l && reply == DestinationFull
            else
              (m, reply) == Legs(l, if swap
                                    then SwapPath(ElementRef(a.value), ElementRef(b.value),
                                        ElementRef(Scratch(es).value))
                                    else [(ElementRef(b.value), ElementRef(c.value)),
                                          (ElementRef(a.value), ElementRef(b.value))], scope)
  {
    hide Legs, Elements, Lookup, Scratch;
  }

  ghost predicate Addressed(es: seq<Element>, address: nat) {
    exists e :: e in es && e.address == address
  }

  lemma {:induction false} LegsReplies(l: Lib, path: seq<(Ref, Ref)>, scope: string)
    ensures Legs(l, path, scope).1.Good? || Legs(l, path, scope).1.MoveFailed?
    decreases |path|
  {
    hide Leg;
    if path != [] && Leg(l, path[0].0, path[0].1, scope).1 == Ok {
      LegsReplies(Leg(l, path[0].0, path[0].1, scope).0, path[1..], scope);
    }
  }

  lemma AddressedIs(es: seq<Element>, address: nat)
    ensures Addressed(es, address) <==> Lookup(es, address).Some?
  {
    LookupIs(es, address);
  }

  /** The element of that address holds a volume. */
  ghost predicate FullAt(l: Lib, st: Status, address: nat) {
    var e := Lookup(Elements(st), address); e.Some? && Get(l.store, ElementRef(e.value)).Some?
  }

  /** Every storage element holds a volume. */
  ghost predicate StorageFull(l: Lib, st: Status) {
    forall e :: e in Elements(st) && e.kind == Storage ==> Get(l.store, ElementRef(e)).Some?
  }

  /** What EXCHANGE MEDIUM refuses before any transfer, in terms of the library the status was taken from:
      an address nothing has; an empty source or first destination; a swap with every storage slot full, or
      a full second destination. Nothing has changed then; every other answer is GOOD or a transfer's error. */
  lemma ExchangeRefusals(l: Lib, st: Status, src: nat, dst: nat, second: nat, scope: string)
    requires Reports(l, st)
    ensures var (m, reply) := ExchangeOutcome(l, st, src, dst, second, scope);
            var known := Addressed(Elements(st), src) && Addressed(Elements(st), dst);
            var full := known && FullAt(l, st, src) && FullAt(l, st, dst);
            var swap := second == 0 || second == src;
            && (reply == InvalidField <==> !known || (full && !swap && !Addressed(Elements(st), second)))
            && (reply == SourceEmpty <==> known && !full)
            && (reply == DestinationFull <==> full && if swap then StorageFull(l, st) else FullAt(l, st, second))
            && (reply == InvalidField || reply == SourceEmpty || reply == DestinationFull ==> m == l)
  {
    hide Elements, Lookup, Scratch, Get, Addressed, Reports, ExchangeOutcome, ElementRef, StorageFull;
    AddressedIs(Elements(st), src);
    AddressedIs(Elements(st), dst);
    AddressedIs(Elements(st), second);
    NoScratchIs(l, st);
    FoundIsTruthful(l, st, src);
    FoundIsTruthful(l, st, dst);
    FoundIsTruthful(l, st, second);
    ExchangeReplies(l, st, src, dst, second, scope);
  }

  /** The same by what the elements report. */
  lemma ExchangeReplies(l: Lib, st: Status, src: nat, dst: nat, second: nat, scope: string)
    ensures var (m, reply) := ExchangeOutcome(l, st, src, dst, second, scope);
            var a, b, c := Lookup(Elements(st), src), Lookup(Elements(st), dst), Lookup(Elements(st), second);
            var swap := second == 0 || second == src;
            && (a == None || b == None ==> m == l && reply == InvalidField)
            && (a.Some? && b.Some? ==>
                  var full := a.value.full && b.value.full;
                  && (reply == SourceEmpty <==> !full)
                  && (reply == InvalidField <==> full && !swap && c == None)
                  && (reply == DestinationFull <==>
                        full && if swap then Scratch(Elements(st)) == None else c.Some? && c.value.full)
                  && (reply == InvalidField || reply == SourceEmpty || reply == DestinationFull ==> m == l))
  {
    hide Legs, Elements, Lookup, Scratch, ElementRef, SwapPath;
    var a, b, c := Lookup(Elements(st), src), Lookup(Elements(st), dst), Lookup(Elements(st), second);
    if a.Some? && b.Some? {
      var from, to := ElementRef(a.value), ElementRef(b.value);
      if c.Some? {
        LegsReplies(l, [(to, ElementRef(c.value)), (from, to)], scope);
      }
      if Scratch(Elements(st)).Some? {
        var free := ElementRef(Scratch(Elements(st)).value);
        LegsReplies(l, [(from, free), (to, from), (free, to)], scope);
      }
    }
  }

  lemma FoundIsTruthful(l: Lib, st: Status, address: nat)
    requires Reports(l, st)
    ensures Lookup(Elements(st), address).Some? ==>
              var e := Lookup(Elements(st), address).value; e.full == Get(l.store, ElementRef(e)).Some?
  {
    hide Elements, Lookup, Reports, Get;
    LookupIs(Elements(st), address);
    ElementsAreTruthful(l, st);
    if Lookup(Elements(st), address).Some? {
      assert Truthful(l, Lookup(Elements(st), address).value);
    }
  }

  lemma NoScratchIs(l: Lib, st: Status)
    requires Reports(l, st)
    ensures Scratch(Elements(st)) == None <==> StorageFull(l, st)
  {
    hide Elements, Scratch, Reports, Get, ElementRef;
    ScratchIs(Elements(st));
    ElementsAreTruthful(l, st);
    forall e | e in Elements(st) ensures e.full == Get(l.store, ElementRef(e)).Some? {
      assert Truthful(l, e);
    }
  }

  /** A failing transfer's own error is reported, whatever it is, and ends the sequence. */
  lemma LegsReport(l: Lib, path: seq<(Ref, Ref)>, scope: string)
    requires path != []
    ensures var (m, r) := Leg(l, path[0].0, path[0].1, scope);
            match r
            case Ok => Legs(l, path, scope) == Legs(m, path[1..], scope)
            case Err(e) => Legs(l, path, scope) == (m, MoveFailed(e))
  {
    hide Leg;
  }

  // ---- nothing is lost

  lemma {:induction false} HoldConserves(l: Lib, w: Where, call: Call, stage: Stage) returns (w1: Where)
    requires Placed(l, w) && OriginsAreSlots(l.store) && Ready(l, call, stage)
             && (call.Move? || call.Load? || call.Unload?)
    ensures var held := Hold(l, call, stage, []);
            && Placed(held.0, w1) && w1.Keys == w.Keys && OriginsAreSlots(held.0.store)
            && (!held.1.Return? ==> held.1.Drift? && held.1.stage.Washing? && Ready(held.0, call, held.1.stage))
    decreases Phase(stage), Left(stage)
  {
    hide Exec, Placed, Ready, OriginsAreSlots;
    var seg := Exec(l, call, stage);
    StretchSound(l, w, call, stage);
    StretchReady(l, w, call, stage);
    StretchKeepsOrigins(l, call, stage);
    ArmTransfersOnly(l, call, stage);
    TransfersConserve(w, seg.events);
    w1 := Replay(w, seg.events);
    if seg.next.Sleep? {
      HoldSleeps(l, call, stage, []);
      ExecMovesOn(l, call, stage);
      w1 := HoldConserves(seg.lib, w1, call, seg.next.stage);
    } else {
      HoldEnds(l, call, stage, []);
      DriftsWash(l, call, stage);
      ReadyToResume(seg.lib, call);
    }
  }

  lemma ArmTransfersOnly(l: Lib, call: Call, stage: Stage)
    requires (call.Move? || call.Load? || call.Unload?) && Ready(l, call, stage)
    ensures forall e :: e in Exec(l, call, stage).events ==> e.Transferred?
  {
  }

  lemma DriftsWash(l: Lib, call: Call, stage: Stage)
    requires call.Move? || call.Load? || call.Unload?
    ensures Exec(l, call, stage).next.Drift? ==> call.Load? && Exec(l, call, stage).next.stage.Washing?
  {
  }

  lemma ReadyToResume(l: Lib, call: Call)
    ensures call.Load? && !MisusesDrive(call) ==> forall v: Cartridge :: Ready(l, call, Washing(v))
  {
  }

  /** Whatever a transfer does, fail or succeed or clean, every cartridge is still somewhere. */
  lemma LegConserves(l: Lib, w: Where, a: Ref, b: Ref, scope: string) returns (w1: Where)
    requires Placed(l, w) && OriginsAreSlots(l.store)
    ensures var m := Leg(l, a, b, scope).0; Placed(m, w1) && w1.Keys == w.Keys && OriginsAreSlots(m.store)
  {
    hide Hold, Placed, OriginsAreSlots;
    var call := LegCall(a, b, scope);
    w1 := w;
    if !MisusesDrive(call) {
      w1 := HoldConserves(l, w, call, Start);
      var held := Hold(l, call, Start, []);
      if !held.1.Return? {
        w1 := HoldConserves(held.0, w1, call, held.1.stage);
      }
    }
  }

  /** A sequence of transfers, complete or cut short by a failing one, loses no cartridge. */
  lemma {:induction false} LegsConserve(l: Lib, w: Where, path: seq<(Ref, Ref)>, scope: string) returns (w1: Where)
    requires Placed(l, w) && OriginsAreSlots(l.store)
    ensures Placed(Legs(l, path, scope).0, w1) && w1.Keys == w.Keys
    decreases |path|
  {
    hide Leg, Placed, OriginsAreSlots;
    w1 := w;
    if path != [] {
      w1 := LegConserves(l, w, path[0].0, path[0].1, scope);
      if Leg(l, path[0].0, path[0].1, scope).1 == Ok {
        w1 := LegsConserve(Leg(l, path[0].0, path[0].1, scope).0, w1, path[1..], scope);
      }
    }
  }

  lemma LoadEndsOrWashes(l: Lib, call: Call)
    requires Kept(l) && call.Load? && !MisusesDrive(call)
    ensures var next := Hold(l, call, Start, []).1; next.Return? || (next.Drift? && next.stage.Washing?)
  {
    hide Hold, Placed, OriginsAreSlots;
    var w: Where :| Placed(l, w);
    var w1 := HoldConserves(l, w, call, Start);
  }

  // ---- the command, on the library object

  class Changer {
    const library: Library
    const scope: string

    constructor (library: Library, scope: string)
      ensures this.library == library && this.scope == scope
    {
      this.library := library;
      this.scope := scope;
    }

    /** One library call: an unload, a load or a move. */
    method MoveOne(src: Ref, dst: Ref) returns (r: Result)
      requires library.Valid()
      modifies library
      ensures library.Valid()
      ensures (library.View(), r) == Leg(old(library.View()), src, dst, scope)
    {
      hide Hold, Kept;
      ghost var l := library.View();
      if src.DriveRef? {
        r := library.Unload(src.index, dst, scope, []);
      } else if dst.DriveRef? {
        if !MisusesDrive(Call.Load(src, dst.index, scope)) {
          LoadEndsOrWashes(l, Call.Load(src, dst.index, scope));
        }
        var next := library.Load(src, dst.index, scope, []);
        if next.Return? {
          return next.result;
        }
        r := library.FinishCleaning(src, dst.index, scope, next.stage.v, []);
      } else {
        r := library.Move(src, dst, scope, []);
      }
    }

    /** Transfers one after the other; the first failure ends the command. */
    method Sequence(path: seq<(Ref, Ref)>) returns (reply: Reply)
      requires library.Valid()
      modifies library
      ensures library.Valid()
      ensures (library.View(), reply) == Legs(old(library.View()), path, scope)
    {
      hide Leg, Kept;
      for i := 0 to |path|
        invariant library.Valid()
        invariant Legs(old(library.View()), path, scope) == Legs(library.View(), path[i..], scope)
      {
        assert path[i..][1..] == path[i + 1..];
        var r := MoveOne(path[i].0, path[i].1);
        if r != Ok {
          return Answer(r);
        }
      }
      reply := Good;
    }

    method MoveMedium(st: Status, src: nat, dst: nat) returns (reply: Reply)
      requires library.Valid()
      modifies library
      ensures library.Valid()
      ensures (library.View(), reply) == MoveOutcome(old(library.View()), st, src, dst, scope)
    {
      hide Leg, Kept, Lookup, Elements;
      var es := BuildElements(st);
      var byAddress := ByAddress(es);
      if src !in byAddress || dst !in byAddress {
        return InvalidField;
      }
      var a, b := byAddress[src], byAddress[dst];
      if !a.full {
        return SourceEmpty;
      }
      if b.full {
        return DestinationFull;
      }
      var r := MoveOne(ElementRef(a), ElementRef(b));
      reply := Answer(r);
    }

    method ExchangeMedium(st: Status, src: nat, dst1: nat, second: nat) returns (reply: Reply)
      requires library.Valid()
      modifies library
      ensures library.Valid()
      ensures (library.View(), reply) == ExchangeOutcome(old(library.View()), st, src, dst1, second, scope)
    {
      hide Legs, Kept, Lookup, Elements, Scratch;
      var dst2 := if second == 0 then src else second;
      var es := BuildElements(st);
      var byAddress := ByAddress(es);
      if src !in byAddress || dst1 !in byAddress {
        return InvalidField;
      }
      var a, b := byAddress[src], byAddress[dst1];
      if !a.full || !b.full {
        return SourceEmpty;
      }
      if dst2 == src {
        var scratch := FreeStorage(es);
        if scratch.None? {
          return DestinationFull;
        }
        var c := ElementRef(scratch.value);
        reply := Sequence([(ElementRef(a), c), (ElementRef(b), ElementRef(a)), (c, ElementRef(b))]);
        return;
      }
      if dst2 !in byAddress {
        return InvalidField;
      }
      var c := byAddress[dst2];
      if c.full {
        return DestinationFull;
      }
      reply := Sequence([(ElementRef(b), ElementRef(c)), (ElementRef(a), ElementRef(b))]);
    }
  }

  method ByAddress(es: seq<Element>) returns (m: map<nat, Element>)
    ensures forall a: nat :: Lookup(es, a) == if a in m then Some(m[a]) else None
  {
    m := map[];
    for i := 0 to |es|
      invariant forall a: nat :: Lookup(es[..i], a) == if a in m then Some(m[a]) else None
    {
      assert es[..i + 1][..i] == es[..i];
      m := m[es[i].address := es[i]];
    }
    assert es[..|es|] == es;
  }

  method FreeStorage(es: seq<Element>) returns (c: Option<Element>)
    ensures c == Scratch(es)
  {
    for i := 0 to |es|
      invariant Scratch(es) == Scratch(es[i..])
    {
      assert es[i..][1..] == es[i + 1..];
      if es[i].kind == Storage && !es[i].full {
        return Some(es[i]);
      }
    }
    c := None;
  }
}
