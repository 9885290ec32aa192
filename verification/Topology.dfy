/** Building the elements from a configuration, and carrying volumes and drive Origins across a
    rebuild by (magazine or mailbox, offset) identity (internal/library/library.go:232-306, 463-754). */
module Topology {
  import opened Common
  import opened Placement

  datatype Unit = Unit(id: string, size: nat)

  datatype Device = Device(path: string, driveType: string)

  datatype Layout = Layout(magazines: seq<Unit>, mailboxes: seq<Unit>, devices: seq<Device>)

  /** A slot's position inside its own magazine or mailbox, counted from 1. */
  datatype Key = Key(unit: string, offset: nat)

  /** What an element is, whatever its current address. */
  datatype Identity = InMagazine(key: Key) | InMailbox(key: Key) | InDrive(index: int, path: string)

  // ---- offsets

  function Count(slots: seq<Slot>, u: string, n: nat): nat
    requires n <= |slots|
  {
    if n == 0 then 0 else Count(slots, u, n - 1) + if slots[n - 1].unit == u then 1 else 0
  }

  function KeyOf(slots: seq<Slot>, i: nat): Key
    requires i < |slots|
  {
    Key(slots[i].unit, Count(slots, slots[i].unit, i + 1))
  }

  function FindBelow(slots: seq<Slot>, k: Key, n: nat): Option<nat>
    requires n <= |slots|
  {
    if n == 0 then None else if KeyOf(slots, n - 1) == k then Some(n - 1) else FindBelow(slots, k, n - 1)
  }

  function Find(slots: seq<Slot>, k: Key): Option<nat> {
    FindBelow(slots, k, |slots|)
  }

  lemma {:induction false} CountGrows(slots: seq<Slot>, u: string, m: nat, n: nat)
    requires m <= n <= |slots|
    ensures Count(slots, u, m) <= Count(slots, u, n)
  {
    if m < n {
      CountGrows(slots, u, m, n - 1);
    }
  }

  /** No two slots share an identity. */
  lemma KeysDistinct(slots: seq<Slot>, i: nat, j: nat)
    requires i < |slots| && j < |slots| && KeyOf(slots, i) == KeyOf(slots, j)
    ensures i == j
  {
    var u := slots[i].unit;
    if i < j {
      CountGrows(slots, u, i + 1, j);
    } else if j < i {
      CountGrows(slots, u, j + 1, i);
    }
  }

  lemma KeysApart(slots: seq<Slot>, i: nat, j: nat)
    requires i < |slots| && j < |slots| && i != j
    ensures KeyOf(slots, i) != KeyOf(slots, j)
  {
    if KeyOf(slots, i) == KeyOf(slots, j) {
      KeysDistinct(slots, i, j);
    }
  }

  lemma {:induction false} FindBelowIs(slots: seq<Slot>, k: Key, n: nat)
    requires n <= |slots|
    ensures match FindBelow(slots, k, n)
            case Some(i) => i < n && KeyOf(slots, i) == k
            case None => forall i :: 0 <= i < n ==> KeyOf(slots, i) != k
  {
    if n > 0 {
      FindBelowIs(slots, k, n - 1);
    }
  }

  lemma FindIs(slots: seq<Slot>, k: Key, i: nat)
    ensures Find(slots, k) == Some(i) <==> i < |slots| && KeyOf(slots, i) == k
  {
    FindBelowIs(slots, k, |slots|);
    if i < |slots| && KeyOf(slots, i) == k {
      KeysDistinct(slots, i, Find(slots, k).value);
    }
  }

  /** A magazine's identities are exactly its offsets 1 to its number of slots. */
  lemma {:induction false} OffsetsFill(slots: seq<Slot>, u: string, k: nat, n: nat)
    requires n <= |slots|
    ensures 0 < k <= Count(slots, u, n) <==> FindBelow(slots, Key(u, k), n).Some?
  {
    if n > 0 {
      OffsetsFill(slots, u, k, n - 1);
      CountGrows(slots, u, 0, n - 1);
    }
  }

  ghost predicate SameUnits(a: seq<Slot>, b: seq<Slot>) {
    |a| == |b| && forall i :: 0 <= i < |a| ==> a[i].unit == b[i].unit
  }

  lemma {:induction false} CountFollowsUnits(a: seq<Slot>, b: seq<Slot>, u: string, n: nat)
    requires SameUnits(a, b) && n <= |a|
    ensures Count(a, u, n) == Count(b, u, n)
  {
    if n > 0 {
      CountFollowsUnits(a, b, u, n - 1);
    }
  }

  /** Identities depend on the units alone: neither on addresses nor on contents. */
  lemma KeysFollowUnits(a: seq<Slot>, b: seq<Slot>)
    requires SameUnits(a, b)
    ensures forall i :: 0 <= i < |a| ==> KeyOf(a, i) == KeyOf(b, i)
    ensures forall k :: Find(a, k) == Find(b, k)
  {
    forall i | 0 <= i < |a| ensures KeyOf(a, i) == KeyOf(b, i) {
      CountFollowsUnits(a, b, a[i].unit, i + 1);
    }
    forall k ensures Find(a, k) == Find(b, k) {
      FindBelowIs(a, k, |a|);
      if Find(a, k).Some? {
        FindIs(b, k, Find(a, k).value);
      } else {
        FindBelowIs(b, k, |b|);
      }
    }
  }

  // ---- building

  /** The unit of each slot, unit after unit. */
  function UnitsUpto(units: seq<Unit>, n: nat): seq<string>
    requires n <= |units|
  {
    if n == 0 then [] else UnitsUpto(units, n - 1) + seq(units[n - 1].size, _ => units[n - 1].id)
  }

  function Slots(units: seq<Unit>, before: nat): (r: seq<Slot>)
    ensures |r| == |UnitsUpto(units, |units|)|
    ensures forall i :: 0 <= i < |r| ==> r[i] == Slot(before + i + 1, UnitsUpto(units, |units|)[i], None)
  {
    var ids := UnitsUpto(units, |units|);
    seq(|ids|, i requires 0 <= i < |ids| => Slot(before + i + 1, ids[i], None))
  }

  function Build(c: Layout): Store {
    var slots := Slots(c.magazines, 0);
    Store(slots, Slots(c.mailboxes, |slots|),
          seq(|c.devices|, i requires 0 <= i < |c.devices| =>
            Drive(i, c.devices[i].path, c.devices[i].driveType, None, false, None, 0)),
          [], [])
  }

  /** How many slots the first n units have. */
  function SizeUpto(units: seq<Unit>, n: nat): nat
    requires n <= |units|
  {
    if n == 0 then 0 else SizeUpto(units, n - 1) + units[n - 1].size
  }

  lemma {:induction false} UnitRuns(units: seq<Unit>, n: nat, k: nat, j: nat)
    requires k < n <= |units| && j < units[k].size
    ensures |UnitsUpto(units, n)| == SizeUpto(units, n)
    ensures SizeUpto(units, k) + j < SizeUpto(units, n) && UnitsUpto(units, n)[SizeUpto(units, k) + j] == units[k].id
  {
    UnitsSize(units, n - 1);
    if k < n - 1 {
      UnitRuns(units, n - 1, k, j);
    }
  }

  lemma {:induction false} UnitsSize(units: seq<Unit>, n: nat)
    requires n <= |units|
    ensures |UnitsUpto(units, n)| == SizeUpto(units, n)
  {
    if n > 0 {
      UnitsSize(units, n - 1);
    }
  }

  /** The builder makes the magazines' slots, then the mailboxes', unit after unit and each of its size,
      numbered in one run from 1 and all empty; and the drives, numbered from 0, as configured. */
  lemma BuildLaysOut(c: Layout, k: nat, j: nat)
    ensures var s := Build(c);
            && |s.slots| == SizeUpto(c.magazines, |c.magazines|) && |s.ioslots| == SizeUpto(c.mailboxes, |c.mailboxes|)
            && |s.drives| == |c.devices| && s.outside == [] && s.offsite == []
            && (k < |c.magazines| && j < c.magazines[k].size ==>
                  var at := SizeUpto(c.magazines, k) + j;
                  at < |s.slots| && s.slots[at] == Slot(at + 1, c.magazines[k].id, None))
            && (k < |c.mailboxes| && j < c.mailboxes[k].size ==>
                  var at := SizeUpto(c.mailboxes, k) + j;
                  at < |s.ioslots| && s.ioslots[at] == Slot(|s.slots| + at + 1, c.mailboxes[k].id, None))
            && (k < |c.devices| ==>
                  s.drives[k] == Drive(k, c.devices[k].path, c.devices[k].driveType, None, false, None, 0))
  {
    hide UnitsUpto, SizeUpto;
    UnitsSize(c.magazines, |c.magazines|);
    UnitsSize(c.mailboxes, |c.mailboxes|);
    if k < |c.magazines| && j < c.magazines[k].size {
      UnitRuns(c.magazines, |c.magazines|, k, j);
    }
    if k < |c.mailboxes| && j < c.mailboxes[k].size {
      UnitRuns(c.mailboxes, |c.mailboxes|, k, j);
    }
  }

  // ---- carrying

  function VolAt(slots: seq<Slot>, k: Key): Option<Cartridge> {
    FindBelowIs(slots, k, |slots|);
    match Find(slots, k)
    case None => None
    case Some(i) => slots[i].vol
  }

  /** The new slots, each holding what the old slot of the same identity held. */
  function Carry(was: seq<Slot>, made: seq<Slot>): (r: seq<Slot>)
    ensures SameUnits(r, made)
    ensures forall i :: 0 <= i < |r| ==> r[i] == made[i].(vol := VolAt(was, KeyOf(made, i)))
  {
    seq(|made|, i requires 0 <= i < |made| => made[i].(vol := VolAt(was, KeyOf(made, i))))
  }

  function ShiftOrigin(origin: Option<Ref>, was: Store, made: Store): Option<Ref> {
    match origin
    case None => None
    case Some(DriveRef(i)) => origin
    case Some(SlotRef(a)) =>
      if !(0 < a <= |was.slots|) then None else
      (match Find(made.slots, KeyOf(was.slots, a - 1))
       case None => None
       case Some(j) => Some(SlotRef(j + 1)))
    case Some(IOSlotRef(a)) =>
      if !(|was.slots| < a <= |was.slots| + |was.ioslots|) then None else
      (match Find(made.ioslots, KeyOf(was.ioslots, a - 1 - |was.slots|))
       case None => None
       case Some(j) => Some(IOSlotRef(|made.slots| + j + 1)))
  }

  function CarryDrive(was: Store, made: Store, i: nat, samePath: bool): Drive
    requires i < |made.drives|
  {
    if i < |was.drives| && (samePath ==> was.drives[i].path == made.drives[i].path) then
      made.drives[i].(vol := was.drives[i].vol, fault := was.drives[i].fault, mounts := was.drives[i].mounts,
                       origin := ShiftOrigin(was.drives[i].origin, was, made))
    else
      made.drives[i]
  }

  /** A running library's elements on a new topology: a drive is carried if its index and path agree. */
  function Rebuild(s: Store, c: Layout): Store {
    var made := Build(c);
    Store(Carry(s.slots, made.slots), Carry(s.ioslots, made.ioslots),
          seq(|made.drives|, i requires 0 <= i < |made.drives| => CarryDrive(s, made, i, true)),
          s.outside, s.offsite)
  }

  /** A saved snapshot applied to freshly built elements: a drive is matched by its index alone. */
  function Restore(s: Store, c: Layout): Store {
    var made := Build(c);
    Store(Carry(s.slots, made.slots), Carry(s.ioslots, made.ioslots),
          seq(|made.drives|, i requires 0 <= i < |made.drives| => CarryDrive(s, made, i, false)),
          s.outside, s.offsite)
  }

  // ---- identities

  function IdentityOf(s: Store, r: Ref): Identity
    requires Exists(s, r)
  {
    match r
    case SlotRef(a) => InMagazine(KeyOf(s.slots, a - 1))
    case IOSlotRef(a) => InMailbox(KeyOf(s.ioslots, a - 1 - |s.slots|))
    case DriveRef(i) => InDrive(i, s.drives[i].path)
  }

  function Resolve(s: Store, id: Identity): Option<Ref> {
    match id
    case InMagazine(k) => (match Find(s.slots, k) case None => None case Some(i) => Some(SlotRef(i + 1)))
    case InMailbox(k) => (match Find(s.ioslots, k) case None => None case Some(i) => Some(IOSlotRef(|s.slots| + i + 1)))
    case InDrive(i, path) => if 0 <= i < |s.drives| && s.drives[i].path == path then Some(DriveRef(i)) else None
  }

  ghost predicate Has(c: Layout, id: Identity) {
    Resolve(Build(c), id).Some?
  }

  /** An element's identity leads back to it, and to no other element. */
  lemma ResolveIs(s: Store, id: Identity, r: Ref)
    ensures Resolve(s, id) == Some(r) <==> Exists(s, r) && IdentityOf(s, r) == id
  {
    match id {
      case InMagazine(k) =>
        if r.SlotRef? && r.address >= 1 { FindIs(s.slots, k, r.address - 1); }
        if Find(s.slots, k).Some? { FindIs(s.slots, k, Find(s.slots, k).value); }
      case InMailbox(k) =>
        if r.IOSlotRef? && r.address >= |s.slots| + 1 { FindIs(s.ioslots, k, r.address - 1 - |s.slots|); }
        if Find(s.ioslots, k).Some? { FindIs(s.ioslots, k, Find(s.ioslots, k).value); }
      case InDrive(i, path) =>
    }
  }

  /** Same elements: same addresses, units, drive indices and paths. */
  ghost predicate SameElements(s: Store, t: Store) {
    SameUnits(s.slots, t.slots) && SameUnits(s.ioslots, t.ioslots) && |s.drives| == |t.drives|
    && forall i :: 0 <= i < |s.drives| ==> s.drives[i].path == t.drives[i].path
  }

  lemma ResolveFollowsElements(s: Store, t: Store)
    requires SameElements(s, t)
    ensures forall id :: Resolve(s, id) == Resolve(t, id)
    ensures forall r :: Exists(s, r) == Exists(t, r)
    ensures forall r :: Exists(s, r) ==> IdentityOf(s, r) == IdentityOf(t, r)
  {
    KeysFollowUnits(s.slots, t.slots);
    KeysFollowUnits(s.ioslots, t.ioslots);
  }

  lemma RebuildHasElements(s: Store, c: Layout)
    ensures SameElements(Rebuild(s, c), Build(c))
    ensures SameElements(Restore(s, c), Build(c))
  {
  }
}
