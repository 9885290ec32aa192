/** Where every cartridge is: slots, I/O slots, drives, the outside and the offsite list
    (internal/library/types.go, the element lookups of internal/library/library.go). */
module Placement {
  import opened Common

  /** A cartridge's identity: the volume object, not its barcode. */
  type Cartridge = nat

  datatype Ref = SlotRef(address: int) | IOSlotRef(address: int) | DriveRef(index: int)

  datatype Place = At(ref: Ref) | Outside | Offsite

  /** A storage or I/O slot; `unit` is its magazine or mailbox. */
  datatype Slot = Slot(address: int, unit: string, vol: Option<Cartridge>)

  datatype Drive = Drive(index: int, path: string, driveType: string, vol: Option<Cartridge>,
                         fault: bool, origin: Option<Ref>, mounts: nat)

  datatype Store = Store(slots: seq<Slot>, ioslots: seq<Slot>, drives: seq<Drive>,
                         outside: seq<Cartridge>, offsite: seq<Cartridge>)

  /** Slots, then I/O slots, share one dense address space from 1; drives are numbered from 0. */
  ghost predicate WellAddressed(s: Store) {
    && (forall i :: 0 <= i < |s.slots| ==> s.slots[i].address == i + 1)
    && (forall i :: 0 <= i < |s.ioslots| ==> s.ioslots[i].address == |s.slots| + i + 1)
    && (forall i :: 0 <= i < |s.drives| ==> s.drives[i].index == i)
  }

  predicate Exists(s: Store, r: Ref) {
    match r
    case SlotRef(a) => 0 < a <= |s.slots|
    case IOSlotRef(a) => |s.slots| < a <= |s.slots| + |s.ioslots|
    case DriveRef(i) => 0 <= i < |s.drives|
  }

  function Get(s: Store, r: Ref): Option<Cartridge> {
    if !Exists(s, r) then None else
    match r
    case SlotRef(a) => s.slots[a - 1].vol
    case IOSlotRef(a) => s.ioslots[a - 1 - |s.slots|].vol
    case DriveRef(i) => s.drives[i].vol
  }

  /** Setting an element that does not exist sets nothing. */
  function Put(s: Store, r: Ref, v: Option<Cartridge>): Store {
    if !Exists(s, r) then s else
    match r
    case SlotRef(a) => s.(slots := s.slots[a - 1 := s.slots[a - 1].(vol := v)])
    case IOSlotRef(a) =>
      var i := a - 1 - |s.slots|;
      s.(ioslots := s.ioslots[i := s.ioslots[i].(vol := v)])
    case DriveRef(i) => s.(drives := s.drives[i := s.drives[i].(vol := v)])
  }

  ghost predicate Holds(s: Store, p: Place, v: Cartridge) {
    match p
    case At(r) => Get(s, r) == Some(v)
    case Outside => v in s.outside
    case Offsite => v in s.offsite
  }

  ghost predicate NoDuplicates(vs: seq<Cartridge>) {
    forall i, j :: 0 <= i < j < |vs| ==> vs[i] != vs[j]
  }

  /** Every cartridge sits in at most one place, at most once. */
  ghost predicate Unique(s: Store) {
    && NoDuplicates(s.outside) && NoDuplicates(s.offsite)
    && forall p, q, v :: Holds(s, p, v) && Holds(s, q, v) ==> p == q
  }

  /** Everything of an element but its cartridge. */
  ghost predicate SameShape(s: Store, t: Store) {
    && |t.slots| == |s.slots| && |t.ioslots| == |s.ioslots| && |t.drives| == |s.drives|
    && (forall i :: 0 <= i < |s.slots| ==>
        t.slots[i].address == s.slots[i].address && t.slots[i].unit == s.slots[i].unit)
    && (forall i :: 0 <= i < |s.ioslots| ==>
        t.ioslots[i].address == s.ioslots[i].address && t.ioslots[i].unit == s.ioslots[i].unit)
    && (forall i :: 0 <= i < |s.drives| ==>
        t.drives[i].index == s.drives[i].index && t.drives[i].path == s.drives[i].path)
  }

  function Without(vs: seq<Cartridge>, v: Cartridge): (r: seq<Cartridge>) {
    if vs == [] then [] else if vs[0] == v then vs[1..] else [vs[0]] + Without(vs[1..], v)
  }

  // ---- transfers

  function Take(s: Store, p: Place, v: Cartridge): Store {
    match p
    case At(r) => Put(s, r, None)
    case Outside => s.(outside := Without(s.outside, v))
    case Offsite => s.(offsite := Without(s.offsite, v))
  }

  function Give(s: Store, p: Place, v: Cartridge): Store {
    match p
    case At(r) => Put(s, r, Some(v))
    case Outside => s.(outside := s.outside + [v])
    case Offsite => s.(offsite := s.offsite + [v])
  }

  function Shift(s: Store, v: Cartridge, src: Place, dst: Place): Store {
    Give(Take(s, src, v), dst, v)
  }

  lemma TakeKeepsExists(s: Store, p: Place, v: Cartridge)
    ensures forall r :: Exists(Take(s, p, v), r) == Exists(s, r)
  {
  }

  ghost predicate Free(s: Store, p: Place) {
    p.At? ==> Exists(s, p.ref) && Get(s, p.ref) == None
  }

  /** `t` is `s` with cartridge v moved from src to dst, and nothing else anywhere changed. */
  ghost predicate Moved(s: Store, t: Store, v: Cartridge, src: Place, dst: Place) {
    && Holds(s, src, v) && Free(s, dst) && src != dst
    && forall p, x :: Holds(t, p, x) <==> if x == v then p == dst else Holds(s, p, x)
  }

  // ---- laws

  lemma GetPut(s: Store, r: Ref, v: Option<Cartridge>, q: Ref)
    requires Exists(s, r)
    ensures Exists(Put(s, r, v), q) == Exists(s, q)
    ensures Get(Put(s, r, v), q) == if q == r then v else Get(s, q)
  {
  }

  /** With elements numbered as the builder numbers them, an element is found by its own number. */
  lemma GetByNumber(s: Store, r: Ref, v: Cartridge)
    requires WellAddressed(s)
    ensures Exists(s, r) <==>
              match r
              case SlotRef(a) => exists i :: 0 <= i < |s.slots| && s.slots[i].address == a
              case IOSlotRef(a) => exists i :: 0 <= i < |s.ioslots| && s.ioslots[i].address == a
              case DriveRef(n) => exists i :: 0 <= i < |s.drives| && s.drives[i].index == n
    ensures Get(s, r) == Some(v) <==>
              match r
              case SlotRef(a) => exists i :: 0 <= i < |s.slots| && s.slots[i].address == a && s.slots[i].vol == Some(v)
              case IOSlotRef(a) =>
                exists i :: 0 <= i < |s.ioslots| && s.ioslots[i].address == a && s.ioslots[i].vol == Some(v)
              case DriveRef(n) =>
                exists i :: 0 <= i < |s.drives| && s.drives[i].index == n && s.drives[i].vol == Some(v)
  {
    match r {
      case SlotRef(a) => assert Exists(s, r) ==> s.slots[a - 1].address == a;
      case IOSlotRef(a) => assert Exists(s, r) ==> s.ioslots[a - 1 - |s.slots|].address == a;
      case DriveRef(n) => assert Exists(s, r) ==> s.drives[n].index == n;
    }
  }

  lemma PutElsewhere(s: Store, r: Ref, v: Option<Cartridge>, q: Ref)
    requires q != r
    ensures Get(Put(s, r, v), q) == Get(s, q)
  {
  }

  lemma ListsElsewhere(s: Store, outside: seq<Cartridge>, offsite: seq<Cartridge>, q: Ref)
    ensures Get(s.(outside := outside, offsite := offsite), q) == Get(s, q)
  {
  }

  /** A shift changes only its two ends. */
  lemma ShiftTouches(s: Store, v: Cartridge, src: Place, dst: Place, r: Ref)
    requires At(r) != src && At(r) != dst
    ensures Get(Shift(s, v, src, dst), r) == Get(s, r)
  {
    hide Get, Put;
    var t := Take(s, src, v);
    match src {
      case At(q) => PutElsewhere(s, q, None, r);
      case _ => ListsElsewhere(s, t.outside, t.offsite, r);
    }
    match dst {
      case At(q) => PutElsewhere(t, q, Some(v), r);
      case _ => ListsElsewhere(t, Give(t, dst, v).outside, Give(t, dst, v).offsite, r);
    }
  }

  lemma {:induction false} WithoutIs(vs: seq<Cartridge>, v: Cartridge)
    requires NoDuplicates(vs)
    ensures NoDuplicates(Without(vs, v))
    ensures forall x :: x in Without(vs, v) <==> x in vs && x != v
  {
    if vs == [] {
    } else {
      var rest := vs[1..];
      assert NoDuplicates(rest) by {
        assert forall i :: 0 <= i < |rest| ==> rest[i] == vs[i + 1];
      }
      WithoutIs(rest, v);
      assert vs == [vs[0]] + rest;
      assert vs[0] !in rest by {
        assert forall i :: 0 <= i < |rest| ==> rest[i] == vs[i + 1];
      }
      if vs[0] != v {
        PrependFresh(vs[0], Without(rest, v));
      }
    }
  }

  lemma PrependFresh(x: Cartridge, vs: seq<Cartridge>)
    requires NoDuplicates(vs) && x !in vs
    ensures NoDuplicates([x] + vs)
  {
  }

  lemma AppendFresh(vs: seq<Cartridge>, x: Cartridge)
    requires NoDuplicates(vs) && x !in vs
    ensures NoDuplicates(vs + [x])
    ensures forall y :: y in vs + [x] <==> y in vs || y == x
  {
  }

  /** Taking a cartridge out of the one place that holds it leaves it nowhere and all others alone. */
  lemma TakeIs(s: Store, p: Place, v: Cartridge)
    requires Unique(s) && Holds(s, p, v)
    ensures forall q, x :: Holds(Take(s, p, v), q, x) <==> x != v && Holds(s, q, x)
    ensures NoDuplicates(Take(s, p, v).outside) && NoDuplicates(Take(s, p, v).offsite)
  {
    var t := Take(s, p, v);
    if p.At? {
      forall q, x ensures Holds(t, q, x) <==> x != v && Holds(s, q, x) {
        if q.At? {
          GetPut(s, p.ref, None, q.ref);
        }
        assert x == v && q != p ==> !Holds(s, q, v);
      }
    } else {
      WithoutIs(if p == Outside then s.outside else s.offsite, v);
      forall q, x ensures Holds(t, q, x) <==> x != v && Holds(s, q, x) {
        assert q.At? ==> Get(t, q.ref) == Get(s, q.ref);
        assert x == v && q != p ==> !Holds(s, q, v);
      }
    }
  }

  lemma GiveIs(s: Store, p: Place, v: Cartridge)
    requires Free(s, p) && forall q :: !Holds(s, q, v)
    requires NoDuplicates(s.outside) && NoDuplicates(s.offsite)
    ensures forall q, x :: Holds(Give(s, p, v), q, x) <==> if x == v then q == p else Holds(s, q, x)
    ensures NoDuplicates(Give(s, p, v).outside) && NoDuplicates(Give(s, p, v).offsite)
  {
    var t := Give(s, p, v);
    assert !Holds(s, Outside, v) && !Holds(s, Offsite, v);
    AppendFresh(s.outside, v);
    AppendFresh(s.offsite, v);
    forall q, x ensures Holds(t, q, x) <==> if x == v then q == p else Holds(s, q, x) {
      if q.At? {
        if p.At? {
          GetPut(s, p.ref, Some(v), q.ref);
        } else {
          assert Get(t, q.ref) == Get(s, q.ref);
        }
      }
      assert !Holds(s, q, v);
    }
  }

  /** A shift into a free place is exactly the declared transfer, and keeps uniqueness. */
  lemma ShiftMoves(s: Store, v: Cartridge, src: Place, dst: Place)
    requires Unique(s) && Holds(s, src, v) && Free(s, dst) && src != dst
    ensures Moved(s, Shift(s, v, src, dst), v, src, dst)
    ensures Unique(Shift(s, v, src, dst))
  {
    TakeKeepsExists(s, src, v);
    var t := Take(s, src, v);
    TakeIs(s, src, v);
    assert dst.At? ==> Get(t, dst.ref) == None by {
      if dst.At? && Get(t, dst.ref).Some? {
        assert Holds(t, dst, Get(t, dst.ref).value);
        assert Holds(s, dst, Get(t, dst.ref).value);
      }
    }
    GiveIs(t, dst, v);
  }

  lemma SlotShiftKeepsDrives(s: Store, v: Cartridge, src: Place, dst: Place)
    requires src.At? ==> !src.ref.DriveRef?
    requires dst.At? ==> !dst.ref.DriveRef?
    ensures Shift(s, v, src, dst).drives == s.drives
  {
  }

  lemma PutKeepsShape(s: Store, r: Ref, v: Option<Cartridge>)
    ensures SameShape(s, Put(s, r, v))
  {
  }

  lemma ShiftKeepsShape(s: Store, v: Cartridge, src: Place, dst: Place)
    ensures SameShape(s, Shift(s, v, src, dst))
  {
    hide Put;
    var t := Take(s, src, v);
    if src.At? {
      PutKeepsShape(s, src.ref, None);
    }
    if dst.At? {
      PutKeepsShape(t, dst.ref, Some(v));
    }
    ShapeTransitive(s, t, Give(t, dst, v));
  }

  lemma ShapeTransitive(s: Store, t: Store, u: Store)
    requires SameShape(s, t) && SameShape(t, u)
    ensures SameShape(s, u)
  {
  }
}
