/** What a rebuild keeps: contents and Origins follow identities, rebuilds compose, and nothing is
    duplicated (internal/library/library.go:463-640). */
module Rebuilding {
  import opened Common
  import opened Placement
  import opened Topology

  /** The cartridge sitting at an identity, if the library has it. */
  function Fetch(s: Store, id: Identity): Option<Cartridge> {
    match Resolve(s, id)
    case None => None
    case Some(r) => Get(s, r)
  }

  /** Load is the only thing that sets an Origin, and its source is never a drive. */
  ghost predicate OriginsAreSlots(s: Store) {
    forall i :: 0 <= i < |s.drives| && s.drives[i].origin.Some? ==> !s.drives[i].origin.value.DriveRef?
  }

  /** The identity a drive's Origin names. */
  function OriginOf(s: Store, i: int): Option<Identity> {
    if 0 <= i < |s.drives| && s.drives[i].origin.Some? && Exists(s, s.drives[i].origin.value) then
      Some(IdentityOf(s, s.drives[i].origin.value))
    else
      None
  }

  /** An identity that survives on a topology, or nothing. */
  ghost function Surviving(c: Layout, id: Option<Identity>): Option<Identity> {
    if id.Some? && Has(c, id.value) then id else None
  }

  lemma ElementsOfRebuild(s: Store, c: Layout)
    ensures forall id :: Resolve(Rebuild(s, c), id) == Resolve(Build(c), id)
    ensures forall r :: Exists(Rebuild(s, c), r) == Exists(Build(c), r)
    ensures forall r :: Exists(Build(c), r) ==> IdentityOf(Rebuild(s, c), r) == IdentityOf(Build(c), r)
  {
    RebuildHasElements(s, c);
    ResolveFollowsElements(Rebuild(s, c), Build(c));
  }

  /** Every element holds afterwards what its identity held before. */
  lemma RebuildGet(s: Store, c: Layout, r: Ref)
    requires Exists(Build(c), r)
    ensures Get(Rebuild(s, c), r) == Fetch(s, IdentityOf(Build(c), r))
  {
    hide KeyOf, FindBelow, Slots, ShiftOrigin;
    match r {
      case SlotRef(a) => FindBelowIs(s.slots, KeyOf(Build(c).slots, a - 1), |s.slots|);
      case IOSlotRef(a) =>
        FindBelowIs(s.ioslots, KeyOf(Build(c).ioslots, a - 1 - |Build(c).slots|), |s.ioslots|);
      case DriveRef(i) =>
    }
  }

  lemma FetchRebuild(s: Store, c: Layout, id: Identity)
    ensures Fetch(Rebuild(s, c), id) == if Has(c, id) then Fetch(s, id) else None
  {
    hide Rebuild, Build;
    ElementsOfRebuild(s, c);
    if Has(c, id) {
      var r := Resolve(Build(c), id).value;
      ResolveIs(Build(c), id, r);
      RebuildGet(s, c, r);
    }
  }

  // ---- never duplicated

  /** Where a carried cartridge was: the place of the same identity. */
  lemma CarriedFrom(s: Store, c: Layout, p: Place, v: Cartridge) returns (p0: Place)
    requires Holds(Rebuild(s, c), p, v)
    ensures Holds(s, p0, v)
    ensures p.At? ==> p0.At? && Exists(s, p0.ref) && Exists(Build(c), p.ref)
                      && IdentityOf(s, p0.ref) == IdentityOf(Build(c), p.ref)
    ensures !p.At? ==> p0 == p
  {
    if p.At? {
      ElementsOfRebuild(s, c);
      RebuildGet(s, c, p.ref);
      var id := IdentityOf(Build(c), p.ref);
      p0 := At(Resolve(s, id).value);
      ResolveIs(s, id, p0.ref);
    } else {
      p0 := p;
    }
  }

  lemma RebuildKeepsLists(s: Store, c: Layout)
    ensures Rebuild(s, c).outside == s.outside && Rebuild(s, c).offsite == s.offsite
  {
  }

  /** A rebuild never puts a cartridge in two places. */
  lemma RebuildNeverDuplicates(s: Store, c: Layout)
    requires Unique(s)
    ensures Unique(Rebuild(s, c))
  {
    hide Rebuild, Build, Get;
    RebuildKeepsLists(s, c);
    var t := Rebuild(s, c);
    forall p, q, v | Holds(t, p, v) && Holds(t, q, v) ensures p == q {
      var p0 := CarriedFrom(s, c, p, v);
      var q0 := CarriedFrom(s, c, q, v);
      assert p0 == q0;
      if p.At? && q.At? {
        ResolveIs(Build(c), IdentityOf(Build(c), p.ref), p.ref);
        ResolveIs(Build(c), IdentityOf(Build(c), p.ref), q.ref);
      }
    }
  }

  // ---- Origins

  /** A carried drive's Origin names the identity it named before, or nothing if that is gone. */
  lemma RebuildOrigin(s: Store, c: Layout, i: int)
    requires OriginsAreSlots(s) && 0 <= i < |c.devices|
    ensures Rebuild(s, c).drives[i].origin
         == if i < |s.drives| && s.drives[i].path == c.devices[i].path && OriginOf(s, i).Some?
            then Resolve(Build(c), OriginOf(s, i).value) else None
  {
  }

  lemma OriginsStaySlots(s: Store, c: Layout)
    requires OriginsAreSlots(s)
    ensures OriginsAreSlots(Rebuild(s, c))
  {
    forall i | 0 <= i < |c.devices| ensures var o := Rebuild(s, c).drives[i].origin; o.Some? ==> !o.value.DriveRef? {
      RebuildOrigin(s, c, i);
    }
  }

  lemma OriginOfRebuild(s: Store, c: Layout, i: int)
    requires OriginsAreSlots(s) && 0 <= i < |c.devices|
    ensures OriginOf(Rebuild(s, c), i)
         == if i < |s.drives| && s.drives[i].path == c.devices[i].path then Surviving(c, OriginOf(s, i)) else None
  {
    hide Get, Holds;
    RebuildOrigin(s, c, i);
    ElementsOfRebuild(s, c);
    if i < |s.drives| && s.drives[i].path == c.devices[i].path && OriginOf(s, i).Some? {
      var id := OriginOf(s, i).value;
      if Resolve(Build(c), id).Some? {
        ResolveIs(Build(c), id, Resolve(Build(c), id).value);
      }
    }
  }

  // ---- rebuilds compose

  /** Same cartridges in the same places and the same Origins, on the same elements. */
  ghost predicate SamePlacement(s: Store, t: Store) {
    && SameElements(s, t) && s.outside == t.outside && s.offsite == t.offsite
    && (forall r :: Get(s, r) == Get(t, r))
    && (forall i :: 0 <= i < |s.drives| ==> s.drives[i].origin == t.drives[i].origin)
  }

  /** Whatever the last topology keeps, the one in between already knew: each occupied identity, and
      each drive (with its Origin) that carries an Origin the last topology still has. */
  ghost predicate KnewAll(s: Store, c1: Layout, c2: Layout) {
    && (forall id :: Has(c2, id) && Fetch(s, id).Some? ==> Has(c1, id))
    && (forall i :: 0 <= i < |c2.devices| && Keeps(s, c2, i) ==> Keeps(s, c1, i))
  }

  /** Drive i is carried onto c and its Origin's identity still exists there. */
  ghost predicate Keeps(s: Store, c: Layout, i: nat) {
    && i < |s.drives| && i < |c.devices| && s.drives[i].path == c.devices[i].path
    && Surviving(c, OriginOf(s, i)).Some?
  }

  lemma OriginEqualsIdentity(s: Store, c: Layout, t: Store, i: nat)
    requires OriginsAreSlots(s) && OriginsAreSlots(t) && i < |c.devices|
    ensures Rebuild(s, c).drives[i].origin == Rebuild(t, c).drives[i].origin
       <==> OriginOf(Rebuild(s, c), i) == OriginOf(Rebuild(t, c), i)
  {
    hide Get, Holds;
    ElementsOfRebuild(s, c);
    ElementsOfRebuild(t, c);
    RebuildOrigin(s, c, i);
    RebuildOrigin(t, c, i);
    forall id | Resolve(Build(c), id).Some? ensures Exists(Build(c), Resolve(Build(c), id).value) {
      ResolveIs(Build(c), id, Resolve(Build(c), id).value);
    }
    forall r, id | Resolve(Build(c), id) == Some(r) ensures IdentityOf(Build(c), r) == id {
      ResolveIs(Build(c), id, r);
    }
  }

  lemma ContentsCompose(s: Store, c1: Layout, c2: Layout)
    ensures (forall r :: Get(Rebuild(Rebuild(s, c1), c2), r) == Get(Rebuild(s, c2), r))
       <==> (forall id :: Has(c2, id) && Fetch(s, id).Some? ==> Has(c1, id))
  {
    hide Rebuild, Build, Get, Fetch;
    var t, t1 := Rebuild(s, c2), Rebuild(s, c1);
    var t2 := Rebuild(t1, c2);
    ElementsOfRebuild(s, c2);
    ElementsOfRebuild(t1, c2);
    if forall r :: Get(t2, r) == Get(t, r) {
      forall id | Has(c2, id) && Fetch(s, id).Some? ensures Has(c1, id) {
        var r := Resolve(Build(c2), id).value;
        ResolveIs(Build(c2), id, r);
        RebuildGet(s, c2, r);
        RebuildGet(t1, c2, r);
        FetchRebuild(s, c1, id);
        assert Get(t2, r) == Get(t, r);
      }
    }
    if forall id :: Has(c2, id) && Fetch(s, id).Some? ==> Has(c1, id) {
      forall r ensures Get(t2, r) == Get(t, r) {
        if Exists(Build(c2), r) {
          RebuildGet(s, c2, r);
          RebuildGet(t1, c2, r);
          var id := IdentityOf(Build(c2), r);
          ResolveIs(Build(c2), id, r);
          FetchRebuild(s, c1, id);
        } else {
          NothingThere(t, r);
          NothingThere(t2, r);
        }
      }
    }
  }

  lemma NothingThere(s: Store, r: Ref)
    requires !Exists(s, r)
    ensures Get(s, r) == None
  {
  }

  lemma OriginComposes(s: Store, c1: Layout, c2: Layout, i: nat)
    requires OriginsAreSlots(s) && i < |c2.devices|
    ensures Rebuild(Rebuild(s, c1), c2).drives[i].origin == Rebuild(s, c2).drives[i].origin
       <==> (Keeps(s, c2, i) ==> Keeps(s, c1, i))
  {
    hide Get, Resolve, Build;
    var t1 := Rebuild(s, c1);
    OriginsStaySlots(s, c1);
    OriginEqualsIdentity(t1, c2, s, i);
    OriginOfRebuild(s, c2, i);
    OriginOfRebuild(t1, c2, i);
    if i < |c1.devices| {
      OriginOfRebuild(s, c1, i);
    }
    DrivesOfRebuild(s, c1);
  }

  lemma DrivesOfRebuild(s: Store, c: Layout)
    ensures |Rebuild(s, c).drives| == |c.devices|
    ensures forall i :: 0 <= i < |c.devices| ==> Rebuild(s, c).drives[i].path == c.devices[i].path
  {
  }

  /** Going through c1 on the way to c2 is invisible exactly when c1 knew everything c2 keeps. */
  lemma RebuildsCompose(s: Store, c1: Layout, c2: Layout)
    requires OriginsAreSlots(s)
    ensures SamePlacement(Rebuild(Rebuild(s, c1), c2), Rebuild(s, c2)) <==> KnewAll(s, c1, c2)
  {
    hide Rebuild, Build, Get, Fetch, Has, Keeps;
    ContentsCompose(s, c1, c2);
    RebuildKeepsLists(s, c1);
    RebuildKeepsLists(s, c2);
    RebuildKeepsLists(Rebuild(s, c1), c2);
    RebuildHasElements(s, c2);
    RebuildHasElements(Rebuild(s, c1), c2);
    DrivesOfRebuild(s, c2);
    forall i: nat | i < |c2.devices|
      ensures Rebuild(Rebuild(s, c1), c2).drives[i].origin == Rebuild(s, c2).drives[i].origin
         <==> (Keeps(s, c2, i) ==> Keeps(s, c1, i))
    {
      OriginComposes(s, c1, c2, i);
    }
  }

  // ---- the same topology again

  /** The library runs on elements built from c. */
  ghost predicate BuiltFrom(s: Store, c: Layout) {
    WellAddressed(s) && SameElements(s, Build(c))
    && forall i :: 0 <= i < |s.drives| ==> s.drives[i].driveType == c.devices[i].driveType
  }

  ghost predicate OriginsExist(s: Store) {
    OriginsAreSlots(s)
    && forall i :: 0 <= i < |s.drives| && s.drives[i].origin.Some? ==> Exists(s, s.drives[i].origin.value)
  }

  lemma CarrySame(slots: seq<Slot>, made: seq<Slot>)
    requires SameUnits(slots, made)
    requires forall i :: 0 <= i < |slots| ==> slots[i].address == made[i].address
    ensures Carry(slots, made) == slots
  {
    KeysFollowUnits(slots, made);
    forall i | 0 <= i < |slots| ensures Carry(slots, made)[i] == slots[i] {
      FindIs(slots, KeyOf(made, i), i);
    }
  }

  lemma ShiftSame(s: Store, made: Store, o: Option<Ref>)
    requires SameElements(s, made) && (o.Some? ==> Exists(s, o.value))
    ensures ShiftOrigin(o, s, made) == o
  {
    KeysFollowUnits(s.slots, made.slots);
    KeysFollowUnits(s.ioslots, made.ioslots);
    match o {
      case Some(SlotRef(a)) => FindIs(s.slots, KeyOf(s.slots, a - 1), a - 1);
      case Some(IOSlotRef(a)) => FindIs(s.ioslots, KeyOf(s.ioslots, a - 1 - |s.slots|), a - 1 - |s.slots|);
      case _ =>
    }
  }

  /** Reconfiguring with an unchanged topology changes nothing at all. */
  lemma RebuildSame(s: Store, c: Layout)
    requires BuiltFrom(s, c) && OriginsExist(s)
    ensures Rebuild(s, c) == s
  {
    var made := Build(c);
    CarrySame(s.slots, made.slots);
    CarrySame(s.ioslots, made.ioslots);
    forall i | 0 <= i < |s.drives| ensures CarryDrive(s, made, i, true) == s.drives[i] {
      ShiftSame(s, made, s.drives[i].origin);
    }
    assert Rebuild(s, c).drives == s.drives;
  }

  /** Restoring a snapshot is a rebuild, except that it takes a drive's contents whatever its path. */
  lemma RestoreIsRebuild(s: Store, c: Layout)
    requires forall i :: 0 <= i < |s.drives| && i < |c.devices| ==> s.drives[i].path == c.devices[i].path
    ensures Restore(s, c) == Rebuild(s, c)
  {
    var made := Build(c);
    assert forall i: nat :: i < |made.drives| ==> CarryDrive(s, made, i, true) == CarryDrive(s, made, i, false);
    assert Restore(s, c).drives == Rebuild(s, c).drives;
  }
}
