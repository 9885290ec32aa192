/** The checks made before a magazine or mailbox is resized or deleted
    (internal/api/handlers_topology.go:500-632, 760-835), and what they are worth. */
module ResizeGuards {
  import opened Common
  import opened Placement
  import opened Topology
  import opened Rebuilding

  datatype Kind = Magazine | Mailbox

  datatype Verdict = Accepted | NotEmpty | VolumeOnDrive | DoorOpen

  function UnitsOf(c: Layout, k: Kind): seq<Unit> {
    if k == Magazine then c.magazines else c.mailboxes
  }

  function WithUnits(c: Layout, k: Kind, units: seq<Unit>): Layout {
    if k == Magazine then c.(magazines := units) else c.(mailboxes := units)
  }

  function SlotsOf(s: Store, k: Kind): seq<Slot> {
    if k == Magazine then s.slots else s.ioslots
  }

  function RefIn(k: Kind, address: int): Ref {
    if k == Magazine then SlotRef(address) else IOSlotRef(address)
  }

  ghost function IdentityIn(k: Kind, key: Key): Identity {
    if k == Magazine then InMagazine(key) else InMailbox(key)
  }

  ghost predicate DistinctIds(units: seq<Unit>) {
    forall i, j :: 0 <= i < j < |units| ==> units[i].id != units[j].id
  }

  function Resized(units: seq<Unit>, id: string, n: nat): (r: seq<Unit>)
    ensures |r| == |units|
    ensures forall i :: 0 <= i < |r| ==> r[i] == if units[i].id == id then Unit(id, n) else units[i]
  {
    seq(|units|, i requires 0 <= i < |units| => if units[i].id == id then Unit(id, n) else units[i])
  }

  function Removed(units: seq<Unit>, id: string): seq<Unit> {
    if units == [] then []
    else Removed(units[..|units| - 1], id) + if units[|units| - 1].id == id then [] else [units[|units| - 1]]
  }

  // ---- how many slots a unit has

  function Total(units: seq<Unit>, u: string, n: nat): nat
    requires n <= |units|
  {
    if n == 0 then 0 else Total(units, u, n - 1) + if units[n - 1].id == u then units[n - 1].size else 0
  }

  lemma {:induction false} CountRun(slots: seq<Slot>, u: string, m: nat, k: nat, id: string)
    requires m + k <= |slots| && forall i :: m <= i < m + k ==> slots[i].unit == id
    ensures Count(slots, u, m + k) == Count(slots, u, m) + if id == u then k else 0
  {
    if k > 0 {
      CountRun(slots, u, m, k - 1, id);
    }
  }

  lemma {:induction false} CountIsTotal(slots: seq<Slot>, units: seq<Unit>, u: string, n: nat)
    requires n <= |units| && |UnitsUpto(units, n)| <= |slots|
    requires forall i :: 0 <= i < |UnitsUpto(units, n)| ==> slots[i].unit == UnitsUpto(units, n)[i]
    ensures Count(slots, u, |UnitsUpto(units, n)|) == Total(units, u, n)
  {
    if n > 0 {
      var init, last := UnitsUpto(units, n - 1), units[n - 1];
      assert UnitsUpto(units, n) == init + seq(last.size, _ => last.id);
      forall i | 0 <= i < |init| ensures slots[i].unit == init[i] {
        assert UnitsUpto(units, n)[i] == init[i];
      }
      CountIsTotal(slots, units, u, n - 1);
      forall i | |init| <= i < |init| + last.size ensures slots[i].unit == last.id {
        assert UnitsUpto(units, n)[i] == last.id;
      }
      CountRun(slots, u, |init|, last.size, last.id);
    }
  }

  /** A topology has exactly the offsets 1 to the unit's size. */
  lemma HasIs(c: Layout, k: Kind, u: string, offset: nat)
    ensures Has(c, IdentityIn(k, Key(u, offset))) <==> 0 < offset <= Total(UnitsOf(c, k), u, |UnitsOf(c, k)|)
  {
    var units := UnitsOf(c, k);
    var slots := SlotsOf(Build(c), k);
    CountIsTotal(slots, units, u, |units|);
    OffsetsFill(slots, u, offset, |slots|);
  }

  lemma {:induction false} TotalResized(units: seq<Unit>, id: string, size: nat, u: string, n: nat)
    requires DistinctIds(units) && n <= |units|
    ensures Total(Resized(units, id, size), u, n)
         == if u == id && (exists i :: 0 <= i < n && units[i].id == id) then size else Total(units, u, n)
    ensures !(exists i :: 0 <= i < n && units[i].id == u) ==> Total(units, u, n) == 0
  {
    if n > 0 {
      TotalResized(units, id, size, u, n - 1);
      if units[n - 1].id == id {
        assert forall i :: 0 <= i < n - 1 ==> units[i].id != id;
      }
    }
  }

  lemma {:induction false} TotalRemoved(units: seq<Unit>, id: string, u: string)
    ensures Total(Removed(units, id), u, |Removed(units, id)|) == if u == id then 0 else Total(units, u, |units|)
  {
    if units != [] {
      var init := units[..|units| - 1];
      TotalRemoved(init, id, u);
      TotalPrefix(units, init, u, |init|);
      TotalPrefix(Removed(units, id), Removed(init, id), u, |Removed(init, id)|);
    }
  }

  lemma {:induction false} TotalPrefix(a: seq<Unit>, b: seq<Unit>, u: string, n: nat)
    requires n <= |a| && n <= |b| && a[..n] == b[..n]
    ensures Total(a, u, n) == Total(b, u, n)
  {
    if n > 0 {
      assert a[n - 1] == a[..n][n - 1] && b[n - 1] == b[..n][n - 1];
      assert a[..n - 1] == a[..n][..n - 1] && b[..n - 1] == b[..n][..n - 1];
      TotalPrefix(a, b, u, n - 1);
    }
  }

  // ---- losing nothing

  /** Every cartridge in an element, and every Origin, is still found at its identity. */
  ghost predicate Lossless(s: Store, t: Store) {
    && (forall r :: Get(s, r).Some? ==> Fetch(t, IdentityOf(s, r)) == Get(s, r))
    && (forall i :: OriginOf(s, i).Some? ==> OriginOf(t, i) == OriginOf(s, i))
  }

  /** Nothing sits in slot i, and no tape was loaded from it. */
  ghost predicate Unused(s: Store, k: Kind, i: nat)
    requires i < |SlotsOf(s, k)|
  {
    && SlotsOf(s, k)[i].vol == None
    && forall d :: 0 <= d < |s.drives| ==> s.drives[d].origin != Some(RefIn(k, SlotsOf(s, k)[i].address))
  }

  ghost predicate Dropped(c: Layout, s: Store, k: Kind, i: nat)
    requires i < |SlotsOf(s, k)|
  {
    !Has(c, IdentityIn(k, KeyOf(SlotsOf(s, k), i)))
  }

  lemma FetchBack(s: Store, r: Ref)
    requires Exists(s, r)
    ensures Fetch(s, IdentityOf(s, r)) == Get(s, r)
  {
    ResolveIs(s, IdentityOf(s, r), r);
  }

  lemma OtherIdentitiesStay(s: Store, c: Layout, k: Kind, units: seq<Unit>, id: Identity)
    requires BuiltFrom(s, c) && Resolve(s, id).Some?
    requires k == Magazine ==> !id.InMagazine?
    requires k == Mailbox ==> !id.InMailbox?
    ensures Has(WithUnits(c, k, units), id)
  {
    ResolveFollowsElements(s, Build(c));
    var c1 := WithUnits(c, k, units);
    match id {
      case InMagazine(_) => KeysFollowUnits(Build(c).slots, Build(c1).slots);
      case InMailbox(_) => KeysFollowUnits(Build(c).ioslots, Build(c1).ioslots);
      case InDrive(_, _) =>
    }
  }

  /** Changing one kind of unit loses nothing exactly when every dropped slot is unused. */
  lemma LosslessIs(s: Store, c: Layout, k: Kind, units: seq<Unit>)
    requires BuiltFrom(s, c) && OriginsExist(s)
    ensures Lossless(s, Rebuild(s, WithUnits(c, k, units)))
       <==> forall i: nat :: i < |SlotsOf(s, k)| && Dropped(WithUnits(c, k, units), s, k, i) ==> Unused(s, k, i)
  {
    hide Rebuild, Build, Fetch, Has;
    var c1 := WithUnits(c, k, units);
    var t := Rebuild(s, c1);
    if Lossless(s, t) {
      forall i: nat | i < |SlotsOf(s, k)| && Dropped(c1, s, k, i) ensures Unused(s, k, i) {
        DroppedIsUnused(s, c, k, units, i);
      }
    }
    if forall i: nat :: i < |SlotsOf(s, k)| && Dropped(c1, s, k, i) ==> Unused(s, k, i) {
      forall r | Get(s, r).Some? ensures Fetch(t, IdentityOf(s, r)) == Get(s, r) {
        FetchRebuild(s, c1, IdentityOf(s, r));
        FetchBack(s, r);
        UsedStays(s, c, k, units, r);
      }
      forall i | OriginOf(s, i).Some? ensures OriginOf(t, i) == OriginOf(s, i) {
        SameDevices(s, c, k, units);
        OriginOfRebuild(s, c1, i);
        UsedStays(s, c, k, units, s.drives[i].origin.value);
      }
    }
  }

  lemma SameDevices(s: Store, c: Layout, k: Kind, units: seq<Unit>)
    requires BuiltFrom(s, c)
    ensures |WithUnits(c, k, units).devices| == |s.drives|
    ensures forall i :: 0 <= i < |s.drives| ==> WithUnits(c, k, units).devices[i].path == s.drives[i].path
  {
  }

  /** An element that holds a cartridge or is an Origin keeps its identity if only unused slots go. */
  lemma UsedStays(s: Store, c: Layout, k: Kind, units: seq<Unit>, r: Ref)
    requires BuiltFrom(s, c) && Exists(s, r)
    requires Get(s, r).Some? || exists d :: 0 <= d < |s.drives| && s.drives[d].origin == Some(r)
    requires forall i: nat :: i < |SlotsOf(s, k)| && Dropped(WithUnits(c, k, units), s, k, i) ==> Unused(s, k, i)
    ensures Has(WithUnits(c, k, units), IdentityOf(s, r))
  {
    hide Build, Has;
    ResolveIs(s, IdentityOf(s, r), r);
    match r {
      case SlotRef(a) => if k == Magazine { assert !Unused(s, k, a - 1); }
          else { OtherIdentitiesStay(s, c, k, units, IdentityOf(s, r)); }
      case IOSlotRef(a) =>
        if k == Mailbox { assert !Unused(s, k, a - 1 - |s.slots|); }
            else { OtherIdentitiesStay(s, c, k, units, IdentityOf(s, r)); }
      case DriveRef(_) => OtherIdentitiesStay(s, c, k, units, IdentityOf(s, r));
    }
  }

  lemma DroppedIsUnused(s: Store, c: Layout, k: Kind, units: seq<Unit>, i: nat)
    requires BuiltFrom(s, c) && OriginsExist(s) && Lossless(s, Rebuild(s, WithUnits(c, k, units)))
    requires i < |SlotsOf(s, k)| && Dropped(WithUnits(c, k, units), s, k, i)
    ensures Unused(s, k, i)
  {
    hide Rebuild, Build, Has, Fetch;
    var c1 := WithUnits(c, k, units);
    var r := RefIn(k, SlotsOf(s, k)[i].address);
    FetchRebuild(s, c1, IdentityOf(s, r));
    assert Get(s, r) == SlotsOf(s, k)[i].vol;
    SameDevices(s, c, k, units);
    forall d | 0 <= d < |s.drives| ensures s.drives[d].origin != Some(r) {
      OriginOfRebuild(s, c1, d);
      assert OriginOf(s, d) != Some(IdentityOf(s, r));
    }
  }

  // ---- the guards

  /** What the resize handler refuses: the tail of the unit's slots, beyond its new size, in use. */
  ghost predicate TailUnused(s: Store, k: Kind, id: string, n: nat) {
    forall i: nat :: i < |SlotsOf(s, k)| && SlotsOf(s, k)[i].unit == id && KeyOf(SlotsOf(s, k), i).offset > n ==>
        Unused(s, k, i)
  }

  lemma ShrinkDropsTail(s: Store, c: Layout, k: Kind, id: string, n: nat, i: nat)
    requires BuiltFrom(s, c) && DistinctIds(UnitsOf(c, k)) && i < |SlotsOf(s, k)|
    ensures Dropped(WithUnits(c, k, Resized(UnitsOf(c, k), id, n)), s, k, i)
       <==> SlotsOf(s, k)[i].unit == id && KeyOf(SlotsOf(s, k), i).offset > n
  {
    hide Build, Has;
    var units, key := UnitsOf(c, k), KeyOf(SlotsOf(s, k), i);
    SlotIsBuilt(s, c, k, i);
    HasIs(c, k, key.unit, key.offset);
    HasIs(WithUnits(c, k, Resized(units, id, n)), k, key.unit, key.offset);
    TotalResized(units, id, n, key.unit, |units|);
  }

  lemma SlotIsBuilt(s: Store, c: Layout, k: Kind, i: nat)
    requires BuiltFrom(s, c) && i < |SlotsOf(s, k)|
    ensures Has(c, IdentityIn(k, KeyOf(SlotsOf(s, k), i)))
  {
    KeysFollowUnits(SlotsOf(s, k), SlotsOf(Build(c), k));
    FindIs(SlotsOf(s, k), KeyOf(SlotsOf(s, k), i), i);
  }

  /** A shrink loses nothing exactly when the handler's tail check passes. */
  lemma ShrinkIsLossless(s: Store, c: Layout, k: Kind, id: string, n: nat)
    requires BuiltFrom(s, c) && OriginsExist(s) && DistinctIds(UnitsOf(c, k))
    ensures Lossless(s, Rebuild(s, WithUnits(c, k, Resized(UnitsOf(c, k), id, n)))) <==> TailUnused(s, k, id, n)
  {
    hide Rebuild, Lossless, Unused, Dropped;
    var units := Resized(UnitsOf(c, k), id, n);
    LosslessIs(s, c, k, units);
    forall i: nat | i < |SlotsOf(s, k)|
      ensures Dropped(WithUnits(c, k, units), s, k, i)
         <==> SlotsOf(s, k)[i].unit == id && KeyOf(SlotsOf(s, k), i).offset > n
    {
      ShrinkDropsTail(s, c, k, id, n, i);
    }
  }

  lemma DeleteDropsAll(s: Store, c: Layout, k: Kind, id: string, i: nat)
    requires BuiltFrom(s, c) && i < |SlotsOf(s, k)|
    ensures Dropped(WithUnits(c, k, Removed(UnitsOf(c, k), id)), s, k, i) <==> SlotsOf(s, k)[i].unit == id
  {
    hide Build, Has;
    var units, key := UnitsOf(c, k), KeyOf(SlotsOf(s, k), i);
    SlotIsBuilt(s, c, k, i);
    HasIs(c, k, key.unit, key.offset);
    HasIs(WithUnits(c, k, Removed(units, id)), k, key.unit, key.offset);
    TotalRemoved(units, id, key.unit);
  }

  /** A delete loses nothing exactly when the handler finds no slot of the unit in use. */
  lemma DeleteIsLossless(s: Store, c: Layout, k: Kind, id: string)
    requires BuiltFrom(s, c) && OriginsExist(s)
    ensures Lossless(s, Rebuild(s, WithUnits(c, k, Removed(UnitsOf(c, k), id)))) <==> TailUnused(s, k, id, 0)
  {
    hide Rebuild, Lossless, Unused, Dropped;
    var units := Removed(UnitsOf(c, k), id);
    LosslessIs(s, c, k, units);
    forall i: nat | i < |SlotsOf(s, k)|
      ensures Dropped(WithUnits(c, k, units), s, k, i) <==> SlotsOf(s, k)[i].unit == id
    {
      DeleteDropsAll(s, c, k, id, i);
    }
    OffsetsPositive(SlotsOf(s, k));
  }

  lemma OffsetsPositive(slots: seq<Slot>)
    ensures forall i: nat :: i < |slots| ==> KeyOf(slots, i).offset > 0
  {
  }

  // ---- the handlers' loops

  /** The slots of one unit among the first n, in list order. */
  function Members(slots: seq<Slot>, id: string, n: nat): seq<Slot>
    requires n <= |slots|
  {
    if n == 0 then []
    else Members(slots, id, n - 1) + if slots[n - 1].unit == id then [slots[n - 1]] else []
  }

  /** A slot's place in its unit's list is its offset: cutting the list at n removes offsets above n. */
  lemma {:induction false} MemberAt(slots: seq<Slot>, id: string, n: nat)
    requires n <= |slots|
    ensures |Members(slots, id, n)| == Count(slots, id, n)
    ensures forall i: nat :: i < n && slots[i].unit == id ==>
              0 < Count(slots, id, i + 1) <= |Members(slots, id, n)|
              && Members(slots, id, n)[Count(slots, id, i + 1) - 1] == slots[i]
    ensures forall j: nat :: j < |Members(slots, id, n)| ==> MemberOf(slots, id, n, j)
  {
    if n > 0 {
      MemberAt(slots, id, n - 1);
      forall j: nat | j < |Members(slots, id, n)| ensures MemberOf(slots, id, n, j) {
        if j < |Members(slots, id, n - 1)| {
          assert MemberOf(slots, id, n - 1, j);
        }
      }
    }
  }

  ghost predicate MemberOf(slots: seq<Slot>, id: string, n: nat, j: nat)
    requires n <= |slots| && j < |Members(slots, id, n)|
  {
    exists i: nat :: i < n && slots[i].unit == id && Count(slots, id, i + 1) == j + 1
        && Members(slots, id, n)[j] == slots[i]
  }

  method SlotsIn(slots: seq<Slot>, id: string) returns (members: seq<Slot>)
    ensures members == Members(slots, id, |slots|)
  {
    members := [];
    for i := 0 to |slots|
      invariant members == Members(slots, id, i)
    {
      if slots[i].unit == id {
        members := members + [slots[i]];
      }
    }
  }

  method OriginIn(k: Kind, drives: seq<Drive>, slots: seq<Slot>) returns (found: bool)
    ensures found <==> exists d, j :: 0 <= d < |drives| && 0 <= j < |slots|
                                      && drives[d].origin == Some(RefIn(k, slots[j].address))
  {
    var addresses: set<int> := {};
    for j := 0 to |slots|
      invariant addresses == set i | 0 <= i < j :: slots[i].address
    {
      addresses := addresses + {slots[j].address};
    }
    for d := 0 to |drives|
      invariant forall e, j :: 0 <= e < d && 0 <= j < |slots| ==> drives[e].origin != Some(RefIn(k, slots[j].address))
    {
      var o := drives[d].origin;
      if o.Some? && (if k == Magazine then o.value.SlotRef? else o.value.IOSlotRef?) && o.value.address in addresses {
        return true;
      }
    }
    found := false;
  }

  ghost predicate AllUnused(s: Store, k: Kind, removed: seq<Slot>) {
    && (forall j :: 0 <= j < |removed| ==> removed[j].vol == None)
    && forall d, j :: 0 <= d < |s.drives| && 0 <= j < |removed| ==>
        s.drives[d].origin != Some(RefIn(k, removed[j].address))
  }

  lemma TailIsRemoved(s: Store, k: Kind, id: string, n: nat)
    ensures var current := Members(SlotsOf(s, k), id, |SlotsOf(s, k)|);
            TailUnused(s, k, id, n) <==> n >= |current| || AllUnused(s, k, current[n..])
  {
    var slots := SlotsOf(s, k);
    var current := Members(slots, id, |slots|);
    MemberAt(slots, id, |slots|);
    if n < |current| {
      var removed := current[n..];
      if TailUnused(s, k, id, n) {
        forall j | 0 <= j < |removed|
          ensures removed[j].vol == None
          ensures forall d :: 0 <= d < |s.drives| ==> s.drives[d].origin != Some(RefIn(k, removed[j].address))
        {
          assert MemberOf(slots, id, |slots|, n + j);
        }
      }
      if AllUnused(s, k, removed) {
        forall i: nat | i < |slots| && slots[i].unit == id && KeyOf(slots, i).offset > n ensures Unused(s, k, i) {
          assert removed[KeyOf(slots, i).offset - 1 - n] == slots[i];
        }
      }
    }
  }

  /** Some slot of the unit beyond offset n holds a volume. */
  ghost predicate TailFull(s: Store, k: Kind, id: string, n: nat) {
    exists i: nat :: i < |SlotsOf(s, k)| && SlotsOf(s, k)[i].unit == id && KeyOf(SlotsOf(s, k), i).offset > n
      && SlotsOf(s, k)[i].vol.Some?
  }

  lemma TailFullIs(s: Store, k: Kind, id: string, n: nat)
    ensures var current := Members(SlotsOf(s, k), id, |SlotsOf(s, k)|);
            TailFull(s, k, id, n) <==> n < |current| && exists j :: 0 <= j < |current[n..]| && current[n..][j].vol.Some?
  {
    var slots := SlotsOf(s, k);
    var current := Members(slots, id, |slots|);
    MemberAt(slots, id, |slots|);
    if i: nat :| i < |slots| && slots[i].unit == id && KeyOf(slots, i).offset > n && slots[i].vol.Some? {
      assert current[n..][KeyOf(slots, i).offset - 1 - n] == slots[i];
    }
    if n < |current| {
      if j :| 0 <= j < |current[n..]| && current[n..][j].vol.Some? {
        assert MemberOf(slots, id, |slots|, n + j);
      }
    }
  }

  method CheckRemoved(s: Store, k: Kind, removed: seq<Slot>) returns (v: Verdict)
    ensures v == Accepted <==> AllUnused(s, k, removed)
    ensures v == NotEmpty <==> exists j :: 0 <= j < |removed| && removed[j].vol.Some?
    ensures v != DoorOpen
  {
    for j := 0 to |removed|
      invariant forall i :: 0 <= i < j ==> removed[i].vol == None
    {
      if removed[j].vol.Some? {
        return NotEmpty;
      }
    }
    var out := OriginIn(k, s.drives, removed);
    v := if out then VolumeOnDrive else Accepted;
  }

  /** The resize handlers' guard: it accepts exactly the sizes that lose nothing. */
  method GuardUpdate(s: Store, k: Kind, id: string, n: nat, ghost c: Layout) returns (v: Verdict)
    requires BuiltFrom(s, c) && OriginsExist(s) && DistinctIds(UnitsOf(c, k))
    ensures v == Accepted <==> Lossless(s, Rebuild(s, WithUnits(c, k, Resized(UnitsOf(c, k), id, n))))
    ensures v == NotEmpty <==> TailFull(s, k, id, n)
    ensures v in {Accepted, NotEmpty, VolumeOnDrive}
  {
    var current := SlotsIn(SlotsOf(s, k), id);
    v := Accepted;
    if n < |current| {
      v := CheckRemoved(s, k, current[n..]);
    }
    ShrinkIsLossless(s, c, k, id, n);
    TailIsRemoved(s, k, id, n);
    TailFullIs(s, k, id, n);
  }

  /** The delete handlers' guard: it also refuses an open door. */
  method GuardDelete(s: Store, k: Kind, id: string, openUnits: set<string>, ghost c: Layout) returns (v: Verdict)
    requires BuiltFrom(s, c) && OriginsExist(s)
    ensures v == Accepted <==>
            id !in openUnits && Lossless(s, Rebuild(s, WithUnits(c, k, Removed(UnitsOf(c, k), id))))
    ensures v == NotEmpty <==> TailFull(s, k, id, 0)
    ensures v == DoorOpen <==>
            id in openUnits && Lossless(s, Rebuild(s, WithUnits(c, k, Removed(UnitsOf(c, k), id))))
  {
    var members := SlotsIn(SlotsOf(s, k), id);
    v := CheckRemoved(s, k, members);
    DeleteIsLossless(s, c, k, id);
    TailIsRemoved(s, k, id, 0);
    TailFullIs(s, k, id, 0);
    assert members[0..] == members;
    if v == Accepted && id in openUnits {
      v := DoorOpen;
    }
  }
}
