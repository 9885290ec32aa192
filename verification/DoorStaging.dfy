/** A door-close batch as it runs: a map of slot contents and a map of the outside list by barcode,
    changed action by action, then written back (internal/library/library.go:2199-2362). */
module DoorStaging {
  import opened Common
  import opened Placement
  import opened LibraryState
  import opened Sorting
  import opened Transfers
  import opened Batches

  /** The maps say what the store says: contents by address, and the outside list by barcode. */
  ghost predicate Staged(vols: seq<Volume>, door: Door, t: Store, contents: map<int, Option<Cartridge>>,
                         out: map<string, Cartridge>) {
    StagedSlots(SlotsBehind(t, door), contents) && StagedOutside(vols, t.outside, out)
  }

  ghost predicate StagedSlots(slots: seq<Slot>, contents: map<int, Option<Cartridge>>) {
    forall i :: 0 <= i < |slots| ==> slots[i].address in contents && contents[slots[i].address] == slots[i].vol
  }

  ghost predicate StagedOutside(vols: seq<Volume>, outside: seq<Cartridge>, out: map<string, Cartridge>) {
    && (forall b :: b in out ==> out[b] in outside && BarcodeOf(vols, out[b]) == b)
    && (forall v :: v in outside ==> BarcodeOf(vols, v) in out && out[BarcodeOf(vols, v)] == v)
  }

  /** Cartridges outside are known, listed once, and have distinct barcodes. */
  ghost predicate Tidy(vols: seq<Volume>, s: Store) {
    && WellAddressed(s) && NoDuplicates(s.outside)
    && (forall v :: v in s.outside ==> v < |vols|)
    && (forall u, v :: u in s.outside && v in s.outside && BarcodeOf(vols, u) == BarcodeOf(vols, v) ==> u == v)
  }

  lemma PlacedIsTidy(vols: seq<Volume>, s: Store, w: Where)
    requires Represents(s, w) && Distinct(vols, w) && WellAddressed(s)
    ensures Tidy(vols, s)
  {
    assert forall v :: v in s.outside ==> Holds(s, Outside, v);
  }

  lemma ShapeKeepsAddresses(s: Store, t: Store)
    requires SameShape(s, t) && WellAddressed(s)
    ensures WellAddressed(t)
  {
  }

  // ---- one action on the maps

  lemma FoundOutside(vols: seq<Volume>, door: Door, t: Store, contents: map<int, Option<Cartridge>>,
                     out: map<string, Cartridge>, b: string)
    requires Tidy(vols, t) && Staged(vols, door, t, contents, out)
    ensures FindBarcode(vols, t.outside, b) == if b in out then Some(out[b]) else None
  {
    FindBarcodeIs(vols, t.outside, b);
    if b in out {
      assert out[b] in t.outside && out[b] < |vols|;
    }
  }

  lemma ContentsAt(vols: seq<Volume>, door: Door, t: Store, contents: map<int, Option<Cartridge>>,
                   out: map<string, Cartridge>, address: int)
    requires WellAddressed(t) && Staged(vols, door, t, contents, out) && Behind(t, door, address)
    ensures Exists(t, RefBehind(door, address)) && address in contents
            && contents[address] == Get(t, RefBehind(door, address))
  {
    var i := if door.MagazineDoor? then address - 1 else address - 1 - |t.slots|;
    assert SlotsBehind(t, door)[i].address == address;
  }

  /** Where a slot behind the door stands in its list. */
  function PositionOf(t: Store, door: Door, address: int): int {
    if door.MagazineDoor? then address - 1 else address - 1 - |t.slots|
  }

  lemma ShiftIn(t: Store, door: Door, address: int, v: Cartridge)
    requires Behind(t, door, address)
    ensures var u, k, slots := Shift(t, v, Outside, At(RefBehind(door, address))), PositionOf(t, door, address),
            SlotsBehind(t, door);
            0 <= k < |slots| && SlotsBehind(u, door) == slots[k := slots[k].(vol := Some(v))]
                && u.outside == Without(t.outside, v)
  {
  }

  lemma ShiftOut(t: Store, door: Door, address: int, v: Cartridge)
    requires Behind(t, door, address)
    ensures var u, k, slots := Shift(t, v, At(RefBehind(door, address)), Outside), PositionOf(t, door, address),
            SlotsBehind(t, door);
            0 <= k < |slots| && SlotsBehind(u, door) == slots[k := slots[k].(vol := None)]
                && u.outside == t.outside + [v]
  {
  }

  lemma SlotsStaged(slots: seq<Slot>, contents: map<int, Option<Cartridge>>, k: int, vol: Option<Cartridge>)
    requires StagedSlots(slots, contents) && 0 <= k < |slots|
    requires forall i, j :: 0 <= i < j < |slots| ==> slots[i].address != slots[j].address
    ensures StagedSlots(slots[k := slots[k].(vol := vol)], contents[slots[k].address := vol])
  {
  }

  lemma LoadStaged(vols: seq<Volume>, door: Door, t: Store, contents: map<int, Option<Cartridge>>,
                   out: map<string, Cartridge>,
                   address: int, b: string)
    requires Tidy(vols, t) && Staged(vols, door, t, contents, out) && Behind(t, door, address) && b in out
    ensures Staged(vols, door, Shift(t, out[b], Outside, At(RefBehind(door, address))),
            contents[address := Some(out[b])], out - {b})
  {
    hide Shift;
    ShiftIn(t, door, address, out[b]);
    AddressesDiffer(t, door);
    SlotsStaged(SlotsBehind(t, door), contents, PositionOf(t, door, address), Some(out[b]));
    WithoutIs(t.outside, out[b]);
  }

  lemma PickupStaged(vols: seq<Volume>, door: Door, t: Store, contents: map<int, Option<Cartridge>>,
                     out: map<string, Cartridge>,
                     address: int, v: Cartridge)
    requires Tidy(vols, t) && Staged(vols, door, t, contents, out) && Behind(t, door, address)
             && BarcodeOf(vols, v) !in out
    ensures Staged(vols, door, Shift(t, v, At(RefBehind(door, address)), Outside), contents[address := None],
            out[BarcodeOf(vols, v) := v])
  {
    hide Shift;
    ShiftOut(t, door, address, v);
    AddressesDiffer(t, door);
    SlotsStaged(SlotsBehind(t, door), contents, PositionOf(t, door, address), None);
    assert forall x :: x in t.outside + [v] <==> x in t.outside || x == v;
  }

  /** Scans for the slot at an address and compares its unit with the door's. */
  method BelongsBehind(s: Store, door: Door, address: int) returns (ok: bool)
    requires WellAddressed(s)
    ensures ok == Behind(s, door, address)
  {
    var slots := SlotsBehind(s, door);
    var before := if door.MagazineDoor? then 0 else |s.slots|;
    for i := 0 to |slots|
      invariant !(before < address <= before + i)
    {
      if slots[i].address == address {
        return slots[i].unit == door.id;
      }
    }
    ok := false;
  }

  /** One staged action: refused, or applied to the maps. */
  method StageAction(vols: seq<Volume>, door: Door, s: Store, a: DoorAction, contents: map<int, Option<Cartridge>>,
                     out: map<string, Cartridge>, ghost t: Store)
    returns (ok: bool, contents1: map<int, Option<Cartridge>>, out1: map<string, Cartridge>)
    requires Tidy(vols, t) && WellAddressed(s) && SameShape(s, t) && Staged(vols, door, t, contents, out)
    ensures ok == ActionEvent(vols, door, t, a).Some?
    ensures ok ==> var e := ActionEvent(vols, door, t, a).value;
                   e.Transferred? && Staged(vols, door, Shift(t, e.v, e.src, e.dst), contents1, out1)
  {
    ok, contents1, out1 := false, contents, out;
    if a.kind == UnknownAction || (a.kind == LoadAction && a.barcode == "") {
      return;
    }
    var belongs := BelongsBehind(s, door, a.address);
    BehindFollowsShape(s, t, door, a.address);
    if !belongs {
      return;
    }
    ContentsAt(vols, door, t, contents, out, a.address);
    if a.kind == LoadAction {
      FoundOutside(vols, door, t, contents, out, a.barcode);
      if a.barcode !in out || contents[a.address].Some? {
        return;
      }
      LoadStaged(vols, door, t, contents, out, a.address, a.barcode);
      return true, contents[a.address := Some(out[a.barcode])], out - {a.barcode};
    }
    if contents[a.address].None? {
      return;
    }
    var v := contents[a.address].value;
    FoundOutside(vols, door, t, contents, out, BarcodeOf(vols, v));
    if BarcodeOf(vols, v) in out {
      return;
    }
    PickupStaged(vols, door, t, contents, out, a.address, v);
    return true, contents[a.address := None], out[BarcodeOf(vols, v) := v];
  }

  // ---- the whole batch

  method ContentsOf(slots: seq<Slot>) returns (contents: map<int, Option<Cartridge>>)
    requires forall i, j :: 0 <= i < j < |slots| ==> slots[i].address != slots[j].address
    ensures StagedSlots(slots, contents)
  {
    contents := map[];
    for i := 0 to |slots|
      invariant forall j :: 0 <= j < i ==> slots[j].address in contents && contents[slots[j].address] == slots[j].vol
    {
      contents := contents[slots[i].address := slots[i].vol];
    }
  }

  method ByBarcode(vols: seq<Volume>, list: seq<Cartridge>) returns (out: map<string, Cartridge>)
    requires forall u, v :: u in list && v in list && BarcodeOf(vols, u) == BarcodeOf(vols, v) ==> u == v
    ensures StagedOutside(vols, list, out)
  {
    out := map[];
    for i := 0 to |list|
      invariant forall b :: b in out ==> out[b] in list && BarcodeOf(vols, out[b]) == b
      invariant forall j :: 0 <= j < i ==> BarcodeOf(vols, list[j]) in out && out[BarcodeOf(vols, list[j])] == list[j]
    {
      assert list[i] in list;
      out := out[BarcodeOf(vols, list[i]) := list[i]];
    }
  }

  lemma AddressesDiffer(s: Store, door: Door)
    requires WellAddressed(s)
    ensures forall i, j :: 0 <= i < j < |SlotsBehind(s, door)| ==>
            SlotsBehind(s, door)[i].address != SlotsBehind(s, door)[j].address
  {
  }

  lemma OneMoreAction(vols: seq<Volume>, door: Door, s: Store, actions: seq<DoorAction>, k: nat)
    requires k < |actions| && ApplyActions(vols, door, s, actions[..k]).Accepted?
    ensures var b := ApplyActions(vols, door, s, actions[..k]);
            match ActionEvent(vols, door, b.store, actions[k])
            case Some(Transferred(v, src, dst)) =>
              ApplyActions(vols, door, s, actions[..k + 1])
                  == Accepted(Shift(b.store, v, src, dst), b.events + [Transferred(v, src, dst)])
            case _ => ApplyActions(vols, door, s, actions[..k + 1]).Refused?
  {
    assert actions[..k + 1][..k] == actions[..k];
  }

  lemma {:induction false} RefusedStays(vols: seq<Volume>, door: Door, s: Store, actions: seq<DoorAction>, k: nat)
    requires k <= |actions| && ApplyActions(vols, door, s, actions[..k]).Refused?
    ensures ApplyActions(vols, door, s, actions).Refused?
    decreases |actions| - k
  {
    if k < |actions| {
      assert actions[..k + 1][..k] == actions[..k];
      RefusedStays(vols, door, s, actions, k + 1);
    } else {
      assert actions[..k] == actions;
    }
  }

  /** All staged actions on the maps: the same verdict and the same outcome as one by one on the store. */
  method StageAll(vols: seq<Volume>, door: Door, s: Store, actions: seq<DoorAction>, ghost w: Where)
    returns (ok: bool, contents: map<int, Option<Cartridge>>, out: map<string, Cartridge>)
    requires WellAddressed(s) && Represents(s, w) && Distinct(vols, w)
    ensures ok == ApplyActions(vols, door, s, actions).Accepted?
    ensures ok ==> Staged(vols, door, ApplyActions(vols, door, s, actions).store, contents, out)
  {
    hide ActionEvent, Shift, Represents, ApplyActions, StagedSlots, StagedOutside, Tidy, Distinct;
    PlacedIsTidy(vols, s, w);
    AddressesDiffer(s, door);
    contents := ContentsOf(SlotsBehind(s, door));
    TidyBarcodes(vols, s);
    out := ByBarcode(vols, s.outside);
    NothingStaged(vols, door, s, actions);
    ok := true;
    for k := 0 to |actions|
      invariant ok && ApplyActions(vols, door, s, actions[..k]).Accepted?
      invariant Staged(vols, door, ApplyActions(vols, door, s, actions[..k]).store, contents, out)
    {
      ghost var t := ApplyActions(vols, door, s, actions[..k]).store;
      BatchStateTidy(vols, door, s, w, actions[..k]);
      ok, contents, out := StageAction(vols, door, s, actions[k], contents, out, t);
      OneMoreAction(vols, door, s, actions, k);
      if !ok {
        RefusedStays(vols, door, s, actions, k + 1);
        return;
      }
    }
    assert actions[..|actions|] == actions;
  }

  lemma TidyBarcodes(vols: seq<Volume>, s: Store)
    requires Tidy(vols, s)
    ensures forall u, v :: u in s.outside && v in s.outside && BarcodeOf(vols, u) == BarcodeOf(vols, v) ==> u == v
  {
  }

  lemma NothingStaged(vols: seq<Volume>, door: Door, s: Store, actions: seq<DoorAction>)
    ensures ApplyActions(vols, door, s, actions[..0]) == Accepted(s, [])
  {
  }

  lemma BatchStateTidy(vols: seq<Volume>, door: Door, s: Store, w: Where, actions: seq<DoorAction>)
    requires WellAddressed(s) && Represents(s, w) && Distinct(vols, w) && ApplyActions(vols, door, s, actions).Accepted?
    ensures Tidy(vols, ApplyActions(vols, door, s, actions).store)
            && SameShape(s, ApplyActions(vols, door, s, actions).store)
  {
    hide ApplyActions, Represents, Tidy, SameShape, WellAddressed;
    var b := ApplyActions(vols, door, s, actions);
    ActionsTransfer(vols, door, s, w, actions);
    MatchedTransfers(vols, door, actions, b.events);
    TransfersConserve(w, b.events);
    DistinctWithoutMore(vols, w, Replay(w, b.events));
    ShapeKeepsAddresses(s, b.store);
    PlacedIsTidy(vols, b.store, Replay(w, b.events));
  }

  lemma MatchedTransfers(vols: seq<Volume>, door: Door, actions: seq<DoorAction>, events: seq<Event>)
    requires MatchesActions(vols, door, actions, events)
    ensures forall e :: e in events ==> e.Transferred?
  {
    forall i | 0 <= i < |events| ensures events[i].Transferred? {
      assert MatchesAction(vols, door, actions[i], events[i]);
    }
  }

  // ---- writing back

  method WriteBack(slots: seq<Slot>, contents: map<int, Option<Cartridge>>) returns (r: seq<Slot>)
    requires forall i :: 0 <= i < |slots| ==> slots[i].address in contents
    ensures |r| == |slots| && forall i :: 0 <= i < |r| ==> r[i] == slots[i].(vol := contents[slots[i].address])
  {
    r := [];
    for i := 0 to |slots|
      invariant |r| == i && forall j :: 0 <= j < i ==> r[j] == slots[j].(vol := contents[slots[j].address])
    {
      r := r + [slots[i].(vol := contents[slots[i].address])];
    }
  }

  lemma {:induction false} LessTotal(a: string, b: string)
    requires !StringLess(a, b) && !StringLess(b, a)
    ensures a == b
  {
    if a != "" && b != "" {
      LessTotal(a[1..], b[1..]);
      assert a == [a[0]] + a[1..] && b == [b[0]] + b[1..];
    }
  }

  /** With distinct barcodes there is one sorted list only: the map's random order does not show. */
  lemma {:induction false} SortedIsUnique(vols: seq<Volume>, a: seq<Cartridge>, b: seq<Cartridge>)
    requires SortedByBarcode(vols, a) && SortedByBarcode(vols, b) && multiset(a) == multiset(b)
    requires forall u, v :: u in a && v in a && BarcodeOf(vols, u) == BarcodeOf(vols, v) ==> u == v
    ensures a == b
  {
    hide SortedByBarcode, BarcodeOf;
    assert |a| == |multiset(a)| && |b| == |multiset(b)|;
    if a != [] {
      SameHead(vols, a, b);
      TailOf(vols, a);
      TailOf(vols, b);
      SortedIsUnique(vols, a[1..], b[1..]);
    }
  }

  lemma TailOf(vols: seq<Volume>, a: seq<Cartridge>)
    requires SortedByBarcode(vols, a) && a != []
    ensures SortedByBarcode(vols, a[1..]) && a == [a[0]] + a[1..] && multiset(a[1..]) == multiset(a) - multiset{a[0]}
    ensures forall v :: v in a[1..] ==> v in a
  {
    assert a == [a[0]] + a[1..];
  }

  lemma SameHead(vols: seq<Volume>, a: seq<Cartridge>, b: seq<Cartridge>)
    requires |a| > 0 && |b| > 0 && SortedByBarcode(vols, a) && SortedByBarcode(vols, b) && multiset(a) == multiset(b)
    requires forall u, v :: u in a && v in a && BarcodeOf(vols, u) == BarcodeOf(vols, v) ==> u == v
    ensures a[0] == b[0]
  {
    assert a[0] in multiset(a) && b[0] in multiset(b);
    assert a[0] in multiset(b) && b[0] in multiset(a);
    var i :| 0 <= i < |b| && b[i] == a[0];
    var j :| 0 <= j < |a| && a[j] == b[0];
    if i > 0 && j > 0 {
      LessTotal(BarcodeOf(vols, a[0]), BarcodeOf(vols, b[0]));
    }
  }

  /** `r` holds, sorted and once each, the listed cartridges whose barcodes are no longer in `rest`. */
  ghost predicate Gathered(vols: seq<Volume>, list: seq<Cartridge>, out: map<string, Cartridge>,
                           rest: map<string, Cartridge>, r: seq<Cartridge>) {
    && SortedByBarcode(vols, r)
    && (forall b :: b in rest ==> b in out && rest[b] == out[b])
    && (forall v :: v in multiset(r) <==> v in list && BarcodeOf(vols, v) !in rest)
    && (forall v :: multiset(r)[v] <= 1)
  }

  lemma GatherOne(vols: seq<Volume>, list: seq<Cartridge>, out: map<string, Cartridge>, rest: map<string, Cartridge>,
                  r: seq<Cartridge>, b: string)
    requires Gathered(vols, list, out, rest, r) && StagedOutside(vols, list, out) && b in rest
    ensures Gathered(vols, list, out, rest - {b}, InsertBy(rest[b], r, BarcodeLess(vols)))
  {
    hide InsertBy;
    var v, r1 := rest[b], InsertBy(rest[b], r, BarcodeLess(vols));
    BarcodesOrder(vols);
    InsertByIs(v, r, BarcodeLess(vols));
    assert BarcodeOf(vols, v) == b && v in list;
    forall x ensures x in multiset(r1) <==> x in list && BarcodeOf(vols, x) !in rest - {b} {
      assert x in multiset(r1) <==> x in multiset(r) || x == v;
      assert x in list && BarcodeOf(vols, x) == b ==> x == v;
    }
    assert v !in multiset(r);
    forall x ensures multiset(r1)[x] <= 1 {
      assert multiset(r1)[x] == multiset(r)[x] + if x == v then 1 else 0;
    }
  }

  lemma GatheredAll(vols: seq<Volume>, list: seq<Cartridge>, out: map<string, Cartridge>, r: seq<Cartridge>)
    requires Gathered(vols, list, out, map[], r) && StagedOutside(vols, list, out) && NoDuplicates(list)
    ensures r == SortByBarcode(vols, list)
  {
    hide SortByBarcode, SortedByBarcode;
    SortIs(vols, list);
    OncesAreNoDuplicates(list);
    SameMembers(r, list);
    assert forall v :: v in r ==> v in multiset(r);
    SortedIsUnique(vols, r, SortByBarcode(vols, list));
  }

  /** The outside list rebuilt from the map, in whatever order, and sorted by barcode. */
  method OutsideFrom(vols: seq<Volume>, out: map<string, Cartridge>, ghost list: seq<Cartridge>)
    returns (r: seq<Cartridge>)
    requires NoDuplicates(list) && StagedOutside(vols, list, out)
    ensures r == SortByBarcode(vols, list)
  {
    r := [];
    var rest := out;
    while rest != map[]
      invariant Gathered(vols, list, out, rest, r)
      decreases |rest|
    {
      var b: string :| b in rest;
      GatherOne(vols, list, out, rest, r, b);
      r := InsertBy(rest[b], r, BarcodeLess(vols));
      rest := rest - {b};
    }
    GatheredAll(vols, list, out, r);
  }

  lemma SameMembers(a: seq<Cartridge>, b: seq<Cartridge>)
    requires forall v :: multiset(a)[v] <= 1
    requires forall v :: multiset(b)[v] <= 1
    requires forall v :: v in multiset(a) <==> v in b
    ensures multiset(a) == multiset(b)
  {
    forall v ensures multiset(a)[v] == multiset(b)[v] {
      assert v in multiset(a) <==> v in multiset(b);
    }
  }

  /** The close of a door on the library's lists: exactly the actions in order, then the sort; or no change. */
  method RunBatch(vols: seq<Volume>, door: Door, s: Store, actions: seq<DoorAction>, ghost w: Where)
    returns (ok: bool, t: Store)
    requires WellAddressed(s) && Represents(s, w) && Distinct(vols, w)
    ensures ok == CloseBatch(vols, door, s, actions).Accepted?
    ensures ok ==> t == CloseBatch(vols, door, s, actions).store
    ensures !ok ==> t == s
  {
    hide ApplyActions, Represents, Distinct;
    t := s;
    var contents: map<int, Option<Cartridge>>, out: map<string, Cartridge>;
    ok, contents, out := StageAll(vols, door, s, actions, w);
    if ok {
      ghost var u := ApplyActions(vols, door, s, actions).store;
      BatchStateTidy(vols, door, s, w, actions);
      BatchKeepsRest(vols, door, s, actions);
      SameBehind(s, u, door);
      var slots := WriteBack(SlotsBehind(s, door), contents);
      var outside := OutsideFrom(vols, out, u.outside);
      assert slots == SlotsBehind(u, door);
      t := if door.MagazineDoor? then s.(slots := slots, outside := outside)
          else s.(ioslots := slots, outside := outside);
    }
  }

  lemma SameBehind(s: Store, u: Store, door: Door)
    requires SameShape(s, u)
    ensures |SlotsBehind(s, door)| == |SlotsBehind(u, door)|
    ensures forall i :: 0 <= i < |SlotsBehind(s, door)| ==>
              SlotsBehind(s, door)[i].(vol := SlotsBehind(u, door)[i].vol) == SlotsBehind(u, door)[i]
              && SlotsBehind(s, door)[i].address == SlotsBehind(u, door)[i].address
  {
  }

  lemma {:induction false} BatchKeepsRest(vols: seq<Volume>, door: Door, s: Store, actions: seq<DoorAction>)
    requires ApplyActions(vols, door, s, actions).Accepted?
    ensures var u := ApplyActions(vols, door, s, actions).store;
            && u.drives == s.drives && u.offsite == s.offsite
            && (door.MagazineDoor? ==> u.ioslots == s.ioslots) && (door.MailboxDoor? ==> u.slots == s.slots)
  {
    hide ActionEvent, Shift;
    if actions != [] {
      var init, a := actions[..|actions| - 1], actions[|actions| - 1];
      BatchKeepsRest(vols, door, s, init);
      var t := ApplyActions(vols, door, s, init).store;
      ActionKeepsRest(vols, door, t, a);
    }
  }

  lemma ActionKeepsRest(vols: seq<Volume>, door: Door, t: Store, a: DoorAction)
    requires ActionEvent(vols, door, t, a).Some?
    ensures var e := ActionEvent(vols, door, t, a).value;
            && e.Transferred?
            && var u := Shift(t, e.v, e.src, e.dst);
               && u.drives == t.drives && u.offsite == t.offsite
               && (door.MagazineDoor? ==> u.ioslots == t.ioslots) && (door.MailboxDoor? ==> u.slots == t.slots)
  {
  }
}
