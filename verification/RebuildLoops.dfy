/** The rebuild as it runs: counting offsets in one pass, contents and addresses kept in maps by
    identity (internal/library/library.go:232-306, 481-539, 552-612). */
module RebuildLoops {
  import opened Common
  import opened Placement
  import opened Topology

  // ---- one pass over the old slots

  function CountIn(counts: map<string, nat>, u: string): nat {
    if u in counts then counts[u] else 0
  }

  /** The key of each address, and the cartridge of each occupied key, among the first n slots. */
  ghost predicate Indexed(slots: seq<Slot>, n: nat, keyAt: map<int, Key>, contents: map<Key, Cartridge>)
    requires n <= |slots|
  {
    && (forall i: nat :: i < n ==> slots[i].address in keyAt && keyAt[slots[i].address] == KeyOf(slots, i))
    && (forall a :: a in keyAt ==> exists i: nat :: i < n && slots[i].address == a)
    && (forall i: nat :: i < n && slots[i].vol.Some? ==>
        KeyOf(slots, i) in contents && contents[KeyOf(slots, i)] == slots[i].vol.value)
    && (forall k :: k in contents ==> exists i: nat :: i < n && slots[i].vol.Some? && KeyOf(slots, i) == k)
  }

  ghost predicate AddressesDistinct(slots: seq<Slot>) {
    forall i, j :: 0 <= i < j < |slots| ==> slots[i].address != slots[j].address
  }

  lemma IndexOneMore(slots: seq<Slot>, n: nat, keyAt: map<int, Key>, contents: map<Key, Cartridge>)
    requires n < |slots| && Indexed(slots, n, keyAt, contents) && AddressesDistinct(slots)
    ensures var k := KeyOf(slots, n);
            Indexed(slots, n + 1, keyAt[slots[n].address := k],
                    if slots[n].vol.Some? then contents[k := slots[n].vol.value] else contents)
  {
    hide KeyOf;
    forall i: nat | i < n ensures KeyOf(slots, i) != KeyOf(slots, n) {
      KeysApart(slots, i, n);
    }
  }

  method Index(slots: seq<Slot>) returns (keyAt: map<int, Key>, contents: map<Key, Cartridge>)
    requires AddressesDistinct(slots)
    ensures Indexed(slots, |slots|, keyAt, contents)
  {
    hide Indexed, AddressesDistinct;
    var counts: map<string, nat> := map[];
    keyAt, contents := map[], map[];
    IndexNone(slots);
    for i := 0 to |slots|
      invariant forall u :: CountIn(counts, u) == Count(slots, u, i)
      invariant Indexed(slots, i, keyAt, contents)
    {
      var u := slots[i].unit;
      counts := counts[u := CountIn(counts, u) + 1];
      var key := Key(u, CountIn(counts, u));
      assert key == KeyOf(slots, i);
      IndexOneMore(slots, i, keyAt, contents);
      keyAt := keyAt[slots[i].address := key];
      if slots[i].vol.Some? {
        contents := contents[key := slots[i].vol.value];
      }
    }
  }

  lemma IndexNone(slots: seq<Slot>)
    ensures Indexed(slots, 0, map[], map[])
  {
  }

  lemma ContentsAre(slots: seq<Slot>, keyAt: map<int, Key>, contents: map<Key, Cartridge>, k: Key)
    requires Indexed(slots, |slots|, keyAt, contents)
    ensures VolAt(slots, k) == if k in contents then Some(contents[k]) else None
  {
    hide KeyOf;
    FindBelowIs(slots, k, |slots|);
    if k in contents {
      var i: nat :| i < |slots| && slots[i].vol.Some? && KeyOf(slots, i) == k;
      FindIs(slots, k, i);
    } else if Find(slots, k).Some? {
      assert KeyOf(slots, Find(slots, k).value) == k;
    }
  }

  // ---- the new slots

  method MakeSlots(units: seq<Unit>, before: nat) returns (slots: seq<Slot>)
    ensures slots == Slots(units, before)
  {
    slots := [];
    var address := before + 1;
    ghost var ids: seq<string> := [];
    for m := 0 to |units|
      invariant ids == UnitsUpto(units, m)
      invariant address == before + 1 + |slots| && |slots| == |ids|
      invariant forall i :: 0 <= i < |slots| ==> slots[i] == Slot(before + i + 1, ids[i], None)
    {
      ghost var done := ids;
      for i := 0 to units[m].size
        invariant ids == done + seq(i, _ => units[m].id)
        invariant address == before + 1 + |slots| && |slots| == |ids|
        invariant forall j :: 0 <= j < |slots| ==> slots[j] == Slot(before + j + 1, ids[j], None)
      {
        slots := slots + [Slot(address, units[m].id, None)];
        address := address + 1;
        ids := ids + [units[m].id];
      }
    }
  }

  /** Where each key is among the first n new slots. */
  ghost predicate Located(made: seq<Slot>, n: nat, addressOf: map<Key, int>)
    requires n <= |made|
  {
    && (forall i: nat :: i < n ==> KeyOf(made, i) in addressOf && addressOf[KeyOf(made, i)] == made[i].address)
    && (forall k :: k in addressOf ==> exists i: nat :: i < n && KeyOf(made, i) == k)
  }

  lemma LocateOneMore(made: seq<Slot>, n: nat, addressOf: map<Key, int>)
    requires n < |made| && Located(made, n, addressOf)
    ensures Located(made, n + 1, addressOf[KeyOf(made, n) := made[n].address])
  {
    hide KeyOf;
    forall i: nat | i < n ensures KeyOf(made, i) != KeyOf(made, n) {
      KeysApart(made, i, n);
    }
  }

  method Fill(made: seq<Slot>, contents: map<Key, Cartridge>, ghost was: seq<Slot>, ghost keyAt: map<int, Key>)
    returns (filled: seq<Slot>, addressOf: map<Key, int>)
    requires Indexed(was, |was|, keyAt, contents)
    ensures filled == Carry(was, made) && Located(made, |made|, addressOf)
  {
    hide Indexed, Located, VolAt;
    filled, addressOf := [], map[];
    var counts: map<string, nat> := map[];
    LocateNone(made);
    for i := 0 to |made|
      invariant forall u :: CountIn(counts, u) == Count(made, u, i)
      invariant |filled| == i && forall j :: 0 <= j < i ==> filled[j] == made[j].(vol := VolAt(was, KeyOf(made, j)))
      invariant Located(made, i, addressOf)
    {
      var u := made[i].unit;
      counts := counts[u := CountIn(counts, u) + 1];
      var key := Key(u, CountIn(counts, u));
      assert key == KeyOf(made, i);
      ContentsAre(was, keyAt, contents, key);
      LocateOneMore(made, i, addressOf);
      addressOf := addressOf[key := made[i].address];
      filled := filled + [made[i].(vol := if key in contents then Some(contents[key]) else None)];
    }
  }

  lemma LocateNone(made: seq<Slot>)
    ensures Located(made, 0, map[])
  {
  }

  lemma AddressIs(made: seq<Slot>, addressOf: map<Key, int>, k: Key)
    requires Located(made, |made|, addressOf)
    ensures match Find(made, k)
            case Some(i) => i < |made| && k in addressOf && addressOf[k] == made[i].address
            case None => k !in addressOf
  {
    hide KeyOf;
    FindBelowIs(made, k, |made|);
    if k in addressOf {
      var i: nat :| i < |made| && KeyOf(made, i) == k;
      FindIs(made, k, i);
    }
  }

  // ---- Origins

  /** An Origin goes from its old address to its key and from there to its new address. */
  method MoveOrigin(origin: Option<Ref>, keyAt: map<int, Key>, ioKeyAt: map<int, Key>, addressOf: map<Key, int>,
                    ioAddressOf: map<Key, int>,
                    ghost was: Store, ghost made: Store, ghost contents: map<Key, Cartridge>,
                        ghost ioContents: map<Key, Cartridge>)
    returns (r: Option<Ref>)
    requires WellAddressed(was) && WellAddressed(made)
    requires Indexed(was.slots, |was.slots|, keyAt, contents)
             && Indexed(was.ioslots, |was.ioslots|, ioKeyAt, ioContents)
    requires Located(made.slots, |made.slots|, addressOf) && Located(made.ioslots, |made.ioslots|, ioAddressOf)
    ensures r == ShiftOrigin(origin, was, made)
  {
    hide KeyOf, Located;
    match origin {
      case Some(SlotRef(a)) =>
        assert a in keyAt <==> 0 < a <= |was.slots| by { assert 0 < a <= |was.slots| ==>
               was.slots[a - 1].address == a; }
        if a !in keyAt || keyAt[a] !in addressOf {
          if a in keyAt { assert was.slots[a - 1].address == a; AddressIs(made.slots, addressOf, keyAt[a]); }
          return None;
        }
        assert was.slots[a - 1].address == a;
        AddressIs(made.slots, addressOf, keyAt[a]);
        return Some(SlotRef(addressOf[keyAt[a]]));
      case Some(IOSlotRef(a)) =>
        var n := |was.slots|;
        assert a in ioKeyAt <==> n < a <= n + |was.ioslots| by {
          assert n < a <= n + |was.ioslots| ==> was.ioslots[a - 1 - n].address == a;
        }
        if a !in ioKeyAt || ioKeyAt[a] !in ioAddressOf {
          if a in ioKeyAt { assert was.ioslots[a - 1 - n].address
              == a; AddressIs(made.ioslots, ioAddressOf, ioKeyAt[a]); }
          return None;
        }
        assert was.ioslots[a - 1 - n].address == a;
        AddressIs(made.ioslots, ioAddressOf, ioKeyAt[a]);
        return Some(IOSlotRef(ioAddressOf[ioKeyAt[a]]));
      case _ => return origin;
    }
  }

  lemma BuiltIsAddressed(c: Layout)
    ensures WellAddressed(Build(c))
  {
  }

  method MakeDrives(devices: seq<Device>) returns (drives: seq<Drive>)
    ensures |drives| == |devices|
    ensures forall i :: 0 <= i < |drives| ==>
            drives[i] == Drive(i, devices[i].path, devices[i].driveType, None, false, None, 0)
  {
    drives := [];
    for i := 0 to |devices|
      invariant |drives| == i
      invariant forall j :: 0 <= j < i ==>
                drives[j] == Drive(j, devices[j].path, devices[j].driveType, None, false, None, 0)
    {
      drives := drives + [Drive(i, devices[i].path, devices[i].driveType, None, false, None, 0)];
    }
  }

  /** The rebuild's loops and maps compute the rebuild by identity. */
  method RebuildStore(s: Store, c: Layout) returns (t: Store)
    requires WellAddressed(s)
    ensures t == Rebuild(s, c)
  {
    hide Indexed, Located, Carry, ShiftOrigin, Slots;
    WellAddressedApart(s);
    var keyAt, contents := Index(s.slots);
    var ioKeyAt, ioContents := Index(s.ioslots);
    var slots := MakeSlots(c.magazines, 0);
    var ioslots := MakeSlots(c.mailboxes, |slots|);
    var drives := MakeDrives(c.devices);
    ghost var made := Build(c);
    BuiltIsAddressed(c);
    assert made.slots == slots && made.ioslots == ioslots && made.drives == drives;
    var filled, addressOf := Fill(slots, contents, s.slots, keyAt);
    var ioFilled, ioAddressOf := Fill(ioslots, ioContents, s.ioslots, ioKeyAt);
    for i := 0 to |drives|
      invariant |drives| == |made.drives|
      invariant forall j: nat :: j < i ==> drives[j] == CarryDrive(s, made, j, true)
      invariant forall j :: i <= j < |drives| ==> drives[j] == made.drives[j]
    {
      if i < |s.drives| && s.drives[i].path == drives[i].path {
        var before := s.drives[i];
        var origin := MoveOrigin(before.origin, keyAt, ioKeyAt, addressOf, ioAddressOf, s, made, contents, ioContents);
        drives := drives[i := drives[i].(vol := before.vol, fault := before.fault, mounts := before.mounts,
            origin := origin)];
      }
    }
    t := Store(filled, ioFilled, drives, s.outside, s.offsite);
    assert t.drives == Rebuild(s, c).drives;
  }

  lemma WellAddressedApart(s: Store)
    requires WellAddressed(s)
    ensures AddressesDistinct(s.slots) && AddressesDistinct(s.ioslots)
  {
  }
}
