/** Saving the state and coming back from it (internal/library/library.go:181-225, 669-754, 770-784). */
module Restart {
  import opened Placement
  import opened Topology
  import opened Rebuilding
  import opened LibraryState

  /** What is saved: elements with their volumes, the two lists, the open doors and the arm's fault. */
  datatype Snapshot = Snapshot(store: Store, vols: seq<Volume>, openMagazines: seq<string>, openMailboxes: seq<string>,
                               roboticFault: bool)

  /** The lists of open doors are the doors, in some order. */
  ghost predicate Saved(l: Lib, snapshot: Snapshot) {
    && snapshot.store == l.store && snapshot.vols == l.vols && snapshot.roboticFault == l.roboticFault
    && (forall id :: id in snapshot.openMagazines <==> MagazineDoor(id) in l.openDoors)
    && (forall id :: id in snapshot.openMailboxes <==> MailboxDoor(id) in l.openDoors)
  }

  /** A new library on c with the snapshot applied: an idle arm, and the door count recomputed. */
  function Started(c: Config, snapshot: Snapshot): Lib {
    var store := Restore(snapshot.store, c.layout);
    var doors := (set id | id in snapshot.openMagazines :: MagazineDoor(id))
                 + (set id | id in snapshot.openMailboxes :: MailboxDoor(id));
    Lib(store, snapshot.vols, doors, Arm(false, {}, |doors|), snapshot.roboticFault, c.settings,
        ResolveAll(Build(c.layout), c.libraries))
  }

  /** The library runs on the elements and settings of c. */
  ghost predicate RunsOn(l: Lib, c: Config) {
    && BuiltFrom(l.store, c.layout) && OriginsExist(l.store) && l.settings == c.settings
    && l.libraries == ResolveAll(l.store, c.libraries)
  }

  lemma ResolveOnSameElements(s: Store, t: Store, c: LogicalConfig)
    requires SameElements(s, t)
    requires forall i :: 0 <= i < |s.slots| ==> s.slots[i].address == t.slots[i].address
    requires forall i :: 0 <= i < |s.ioslots| ==> s.ioslots[i].address == t.ioslots[i].address
    ensures ResolveLibrary(s, c) == ResolveLibrary(t, c)
  {
    SameAddresses(s.slots, t.slots, c.magazines);
    SameAddresses(s.ioslots, t.ioslots, c.mailboxes);
  }

  lemma SameAddresses(a: seq<Slot>, b: seq<Slot>, ids: seq<string>)
    requires SameUnits(a, b) && forall i :: 0 <= i < |a| ==> a[i].address == b[i].address
    ensures AddressesIn(a, ids) == AddressesIn(b, ids)
  {
    forall x ensures x in AddressesIn(a, ids) <==> x in AddressesIn(b, ids) {
      if x in AddressesIn(a, ids) {
        var i :| 0 <= i < |a| && a[i].unit in ids && a[i].address == x;
        assert b[i].unit in ids && b[i].address == x;
      }
      if x in AddressesIn(b, ids) {
        var i :| 0 <= i < |b| && b[i].unit in ids && b[i].address == x;
        assert a[i].unit in ids && a[i].address == x;
      }
    }
  }

  /** A restart is invisible: everything but the arm's live marks comes back as it was. */
  lemma RestartIsInvisible(l: Lib, c: Config, snapshot: Snapshot)
    requires RunsOn(l, c) && Saved(l, snapshot)
    ensures Started(c, snapshot) == l.(arm := Arm(false, {}, |l.openDoors|))
  {
    hide Rebuild, Restore, Build, ResolveLibrary;
    RestoreSame(l.store, c.layout);
    var started := Started(c, snapshot);
    assert started.openDoors == l.openDoors by {
      forall d ensures d in started.openDoors <==> d in l.openDoors {
        assert d == (if d.MagazineDoor? then MagazineDoor(d.id) else MailboxDoor(d.id));
      }
    }
    forall k | 0 <= k < |c.libraries|
      ensures ResolveLibrary(Build(c.layout), c.libraries[k]) == ResolveLibrary(l.store, c.libraries[k])
    {
      BuiltAddresses(l.store, c.layout);
      ResolveOnSameElements(l.store, Build(c.layout), c.libraries[k]);
    }
  }

  lemma BuiltAddresses(s: Store, c: Layout)
    requires BuiltFrom(s, c)
    ensures SameElements(s, Build(c))
    ensures forall i :: 0 <= i < |s.slots| ==> s.slots[i].address == Build(c).slots[i].address
    ensures forall i :: 0 <= i < |s.ioslots| ==> s.ioslots[i].address == Build(c).ioslots[i].address
  {
  }

  lemma RestoreSame(s: Store, c: Layout)
    requires BuiltFrom(s, c) && OriginsExist(s)
    ensures Restore(s, c) == s
  {
    hide Rebuild, Restore;
    RebuildSame(s, c);
    SamePaths(s, c);
    RestoreIsRebuild(s, c);
  }

  lemma SamePaths(s: Store, c: Layout)
    requires BuiltFrom(s, c)
    ensures forall i :: 0 <= i < |s.drives| && i < |c.devices| ==> s.drives[i].path == c.devices[i].path
  {
  }
}
