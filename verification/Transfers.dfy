/** The atomic specification of placement, and each locked stretch shown to be one of its steps:
    a map from cartridges to places, changed by declared transfers alone. */
module Transfers {
  import opened Common
  import opened Placement
  import opened Topology
  import opened Rebuilding
  import opened LibraryState

  type Where = map<Cartridge, Place>

  // ---- the specification

  /** A transfer takes a cartridge from where it is to a free place; a rebuild sends no two elements
      to one; creation puts a new cartridge outside, and only an outside cartridge is deleted. */
  ghost predicate Legal(w: Where, e: Event) {
    match e
    case Transferred(v, src, dst) =>
      v in w && w[v] == src && src != dst && (dst.At? ==> forall u :: u in w ==> w[u] != dst)
    case Created(v) => v !in w
    case Deleted(v) => v in w && w[v] == Outside
    case Rebuilt(route) => forall r, q :: r in route && q in route && route[r] == route[q] ==> r == q
  }

  function Follow(route: map<Ref, Ref>, p: Place): Place {
    if p.At? && p.ref in route then At(route[p.ref]) else p
  }

  function Apply(w: Where, e: Event): Where {
    match e
    case Transferred(v, _, dst) => w[v := dst]
    case Created(v) => w[v := Outside]
    case Deleted(v) => map u | u in w && u != v :: w[u]
    case Rebuilt(route) => map u | u in w && (w[u].At? ==> w[u].ref in route) :: Follow(route, w[u])
  }

  function Replay(w: Where, events: seq<Event>): Where {
    if events == [] then w else Apply(Replay(w, events[..|events| - 1]), events[|events| - 1])
  }

  ghost predicate AllLegal(w: Where, events: seq<Event>) {
    events == []
    || (AllLegal(w, events[..|events| - 1]) && Legal(Replay(w, events[..|events| - 1]), events[|events| - 1]))
  }

  lemma {:induction false} ReplayAppend(w: Where, a: seq<Event>, b: seq<Event>)
    ensures Replay(w, a + b) == Replay(Replay(w, a), b)
    ensures AllLegal(w, a) && AllLegal(Replay(w, a), b) ==> AllLegal(w, a + b)
  {
    if b == [] {
      assert a + b == a;
    } else {
      ReplayAppend(w, a, b[..|b| - 1]);
      assert (a + b)[..|a + b| - 1] == a + b[..|b| - 1];
    }
  }

  lemma ReplayOne(w: Where, e: Event)
    ensures Replay(w, [e]) == Apply(w, e)
    ensures AllLegal(w, [e]) <==> Legal(w, e)
  {
    assert [e][..0] == [];
    assert Replay(w, [e][..0]) == w;
  }

  /** Transfers alone never change which cartridges there are. */
  lemma {:induction false} TransfersConserve(w: Where, events: seq<Event>)
    requires AllLegal(w, events) && forall e :: e in events ==> e.Transferred?
    ensures Replay(w, events).Keys == w.Keys
  {
    if events != [] {
      TransfersConserve(w, events[..|events| - 1]);
    }
  }

  // ---- the relation to the library

  /** `w` says exactly where every cartridge of the store is. */
  ghost predicate Represents(s: Store, w: Where) {
    && NoDuplicates(s.outside) && NoDuplicates(s.offsite)
    && forall p, v :: Holds(s, p, v) <==> v in w && w[v] == p
  }

  ghost predicate Distinct(vols: seq<Volume>, w: Where) {
    && (forall v :: v in w ==> v < |vols|)
    && (forall u, v :: u in w && v in w && u != v ==> vols[u].barcode != vols[v].barcode)
  }

  /** Every cartridge is in exactly one place and no two share a barcode. */
  ghost predicate Placed(l: Lib, w: Where) {
    Represents(l.store, w) && Distinct(l.vols, w)
  }

  lemma RepresentedIsUnique(s: Store, w: Where)
    requires Represents(s, w)
    ensures Unique(s)
  {
  }

  lemma FreeInSpec(s: Store, w: Where, p: Place)
    requires Represents(s, w) && Free(s, p) && p.At?
    ensures forall u :: u in w ==> w[u] != p
  {
    forall u | u in w ensures w[u] != p {
      assert Holds(s, w[u], u);
    }
  }

  /** A shift of a cartridge from its place to a free place is one transfer of the specification. */
  lemma ShiftTransfers(s: Store, w: Where, v: Cartridge, src: Place, dst: Place)
    requires Represents(s, w) && Holds(s, src, v) && Free(s, dst) && src != dst
    ensures Legal(w, Transferred(v, src, dst)) && Represents(Shift(s, v, src, dst), w[v := dst])
  {
    hide Shift, Get;
    RepresentedIsUnique(s, w);
    ShiftMoves(s, v, src, dst);
    if dst.At? {
      FreeInSpec(s, w, dst);
    }
  }

  /** Two stores with the same contents and lists. */
  ghost predicate SameContents(s: Store, t: Store) {
    s.outside == t.outside && s.offsite == t.offsite && forall r :: Get(s, r) == Get(t, r)
  }

  lemma ContentsDecide(s: Store, t: Store, w: Where)
    requires SameContents(s, t) && Represents(s, w)
    ensures Represents(t, w)
  {
    forall p, v ensures Holds(t, p, v) <==> v in w && w[v] == p {
      assert Holds(t, p, v) <==> Holds(s, p, v);
    }
  }

  lemma SeatSameContents(s: Store, i: int, origin: Option<Ref>, mounts: nat)
    ensures SameContents(s, Seat(s, i, origin, mounts))
  {
  }

  lemma DistinctIgnoresState(l: Lib, w: Where, v: Cartridge, vol: Volume)
    requires Distinct(l.vols, w) && vol.barcode == VolOf(l, v).barcode
    ensures Distinct(WithVol(l, v, vol).vols, w)
  {
  }

  lemma DistinctWithoutMore(vols: seq<Volume>, w: Where, w1: Where)
    requires Distinct(vols, w) && w1.Keys <= w.Keys
    ensures Distinct(vols, w1)
  {
  }

  /** The common shape of the commits: one shift, then a drive's seat and the volume's counters. */
  lemma CommitTransfers(l: Lib, w: Where, v: Cartridge, src: Place, dst: Place, l1: Lib, i: int, origin: Option<Ref>,
                        mounts: nat)
    requires Placed(l, w) && Holds(l.store, src, v) && Free(l.store, dst) && src != dst
    requires l1.store == Seat(Shift(l.store, v, src, dst), i, origin, mounts)
    requires exists vol: Volume :: vol.barcode == VolOf(l, v).barcode && l1.vols == WithVol(l, v, vol).vols
    ensures AllLegal(w, [Transferred(v, src, dst)]) && Placed(l1, Replay(w, [Transferred(v, src, dst)]))
  {
    hide Shift, Seat, Get, Holds, Free;
    var e := Transferred(v, src, dst);
    ShiftTransfers(l.store, w, v, src, dst);
    ReplayOne(w, e);
    SeatSameContents(Shift(l.store, v, src, dst), i, origin, mounts);
    ContentsDecide(Shift(l.store, v, src, dst), l1.store, w[v := dst]);
    var vol: Volume :| vol.barcode == VolOf(l, v).barcode && l1.vols == WithVol(l, v, vol).vols;
    DistinctIgnoresState(l, w, v, vol);
    DistinctWithoutMore(l1.vols, w, w[v := dst]);
  }

  /** The simple case: a shift and nothing else. */
  lemma ShiftCommits(l: Lib, w: Where, v: Cartridge, src: Place, dst: Place, l1: Lib)
    requires Placed(l, w) && Holds(l.store, src, v) && Free(l.store, dst) && src != dst
    requires l1.store == Shift(l.store, v, src, dst) && l1.vols == l.vols
    ensures AllLegal(w, [Transferred(v, src, dst)]) && Placed(l1, Replay(w, [Transferred(v, src, dst)]))
  {
    hide Shift, Get, Holds, Free;
    ShiftTransfers(l.store, w, v, src, dst);
    ReplayOne(w, Transferred(v, src, dst));
    DistinctWithoutMore(l.vols, w, w[v := dst]);
  }

  // ---- rebuilds

  lemma RouteIs(s: Store, c: Layout, r: Ref, q: Ref)
    ensures r in Route(s, c) && Route(s, c)[r] == q
       <==> Exists(s, r) && Exists(Build(c), q) && IdentityOf(s, r) == IdentityOf(Build(c), q)
  {
    hide Build;
    if Exists(s, r) {
      ResolveIs(Build(c), IdentityOf(s, r), q);
      assert r in RefsOf(s);
    }
  }

  lemma RouteInjective(s: Store, c: Layout)
    ensures Legal(map[], Rebuilt(Route(s, c)))
  {
    hide Build, Route;
    var route := Route(s, c);
    forall r, q | r in route && q in route && route[r] == route[q] ensures r == q {
      RouteIs(s, c, r, route[r]);
      RouteIs(s, c, q, route[r]);
      ResolveIs(s, IdentityOf(s, r), r);
      ResolveIs(s, IdentityOf(s, r), q);
    }
  }

  /** A rebuild moves every cartridge along the route of identities and forgets those without one. */
  lemma RebuildFollowsRoute(s: Store, c: Layout, w: Where)
    requires Represents(s, w)
    ensures Legal(w, Rebuilt(Route(s, c))) && Represents(Rebuild(s, c), Apply(w, Rebuilt(Route(s, c))))
  {
    hide Build, Route, Rebuild, Resolve, IdentityOf;
    RouteInjective(s, c);
    RebuildKeepsLists(s, c);
    var t, w1 := Rebuild(s, c), Apply(w, Rebuilt(Route(s, c)));
    forall p, v ensures Holds(t, p, v) <==> v in w1 && w1[v] == p {
      if p.At? {
        RoutedHolds(s, c, w, p.ref, v);
      } else {
        assert Holds(t, p, v) <==> Holds(s, p, v);
      }
    }
  }

  lemma RoutedHolds(s: Store, c: Layout, w: Where, q: Ref, v: Cartridge)
    requires Represents(s, w)
    ensures Holds(Rebuild(s, c), At(q), v)
       <==> v in w && w[v].At? && w[v].ref in Route(s, c) && Route(s, c)[w[v].ref] == q
  {
    hide Build, Route, Rebuild, Get;
    if v in w && w[v].At? {
      assert Holds(s, w[v], v);
      RouteIs(s, c, w[v].ref, q);
      if Exists(Build(c), q) && Exists(s, w[v].ref) {
        ResolveIs(s, IdentityOf(Build(c), q), w[v].ref);
        RebuildGet(s, c, q);
      }
    }
    if Holds(Rebuild(s, c), At(q), v) {
      var p0 := CarriedFrom(s, c, At(q), v);
      assert w[v] == p0;
      RouteIs(s, c, p0.ref, q);
    } else {
      HeldExists(s, w, v);
    }
  }

  lemma HeldExists(s: Store, w: Where, v: Cartridge)
    requires Represents(s, w)
    ensures v in w && w[v].At? ==> Exists(s, w[v].ref)
  {
    if v in w {
      assert Holds(s, w[v], v);
    }
  }
}
