/** Door-close batches: a transaction of staged load and pickup actions
    (internal/library/library.go:2199-2362). */
module Batches {
  import opened Placement
  import opened LibraryState
  import opened Sorting
  import opened Transfers

  // ---- finding by barcode

  lemma {:induction false} FindBarcodeIs(vols: seq<Volume>, among: seq<Cartridge>, barcode: string)
    ensures match FindBarcode(vols, among, barcode)
            case Some(v) => v in among && v < |vols| && vols[v].barcode == barcode
            case None => forall v :: v in among && v < |vols| ==> vols[v].barcode != barcode
  {
    if among != [] {
      FindBarcodeIs(vols, among[1..], barcode);
    }
  }

  // ---- sorting

  ghost predicate SortedByBarcode(vols: seq<Volume>, vs: seq<Cartridge>) {
    SortedBy(vs, BarcodeLess(vols))
  }

  /** At this place the two strings first differ, and the first is smaller there or ends. */
  ghost predicate SmallerAt(a: string, b: string, k: nat) {
    && k <= |a| && k < |b| && a[..k] == b[..k] && (k == |a| || a[k] < b[k])
  }

  /** The order of barcodes is the order of their characters. */
  lemma {:induction false} StringLessIs(a: string, b: string)
    ensures StringLess(a, b) <==> exists k: nat :: SmallerAt(a, b, k)
  {
    if b == "" {
    } else if a == "" {
      assert SmallerAt(a, b, 0);
    } else {
      StringLessIs(a[1..], b[1..]);
      if a[0] < b[0] {
        assert SmallerAt(a, b, 0);
      } else if a[0] == b[0] {
        if k: nat :| SmallerAt(a[1..], b[1..], k) {
          assert a[..k + 1] == [a[0]] + a[1..][..k] && b[..k + 1] == [b[0]] + b[1..][..k];
          assert SmallerAt(a, b, k + 1);
        }
        if k: nat :| SmallerAt(a, b, k) {
          SmallerLater(a, b, k);
        }
      } else {
        forall k: nat ensures !SmallerAt(a, b, k) {
          if k > 0 && k <= |a| && k < |b| {
            assert a[..k][0] == a[0] && b[..k][0] == b[0];
          }
        }
      }
    }
  }

  lemma SmallerLater(a: string, b: string, k: nat)
    requires a != "" && b != "" && a[0] == b[0] && SmallerAt(a, b, k)
    ensures k > 0 && SmallerAt(a[1..], b[1..], k - 1)
  {
    if k > 0 {
      assert a[1..][..k - 1] == a[..k][1..] && b[1..][..k - 1] == b[..k][1..];
    }
  }

  lemma {:induction false} LessAsymmetric(a: string, b: string)
    requires StringLess(a, b)
    ensures !StringLess(b, a)
  {
    if a != "" && b != "" && a[0] == b[0] {
      LessAsymmetric(a[1..], b[1..]);
    }
  }

  lemma {:induction false} NotLessTransitive(a: string, b: string, c: string)
    requires !StringLess(b, a) && !StringLess(c, b)
    ensures !StringLess(c, a)
  {
    if a != "" && b != "" && c != "" && a[0] == b[0] && b[0] == c[0] {
      NotLessTransitive(a[1..], b[1..], c[1..]);
    }
  }

  lemma BarcodesOrder(vols: seq<Volume>)
    ensures Orders(BarcodeLess(vols))
  {
    var less := BarcodeLess(vols);
    forall u, v | less(u, v) ensures !less(v, u) {
      LessAsymmetric(BarcodeOf(vols, u), BarcodeOf(vols, v));
    }
    forall u, v, x | !less(v, u) && !less(x, v) ensures !less(x, u) {
      NotLessTransitive(BarcodeOf(vols, u), BarcodeOf(vols, v), BarcodeOf(vols, x));
    }
  }

  /** Sorting keeps exactly the same cartridges. */
  lemma SortIs(vols: seq<Volume>, vs: seq<Cartridge>)
    ensures multiset(SortByBarcode(vols, vs)) == multiset(vs)
    ensures SortedByBarcode(vols, SortByBarcode(vols, vs))
  {
    hide SortBy;
    BarcodesOrder(vols);
    SortByIs(vs, BarcodeLess(vols));
  }

  lemma {:induction false} OncesAreNoDuplicates(vs: seq<Cartridge>)
    ensures NoDuplicates(vs) <==> forall v :: multiset(vs)[v] <= 1
  {
    if vs == [] {
    } else {
      var n := |vs| - 1;
      assert vs == vs[..n] + [vs[n]];
      OncesAreNoDuplicates(vs[..n]);
      if NoDuplicates(vs) {
        assert NoDuplicates(vs[..n]);
        assert vs[n] !in vs[..n];
        assert multiset(vs[..n])[vs[n]] == 0;
      }
      if forall v :: multiset(vs)[v] <= 1 {
        assert forall v :: multiset(vs[..n])[v] <= multiset(vs)[v];
        assert multiset(vs)[vs[n]] == multiset(vs[..n])[vs[n]] + 1;
        assert vs[n] !in multiset(vs[..n]);
        AppendFresh(vs[..n], vs[n]);
      }
    }
  }

  lemma SortRepresents(vols: seq<Volume>, s: Store, w: Where)
    requires Represents(s, w)
    ensures Represents(s.(outside := SortByBarcode(vols, s.outside)), w)
  {
    var t := s.(outside := SortByBarcode(vols, s.outside));
    SortIs(vols, s.outside);
    OncesAreNoDuplicates(s.outside);
    OncesAreNoDuplicates(t.outside);
    forall p, v ensures Holds(t, p, v) <==> v in w && w[v] == p {
      if p.At? {
        assert Get(t, p.ref) == Get(s, p.ref);
      }
      assert v in t.outside <==> v in multiset(t.outside);
      assert v in s.outside <==> v in multiset(s.outside);
      assert Holds(t, p, v) <==> Holds(s, p, v);
    }
  }

  // ---- one action

  /** An accepted action is a legal transfer between the outside list and an element behind the door. */
  lemma ActionIs(vols: seq<Volume>, door: Door, s: Store, w: Where, a: DoorAction)
    requires Represents(s, w) && ActionEvent(vols, door, s, a).Some?
    ensures match ActionEvent(vols, door, s, a).value
            case Transferred(v, src, dst) =>
              && Holds(s, src, v) && Free(s, dst) && src != dst
              && Behind(s, door, a.address)
              && (a.kind == LoadAction ==>
                  src == Outside && dst == At(RefBehind(door, a.address)) && Bears(vols, v, a.barcode))
              && (a.kind == PickupAction ==> src == At(RefBehind(door, a.address)) && dst == Outside)
              && a.kind != UnknownAction
            case _ => false
  {
    if a.kind == LoadAction {
      FindBarcodeIs(vols, s.outside, a.barcode);
    }
  }

  // ---- the batch

  /** The cartridge has this barcode. */
  predicate Bears(vols: seq<Volume>, v: Cartridge, barcode: string) {
    v < |vols| && vols[v].barcode == barcode
  }

  /** What the events of a batch say: one transfer per action, each between outside and its slot. */
  ghost predicate MatchesActions(vols: seq<Volume>, door: Door, actions: seq<DoorAction>, events: seq<Event>) {
    |events| == |actions| && forall i :: 0 <= i < |actions| ==> MatchesAction(vols, door, actions[i], events[i])
  }

  ghost predicate MatchesAction(vols: seq<Volume>, door: Door, a: DoorAction, e: Event) {
    && e.Transferred?
    && (a.kind == LoadAction ==>
          e.src == Outside && e.dst == At(RefBehind(door, a.address)) && Bears(vols, e.v, a.barcode))
    && (a.kind == PickupAction ==> e.src == At(RefBehind(door, a.address)) && e.dst == Outside)
    && a.kind != UnknownAction
  }

  lemma {:induction false} ActionsTransfer(vols: seq<Volume>, door: Door, s: Store, w: Where, actions: seq<DoorAction>)
    requires Represents(s, w) && ApplyActions(vols, door, s, actions).Accepted?
    ensures var b := ApplyActions(vols, door, s, actions);
            AllLegal(w, b.events) && Represents(b.store, Replay(w, b.events))
            && MatchesActions(vols, door, actions, b.events) && SameShape(s, b.store)
  {
    hide ActionEvent, Shift, Legal, Represents, SameShape, AllLegal, Replay, MatchesActions, Behind;
    if actions == [] {
      NothingApplied(vols, door, s, w);
    } else {
      var init, a := actions[..|actions| - 1], actions[|actions| - 1];
      ActionsTransfer(vols, door, s, w, init);
      var b := ApplyActions(vols, door, s, init);
      ActionIs(vols, door, b.store, Replay(w, b.events), a);
      var e := ActionEvent(vols, door, b.store, a).value;
      ShiftTransfers(b.store, Replay(w, b.events), e.v, e.src, e.dst);
      ShiftKeepsShape(b.store, e.v, e.src, e.dst);
      ShapeTransitive(s, b.store, Shift(b.store, e.v, e.src, e.dst));
      AppendEvent(w, b.events, e);
      AppendMatches(vols, door, init, a, b.events, e);
      assert init + [a] == actions;
    }
  }

  lemma NothingApplied(vols: seq<Volume>, door: Door, s: Store, w: Where)
    ensures AllLegal(w, []) && Replay(w, []) == w && MatchesActions(vols, door, [], []) && SameShape(s, s)
  {
  }

  lemma AppendMatches(vols: seq<Volume>, door: Door, init: seq<DoorAction>, a: DoorAction, events: seq<Event>, e: Event)
    requires MatchesActions(vols, door, init, events) && MatchesAction(vols, door, a, e)
    ensures MatchesActions(vols, door, init + [a], events + [e])
  {
  }

  lemma AppendEvent(w: Where, events: seq<Event>, e: Event)
    ensures Replay(w, events + [e]) == Apply(Replay(w, events), e)
    ensures AllLegal(w, events) && Legal(Replay(w, events), e) ==> AllLegal(w, events + [e])
  {
    assert (events + [e])[..|events|] == events;
  }

  /** A successful close is its actions' transfers in order; the outside list comes out sorted. */
  lemma BatchTransfers(vols: seq<Volume>, door: Door, s: Store, w: Where, actions: seq<DoorAction>)
    requires Represents(s, w) && CloseBatch(vols, door, s, actions).Accepted?
    ensures var b := CloseBatch(vols, door, s, actions);
            AllLegal(w, b.events) && Represents(b.store, Replay(w, b.events))
            && MatchesActions(vols, door, actions, b.events) && SameShape(s, b.store)
            && SortedByBarcode(vols, b.store.outside) && Replay(w, b.events).Keys == w.Keys
  {
    hide ApplyActions, Represents;
    var a := ApplyActions(vols, door, s, actions);
    ActionsTransfer(vols, door, s, w, actions);
    SortRepresents(vols, a.store, Replay(w, a.events));
    SortIs(vols, a.store.outside);
    TransfersConserve(w, a.events);
  }

  /** A batch touches only elements behind its own door, and never the offsite list. */
  lemma {:induction false} BatchStaysBehindDoor(vols: seq<Volume>, door: Door, s: Store, w: Where,
                                                actions: seq<DoorAction>, r: Ref)
    requires Represents(s, w) && ApplyActions(vols, door, s, actions).Accepted?
    requires r.DriveRef? || r != RefBehind(door, r.address) || !Behind(s, door, r.address)
    ensures Get(ApplyActions(vols, door, s, actions).store, r) == Get(s, r)
    ensures ApplyActions(vols, door, s, actions).store.offsite == s.offsite
  {
    hide ActionEvent, Get, Represents;
    if actions != [] {
      var init, a := actions[..|actions| - 1], actions[|actions| - 1];
      var b := ApplyActions(vols, door, s, init);
      BatchStaysBehindDoor(vols, door, s, w, init, r);
      ActionsTransfer(vols, door, s, w, init);
      ActionIs(vols, door, b.store, Replay(w, b.events), a);
      var e := ActionEvent(vols, door, b.store, a).value;
      BehindFollowsShape(s, b.store, door, a.address);
      ShiftTouches(b.store, e.v, e.src, e.dst, r);
    }
  }

  lemma BehindFollowsShape(s: Store, t: Store, door: Door, address: int)
    requires SameShape(s, t)
    ensures Behind(s, door, address) == Behind(t, door, address)
  {
  }

  lemma ActionAvoidsDrives(vols: seq<Volume>, door: Door, s: Store, a: DoorAction)
    requires ActionEvent(vols, door, s, a).Some?
    ensures var e := ActionEvent(vols, door, s, a).value;
            e.Transferred? && (e.src.At? ==> !e.src.ref.DriveRef?) && (e.dst.At? ==> !e.dst.ref.DriveRef?)
  {
  }

  /** No batch reaches into a drive. */
  lemma {:induction false} ActionsKeepDrives(vols: seq<Volume>, door: Door, s: Store, actions: seq<DoorAction>)
    requires ApplyActions(vols, door, s, actions).Accepted?
    ensures ApplyActions(vols, door, s, actions).store.drives == s.drives
  {
    hide ActionEvent, Shift;
    if actions != [] {
      var init, a := actions[..|actions| - 1], actions[|actions| - 1];
      ActionsKeepDrives(vols, door, s, init);
      var b := ApplyActions(vols, door, s, init);
      ActionAvoidsDrives(vols, door, b.store, a);
      var e := ActionEvent(vols, door, b.store, a).value;
      SlotShiftKeepsDrives(b.store, e.v, e.src, e.dst);
    }
  }

  /** A batch is refused exactly when some action, with all before it applied, is bad. */
  lemma {:induction false} RefusedIs(vols: seq<Volume>, door: Door, s: Store, actions: seq<DoorAction>)
    ensures ApplyActions(vols, door, s, actions).Refused? <==> exists k: nat :: BadAt(vols, door, s, actions, k)
  {
    hide ActionEvent, Shift, BadAt, ApplyActions;
    if actions == [] {
      NoneBad(vols, door, s);
    } else {
      var n := |actions| - 1;
      RefusedIs(vols, door, s, actions[..n]);
      LastAction(vols, door, s, actions);
      PrefixBad(vols, door, s, actions, n);
      if ApplyActions(vols, door, s, actions[..n]).Accepted? {
        AcceptedAvoids(vols, door, s, actions, n);
        BadInRange(vols, door, s, actions);
      }
    }
  }

  lemma NoneBad(vols: seq<Volume>, door: Door, s: Store)
    ensures ApplyActions(vols, door, s, []).Accepted? && forall k: nat :: !BadAt(vols, door, s, [], k)
  {
  }

  /** The last action decides when all before it are accepted. */
  lemma LastAction(vols: seq<Volume>, door: Door, s: Store, actions: seq<DoorAction>)
    requires actions != []
    ensures var n := |actions| - 1;
            ApplyActions(vols, door, s, actions).Refused? <==>
              ApplyActions(vols, door, s, actions[..n]).Refused? || BadAt(vols, door, s, actions, n)
  {
    hide ActionEvent, Shift;
    var n := |actions| - 1;
    if ApplyActions(vols, door, s, actions[..n]).Accepted? {
      ActionIsTransfer(vols, door, ApplyActions(vols, door, s, actions[..n]).store, actions[n]);
    }
  }

  lemma PrefixBad(vols: seq<Volume>, door: Door, s: Store, actions: seq<DoorAction>, n: nat)
    requires n < |actions|
    ensures (exists k: nat :: BadAt(vols, door, s, actions[..n], k)) ==>
            exists k: nat :: BadAt(vols, door, s, actions, k)
  {
    hide ActionEvent, ApplyActions;
    if k: nat :| BadAt(vols, door, s, actions[..n], k) {
      assert actions[..n][..k] == actions[..k];
      assert BadAt(vols, door, s, actions, k);
    }
  }

  lemma BadInRange(vols: seq<Volume>, door: Door, s: Store, actions: seq<DoorAction>)
    ensures forall k: nat :: BadAt(vols, door, s, actions, k) ==> k < |actions|
  {
    hide ActionEvent, ApplyActions;
  }

  ghost predicate BadAt(vols: seq<Volume>, door: Door, s: Store, actions: seq<DoorAction>, k: nat) {
    && k < |actions| && ApplyActions(vols, door, s, actions[..k]).Accepted?
    && ActionEvent(vols, door, ApplyActions(vols, door, s, actions[..k]).store, actions[k]).None?
  }

  lemma ActionIsTransfer(vols: seq<Volume>, door: Door, s: Store, a: DoorAction)
    ensures ActionEvent(vols, door, s, a).Some? ==> ActionEvent(vols, door, s, a).value.Transferred?
  {
  }

  /** No action of an accepted prefix is bad. */
  lemma AcceptedAvoids(vols: seq<Volume>, door: Door, s: Store, actions: seq<DoorAction>, n: nat)
    requires n < |actions| && !(exists k: nat :: BadAt(vols, door, s, actions[..n], k))
    ensures forall k: nat :: k < n ==> !BadAt(vols, door, s, actions, k)
  {
    forall k: nat | k < n ensures !BadAt(vols, door, s, actions, k) {
      assert actions[..n][..k] == actions[..k];
      assert !BadAt(vols, door, s, actions[..n], k);
    }
  }

  /** A door close is a transaction: refused, it changes nothing at all and leaves the door open;
      accepted, it makes its actions' transfers in order, behind its own door only, loses and
      duplicates nothing, and leaves the outside list sorted. */
  lemma CloseIsTransaction(l: Lib, w: Where, door: Door, actions: seq<DoorAction>)
    requires Placed(l, w)
    ensures var seg := CloseCommit(l, door, actions);
            if ApplyActions(l.vols, door, l.store, actions).Refused? then seg.lib == l
                && seg.next == Return(Err(ActionRefused))
            else
              && MatchesActions(l.vols, door, actions, seg.events) && AllLegal(w, seg.events)
              && (if door.MailboxDoor? then seg.next == Return(Ok) && seg.lib.openDoors == l.openDoors - {door}
                  else seg.lib.openDoors == l.openDoors && exists n: nat :: n > 0 && seg.next == Sleep(Scanning(n)))
              && Represents(seg.lib.store, Replay(w, seg.events)) && Replay(w, seg.events).Keys == w.Keys
              && SortedByBarcode(l.vols, seg.lib.store.outside) && seg.lib.store.offsite == l.store.offsite
              && forall r: Ref ::
                   (r.DriveRef? || r != RefBehind(door, r.address) || !Behind(l.store, door, r.address)) ==>
                     Get(seg.lib.store, r) == Get(l.store, r)
  {
    hide ApplyActions, Represents, Distinct, SameShape, MatchesActions, SortedByBarcode, Behind, AllLegal, Replay;
    var b := ApplyActions(l.vols, door, l.store, actions);
    if b.Accepted? {
      BatchTransfers(l.vols, door, l.store, w, actions);
      OffsiteUntouched(l.vols, door, l.store, w, actions);
      forall r: Ref | r.DriveRef? || r != RefBehind(door, r.address) || !Behind(l.store, door, r.address)
        ensures Get(b.store.(outside := SortByBarcode(l.vols, b.store.outside)), r) == Get(l.store, r)
      {
        BatchStaysBehindDoor(l.vols, door, l.store, w, actions, r);
        ListsElsewhere(b.store, SortByBarcode(l.vols, b.store.outside), b.store.offsite, r);
      }
    }
  }

  lemma OffsiteUntouched(vols: seq<Volume>, door: Door, s: Store, w: Where, actions: seq<DoorAction>)
    requires Represents(s, w) && ApplyActions(vols, door, s, actions).Accepted?
    ensures ApplyActions(vols, door, s, actions).store.offsite == s.offsite
  {
    BatchStaysBehindDoor(vols, door, s, w, actions, DriveRef(0));
  }
}
