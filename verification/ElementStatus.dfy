/** READ ELEMENT STATUS: one dense address space over all elements, printed page by page
    (internal/scsi/changer.go:433-652; SCSI-2 section 17.2.5). */
module ElementStatus {
  import opened Common
  import opened Placement
  import opened LibraryState
  import opened Sorting

  datatype ElementKind = Storage | ImportExport | DataTransfer

  /** `physical` is the slot or I/O slot address, or the drive's index. */
  datatype Element = Element(kind: ElementKind, address: nat, physical: int, full: bool, except: bool, barcode: string)

  /** What a client sees of the library, whole or scoped, in any order. */
  datatype Status = Status(slots: seq<Slot>, ioslots: seq<Slot>, drives: seq<Drive>, vols: seq<Volume>)

  const ALL_TYPES: byte := 0
  const DESCRIPTOR_LENGTH: nat := 20
  const DESCRIPTOR_LENGTH_VOLTAG: nat := 56
  const FIRST_ADDRESS: nat := 2

  function Code(k: ElementKind): byte {
    match k
    case Storage => 2
    case ImportExport => 3
    case DataTransfer => 4
  }

  // ---- the elements

  /** Addresses are 16 bits wide and wrap. */
  function AddressAt(i: nat): nat {
    (FIRST_ADDRESS + i) % 0x10000
  }

  function TagOf(vols: seq<Volume>, vol: Option<Cartridge>): string {
    match vol
    case None => ""
    case Some(v) => BarcodeOf(vols, v)
  }

  function OfSlot(k: ElementKind, s: Slot, vols: seq<Volume>, i: nat): Element {
    Element(k, AddressAt(i), s.address, s.vol.Some?, false, TagOf(vols, s.vol))
  }

  function OfDrive(d: Drive, vols: seq<Volume>, i: nat): Element {
    Element(DataTransfer, AddressAt(i), d.index, d.vol.Some?, d.fault, TagOf(vols, d.vol))
  }

  predicate LowerSlot(a: Slot, b: Slot) {
    a.address < b.address
  }

  predicate LowerDrive(a: Drive, b: Drive) {
    a.index < b.index
  }

  /** The slots in address order, each once. */
  function SortedSlots(slots: seq<Slot>): (r: seq<Slot>)
    ensures |r| == |slots|
  {
    SortByIs(slots, LowerSlot);
    SortBy(slots, LowerSlot)
  }

  function SortedDrives(drives: seq<Drive>): (r: seq<Drive>)
    ensures |r| == |drives|
  {
    SortByIs(drives, LowerDrive);
    SortBy(drives, LowerDrive)
  }

  lemma SortedSlotsAre(slots: seq<Slot>)
    ensures multiset(SortedSlots(slots)) == multiset(slots)
    ensures forall i, j :: 0 <= i < j < |slots| ==> SortedSlots(slots)[i].address <= SortedSlots(slots)[j].address
  {
    SortByIs(slots, LowerSlot);
  }

  lemma SortedDrivesAre(drives: seq<Drive>)
    ensures multiset(SortedDrives(drives)) == multiset(drives)
    ensures forall i, j :: 0 <= i < j < |drives| ==> SortedDrives(drives)[i].index <= SortedDrives(drives)[j].index
  {
    SortByIs(drives, LowerDrive);
  }

  function SlotPart(k: ElementKind, slots: seq<Slot>, vols: seq<Volume>, first: nat): (r: seq<Element>)
    ensures |r| == |slots| && forall i :: 0 <= i < |r| ==> r[i] == OfSlot(k, slots[i], vols, first + i)
  {
    seq(|slots|, i requires 0 <= i < |slots| => OfSlot(k, slots[i], vols, first + i))
  }

  function DrivePart(drives: seq<Drive>, vols: seq<Volume>, first: nat): (r: seq<Element>)
    ensures |r| == |drives| && forall i :: 0 <= i < |r| ==> r[i] == OfDrive(drives[i], vols, first + i)
  {
    seq(|drives|, i requires 0 <= i < |drives| => OfDrive(drives[i], vols, first + i))
  }

  /** Slots, then I/O slots, then drives, each group sorted, numbered together from 2. */
  function Elements(st: Status): (r: seq<Element>)
    ensures |r| == |st.slots| + |st.ioslots| + |st.drives|
  {
    SlotPart(Storage, SortedSlots(st.slots), st.vols, 0)
    + SlotPart(ImportExport, SortedSlots(st.ioslots), st.vols, |st.slots|)
    + DrivePart(SortedDrives(st.drives), st.vols, |st.slots| + |st.ioslots|)
  }

  /** What an element says of a slot or I/O slot. */
  ghost predicate ReportsSlot(e: Element, kind: ElementKind, x: Slot, vols: seq<Volume>) {
    && e.kind == kind && e.physical == x.address && !e.except && e.full == x.vol.Some?
    && (x.vol.Some? && x.vol.value < |vols| ==> e.barcode == vols[x.vol.value].barcode)
    && (x.vol.None? ==> e.barcode == "")
  }

  /** What an element says of a drive: a fault is an exception. */
  ghost predicate ReportsDrive(e: Element, d: Drive, vols: seq<Volume>) {
    && e.kind == DataTransfer && e.physical == d.index && e.except == d.fault && e.full == d.vol.Some?
    && (d.vol.Some? && d.vol.value < |vols| ==> e.barcode == vols[d.vol.value].barcode)
    && (d.vol.None? ==> e.barcode == "")
  }

  /** From `first` on, the elements report these slots, in address order. */
  ghost predicate ReportsSlots(es: seq<Element>, first: nat, kind: ElementKind, xs: seq<Slot>, vols: seq<Volume>) {
    && (forall i :: 0 <= i < |xs| ==> first + i < |es| && ReportsSlot(es[first + i], kind, xs[i], vols))
    && (forall i, j :: 0 <= i < j < |xs| ==> xs[i].address <= xs[j].address)
  }

  ghost predicate ReportsDrives(es: seq<Element>, first: nat, ds: seq<Drive>, vols: seq<Volume>) {
    && (forall i :: 0 <= i < |ds| ==> first + i < |es| && ReportsDrive(es[first + i], ds[i], vols))
    && (forall i, j :: 0 <= i < j < |ds| ==> ds[i].index <= ds[j].index)
  }

  lemma StorageAre(st: Status)
    ensures ReportsSlots(Elements(st), 0, Storage, SortedSlots(st.slots), st.vols)
  {
    hide SortedSlots, SortedDrives, AddressAt;
    SortedSlotsAre(st.slots);
    forall i | 0 <= i < |st.slots| ensures ReportsSlot(Elements(st)[i], Storage, SortedSlots(st.slots)[i], st.vols) {
      assert Elements(st)[i] == OfSlot(Storage, SortedSlots(st.slots)[i], st.vols, i);
    }
  }

  lemma ImportExportAre(st: Status)
    ensures ReportsSlots(Elements(st), |st.slots|, ImportExport, SortedSlots(st.ioslots), st.vols)
  {
    hide SortedSlots, SortedDrives, AddressAt;
    SortedSlotsAre(st.ioslots);
    var m := |st.slots|;
    forall i | 0 <= i < |st.ioslots|
      ensures ReportsSlot(Elements(st)[m + i], ImportExport, SortedSlots(st.ioslots)[i], st.vols)
    {
      assert Elements(st)[m + i] == OfSlot(ImportExport, SortedSlots(st.ioslots)[i], st.vols, m + i);
    }
  }

  lemma DataTransferAre(st: Status)
    ensures ReportsDrives(Elements(st), |st.slots| + |st.ioslots|, SortedDrives(st.drives), st.vols)
  {
    hide SortedSlots, SortedDrives, AddressAt;
    SortedDrivesAre(st.drives);
    var n := |st.slots| + |st.ioslots|;
    forall i | 0 <= i < |st.drives| ensures ReportsDrive(Elements(st)[n + i], SortedDrives(st.drives)[i], st.vols) {
      assert Elements(st)[n + i] == OfDrive(SortedDrives(st.drives)[i], st.vols, n + i);
    }
  }

  /** The elements are the slots, the I/O slots and the drives, each once, each group in order, numbered
      together from 2, and each element says of its own what there is to say. */
  lemma ElementsAre(st: Status) returns (slots: seq<Slot>, ioslots: seq<Slot>, drives: seq<Drive>)
    ensures multiset(slots) == multiset(st.slots) && multiset(ioslots) == multiset(st.ioslots)
    ensures multiset(drives) == multiset(st.drives)
    ensures var es := Elements(st);
            && |es| == |slots| + |ioslots| + |drives|
            && (forall i :: 0 <= i < |es| ==> es[i].address == (2 + i) % 0x10000)
            && ReportsSlots(es, 0, Storage, slots, st.vols)
            && ReportsSlots(es, |slots|, ImportExport, ioslots, st.vols)
            && ReportsDrives(es, |slots| + |ioslots|, drives, st.vols)
  {
    hide Elements, SortedSlots, SortedDrives, AddressAt, ReportsSlots, ReportsDrives;
    slots, ioslots, drives := SortedSlots(st.slots), SortedSlots(st.ioslots), SortedDrives(st.drives);
    SortedSlotsAre(st.slots);
    SortedSlotsAre(st.ioslots);
    SortedDrivesAre(st.drives);
    StorageAre(st);
    ImportExportAre(st);
    DataTransferAre(st);
    forall i: nat | i < |Elements(st)| ensures Elements(st)[i].address == (2 + i) % 0x10000 {
      AddressOf(st, i);
      AddressAtIs(i);
    }
  }

  lemma AddressOf(st: Status, i: nat)
    requires i < |Elements(st)|
    ensures Elements(st)[i].address == AddressAt(i)
  {
    hide AddressAt, SortedSlots, SortedDrives;
  }

  lemma AddressAtIs(i: nat)
    ensures AddressAt(i) == (2 + i) % 0x10000
  {
  }

  lemma AddressSmall(i: nat)
    requires i < 0x10000 - FIRST_ADDRESS
    ensures AddressAt(i) == FIRST_ADDRESS + i
  {
  }

  lemma AddressInjective(i: nat, j: nat)
    requires i < j
    ensures j < 0x10000 ==> AddressAt(i) != AddressAt(j)
    ensures j == i + 0x10000 ==> AddressAt(i) == AddressAt(j)
  {
  }

  /** The addresses are pairwise distinct exactly when they fit the 16 bits. */
  lemma AddressesDistinct(st: Status)
    ensures (forall i, j :: 0 <= i < j < |Elements(st)| ==> Elements(st)[i].address != Elements(st)[j].address)
       <==> |Elements(st)| <= 0x10000
  {
    hide Elements, AddressAt;
    var es := Elements(st);
    forall i: nat | i < |es| ensures es[i].address == AddressAt(i) {
      AddressOf(st, i);
    }
    if |es| > 0x10000 {
      AddressInjective(0, 0x10000);
      assert es[0].address == es[0x10000].address;
    } else {
      forall i: nat, j: nat | i < j < |es| ensures es[i].address != es[j].address {
        AddressInjective(i, j);
      }
    }
  }

  method SlotElements(k: ElementKind, slots: seq<Slot>, vols: seq<Volume>, first: nat) returns (es: seq<Element>)
    ensures es == SlotPart(k, slots, vols, first)
  {
    es := [];
    var address := AddressAt(first);
    for i := 0 to |slots|
      invariant |es| == i && address == AddressAt(first + i)
      invariant forall j :: 0 <= j < i ==> es[j] == OfSlot(k, slots[j], vols, first + j)
    {
      es := es + [Element(k, address, slots[i].address, slots[i].vol.Some?, false, TagOf(vols, slots[i].vol))];
      address := (address + 1) % 0x10000;
    }
  }

  method DriveElements(drives: seq<Drive>, vols: seq<Volume>, first: nat) returns (es: seq<Element>)
    ensures es == DrivePart(drives, vols, first)
  {
    es := [];
    var address := AddressAt(first);
    for i := 0 to |drives|
      invariant |es| == i && address == AddressAt(first + i)
      invariant forall j :: 0 <= j < i ==> es[j] == OfDrive(drives[j], vols, first + j)
    {
      es := es + [Element(DataTransfer, address, drives[i].index, drives[i].vol.Some?, drives[i].fault,
          TagOf(vols, drives[i].vol))];
      address := (address + 1) % 0x10000;
    }
  }

  method BuildElements(st: Status) returns (es: seq<Element>)
    ensures es == Elements(st)
  {
    var storage := SlotElements(Storage, SortedSlots(st.slots), st.vols, 0);
    var importExport := SlotElements(ImportExport, SortedSlots(st.ioslots), st.vols, |storage|);
    var transfer := DriveElements(SortedDrives(st.drives), st.vols, |storage| + |importExport|);
    es := storage + importExport + transfer;
  }

  // ---- selection and paging

  predicate Wanted(e: Element, typ: byte, start: nat) {
    e.address >= start && (typ == ALL_TYPES || typ == Code(e.kind))
  }

  function Matching(es: seq<Element>, typ: byte, start: nat): seq<Element> {
    if es == [] then []
    else Matching(es[..|es| - 1], typ, start) + if Wanted(es[|es| - 1], typ, start) then [es[|es| - 1]] else []
  }

  function Capped(es: seq<Element>, n: nat): seq<Element> {
    if |es| <= n then es else es[..n]
  }

  method SelectElements(es: seq<Element>, typ: byte, start: nat, n: nat) returns (selected: seq<Element>)
    ensures selected == Capped(Matching(es, typ, start), n)
  {
    selected := [];
    for i := 0 to |es|
      invariant selected == Matching(es[..i], typ, start) && |selected| <= n
    {
      assert es[..i + 1][..i] == es[..i];
      if Wanted(es[i], typ, start) {
        if |selected| >= n {
          MatchingPrefix(es, typ, start, i + 1);
          return;
        }
        selected := selected + [es[i]];
      }
    }
    assert es[..|es|] == es;
  }

  lemma {:induction false} MatchingPrefix(es: seq<Element>, typ: byte, start: nat, i: nat)
    requires i <= |es|
    ensures Matching(es[..i], typ, start) <= Matching(es, typ, start)
  {
    if i < |es| {
      assert es[..|es| - 1][..i] == es[..i];
      MatchingPrefix(es[..|es| - 1], typ, start, i);
    } else {
      assert es[..i] == es;
    }
  }

  /** What an initiator asks for: a start address and type 2, 3 or 4, or any with type 0. */
  predicate Asked(e: Element, typ: byte, start: nat) {
    && start <= e.address
    && (typ == 0 || (typ == 2 && e.kind == Storage) || (typ == 3 && e.kind == ImportExport)
        || (typ == 4 && e.kind == DataTransfer))
  }

  /** Element j of the list is one of the picked ones. */
  ghost predicate Picked(picks: seq<nat>, j: nat) {
    exists i :: 0 <= i < |picks| && picks[i] == j
  }

  /** `picks` are the places, in list order, of the first n elements asked for. */
  ghost predicate FirstAsked(es: seq<Element>, typ: byte, start: nat, n: nat, picks: seq<nat>) {
    && |picks| <= n && (forall i :: 0 <= i < |picks| ==> picks[i] < |es| && Asked(es[picks[i]], typ, start))
    && (forall i, j :: 0 <= i < j < |picks| ==> picks[i] < picks[j])
    && forall j: nat :: j < |es| && Asked(es[j], typ, start) && !Picked(picks, j) ==>
         |picks| == n && forall i :: 0 <= i < |picks| ==> picks[i] < j
  }

  lemma WantedIsAsked(e: Element, typ: byte, start: nat)
    ensures Wanted(e, typ, start) <==> Asked(e, typ, start)
  {
  }

  lemma {:induction false} MatchingPicks(es: seq<Element>, typ: byte, start: nat) returns (picks: seq<nat>)
    ensures |picks| == |Matching(es, typ, start)|
    ensures forall i :: 0 <= i < |picks| ==>
              picks[i] < |es| && es[picks[i]] == Matching(es, typ, start)[i] && Asked(es[picks[i]], typ, start)
    ensures forall i, j :: 0 <= i < j < |picks| ==> picks[i] < picks[j]
    ensures forall j: nat :: j < |es| && Asked(es[j], typ, start) ==> Picked(picks, j)
  {
    if es == [] {
      picks := [];
    } else {
      var init, last := es[..|es| - 1], es[|es| - 1];
      var before := MatchingPicks(init, typ, start);
      WantedIsAsked(last, typ, start);
      picks := before + if Wanted(last, typ, start) then [|es| - 1] else [];
      forall j: nat | j < |es| && Asked(es[j], typ, start) ensures Picked(picks, j) {
        if j < |es| - 1 {
          assert init[j] == es[j];
          var i :| 0 <= i < |before| && before[i] == j;
          assert picks[i] == j;
        } else {
          assert picks[|picks| - 1] == j;
        }
      }
    }
  }

  /** The selection is the first n elements asked for, in list order, and no others. */
  lemma SelectionIs(es: seq<Element>, typ: byte, start: nat, n: nat) returns (picks: seq<nat>)
    ensures FirstAsked(es, typ, start, n, picks)
    ensures var selected := Capped(Matching(es, typ, start), n);
            |selected| == |picks| && forall i :: 0 <= i < |picks| ==> selected[i] == es[picks[i]]
  {
    hide Matching;
    var all := MatchingPicks(es, typ, start);
    picks := if |all| <= n then all else all[..n];
    forall j: nat | j < |es| && Asked(es[j], typ, start) && !Picked(picks, j)
      ensures |picks| == n && forall i :: 0 <= i < |picks| ==> picks[i] < j
    {
      assert Picked(all, j);
      var k: nat :| k < |all| && all[k] == j;
      PrefixPicks(all, n, k);
    }
  }

  lemma PrefixPicks(all: seq<nat>, n: nat, k: nat)
    requires k < |all|
    ensures k < n ==> Picked(if |all| <= n then all else all[..n], all[k])
  {
    var picks := if |all| <= n then all else all[..n];
    if k < n {
      assert picks[k] == all[k];
    }
  }

  ghost predicate Ascending(es: seq<Element>) {
    forall i, j :: 0 <= i < j < |es| ==> es[i].address < es[j].address
  }

  ghost predicate AllWanted(es: seq<Element>, typ: byte, start: nat) {
    forall i :: 0 <= i < |es| ==> Wanted(es[i], typ, start)
  }

  ghost predicate AllBelow(es: seq<Element>, bound: int) {
    forall i :: 0 <= i < |es| ==> es[i].address < bound
  }

  lemma {:induction false} MatchingIs(es: seq<Element>, typ: byte, start: nat)
    requires Ascending(es)
    ensures Ascending(Matching(es, typ, start)) && AllWanted(Matching(es, typ, start), typ, start)
    ensures es != [] ==> AllBelow(Matching(es, typ, start), es[|es| - 1].address + 1)
  {
    if es != [] {
      var init, last := es[..|es| - 1], es[|es| - 1];
      assert Ascending(init);
      MatchingIs(init, typ, start);
      assert init != [] ==> init[|init| - 1].address < last.address;
      AppendAscending(Matching(init, typ, start), last);
    }
  }

  lemma AppendAscending(es: seq<Element>, e: Element)
    requires Ascending(es) && AllBelow(es, e.address)
    ensures Ascending(es + [e])
  {
  }

  /** Filtering by a higher start is filtering what a lower start let through. */
  lemma {:induction false} MatchingAgain(es: seq<Element>, typ: byte, low: nat, high: nat)
    requires low <= high
    ensures Matching(Matching(es, typ, low), typ, high) == Matching(es, typ, high)
  {
    if es != [] {
      var init, last := es[..|es| - 1], es[|es| - 1];
      MatchingAgain(init, typ, low, high);
      if Wanted(last, typ, low) {
        assert (Matching(init, typ, low) + [last])[..|Matching(init, typ, low)|] == Matching(init, typ, low);
      } else {
        assert Matching(es, typ, low) == Matching(init, typ, low);
      }
    }
  }

  lemma {:induction false} NoneWanted(es: seq<Element>, typ: byte, start: nat)
    requires AllBelow(es, start)
    ensures Matching(es, typ, start) == []
  {
    if es != [] {
      NoneWanted(es[..|es| - 1], typ, start);
    }
  }

  lemma {:induction false} TailMatches(all: seq<Element>, typ: byte, start: nat, n: nat)
    requires Ascending(all) && AllWanted(all, typ, start) && 0 < n <= |all|
    ensures Matching(all, typ, all[n - 1].address + 1) == all[n..]
  {
    var next := all[n - 1].address + 1;
    if n == |all| {
      NoneWanted(all, typ, next);
    } else {
      var init := all[..|all| - 1];
      TailMatches(init, typ, start, n);
      assert Wanted(all[|all| - 1], typ, next);
      assert all[n..] == init[n..] + [all[|all| - 1]];
    }
  }

  /** Asking again from just above the last address seen continues where the page stopped. */
  lemma NextPage(es: seq<Element>, typ: byte, start: nat, n: nat)
    requires Ascending(es) && 0 < n <= |Matching(es, typ, start)|
    ensures Matching(es, typ, Matching(es, typ, start)[n - 1].address + 1) == Matching(es, typ, start)[n..]
  {
    var all := Matching(es, typ, start);
    MatchingIs(es, typ, start);
    assert Wanted(all[n - 1], typ, start);
    MatchingAgain(es, typ, start, all[n - 1].address + 1);
    TailMatches(all, typ, start, n);
  }

  /** An initiator's walk: page after page of the given sizes, each starting just above the last address. */
  function Pages(es: seq<Element>, typ: byte, start: nat, sizes: seq<nat>): seq<Element>
    decreases |sizes|
  {
    if sizes == [] then []
    else
      var page := Capped(Matching(es, typ, start), sizes[0]);
      if page == [] then [] else page + Pages(es, typ, page[|page| - 1].address + 1, sizes[1..])
  }

  /** Paging with any positive sizes yields every wanted element exactly once, in order. */
  lemma {:induction false} PagingIsComplete(es: seq<Element>, typ: byte, start: nat, sizes: seq<nat>)
    requires Ascending(es) && (forall k :: 0 <= k < |sizes| ==> sizes[k] > 0)
    ensures Pages(es, typ, start, sizes) == Capped(Matching(es, typ, start), Sum(sizes))
    decreases |sizes|
  {
    hide Matching, Capped, Ascending;
    var all := Matching(es, typ, start);
    CappedIs(all, Sum(sizes));
    if sizes != [] {
      var page := Capped(all, sizes[0]);
      CappedIs(all, sizes[0]);
      if page != [] {
        NextPage(es, typ, start, |page|);
        PagingIsComplete(es, typ, page[|page| - 1].address + 1, sizes[1..]);
        CappedParts(all, sizes[0], Sum(sizes[1..]));
      }
    }
  }

  lemma CappedIs(all: seq<Element>, n: nat)
    ensures Capped(all, n) <= all
    ensures Capped(all, n) == [] <==> n == 0 || all == []
  {
  }

  lemma CappedParts(all: seq<Element>, a: nat, b: nat)
    ensures var page := Capped(all, a); page + Capped(all[|page|..], b) == Capped(all, a + b)
  {
  }

  lemma {:induction false} AllMatch(es: seq<Element>)
    ensures Matching(es, ALL_TYPES, 0) == es
  {
    if es != [] {
      AllMatch(es[..|es| - 1]);
      assert es == es[..|es| - 1] + [es[|es| - 1]];
    }
  }

  /** A library whose elements fit the address space is paged through completely. */
  lemma LibraryIsPaged(st: Status, sizes: seq<nat>)
    requires |Elements(st)| < 0x10000 - FIRST_ADDRESS
    requires (forall k :: 0 <= k < |sizes| ==> sizes[k] > 0) && Sum(sizes) >= |Elements(st)|
    ensures Pages(Elements(st), ALL_TYPES, 0, sizes) == Elements(st)
    ensures forall i :: 0 <= i < |Elements(st)| ==> Elements(st)[i].address + 1 < 0x10000
  {
    hide Elements, AddressAt, Pages, Matching;
    forall i: nat | i < |Elements(st)| ensures Elements(st)[i].address == FIRST_ADDRESS + i {
      AddressOf(st, i);
      AddressSmall(i);
    }
    PagingIsComplete(Elements(st), ALL_TYPES, 0, sizes);
    AllMatch(Elements(st));
  }

  // ---- one type at a time

  lemma {:induction false} MatchingAll(es: seq<Element>, typ: byte)
    requires forall i :: 0 <= i < |es| ==> Wanted(es[i], typ, 0)
    ensures Matching(es, typ, 0) == es
  {
    if es != [] {
      MatchingAll(es[..|es| - 1], typ);
      assert es == es[..|es| - 1] + [es[|es| - 1]];
    }
  }

  lemma {:induction false} MatchingNone(es: seq<Element>, typ: byte)
    requires forall i :: 0 <= i < |es| ==> !Wanted(es[i], typ, 0)
    ensures Matching(es, typ, 0) == []
  {
    if es != [] {
      MatchingNone(es[..|es| - 1], typ);
    }
  }

  lemma {:induction false} MatchingParts(a: seq<Element>, b: seq<Element>, typ: byte, start: nat)
    ensures Matching(a + b, typ, start) == Matching(a, typ, start) + Matching(b, typ, start)
  {
    if b == [] {
      assert a + b == a;
    } else {
      assert (a + b)[..|a + b| - 1] == a + b[..|b| - 1];
      MatchingParts(a, b[..|b| - 1], typ, start);
    }
  }

  ghost predicate OfKind(es: seq<Element>, kind: ElementKind) {
    forall i :: 0 <= i < |es| ==> es[i].kind == kind
  }

  lemma PartOfType(es: seq<Element>, kind: ElementKind, typ: byte)
    requires OfKind(es, kind) && 2 <= typ <= 4
    ensures Matching(es, typ, 0) == if typ == Code(kind) then es else []
  {
    if typ == Code(kind) {
      MatchingAll(es, typ);
    } else {
      MatchingNone(es, typ);
    }
  }

  lemma PartsOfType(a: seq<Element>, b: seq<Element>, c: seq<Element>, typ: byte)
    requires OfKind(a, Storage) && OfKind(b, ImportExport) && OfKind(c, DataTransfer) && 2 <= typ <= 4
    ensures Matching(a + b + c, typ, 0) == if typ == 2 then a else if typ == 3 then b else c
  {
    hide Matching, OfKind;
    MatchingParts(a + b, c, typ, 0);
    MatchingParts(a, b, typ, 0);
    PartOfType(a, Storage, typ);
    PartOfType(b, ImportExport, typ);
    PartOfType(c, DataTransfer, typ);
  }

  /** The elements of a type, as they stand in the list. */
  function OfType(st: Status, typ: byte): seq<Element> {
    var es, m, n := Elements(st), |st.slots|, |st.slots| + |st.ioslots|;
    if typ == 2 then es[..m] else if typ == 3 then es[m..n] else es[n..]
  }

  lemma MatchingOfType(st: Status, typ: byte)
    requires 2 <= typ <= 4
    ensures Matching(Elements(st), typ, 0) == OfType(st, typ)
  {
    hide Elements, Matching;
    KindsAre(st);
    var es, m, n := Elements(st), |st.slots|, |st.slots| + |st.ioslots|;
    assert es == es[..m] + es[m..n] + es[n..];
    PartsOfType(es[..m], es[m..n], es[n..], typ);
  }

  function KindOf(typ: byte): ElementKind {
    if typ == 2 then Storage else if typ == 3 then ImportExport else DataTransfer
  }

  lemma OfTypeIs(st: Status, typ: byte, e: Element)
    requires 2 <= typ <= 4 && e in Elements(st)
    ensures e in OfType(st, typ) <==> e.kind == KindOf(typ)
  {
    hide Elements;
    KindsAre(st);
    var es, m, n := Elements(st), |st.slots|, |st.slots| + |st.ioslots|;
    var part := OfType(st, typ);
    var i :| 0 <= i < |es| && es[i] == e;
    if typ == 2 && i < m {
      assert part[i] == e;
    } else if typ == 3 && m <= i < n {
      assert part[i - m] == e;
    } else if typ == 4 && n <= i {
      assert part[i - n] == e;
    }
  }

  lemma KindsAre(st: Status)
    ensures var es, m, n := Elements(st), |st.slots|, |st.slots| + |st.ioslots|;
            forall i :: 0 <= i < |es| ==>
              es[i].kind == if i < m then Storage else if i < n then ImportExport else DataTransfer
  {
    hide AddressAt, SortedSlots, SortedDrives;
  }

  /** Paging by one type reads out all elements of that type of a fitting library and nothing else: the
      storage elements for type 2, the import/export elements for type 3, the drives for type 4. */
  lemma EachTypeIsPaged(st: Status, typ: byte, sizes: seq<nat>)
    requires |Elements(st)| < 0x10000 - FIRST_ADDRESS && 2 <= typ <= 4
    requires (forall k :: 0 <= k < |sizes| ==> sizes[k] > 0) && Sum(sizes) >= |Elements(st)|
    ensures Pages(Elements(st), typ, 0, sizes) == OfType(st, typ)
    ensures forall e :: e in Elements(st) ==> (e in Pages(Elements(st), typ, 0, sizes) <==> e.kind == KindOf(typ))
  {
    hide Elements, AddressAt, Pages, Matching, OfType;
    forall i: nat | i < |Elements(st)| ensures Elements(st)[i].address == FIRST_ADDRESS + i {
      AddressOf(st, i);
      AddressSmall(i);
    }
    PagingIsComplete(Elements(st), typ, 0, sizes);
    MatchingOfType(st, typ);
    OfTypeFits(st, typ);
    forall e | e in Elements(st) ensures e in OfType(st, typ) <==> e.kind == KindOf(typ) {
      OfTypeIs(st, typ, e);
    }
  }

  lemma OfTypeFits(st: Status, typ: byte)
    ensures |OfType(st, typ)| <= |Elements(st)|
  {
    hide Elements;
  }
}
