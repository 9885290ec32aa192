/** The printed element status pages, and an initiator reading them back
    (internal/scsi/changer.go:527-652, internal/scsi/inquiry.go:43-50; SCSI-2 section 17.2.5). */
module ElementPages {
  import opened Common
  import opened ElementStatus

  // ---- numbers

  function Byte(n: nat): byte {
    (n % 256) as byte
  }

  function BE16(n: nat): seq<byte> {
    [Byte(n / 256), Byte(n)]
  }

  function BE24(n: nat): seq<byte> {
    [Byte(n / 65536), Byte(n / 256), Byte(n)]
  }

  function Read16(b: seq<byte>): nat
    requires |b| == 2
  {
    b[0] as nat * 256 + b[1] as nat
  }

  function Read24(b: seq<byte>): nat
    requires |b| == 3
  {
    b[0] as nat * 65536 + b[1] as nat * 256 + b[2] as nat
  }

  lemma Reads16(n: nat)
    requires n < 0x10000
    ensures Read16(BE16(n)) == n
  {
  }

  lemma Reads24(n: nat)
    requires n < 0x1000000
    ensures Read24(BE24(n)) == n
  {
    var hi, rest := n / 65536, n % 65536;
    assert (n / 256) % 256 == rest / 256;
  }

  function Zeros(n: nat): seq<byte> {
    seq(n, _ => 0)
  }

  // ---- volume tags

  const TAG_LENGTH: nat := 32

  /** Left-aligned, padded with spaces, cut at 32 bytes; nothing at all for an element without barcode. */
  function Tag(barcode: string): (t: seq<byte>)
    ensures |t| == TAG_LENGTH
  {
    if barcode == "" then Zeros(TAG_LENGTH)
    else seq(TAG_LENGTH, i requires 0 <= i < TAG_LENGTH => if i < |barcode| then Byte(barcode[i] as int) else 32)
  }

  /** An initiator takes the characters up to the first space or zero byte. */
  function ReadTag(b: seq<byte>): string {
    if b == [] || b[0] == 0 || b[0] == 32 then "" else [b[0] as char] + ReadTag(b[1..])
  }

  /** Barcodes hold visible one-byte characters. */
  predicate Visible(barcode: string) {
    forall i :: 0 <= i < |barcode| ==> 32 < barcode[i] as int < 127
  }

  function Cut(barcode: string): string {
    if |barcode| <= TAG_LENGTH then barcode else barcode[..TAG_LENGTH]
  }

  lemma {:induction false} ReadsTagFrom(barcode: string, i: nat)
    requires Visible(barcode) && barcode != "" && i <= TAG_LENGTH
    ensures ReadTag(Tag(barcode)[i..]) == if i <= |Cut(barcode)| then Cut(barcode)[i..] else ""
    decreases TAG_LENGTH - i
  {
    hide Tag, Cut, Visible;
    var t := Tag(barcode);
    CutIs(barcode);
    if i < TAG_LENGTH {
      ReadsTagFrom(barcode, i + 1);
      ReadsOneByte(t, i);
      TagByte(barcode, i);
      if i < |Cut(barcode)| {
        VisibleAt(barcode, i);
        assert Cut(barcode)[i..] == [barcode[i]] + Cut(barcode)[i + 1..];
      }
    } else {
      assert t[i..] == [];
      assert |Cut(barcode)| <= i ==> Cut(barcode)[|Cut(barcode)|..] == "";
    }
  }

  lemma CutIs(barcode: string)
    ensures |Cut(barcode)| <= TAG_LENGTH && Cut(barcode) <= barcode
    ensures |Cut(barcode)| == TAG_LENGTH || Cut(barcode) == barcode
  {
  }

  lemma VisibleAt(barcode: string, i: nat)
    requires Visible(barcode) && i < |barcode|
    ensures 32 < barcode[i] as int < 127
  {
  }

  lemma ReadsOneByte(b: seq<byte>, i: nat)
    requires i < |b|
    ensures ReadTag(b[i..]) == if b[i] == 0 || b[i] == 32 then "" else [b[i] as char] + ReadTag(b[i + 1..])
  {
    assert b[i..][1..] == b[i + 1..];
  }

  /** A tag reads back as the barcode, or its first 32 characters. */
  lemma ReadsTag(barcode: string)
    requires Visible(barcode)
    ensures ReadTag(Tag(barcode)) == Cut(barcode)
  {
    if barcode != "" {
      ReadsTagFrom(barcode, 0);
      assert Tag(barcode)[0..] == Tag(barcode);
    }
  }

  // ---- descriptors

  function DescriptorLength(voltag: bool): nat {
    if voltag then DESCRIPTOR_LENGTH_VOLTAG else DESCRIPTOR_LENGTH
  }

  /** Import/export enabled, accessible, exception, full. */
  function Flags(e: Element): byte {
    (if e.kind == ImportExport then 0x30 else 0) + 0x08 + (if e.except then 0x04 else 0) + if e.full then 0x01 else 0
  }

  function Descriptor(e: Element, voltag: bool): (d: seq<byte>)
    ensures |d| == DescriptorLength(voltag)
  {
    BE16(e.address) + [Flags(e)] + Zeros(9) + if voltag then Tag(e.barcode) + Zeros(12) else Zeros(8)
  }

  /** A descriptor byte by byte. */
  lemma DescriptorBytes(e: Element, voltag: bool, d: seq<byte>)
    requires |d| == DescriptorLength(voltag)
    requires d[0] == Byte(e.address / 256) && d[1] == Byte(e.address) && d[2] == Flags(e)
    requires forall j :: 3 <= j < |d| ==> d[j] == if voltag && 12 <= j < 44 then Tag(e.barcode)[j - 12] else 0
    ensures d == Descriptor(e, voltag)
  {
    hide Tag, Byte;
    var r := Descriptor(e, voltag);
    forall j | 0 <= j < |d| ensures d[j] == r[j] {
    }
  }

  method FlagsOf(e: Element) returns (flags: byte)
    ensures flags == Flags(e)
  {
    flags := 0;
    if e.kind == ImportExport {
      flags := flags + 0x30;
    }
    flags := flags + 0x08;
    if e.except {
      flags := flags + 0x04;
    }
    if e.full {
      flags := flags + 0x01;
    }
  }

  /** In place, as the bytes are filled in. */
  method BuildDescriptor(e: Element, voltag: bool) returns (r: seq<byte>)
    ensures r == Descriptor(e, voltag)
  {
    hide Byte, Tag;
    var d := new byte[DescriptorLength(voltag)](_ => 0);
    var flags := FlagsOf(e);
    d[0], d[1], d[2] := Byte(e.address / 256), Byte(e.address), flags;
    if voltag && e.barcode != "" {
      var i := 0;
      while i < TAG_LENGTH
        invariant 0 <= i <= TAG_LENGTH
        invariant d[0] == Byte(e.address / 256) && d[1] == Byte(e.address) && d[2] == flags
        invariant forall j :: 12 <= j < 12 + i ==> d[j] == Tag(e.barcode)[j - 12]
        invariant forall j :: 3 <= j < 12 || 12 + i <= j < d.Length ==> d[j] == 0
      {
        TagAt(e.barcode, i);
        d[12 + i] := if i < |e.barcode| then Byte(e.barcode[i] as int) else 32;
        i := i + 1;
      }
    }
    TagOfNothing(e.barcode);
    r := d[..];
    DescriptorBytes(e, voltag, r);
  }

  lemma TagAt(barcode: string, i: nat)
    requires barcode != "" && i < TAG_LENGTH
    ensures Tag(barcode)[i] == if i < |barcode| then Byte(barcode[i] as int) else 32
  {
  }

  lemma TagOfNothing(barcode: string)
    ensures barcode == "" ==> Tag(barcode) == Zeros(TAG_LENGTH)
  {
  }

  /** What an initiator learns of one element. */
  datatype Reading = Reading(kind: byte, address: nat, full: bool, except: bool, barcode: string)

  function Reported(e: Element, voltag: bool): Reading {
    Reading(Code(e.kind), e.address, e.full, e.except, if voltag then Cut(e.barcode) else "")
  }

  function ReadDescriptor(kind: byte, voltag: bool, d: seq<byte>): Reading
    requires |d| == DescriptorLength(voltag)
  {
    Reading(kind, Read16(d[0..2]), d[2] % 2 == 1, (d[2] / 4) % 2 == 1, if voltag then ReadTag(d[12..44]) else "")
  }

  lemma DescriptorParts(e: Element, voltag: bool)
    ensures var d := Descriptor(e, voltag);
            d[0..2] == BE16(e.address) && d[2] == Flags(e) && (voltag ==> d[12..44] == Tag(e.barcode))
  {
    var d := Descriptor(e, voltag);
    if voltag {
      assert d == (BE16(e.address) + [Flags(e)] + Zeros(9)) + (Tag(e.barcode) + Zeros(12));
    }
  }

  /** A descriptor reads back as its element. */
  lemma ReadsDescriptor(e: Element, voltag: bool)
    requires e.address < 0x10000 && Visible(e.barcode)
    ensures ReadDescriptor(Code(e.kind), voltag, Descriptor(e, voltag)) == Reported(e, voltag)
  {
    hide Tag, BE16, Descriptor;
    DescriptorParts(e, voltag);
    Reads16(e.address);
    ReadsTag(e.barcode);
  }

  function Bit(b: byte, n: nat): bool {
    match n
    case 0 => b % 2 == 1
    case 1 => b / 2 % 2 == 1
    case 2 => b / 4 % 2 == 1
    case 3 => b / 8 % 2 == 1
    case 4 => b / 16 % 2 == 1
    case 5 => b / 32 % 2 == 1
    case 6 => b / 64 % 2 == 1
    case _ => b / 128 % 2 == 1
  }

  /** The flag byte of SCSI-2 section 17.2.5, bit by bit: full, exception, access always, and import and
      export enabled on import/export elements. */
  lemma FlagBits(e: Element)
    ensures Bit(Flags(e), 0) == e.full && !Bit(Flags(e), 1) && Bit(Flags(e), 2) == e.except && Bit(Flags(e), 3)
    ensures Bit(Flags(e), 4) == Bit(Flags(e), 5) == (e.kind == ImportExport) && !Bit(Flags(e), 6) && !Bit(Flags(e), 7)
  {
  }

  /** A descriptor, byte by byte: address, flags, and from byte 12 the volume tag padded with spaces to 32
      bytes if tags are asked for and there is one; everything else is zero. */
  lemma DescriptorIs(e: Element, voltag: bool)
    requires e.address < 0x10000 && Visible(e.barcode)
    ensures var d := Descriptor(e, voltag);
            && |d| == (if voltag then 56 else 20) && d[0] as nat * 256 + d[1] as nat == e.address && d[2] == Flags(e)
            && forall j :: 3 <= j < |d| ==>
                 d[j] as int == if !voltag || e.barcode == "" || j < 12 || 44 <= j then 0
                                else if j - 12 < |e.barcode| then e.barcode[j - 12] as int else 32
  {
    hide Tag, BE16, Flags;
    var d := Descriptor(e, voltag);
    DescriptorParts(e, voltag);
    Reads16(e.address);
    assert d[0] == d[0..2][0] && d[1] == d[0..2][1];
    forall j | 3 <= j < |d|
      ensures d[j] as int == if !voltag || e.barcode == "" || j < 12 || 44 <= j then 0
                             else if j - 12 < |e.barcode| then e.barcode[j - 12] as int else 32
    {
      if voltag && 12 <= j < 44 {
        assert d[j] == d[12..44][j - 12];
        TagByte(e.barcode, j - 12);
      }
    }
  }

  lemma TagByte(barcode: string, i: nat)
    requires Visible(barcode) && i < TAG_LENGTH
    ensures Tag(barcode)[i] as int == if barcode == "" then 0 else if i < |barcode| then barcode[i] as int else 32
  {
  }

  // ---- pages

  function RunLength(es: seq<Element>, n: nat): nat
    requires n <= |es|
    ensures n <= RunLength(es, n) <= |es|
    decreases |es| - n
  {
    if n < |es| && es[n].kind == es[0].kind then RunLength(es, n + 1) else n
  }

  function Descriptors(es: seq<Element>, voltag: bool): (d: seq<byte>)
    ensures |d| == |es| * DescriptorLength(voltag)
  {
    if es == [] then [] else Descriptors(es[..|es| - 1], voltag) + Descriptor(es[|es| - 1], voltag)
  }

  /** An 8-byte header and the descriptors of elements of one kind. */
  function Page(es: seq<Element>, voltag: bool): (p: seq<byte>)
    requires es != []
    ensures |p| == 8 + |es| * DescriptorLength(voltag)
  {
    [Code(es[0].kind), if voltag then 0x80 else 0] + BE16(DescriptorLength(voltag)) + [0]
    + BE24(|es| * DescriptorLength(voltag)) + Descriptors(es, voltag)
  }

  function Body(es: seq<Element>, voltag: bool): seq<byte>
    decreases |es|
  {
    if es == [] then []
    else
      var n := RunLength(es, 1);
      Page(es[..n], voltag) + Body(es[n..], voltag)
  }

  /** The descriptors of the elements of one kind from i on. */
  method BuildRun(es: seq<Element>, i: nat, voltag: bool) returns (j: nat, descriptors: seq<byte>)
    requires i < |es|
    ensures j == i + RunLength(es[i..], 1) <= |es|
    ensures descriptors == Descriptors(es[i..j], voltag)
  {
    hide Descriptor;
    var kind := es[i].kind;
    ghost var rest := es[i..];
    var first := BuildDescriptor(es[i], voltag);
    descriptors := first;
    assert es[i..i + 1][..0] == [];
    assert Descriptors(es[i..i + 1][..0], voltag) == [];
    j := i + 1;
    while j < |es| && es[j].kind == kind
      invariant i < j <= |es|
      invariant RunLength(rest, 1) == RunLength(rest, j - i)
      invariant descriptors == Descriptors(es[i..j], voltag)
      decreases |es| - j
    {
      var d := BuildDescriptor(es[j], voltag);
      assert es[i..j + 1][..j - i] == es[i..j];
      descriptors := descriptors + d;
      j := j + 1;
    }
  }

  lemma NextRun(es: seq<Element>, voltag: bool, i: nat, j: nat)
    requires i < |es| && j == i + RunLength(es[i..], 1) <= |es|
    ensures Body(es[i..], voltag) == Page(es[i..j], voltag) + Body(es[j..], voltag)
  {
    hide Page;
    var rest := es[i..];
    assert rest[..j - i] == es[i..j] && rest[j - i..] == es[j..];
  }

  method BuildBody(es: seq<Element>, voltag: bool) returns (body: seq<byte>)
    ensures body == Body(es, voltag)
  {
    hide Body, Descriptors, RunLength;
    body := [];
    var i := 0;
    assert es[0..] == es;
    while i < |es|
      invariant 0 <= i <= |es|
      invariant body + Body(es[i..], voltag) == Body(es, voltag)
      decreases |es| - i
    {
      var j, descriptors := BuildRun(es, i, voltag);
      var count := (j - i) * DescriptorLength(voltag);
      var page := [Code(es[i].kind), if voltag then 0x80 else 0] + BE16(DescriptorLength(voltag)) + [0] + BE24(count);
      PageIs(es[i..j], voltag, page, descriptors);
      NextRun(es, voltag, i, j);
      ghost var before := body;
      body := body + page + descriptors;
      assert body == before + Page(es[i..j], voltag);
      i := j;
    }
    EmptyBody(es[i..], voltag);
  }

  lemma PageIs(es: seq<Element>, voltag: bool, page: seq<byte>, descriptors: seq<byte>)
    requires es != [] && descriptors == Descriptors(es, voltag)
    requires page == [Code(es[0].kind), if voltag then 0x80 else 0] + BE16(DescriptorLength(voltag)) + [0]
                     + BE24(|es| * DescriptorLength(voltag))
    ensures Page(es, voltag) == page + descriptors
  {
  }

  lemma EmptyBody(es: seq<Element>, voltag: bool)
    requires es == []
    ensures Body(es, voltag) == []
  {
  }

  function Header(es: seq<Element>, body: seq<byte>, actionCode: byte): (h: seq<byte>)
    ensures |h| == 8
  {
    (if es == [] then [0, 0] else BE16(es[0].address)) + BE16(|es|) + [actionCode % 32] + BE24(|body|)
  }

  // ---- reading back

  function ReadDescriptors(kind: byte, voltag: bool, d: seq<byte>): seq<Reading>
    decreases |d|
  {
    var n := DescriptorLength(voltag);
    if |d| < n then [] else ReadDescriptors(kind, voltag, d[..|d| - n]) + [ReadDescriptor(kind, voltag, d[|d| - n..])]
  }

  /** The pages say themselves how long they are and whether they carry tags; a torn page ends the reading. */
  function ReadBody(b: seq<byte>): seq<Reading>
    decreases |b|
  {
    if |b| < 8 then []
    else
      var count := Read24(b[5..8]);
      if |b| < 8 + count then []
      else ReadDescriptors(b[0], b[1] >= 0x80, b[8..8 + count]) + ReadBody(b[8 + count..])
  }

  function Readings(es: seq<Element>, voltag: bool): (r: seq<Reading>)
    ensures |r| == |es| && forall i :: 0 <= i < |r| ==> r[i] == Reported(es[i], voltag)
  {
    seq(|es|, i requires 0 <= i < |es| => Reported(es[i], voltag))
  }

  ghost predicate Printable(es: seq<Element>) {
    forall i :: 0 <= i < |es| ==> es[i].address < 0x10000 && Visible(es[i].barcode)
  }

  lemma {:induction false} ReadsDescriptors(es: seq<Element>, voltag: bool, kind: ElementKind)
    requires Printable(es) && forall i :: 0 <= i < |es| ==> es[i].kind == kind
    ensures ReadDescriptors(Code(kind), voltag, Descriptors(es, voltag)) == Readings(es, voltag)
  {
    hide Descriptor, ReadDescriptor, Reported;
    if es != [] {
      var init, last, n := es[..|es| - 1], es[|es| - 1], DescriptorLength(voltag);
      ReadsDescriptors(init, voltag, kind);
      ReadsDescriptor(last, voltag);
      var d := Descriptors(es, voltag);
      assert d[..|d| - n] == Descriptors(init, voltag) && d[|d| - n..] == Descriptor(last, voltag);
      assert Readings(es, voltag) == Readings(init, voltag) + [Reported(last, voltag)];
    }
  }

  lemma {:induction false} RunIsOneKind(es: seq<Element>, n: nat)
    requires 0 < n <= |es| && forall i :: 0 <= i < n ==> es[i].kind == es[0].kind
    ensures forall i :: 0 <= i < RunLength(es, n) ==> es[i].kind == es[0].kind
    decreases |es| - n
  {
    if n < |es| && es[n].kind == es[0].kind {
      RunIsOneKind(es, n + 1);
    }
  }

  lemma {:induction false} RunEnds(es: seq<Element>, n: nat)
    requires 0 < n <= |es|
    ensures var m := RunLength(es, n); m == |es| || es[m].kind != es[0].kind
    decreases |es| - n
  {
    if n < |es| && es[n].kind == es[0].kind {
      RunEnds(es, n + 1);
    }
  }

  /** The body is one page for each longest run of elements of one kind, in order. */
  lemma BodyIsPagePerRun(es: seq<Element>, voltag: bool) returns (n: nat)
    requires es != []
    ensures 0 < n <= |es| && (forall i :: 0 <= i < n ==> es[i].kind == es[0].kind)
    ensures n == |es| || es[n].kind != es[0].kind
    ensures Body(es, voltag) == Page(es[..n], voltag) + Body(es[n..], voltag)
  {
    hide Page;
    n := RunLength(es, 1);
    RunIsOneKind(es, 1);
    RunEnds(es, 1);
  }

  lemma PageParts(es: seq<Element>, voltag: bool, rest: seq<byte>)
    requires es != []
    ensures var b := Page(es, voltag) + rest;
            && b[0] == Code(es[0].kind) && b[1] == (if voltag then 0x80 else 0)
            && b[2..4] == BE16(DescriptorLength(voltag)) && b[5..8] == BE24(|es| * DescriptorLength(voltag))
            && b[8..8 + |es| * DescriptorLength(voltag)] == Descriptors(es, voltag)
            && b[8 + |es| * DescriptorLength(voltag)..] == rest
  {
    hide BE16, BE24, Descriptors;
    Sizes(DescriptorLength(voltag), |es| * DescriptorLength(voltag));
  }

  lemma {:induction false} DescriptorsAt(es: seq<Element>, voltag: bool, i: nat)
    requires i < |es|
    ensures var n := DescriptorLength(voltag);
            (i + 1) * n <= |Descriptors(es, voltag)|
                && Descriptors(es, voltag)[i * n..(i + 1) * n] == Descriptor(es[i], voltag)
  {
    hide Descriptor;
    var n, init := DescriptorLength(voltag), es[..|es| - 1];
    if i < |es| - 1 {
      DescriptorsAt(init, voltag, i);
      assert Descriptors(es, voltag)[i * n..(i + 1) * n] == Descriptors(init, voltag)[i * n..(i + 1) * n];
    }
  }

  /** A page, byte by byte: the type code 2, 3 or 4, the tag flag, the descriptor length, a zero, the byte
      count that follows, and the descriptors one after the other. */
  lemma PageIsLaidOut(es: seq<Element>, voltag: bool, i: nat)
    requires 0 < |es| < 0x10000 && i < |es|
    ensures var p, n := Page(es, voltag), if voltag then 56 else 20;
            && |p| == 8 + |es| * n && 8 + (i + 1) * n <= |p|
            && p[0] == (match es[0].kind case Storage => 2 case ImportExport => 3 case DataTransfer => 4)
            && p[1] == (if voltag then 0x80 else 0) && Read16(p[2..4]) == n && p[4] == 0 && Read24(p[5..8]) == |es| * n
            && p[8 + i * n..8 + (i + 1) * n] == Descriptor(es[i], voltag)
  {
    hide Descriptors, BE16, BE24, Read16, Read24;
    var p, n := Page(es, voltag), DescriptorLength(voltag);
    PageParts(es, voltag, []);
    assert p + [] == p;
    Reads16(n);
    Reads24(|es| * n);
    DescriptorsAt(es, voltag, i);
    Sizes(n, |es| * n);
    assert p[8..8 + |es| * n] == Descriptors(es, voltag);
    SliceWithin(p, 8, 8 + |es| * n, i * n, (i + 1) * n);
  }

  lemma SliceWithin(s: seq<byte>, a: nat, b: nat, x: nat, y: nat)
    requires a <= b <= |s| && x <= y <= b - a
    ensures s[a..b][x..y] == s[a + x..a + y]
  {
    assert forall k :: 0 <= k < y - x ==> s[a..b][x..y][k] == s[a + x..a + y][k];
  }

  lemma Sizes(a: nat, b: nat)
    ensures |BE16(a)| == 2 && |BE24(b)| == 3
  {
  }

  /** Reading a page yields its elements and goes on behind it. */
  lemma ReadsPage(run: seq<Element>, voltag: bool, rest: seq<byte>)
    requires Printable(run) && 0 < |run| < 0x10000 && forall i :: 0 <= i < |run| ==> run[i].kind == run[0].kind
    ensures ReadBody(Page(run, voltag) + rest) == Readings(run, voltag) + ReadBody(rest)
  {
    hide Page, Descriptors, ReadDescriptors, Readings, BE24, Read24, Printable;
    var b := Page(run, voltag) + rest;
    PageParts(run, voltag, rest);
    var count := |run| * DescriptorLength(voltag);
    Reads24(count);
    ReadsDescriptors(run, voltag, run[0].kind);
    assert Read24(b[5..8]) == count && |b| >= 8 + count;
  }

  /** Printing and reading back returns every selected element, in order. */
  lemma {:induction false} ReadsBody(es: seq<Element>, voltag: bool)
    requires Printable(es) && |es| < 0x10000
    ensures ReadBody(Body(es, voltag)) == Readings(es, voltag)
    decreases |es|
  {
    hide Page, ReadBody, Readings, Printable;
    if es == [] {
      ReadsNothing();
    } else {
      var n := RunLength(es, 1);
      RunIsOneKind(es, 1);
      Parts(es, n, voltag);
      ReadsPage(es[..n], voltag, Body(es[n..], voltag));
      ReadsBody(es[n..], voltag);
    }
  }

  lemma Parts(es: seq<Element>, n: nat, voltag: bool)
    requires Printable(es) && n <= |es|
    ensures Printable(es[..n]) && Printable(es[n..])
    ensures Readings(es, voltag) == Readings(es[..n], voltag) + Readings(es[n..], voltag)
  {
    hide Visible, Reported;
  }

  lemma ReadsNothing()
    ensures ReadBody([]) == [] && Readings([], true) == [] && Readings([], false) == []
  {
  }

  lemma {:induction false} BodyFits(es: seq<Element>, voltag: bool)
    requires |es| < 0x10000
    ensures |Body(es, voltag)| <= |es| * 64 < 0x1000000
    decreases |es|
  {
    if es != [] {
      BodyFits(es[RunLength(es, 1)..], voltag);
    }
  }

  /** The response: the header and as much of the pages as the initiator allocated. */
  function Response(es: seq<Element>, voltag: bool, actionCode: byte, allocation: nat): seq<byte> {
    var body := Body(es, voltag);
    var whole := Header(es, body, actionCode) + body;
    if |whole| > allocation then whole[..allocation] else whole
  }

  lemma HeaderParts(es: seq<Element>, body: seq<byte>, actionCode: byte)
    ensures var h := Header(es, body, actionCode);
            && h[2..4] == BE16(|es|) && h[4] < 32 && h[5..8] == BE24(|body|)
            && (es != [] ==> h[0..2] == BE16(es[0].address))
  {
    hide Byte;
    var first := if es == [] then [0, 0] else BE16(es[0].address);
    assert Header(es, body, actionCode) == first + BE16(|es|) + [actionCode % 32] + BE24(|body|);
  }

  /** However the response is cut, its first eight bytes are the header. */
  lemma ResponseStarts(es: seq<Element>, voltag: bool, actionCode: byte, allocation: nat)
    requires allocation >= 8
    ensures var r, body := Response(es, voltag, actionCode, allocation), Body(es, voltag);
            && |r| >= 8 && r[..8] == Header(es, body, actionCode)
            && (allocation >= 8 + |body| ==> r[8..] == body)
  {
    hide Body, Header;
  }

  /** A short allocation cuts the response and changes nothing in what is left of it. */
  lemma ResponseIsCut(es: seq<Element>, voltag: bool, actionCode: byte, small: nat, large: nat)
    requires small <= large
    ensures var r, whole := Response(es, voltag, actionCode, small), 8 + |Body(es, voltag)|;
            |r| == (if small <= whole then small else whole) && r <= Response(es, voltag, actionCode, large)
  {
    hide Body, Header;
  }

  /** The header's first address, element count and byte count are the real ones, and the pages read
      back as the selected elements whenever the allocation holds them. */
  lemma ResponseReadsBack(es: seq<Element>, voltag: bool, actionCode: byte, allocation: nat)
    requires Printable(es) && |es| < 0x10000 && allocation >= 8
    ensures var r, body := Response(es, voltag, actionCode, allocation), Body(es, voltag);
            && |r| >= 8 && Read16(r[2..4]) == |es| && Read24(r[5..8]) == |body| && r[4] < 32
            && (es != [] ==> Read16(r[0..2]) == es[0].address)
            && (allocation >= 8 + |body| ==> |r| == 8 + Read24(r[5..8]) && ReadBody(r[8..]) == Readings(es, voltag))
  {
    hide Body, BE16, BE24, Read16, Read24, ReadBody, Readings, Response, Header, Visible;
    var body := Body(es, voltag);
    BodyFits(es, voltag);
    ReadsBody(es, voltag);
    Reads16(|es|);
    Reads24(|body|);
    if es != [] {
      Reads16(es[0].address);
    }
    HeaderParts(es, body, actionCode);
    ResponseStarts(es, voltag, actionCode, allocation);
    var r, h := Response(es, voltag, actionCode, allocation), Header(es, body, actionCode);
    assert r[2..4] == h[2..4];
    assert r[5..8] == h[5..8];
    assert r[0..2] == h[0..2];
    assert r[4] == h[4];
  }
}
