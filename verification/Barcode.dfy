/** Barcode formats, generation and the supply of unused barcodes (internal/barcode/barcode.go). */
module Barcode {
  import opened Common

  datatype Spec = Spec(family: string, mediaId: string, volSerLength: nat)

  datatype Shape = Shape(serMin: nat, serMax: nat, mediaMin: nat, mediaMax: nat)

  function ShapeFor(family: string): Option<Shape> {
    if family == "lto" then Some(Shape(6, 6, 2, 2))
    else if family == "dlt" then Some(Shape(6, 6, 0, 1))
    else if family == "sdlt" then Some(Shape(6, 6, 1, 2))
    else if family == "dds" || family == "ait" || family == "3592" then Some(Shape(6, 6, 2, 2))
    else if family == "generic" then Some(Shape(1, 32, 0, 0))
    else None
  }

  predicate UpperAlnum(s: string) {
    forall i :: 0 <= i < |s| ==> 'A' <= s[i] <= 'Z' || '0' <= s[i] <= '9'
  }

  predicate ValidSpec(spec: Spec) {
    match ShapeFor(spec.family)
    case None => false
    case Some(shape) =>
      && shape.serMin <= spec.volSerLength <= shape.serMax
      && shape.mediaMin <= |spec.mediaId| <= shape.mediaMax
      && UpperAlnum(spec.mediaId)
  }

  predicate Valid(spec: Spec, bc: string) {
    && |bc| == spec.volSerLength + |spec.mediaId|
    && UpperAlnum(bc)
    && (spec.mediaId != "" ==> bc[spec.volSerLength..] == spec.mediaId)
  }

  // ---- decimal numbers

  function Digit(d: nat): char
    requires d < 10
  {
    '0' + d as char
  }

  function Decimal(n: nat): string {
    if n < 10 then [Digit(n)] else Decimal(n / 10) + [Digit(n % 10)]
  }

  function ZeroPadded(n: nat, width: nat): string {
    if |Decimal(n)| >= width then Decimal(n)
    else seq(width - |Decimal(n)|, _ => '0') + Decimal(n)
  }

  function Generate(spec: Spec, n: int): Option<string> {
    if n < 1 then None
    else if |ZeroPadded(n, spec.volSerLength)| > spec.volSerLength then None
    else Some(ZeroPadded(n, spec.volSerLength) + spec.mediaId)
  }

  function Pow10(k: nat): nat {
    if k == 0 then 1 else 10 * Pow10(k - 1)
  }

  ghost function Value(s: string): int {
    if s == "" then 0 else 10 * Value(s[..|s| - 1]) + (s[|s| - 1] as int - '0' as int)
  }

  lemma {:induction false} DecimalIs(n: nat)
    ensures Value(Decimal(n)) == n && UpperAlnum(Decimal(n))
  {
    if n >= 10 {
      DecimalIs(n / 10);
      var init := Decimal(n / 10);
      assert (init + [Digit(n % 10)])[..|init|] == init;
    } else {
      assert Decimal(n)[..0] == "";
    }
  }

  lemma {:induction false} ZerosAddNothing(k: nat, s: string)
    ensures Value(seq(k, _ => '0') + s) == Value(s)
  {
    var z := seq(k, _ => '0');
    if s == "" {
      assert z + s == z;
      if k > 0 {
        assert z[..k - 1] == seq(k - 1, _ => '0') + "";
        ZerosAddNothing(k - 1, "");
      }
    } else {
      assert (z + s)[..|z + s| - 1] == z + s[..|s| - 1];
      ZerosAddNothing(k, s[..|s| - 1]);
    }
  }

  /** A number fits a width exactly when it is below that power of ten. */
  lemma {:induction false} DecimalFits(n: nat, width: nat)
    requires width > 0
    ensures |Decimal(n)| <= width <==> n < Pow10(width)
  {
    if n >= 10 {
      if width == 1 {
        assert Pow10(1) == 10 * Pow10(0);
        assert |Decimal(n / 10)| >= 1;
      } else {
        DecimalFits(n / 10, width - 1);
      }
    } else {
      PowPositive(width - 1);
    }
  }

  lemma {:induction false} PowPositive(k: nat)
    ensures Pow10(k) >= 1
  {
    if k > 0 {
      PowPositive(k - 1);
    }
  }

  /** Exactly the numbers 1 to 10^width - 1 have a barcode. */
  lemma GeneratesBelowCapacity(spec: Spec, n: int)
    ensures Generate(spec, n).Some? <==> 1 <= n < Pow10(spec.volSerLength)
  {
    if n >= 1 && spec.volSerLength > 0 {
      DecimalFits(n, spec.volSerLength);
    }
  }

  /** Different numbers get different barcodes. */
  lemma GenerateInjective(spec: Spec, m: int, n: int)
    requires Generate(spec, m).Some? && Generate(spec, m) == Generate(spec, n)
    ensures m == n
  {
    hide Value, ZeroPadded;
    var w := spec.volSerLength;
    PaddedValue(m, w);
    PaddedValue(n, w);
    SameSerial(ZeroPadded(m, w), ZeroPadded(n, w), spec.mediaId, w);
  }

  lemma GenerateApart(spec: Spec, m: int, n: int)
    requires m != n && Generate(spec, m).Some?
    ensures Generate(spec, m) != Generate(spec, n)
  {
    if Generate(spec, m) == Generate(spec, n) {
      GenerateInjective(spec, m, n);
    }
  }

  lemma PaddedValue(n: nat, width: nat)
    ensures Value(ZeroPadded(n, width)) == n && |ZeroPadded(n, width)| >= width
  {
    DecimalIs(n);
    ZerosAddNothing(if |Decimal(n)| < width then width - |Decimal(n)| else 0, Decimal(n));
  }

  lemma SameSerial(a: string, b: string, suffix: string, width: nat)
    requires a + suffix == b + suffix && |a| >= width && |b| >= width && |a| <= width && |b| <= width
    ensures a == b
  {
    assert a == (a + suffix)[..width] && b == (b + suffix)[..width];
  }

  predicate AllDigits(s: string) {
    forall i :: 0 <= i < |s| ==> '0' <= s[i] <= '9'
  }

  /** The barcode reads as this number: that many digits, whose decimal value it is, and the media id. */
  ghost predicate Numbered(spec: Spec, bc: string, n: int) {
    && |bc| == spec.volSerLength + |spec.mediaId| && bc[spec.volSerLength..] == spec.mediaId
    && AllDigits(bc[..spec.volSerLength]) && Value(bc[..spec.volSerLength]) == n
  }

  lemma {:induction false} DecimalDigits(n: nat)
    ensures AllDigits(Decimal(n))
  {
    if n >= 10 {
      DecimalDigits(n / 10);
    }
  }

  /** The barcode of a number reads as that number. */
  lemma GeneratedReadsAs(spec: Spec, n: int)
    ensures Generate(spec, n).Some? ==> Numbered(spec, Generate(spec, n).value, n)
  {
    hide Value, Decimal;
    if Generate(spec, n).Some? {
      var ser := ZeroPadded(n, spec.volSerLength);
      PaddedValue(n, spec.volSerLength);
      DecimalDigits(n);
      var bc := Generate(spec, n).value;
      assert bc == ser + spec.mediaId;
      assert bc[..spec.volSerLength] == ser && bc[spec.volSerLength..] == spec.mediaId;
    }
  }

  /** A string of digits is less than its power of ten. */
  lemma {:induction false} ValueBelow(s: string)
    requires AllDigits(s)
    ensures 0 <= Value(s) < Pow10(|s|)
  {
    if s != "" {
      ValueBelow(s[..|s| - 1]);
    }
  }

  /** Digits of one length are told apart by their value. */
  lemma {:induction false} ValueInjective(a: string, b: string)
    requires AllDigits(a) && AllDigits(b) && |a| == |b| && Value(a) == Value(b)
    ensures a == b
  {
    if a != "" {
      var n := |a| - 1;
      ValueBelow(a[..n]);
      ValueBelow(b[..n]);
      ValueInjective(a[..n], b[..n]);
      assert a == a[..n] + [a[n]] && b == b[..n] + [b[n]];
    }
  }

  /** A barcode is the one generated for a number exactly when it reads as that positive number. */
  lemma GenerateIs(spec: Spec, bc: string, n: int)
    ensures Generate(spec, n) == Some(bc) <==> n >= 1 && Numbered(spec, bc, n)
  {
    hide Value, ZeroPadded, AllDigits, Pow10;
    GeneratedReadsAs(spec, n);
    if n >= 1 && Numbered(spec, bc, n) {
      ValueBelow(bc[..spec.volSerLength]);
      GeneratesBelowCapacity(spec, n);
      var made := Generate(spec, n).value;
      ValueInjective(bc[..spec.volSerLength], made[..spec.volSerLength]);
      assert bc == bc[..spec.volSerLength] + bc[spec.volSerLength..];
      assert made == made[..spec.volSerLength] + made[spec.volSerLength..];
    }
  }

  /** What is generated under a format passes that format's validation exactly when the media id is
      upper-case alphanumeric, as every valid format's is. */
  lemma GeneratedIsValid(spec: Spec, n: int)
    requires Generate(spec, n).Some?
    ensures Valid(spec, Generate(spec, n).value) <==> UpperAlnum(spec.mediaId)
    ensures Generate(spec, n).value != ""
    ensures ValidSpec(spec) ==> Valid(spec, Generate(spec, n).value)
  {
    hide ZeroPadded, UpperAlnum;
    var ser := ZeroPadded(n, spec.volSerLength);
    PaddedValue(n, spec.volSerLength);
    PaddedAlnum(n, spec.volSerLength);
    ConcatAlnum(ser, spec.mediaId);
    assert (ser + spec.mediaId)[spec.volSerLength..] == spec.mediaId;
    PaddedNotEmpty(n, spec.volSerLength);
  }

  lemma PaddedNotEmpty(n: nat, width: nat)
    ensures ZeroPadded(n, width) != ""
  {
  }

  lemma PaddedAlnum(n: nat, width: nat)
    ensures UpperAlnum(ZeroPadded(n, width))
  {
    DecimalIs(n);
  }

  lemma ConcatAlnum(a: string, b: string)
    ensures UpperAlnum(a + b) <==> UpperAlnum(a) && UpperAlnum(b)
  {
    assert forall i :: 0 <= i < |a| ==> (a + b)[i] == a[i];
    assert forall i :: 0 <= i < |b| ==> (a + b)[|a| + i] == b[i];
  }

  // ---- supply

  /** The unused barcodes among numbers 1 to n, in order. */
  function FreeUpTo(spec: Spec, taken: set<string>, n: nat): seq<string>
    requires n < Pow10(spec.volSerLength)
  {
    if n == 0 then []
    else
      GeneratesBelowCapacity(spec, n);
      var bc := Generate(spec, n).value;
      FreeUpTo(spec, taken, n - 1) + if bc in taken then [] else [bc]
  }

  /** `bcs` are the lowest-numbered unused barcodes: all the unused ones up to the last one taken. */
  ghost predicate Lowest(spec: Spec, taken: set<string>, count: int, bcs: seq<string>) {
    |bcs| == count && exists n: nat :: n < Pow10(spec.volSerLength) && bcs == FreeUpTo(spec, taken, n)
  }

  function Supply(spec: Spec, taken: set<string>, count: int, n: nat, out: seq<string>): Option<seq<string>>
    requires n < Pow10(spec.volSerLength) && out == FreeUpTo(spec, taken, n)
    decreases Pow10(spec.volSerLength) - n
  {
    if |out| >= count then Some(out)
    else
      GeneratesBelowCapacity(spec, n + 1);
      match Generate(spec, n + 1)
      case None => None
      case Some(bc) => Supply(spec, taken, count, n + 1, out + if bc in taken then [] else [bc])
  }

  /** The first `count` unused barcodes, or nothing when the width runs out. */
  function NextAvailable(spec: Spec, taken: set<string>, count: int): Option<seq<string>> {
    PowPositive(spec.volSerLength);
    if count < 1 then None else Supply(spec, taken, count, 0, [])
  }

  lemma {:induction false} FreeGrows(spec: Spec, taken: set<string>, m: nat, n: nat)
    requires m <= n < Pow10(spec.volSerLength)
    ensures |FreeUpTo(spec, taken, m)| <= |FreeUpTo(spec, taken, n)|
  {
    if m < n {
      FreeGrows(spec, taken, m, n - 1);
    }
  }

  lemma {:induction false} SupplyIs(spec: Spec, taken: set<string>, count: int, n: nat, out: seq<string>)
    requires n < Pow10(spec.volSerLength) && out == FreeUpTo(spec, taken, n) && |out| <= count
    ensures var r := Supply(spec, taken, count, n, out);
            if r.Some? then Lowest(spec, taken, count, r.value)
            else |FreeUpTo(spec, taken, Pow10(spec.volSerLength) - 1)| < count
    decreases Pow10(spec.volSerLength) - n
  {
    if |out| < count {
      GeneratesBelowCapacity(spec, n + 1);
      match Generate(spec, n + 1) {
        case None =>
          assert n == Pow10(spec.volSerLength) - 1;
        case Some(bc) =>
          SupplyIs(spec, taken, count, n + 1, out + if bc in taken then [] else [bc]);
      }
    }
  }

  /** It fails exactly when fewer than `count` numbers of that width are unused. */
  lemma NextAvailableIs(spec: Spec, taken: set<string>, count: int)
    requires count >= 1
    ensures Pow10(spec.volSerLength) >= 1
    ensures var r := NextAvailable(spec, taken, count);
            && (r.Some? ==> Lowest(spec, taken, count, r.value))
            && (r.None? <==> |FreeUpTo(spec, taken, Pow10(spec.volSerLength) - 1)| < count)
  {
    PowPositive(spec.volSerLength);
    SupplyIs(spec, taken, count, 0, []);
    var r := NextAvailable(spec, taken, count);
    if r.Some? {
      var n: nat :| n < Pow10(spec.volSerLength) && r.value == FreeUpTo(spec, taken, n);
      FreeGrows(spec, taken, n, Pow10(spec.volSerLength) - 1);
    }
  }

  /** The supplied barcodes are unused and pairwise distinct. */
  lemma {:induction false} FreeIsFresh(spec: Spec, taken: set<string>, n: nat)
    requires n < Pow10(spec.volSerLength)
    ensures forall bc :: bc in FreeUpTo(spec, taken, n)
                    <==> bc !in taken && exists k :: 1 <= k <= n && Generate(spec, k) == Some(bc)
    ensures forall i, j :: 0 <= i < j < |FreeUpTo(spec, taken, n)| ==>
            FreeUpTo(spec, taken, n)[i] != FreeUpTo(spec, taken, n)[j]
  {
    if n > 0 {
      FreeIsFresh(spec, taken, n - 1);
      GeneratesBelowCapacity(spec, n);
      forall k | 1 <= k < n ensures Generate(spec, k) != Generate(spec, n) {
        GenerateApart(spec, n, k);
      }
    }
  }

  /** The supply loop: it always ends, and computes the supply. */
  method FindAvailable(spec: Spec, taken: set<string>, count: int) returns (r: Option<seq<string>>)
    ensures r == NextAvailable(spec, taken, count)
    ensures count >= 1 && r.Some? ==> Lowest(spec, taken, count, r.value)
    ensures r.None? ==> count < 1 || (Pow10(spec.volSerLength) >= 1
                        && |FreeUpTo(spec, taken, Pow10(spec.volSerLength) - 1)| < count)
  {
    if count < 1 {
      return None;
    }
    NextAvailableIs(spec, taken, count);
    var out: seq<string> := [];
    var n := 0;
    while |out| < count
      invariant n < Pow10(spec.volSerLength) && out == FreeUpTo(spec, taken, n) && |out| <= count
      invariant NextAvailable(spec, taken, count) == Supply(spec, taken, count, n, out)
      decreases Pow10(spec.volSerLength) - n
    {
      GeneratesBelowCapacity(spec, n + 1);
      var bc := Generate(spec, n + 1);
      if bc.None? {
        return None;
      }
      n := n + 1;
      if bc.value !in taken {
        out := out + [bc.value];
      } else {
        assert out == out + [];
      }
    }
    r := Some(out);
  }

  // ---- the supply, by the numbers alone

  /** A number of the width whose barcode is not taken. */
  ghost predicate Unused(spec: Spec, taken: set<string>, n: int) {
    n >= 1 && exists bc :: Numbered(spec, bc, n) && bc !in taken
  }

  ghost function UnusedUpTo(spec: Spec, taken: set<string>, n: nat): set<int> {
    set k | 1 <= k <= n && Unused(spec, taken, k)
  }

  lemma UnusedIs(spec: Spec, taken: set<string>, n: int)
    ensures Unused(spec, taken, n) <==> Generate(spec, n).Some? && Generate(spec, n).value !in taken
  {
    hide Generate, Numbered;
    if bc :| Numbered(spec, bc, n) && bc !in taken && n >= 1 {
      GenerateIs(spec, bc, n);
    }
    if Generate(spec, n).Some? {
      GenerateIs(spec, Generate(spec, n).value, n);
    }
  }

  /** The numbers the barcodes read as. */
  ghost function NumberOf(spec: Spec, bc: string): int {
    if |bc| >= spec.volSerLength then Value(bc[..spec.volSerLength]) else 0
  }

  /** Barcodes of ascending numbers, each unused, with no unused number below the last left out. */
  ghost predicate Supplies(spec: Spec, taken: set<string>, bcs: seq<string>) {
    && (forall i :: 0 <= i < |bcs| ==>
          Numbered(spec, bcs[i], NumberOf(spec, bcs[i])) && NumberOf(spec, bcs[i]) >= 1 && bcs[i] !in taken)
    && (forall i, j :: 0 <= i < j < |bcs| ==> NumberOf(spec, bcs[i]) < NumberOf(spec, bcs[j]))
    && (forall bc, n: int :: bcs != [] && 1 <= n < NumberOf(spec, bcs[|bcs| - 1]) && Numbered(spec, bc, n) ==>
          bc in taken || bc in bcs)
  }

  /** The supply so far: everything unused up to n, in order. */
  ghost predicate SuppliesUpTo(spec: Spec, taken: set<string>, bcs: seq<string>, n: nat) {
    && (forall i :: 0 <= i < |bcs| ==>
          Numbered(spec, bcs[i], NumberOf(spec, bcs[i])) && 1 <= NumberOf(spec, bcs[i]) <= n && bcs[i] !in taken)
    && (forall i, j :: 0 <= i < j < |bcs| ==> NumberOf(spec, bcs[i]) < NumberOf(spec, bcs[j]))
    && (forall bc, k: int :: 1 <= k <= n && Numbered(spec, bc, k) ==> bc in taken || bc in bcs)
  }

  lemma {:induction false} FreeSupplies(spec: Spec, taken: set<string>, n: nat)
    requires n < Pow10(spec.volSerLength)
    ensures SuppliesUpTo(spec, taken, FreeUpTo(spec, taken, n), n)
  {
    if n > 0 {
      hide Generate, SuppliesUpTo;
      FreeSupplies(spec, taken, n - 1);
      GeneratesBelowCapacity(spec, n);
      OneMoreNumber(spec, taken, FreeUpTo(spec, taken, n - 1), n);
    }
  }

  lemma UnusedGrows(spec: Spec, taken: set<string>, n: nat)
    requires n >= 1
    ensures |UnusedUpTo(spec, taken, n)| == |UnusedUpTo(spec, taken, n - 1)| + if Unused(spec, taken, n) then 1 else 0
  {
    hide Unused;
    var before, all := UnusedUpTo(spec, taken, n - 1), UnusedUpTo(spec, taken, n);
    assert n !in before;
    if Unused(spec, taken, n) {
      assert all == before + {n as int};
    } else {
      assert all == before;
    }
  }

  lemma NothingUnused(spec: Spec, taken: set<string>)
    ensures UnusedUpTo(spec, taken, 0) == {}
  {
  }

  lemma {:induction false} FreeCounts(spec: Spec, taken: set<string>, n: nat)
    requires n < Pow10(spec.volSerLength)
    ensures |FreeUpTo(spec, taken, n)| == |UnusedUpTo(spec, taken, n)|
  {
    hide Generate, Unused, UnusedUpTo;
    NothingUnused(spec, taken);
    if n > 0 {
      FreeCounts(spec, taken, n - 1);
      GeneratesBelowCapacity(spec, n);
      UnusedIs(spec, taken, n);
      UnusedGrows(spec, taken, n);
    }
  }

  lemma PrefixSupplies(spec: Spec, taken: set<string>, bcs: seq<string>, n: nat)
    requires SuppliesUpTo(spec, taken, bcs, n)
    ensures Supplies(spec, taken, bcs)
  {
    hide Numbered, NumberOf;
  }

  lemma OneMoreNumber(spec: Spec, taken: set<string>, bcs: seq<string>, n: nat)
    requires n >= 1 && SuppliesUpTo(spec, taken, bcs, n - 1) && Generate(spec, n).Some?
    ensures var bc := Generate(spec, n).value; SuppliesUpTo(spec, taken, bcs + if bc in taken then [] else [bc], n)
  {
    hide Generate, Value, AllDigits;
    var made := Generate(spec, n).value;
    GenerateIs(spec, made, n);
    var all := bcs + if made in taken then [] else [made];
    assert NumberOf(spec, made) == n;
    forall bc, k: int | 1 <= k <= n && Numbered(spec, bc, k) ensures bc in taken || bc in all {
      if k == n {
        GenerateIs(spec, bc, n);
      }
    }
  }

  /** What the supply is, without the generator: barcodes of ascending unused numbers with none left
      out below the last; nothing exactly when fewer than `count` numbers of the width are unused. */
  lemma SupplyByNumber(spec: Spec, taken: set<string>, count: int)
    requires count >= 1
    ensures Pow10(spec.volSerLength) >= 1
    ensures match NextAvailable(spec, taken, count)
            case Some(bcs) => |bcs| == count && Supplies(spec, taken, bcs)
            case None => true
    ensures NextAvailable(spec, taken, count).None? <==> |UnusedUpTo(spec, taken, Pow10(spec.volSerLength) - 1)| < count
  {
    hide NextAvailable, FreeUpTo, UnusedUpTo, Supplies, SuppliesUpTo;
    NextAvailableIs(spec, taken, count);
    FreeCounts(spec, taken, Pow10(spec.volSerLength) - 1);
    match NextAvailable(spec, taken, count) {
      case Some(bcs) =>
        var n: nat :| n < Pow10(spec.volSerLength) && bcs == FreeUpTo(spec, taken, n);
        FreeSupplies(spec, taken, n);
        PrefixSupplies(spec, taken, bcs, n);
      case None =>
    }
  }

  /** A barcode passes validation exactly when it is a serial part of the format's length and the media
      id, all upper-case alphanumeric. */
  lemma ValidIs(spec: Spec, bc: string)
    ensures Valid(spec, bc) <==>
              exists ser: string :: |ser| == spec.volSerLength && bc == ser + spec.mediaId
                && UpperAlnum(ser) && UpperAlnum(spec.mediaId)
  {
    if Valid(spec, bc) {
      var ser := bc[..spec.volSerLength];
      assert bc == ser + spec.mediaId;
      ConcatAlnum(ser, spec.mediaId);
    }
    if ser: string :| |ser| == spec.volSerLength && bc == ser + spec.mediaId
                      && UpperAlnum(ser) && UpperAlnum(spec.mediaId) {
      ConcatAlnum(ser, spec.mediaId);
      assert (ser + spec.mediaId)[spec.volSerLength..] == spec.mediaId;
    }
  }

  /** The valid formats, family by family. */
  lemma ValidSpecIs(spec: Spec)
    ensures ValidSpec(spec) <==>
              && UpperAlnum(spec.mediaId)
              && match |spec.mediaId|
                 case 0 => (spec.family == "dlt" && spec.volSerLength == 6)
                           || (spec.family == "generic" && 1 <= spec.volSerLength <= 32)
                 case 1 => spec.family in {"dlt", "sdlt"} && spec.volSerLength == 6
                 case 2 => spec.family in {"lto", "sdlt", "dds", "ait", "3592"} && spec.volSerLength == 6
                 case _ => false
  {
  }
}
