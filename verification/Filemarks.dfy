/** The filemark sidecar of one tape: an ascending list of byte positions
    (internal/scsi/filemarks.go), and the spacing algebra of SCSI-2 section 10.2.12. */
module Filemarks {

  ghost predicate Ascending(marks: seq<nat>) {
    forall i, j :: 0 <= i < j < |marks| ==> marks[i] < marks[j]
  }

  function Min(a: nat, b: nat): nat {
    if a <= b then a else b
  }

  /** How many marks lie at or before `pos`: the index of the first mark strictly ahead. */
  function Upto(marks: seq<nat>, pos: nat): (i: nat)
    ensures i <= |marks|
    ensures Ascending(marks) ==> forall j :: 0 <= j < i ==> marks[j] <= pos
    ensures forall j :: i == j < |marks| ==> pos < marks[j]
    ensures Ascending(marks) ==> forall j :: i <= j < |marks| ==> pos < marks[j]
  {
    if marks == [] || pos < marks[0] then 0 else 1 + Upto(marks[1..], pos)
  }

  /** How many marks lie strictly before `pos`. */
  function Below(marks: seq<nat>, pos: nat): (i: nat)
    ensures i <= |marks|
    ensures Ascending(marks) ==> forall j :: 0 <= j < i ==> marks[j] < pos
    ensures Ascending(marks) ==> forall j :: i <= j < |marks| ==> pos <= marks[j]
  {
    if pos == 0 then 0 else Upto(marks, pos - 1)
  }

  // ---- the abstract operations: prefixes and index arithmetic on an ascending list

  function Recorded(marks: seq<nat>, pos: nat): seq<nat> {
    marks[..Below(marks, pos)] + [pos]
  }

  function Invalidated(marks: seq<nat>, pos: nat): seq<nat> {
    marks[..Upto(marks, pos)]
  }

  datatype Spaced = Spaced(pos: nat, found: nat)

  function Forward(marks: seq<nat>, pos: nat, count: nat): Spaced {
    var j := Upto(marks, pos);
    var found := Min(count, |marks| - j);
    Spaced(if found == 0 then pos else marks[j + found - 1], found)
  }

  function Reverse(marks: seq<nat>, pos: nat, count: nat): Spaced {
    var i := Below(marks, pos);
    var found := Min(count, i);
    Spaced(if found == 0 then pos else marks[i - found], found)
  }

  // ---- the loops of the source

  /** Keeps the marks before `pos` and appends `pos`. */
  method RecordFilemark(marks: seq<nat>, pos: nat) returns (kept: seq<nat>)
    requires Ascending(marks)
    ensures kept == Recorded(marks, pos)
    ensures Ascending(kept)
    ensures forall m :: m in kept <==> m == pos || (m in marks && m < pos)
  {
    kept := [];
    var below := Below(marks, pos);
    for i := 0 to |marks|
      invariant kept == marks[..Min(i, below)]
    {
      if marks[i] < pos {
        kept := kept + [marks[i]];
      }
    }
    kept := kept + [pos];
  }

  /** Keeps the marks at or before `pos`. */
  method InvalidateFilemarksFrom(marks: seq<nat>, pos: nat) returns (kept: seq<nat>)
    requires Ascending(marks)
    ensures kept == Invalidated(marks, pos)
    ensures Ascending(kept)
    ensures forall m :: m in kept <==> m in marks && m <= pos
  {
    kept := [];
    var upto := Upto(marks, pos);
    for i := 0 to |marks|
      invariant kept == marks[..Min(i, upto)]
    {
      if marks[i] <= pos {
        kept := kept + [marks[i]];
      }
    }
  }

  method FilemarkForward(marks: seq<nat>, pos: nat, count: nat) returns (newPos: nat, found: nat)
    requires Ascending(marks)
    ensures Spaced(newPos, found) == Forward(marks, pos, count)
  {
    newPos, found := pos, 0;
    var j := Upto(marks, pos);
    for i := 0 to |marks|
      invariant found == if i <= j then 0 else Min(count, i - j)
      invariant newPos == if found == 0 then pos else marks[j + found - 1]
    {
      if found >= count {
        break;
      }
      if marks[i] > newPos {
        newPos := marks[i];
        found := found + 1;
      }
    }
  }

  method FilemarkReverse(marks: seq<nat>, pos: nat, count: nat) returns (newPos: nat, found: nat)
    requires Ascending(marks)
    ensures Spaced(newPos, found) == Reverse(marks, pos, count)
  {
    newPos, found := pos, 0;
    var k := Below(marks, pos);
    var i := |marks|;
    while i > 0
      invariant 0 <= i <= |marks|
      invariant found == if i >= k then 0 else Min(count, k - i)
      invariant newPos == if found == 0 then pos else marks[k - found]
    {
      i := i - 1;
      if found >= count {
        break;
      }
      if marks[i] < newPos {
        newPos := marks[i];
        found := found + 1;
      }
    }
  }

  // ---- laws

  lemma UptoIs(marks: seq<nat>, pos: nat, i: nat)
    requires Ascending(marks) && i <= |marks|
    requires forall j :: 0 <= j < i ==> marks[j] <= pos
    requires i < |marks| ==> pos < marks[i]
    ensures Upto(marks, pos) == i
  {
    var u := Upto(marks, pos);
    assert u < |marks| ==> pos < marks[u];
  }

  lemma BelowIs(marks: seq<nat>, pos: nat, i: nat)
    requires Ascending(marks) && i <= |marks|
    requires forall j :: 0 <= j < i ==> marks[j] < pos
    requires i < |marks| ==> pos <= marks[i]
    ensures Below(marks, pos) == i
  {
    var u := Below(marks, pos);
    assert u < |marks| ==> pos <= marks[u];
  }

  lemma SpacingLands(marks: seq<nat>, pos: nat, count: nat)
    ensures Forward(marks, pos, count).pos == pos || Forward(marks, pos, count).pos in marks
    ensures Reverse(marks, pos, count).pos == pos || Reverse(marks, pos, count).pos in marks
  {
  }

  /** Spacing forward a then b filemarks is spacing forward a + b, in place and in count. */
  lemma ForwardAdds(marks: seq<nat>, pos: nat, a: nat, b: nat)
    requires Ascending(marks)
    ensures var first := Forward(marks, pos, a);
            var second := Forward(marks, first.pos, b);
            Forward(marks, pos, a + b) == Spaced(second.pos, first.found + second.found)
  {
    var first := Forward(marks, pos, a);
    if first.found > 0 {
      UptoIs(marks, first.pos, Upto(marks, pos) + first.found);
    }
  }

  /** Spacing backward composes in the same way. */
  lemma ReverseAdds(marks: seq<nat>, pos: nat, a: nat, b: nat)
    requires Ascending(marks)
    ensures var first := Reverse(marks, pos, a);
            var second := Reverse(marks, first.pos, b);
            Reverse(marks, pos, a + b) == Spaced(second.pos, first.found + second.found)
  {
    var first := Reverse(marks, pos, a);
    if first.found > 0 {
      BelowIs(marks, first.pos, Below(marks, pos) - first.found);
    }
  }

  /** Forward k and back k: the head ends on the last mark at or before the start when there
      is one; when there is none the reverse search comes up exactly one mark short. */
  lemma ForwardThenReverse(marks: seq<nat>, pos: nat, k: nat)
    requires Ascending(marks) && k > 0
    requires Forward(marks, pos, k).found == k
    ensures var back := Reverse(marks, Forward(marks, pos, k).pos, k);
            if exists m :: m in marks && m <= pos
            then back.found == k && back.pos in marks && back.pos <= pos
                 && forall m :: m in marks && m <= pos ==> m <= back.pos
            else back.found == k - 1
  {
    var j := Upto(marks, pos);
    BelowIs(marks, Forward(marks, pos, k).pos, j + k - 1);
    if j > 0 {
      assert marks[j - 1] in marks;
    }
  }
}
