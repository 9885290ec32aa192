/** What each tape command answers and leaves behind, in terms of bytes, marks and chunks alone
    (internal/scsi/drive.go:382-801, 1251-1430; SCSI-2 sections 10.2.1, 10.2.4, 10.2.12, 10.2.14). */
module TapeAnswers {
  import opened Common
  import opened Filemarks
  import opened TapeState

  // ---- what is asked of the outcome

  /** The first n bytes of a file, or all of a shorter one. */
  ghost predicate IsBeginning(out: seq<byte>, file: seq<byte>, n: nat) {
    out <= file && (if |file| <= n then out == file else |out| == n)
  }

  /** Exactly the marks at or before the position. */
  ghost predicate MarksUpTo(kept: seq<nat>, marks: seq<nat>, pos: nat) {
    Ascending(kept) && forall m: nat :: m in kept <==> m in marks && m <= pos
  }

  /** Exactly the chunk tags that start before the position. */
  ghost predicate TagsBelow(kept: seq<EncTag>, tags: seq<EncTag>, pos: nat) {
    TagsAscending(kept) && forall x :: x in kept <==> x in tags && x.start < pos
  }

  /** The bytes from a position on, as many as asked for or as there are. */
  function Bytes(file: seq<byte>, pos: nat, n: nat): seq<byte> {
    if |file| <= pos then [] else if |file| <= pos + n then file[pos..] else file[pos..pos + n]
  }

  /** m is the first mark ahead. */
  ghost predicate NextMark(marks: seq<nat>, pos: nat, m: nat) {
    m in marks && pos < m && forall k :: k in marks ==> k <= pos || m <= k
  }

  /** No mark ahead is within reach of n bytes. */
  ghost predicate NoMarkWithin(marks: seq<nat>, pos: nat, n: nat) {
    forall k :: k in marks ==> k <= pos || pos + n < k
  }

  lemma InvalidatedIs(marks: seq<nat>, pos: nat)
    requires Ascending(marks)
    ensures MarksUpTo(Invalidated(marks, pos), marks, pos)
  {
    var kept := Invalidated(marks, pos);
    forall m | m in marks && m <= pos ensures m in kept {
      var i :| 0 <= i < |marks| && marks[i] == m;
      assert kept[i] == m;
    }
  }

  lemma KeptTagsAre(tags: seq<EncTag>, pos: nat)
    requires TagsAscending(tags)
    ensures TagsBelow(TagsBefore(tags, pos), tags, pos)
  {
    hide TagsBefore;
    var kept := TagsBefore(tags, pos);
    TagsBeforeIs(tags, pos);
    assert forall i :: 0 <= i < |kept| ==> kept[i] == tags[i];
    forall x | x in tags && x.start < pos ensures x in kept {
      var i :| 0 <= i < |tags| && tags[i] == x;
      assert kept[i] == x;
    }
    forall x | x in kept ensures x in tags && x.start < pos {
      var i :| 0 <= i < |kept| && kept[i] == x;
      assert tags[i] == x;
    }
  }

  // ---- ERASE

  /** ERASE is refused without a tape or on a protected one. Short, it leaves the head where it is and
      cuts the tape off there: the file's beginning up to the head, the marks up to it, the chunks that
      start below it. Long, it leaves nothing and the head at the beginning. */
  lemma EraseAnswers(c: Cipher, t: Tape, long: bool)
    requires Sorted(t)
    ensures var (u, r) := Step(c, t, Erase(long));
            if !t.mounted then u == t && r == Check(MediumNotPresent, [])
            else if t.writeProtected then u == t && r == Check(DataProtected, [])
            else
              && r == Good([])
              && (if long then u == t.(position := 0, file := [], marks := [], tags := [])
                  else
                    && u == t.(file := u.file, marks := u.marks, tags := u.tags)
                    && IsBeginning(u.file, t.file, t.position) && MarksUpTo(u.marks, t.marks, t.position)
                    && TagsBelow(u.tags, t.tags, t.position))
  {
    hide TagsBefore, Invalidated;
    InvalidatedIs(t.marks, t.position);
    KeptTagsAre(t.tags, t.position);
  }

  /** What a short ERASE erased cannot be read: the next READ finds nothing. */
  lemma ErasedIsGone(c: Cipher, t: Tape, n: nat, sili: bool)
    requires Sorted(t) && t.mounted && !t.writeProtected && t.position <= Eod(t) && n > 0
    ensures var u := Step(c, t, Erase(false)).0;
            Eod(u) == u.position == t.position && Step(c, u, Read(n, sili)) == (u, Check(BlankCheck(None), []))
  {
    hide Decrypt, Truncated, Invalidated, TagsBefore, Upto;
    EraseAnswers(c, t, false);
    var u := Step(c, t, Erase(false)).0;
    assert |u.file| == t.position;
    forall i | 0 <= i < |u.tags| ensures u.tags[i].start < |u.file| {
      assert u.tags[i] in u.tags;
    }
    GapEndsData(c, u.key, u.file, u.tags, 0, u.position, u.position + ReadLength(u.marks, u.position, n));
    NoMarkAhead(u.marks, u.position, n);
  }

  lemma NoMarkAhead(marks: seq<nat>, pos: nat, n: nat)
    requires Ascending(marks)
    ensures NoMarkWithin(marks, pos, n) <==> !HitsMark(marks, pos, n)
    ensures NoMarkWithin(marks, pos, n) ==> ReadLength(marks, pos, n) == n
  {
    var j := Upto(marks, pos);
    if HitsMark(marks, pos, n) {
      assert marks[j] in marks;
    } else {
      forall k | k in marks ensures k <= pos || pos + n < k {
        var i :| 0 <= i < |marks| && marks[i] == k;
        assert j < |marks| && j < i ==> marks[j] < marks[i];
      }
    }
  }

  lemma NextMarkAhead(marks: seq<nat>, pos: nat, n: nat, m: nat)
    requires Ascending(marks) && NextMark(marks, pos, m) && m <= pos + n
    ensures HitsMark(marks, pos, n) && ReadLength(marks, pos, n) == m - pos
  {
    var j := Upto(marks, pos);
    var i :| 0 <= i < |marks| && marks[i] == m;
    assert j <= i;
    assert marks[j] in marks;
    LaterIsHigher(marks, j, i);
  }

  lemma LaterIsHigher(marks: seq<nat>, j: nat, i: nat)
    requires Ascending(marks) && j <= i < |marks|
    ensures marks[j] <= marks[i]
  {
  }

  // ---- READ and VERIFY

  lemma WindowIsBytes(file: seq<byte>, pos: nat, n: nat)
    ensures Window(file, pos, n) == Bytes(file, pos, n)
  {
  }

  /** READ of an unencrypted tape with a mark within reach: the bytes before it, then FILEMARK with the
      residual; if the data ends before the mark, a short read. */
  lemma ReadToMark(c: Cipher, t: Tape, n: nat, sili: bool, m: nat)
    requires t.mounted && !t.encrypted && Ascending(t.marks) && NextMark(t.marks, t.position, m) && m <= t.position + n
    ensures var got := Bytes(t.file, t.position, m - t.position);
            Step(c, t, Read(n, sili)) ==
              (t.(position := t.position + |got|),
               if |got| == m - t.position then Check(FilemarkDetected(n - |got|), got)
               else if sili then Good(got) else Check(IncorrectLength(n - |got|), got))
  {
    hide HitsMark, ReadLength, Window;
    NextMarkAhead(t.marks, t.position, n, m);
    WindowIsBytes(t.file, t.position, m - t.position);
  }

  /** READ with no mark within reach: BLANK CHECK when there is nothing to read, a short read reported
      unless suppressed, or the n bytes. */
  lemma ReadWithoutMark(c: Cipher, t: Tape, n: nat, sili: bool)
    requires t.mounted && !t.encrypted && Ascending(t.marks) && NoMarkWithin(t.marks, t.position, n)
    ensures var got := Bytes(t.file, t.position, n);
            Step(c, t, Read(n, sili)) ==
              (t.(position := t.position + |got|),
               if got == [] && n > 0 then Check(BlankCheck(None), [])
               else if |got| < n && !sili then Check(IncorrectLength(n - |got|), got) else Good(got))
  {
    hide HitsMark, ReadLength, Window;
    NoMarkAhead(t.marks, t.position, n);
    WindowIsBytes(t.file, t.position, n);
  }

  /** An encrypted tape whose chunk at the head does not open under the session's key cannot be read, and
      the head stays. */
  lemma ReadUnauthorized(c: Cipher, t: Tape, n: nat, sili: bool, i: nat)
    requires t.mounted && t.encrypted && i < |t.tags| && ReadLength(t.marks, t.position, n) > 0
    requires forall k :: 0 <= k < i ==> t.tags[k].start + t.tags[k].length <= t.position
    requires var x := t.tags[i];
             && x.start <= t.position < x.start + x.length <= |t.file|
             && c.open(t.key, x.start, t.file[x.start..x.start + x.length], x.tag) == None
    ensures Step(c, t, Read(n, sili)) == (t, Check(AccessNotAuthorized, []))
  {
    FailsToOpen(c, t, i, 0, t.position + ReadLength(t.marks, t.position, n));
  }

  lemma {:induction false} FailsToOpen(c: Cipher, t: Tape, i: nat, k: nat, end: nat)
    requires k <= i < |t.tags| && t.position < end
    requires forall j :: 0 <= j < i ==> t.tags[j].start + t.tags[j].length <= t.position
    requires var x := t.tags[i];
             && x.start <= t.position < x.start + x.length <= |t.file|
             && c.open(t.key, x.start, t.file[x.start..x.start + x.length], x.tag) == None
    ensures Decrypt(c, t.key, t.file, t.tags, k, t.position, end) == None
    decreases i - k
  {
    if k < i {
      FailsToOpen(c, t, i, k + 1, end);
    }
  }

  /** Where no whole chunk covers the head, an encrypted tape has no data. */
  lemma {:induction false} GapEndsData(c: Cipher, key: Key, file: seq<byte>, tags: seq<EncTag>, i: nat, pos: nat,
                                       end: nat)
    requires i <= |tags|
    requires forall k :: i <= k < |tags| ==>
               tags[k].start + tags[k].length <= pos || pos < tags[k].start || |file| < tags[k].start + tags[k].length
    ensures Decrypt(c, key, file, tags, i, pos, end) == Some([])
    decreases |tags| - i
  {
    if i < |tags| {
      GapEndsData(c, key, file, tags, i + 1, pos, end);
    }
  }

  /** VERIFY moves as a READ of an unencrypted tape would, and transfers nothing. */
  lemma VerifyAnswers(c: Cipher, t: Tape, n: nat)
    requires t.mounted && Ascending(t.marks)
    ensures forall m: nat :: NextMark(t.marks, t.position, m) && m <= t.position + n ==>
              var read := |Bytes(t.file, t.position, m - t.position)|;
              Step(c, t, Verify(n)) ==
                (t.(position := t.position + read),
                 if read == m - t.position then Check(FilemarkDetected(n - read), [])
                 else Check(IncorrectLength(n - read), []))
    ensures NoMarkWithin(t.marks, t.position, n) ==>
              var read := |Bytes(t.file, t.position, n)|;
              Step(c, t, Verify(n)) ==
                (t.(position := t.position + read),
                 if read == 0 && n > 0 then Check(BlankCheck(None), [])
                 else if read < n then Check(IncorrectLength(n - read), []) else Good([]))
  {
    hide HitsMark, ReadLength;
    forall m: nat | NextMark(t.marks, t.position, m) && m <= t.position + n
      ensures HitsMark(t.marks, t.position, n) && ReadLength(t.marks, t.position, n) == m - t.position
    {
      NextMarkAhead(t.marks, t.position, n, m);
    }
    NoMarkAhead(t.marks, t.position, n);
  }

  // ---- WRITE and WRITE FILEMARKS

  /** Where buffer i starts in what the initiator sends. */
  function Offset(buffers: seq<seq<byte>>, i: nat): nat
    requires i <= |buffers|
  {
    if i == 0 then 0 else Offset(buffers, i - 1) + |buffers[i - 1]|
  }

  lemma {:induction false} OffsetTail(buffers: seq<seq<byte>>, i: nat)
    requires 0 < i <= |buffers|
    ensures Offset(buffers, i) == |buffers[0]| + Offset(buffers[1..], i - 1)
  {
    if i > 1 {
      OffsetTail(buffers, i - 1);
    }
  }

  lemma {:induction false} FlattenLength(buffers: seq<seq<byte>>)
    ensures |Flatten(buffers)| == Offset(buffers, |buffers|)
  {
    if buffers != [] {
      FlattenLength(buffers[1..]);
      OffsetTail(buffers, |buffers|);
    }
  }

  lemma {:induction false} FlattenAt(buffers: seq<seq<byte>>, i: nat, j: nat)
    requires i < |buffers| && j < |buffers[i]|
    ensures Offset(buffers, i) + j < |Flatten(buffers)| && Flatten(buffers)[Offset(buffers, i) + j] == buffers[i][j]
  {
    if i > 0 {
      OffsetTail(buffers, i);
      FlattenAt(buffers[1..], i - 1, j);
    }
  }

  /** WRITE takes the first n bytes of the buffers, one buffer after the other. */
  lemma DataOutIs(n: nat, buffers: seq<seq<byte>>, i: nat, j: nat)
    requires i < |buffers| && j < |buffers[i]| && Offset(buffers, i) + j < n
    ensures |DataOut(n, buffers)| == Min(n, Offset(buffers, |buffers|))
    ensures Offset(buffers, i) + j < |DataOut(n, buffers)|
            && DataOut(n, buffers)[Offset(buffers, i) + j] == buffers[i][j]
  {
    hide Flatten;
    FlattenLength(buffers);
    FlattenAt(buffers, i, j);
  }

  /** When WRITE is refused: no tape, a protected one, no room up to the session's limit or else the
      tape's capacity, or an encrypted tape in mid-pass without a usable key. Then nothing changes. */
  lemma WriteRefusals(c: Cipher, t: Tape, n: nat, buffers: seq<seq<byte>>)
    ensures var (u, r) := Step(c, t, Write(n, buffers));
            var room := if t.limit > 0 then t.limit else t.capacity;
            var full := room > 0 && t.position + n > room;
            var locked := t.position > 0 && t.encrypted && !(t.encryptOn && |t.key| == 32);
            && (r == Check(MediumNotPresent, []) <==> !t.mounted)
            && (r == Check(DataProtected, []) <==> t.mounted && t.writeProtected)
            && (r == Check(VolumeOverflow, []) <==> t.mounted && !t.writeProtected && full)
            && (r == Check(AccessNotAuthorized, []) <==> t.mounted && !t.writeProtected && !full && locked)
            && (r == Good([]) <==> t.mounted && !t.writeProtected && !full && !locked)
            && (r != Good([]) ==> u == t)
  {
    hide DataOut, Recording, TagsBefore;
  }

  /** These bytes lie at the head and nothing beyond; a gap behind the old end reads as zeros. */
  ghost predicate LaidDown(file: seq<byte>, was: seq<byte>, pos: nat, data: seq<byte>) {
    if pos <= |was| then file == was[..pos] + data
    else if data == [] then file == was
    else file == was + seq(pos - |was|, _ => 0) + data
  }

  lemma RecordingLaysDown(t: Tape, data: seq<byte>)
    requires Ascending(t.marks)
    ensures var u := Recording(t, data);
            && LaidDown(u.file, t.file, t.position, data) && MarksUpTo(u.marks, t.marks, t.position)
            && u == t.(file := u.file, marks := u.marks, position := t.position + |data|)
  {
    InvalidatedIs(t.marks, t.position);
    if |t.file| < t.position && data != [] {
      assert seq(t.position - |t.file|, i => 0) == seq(t.position - |t.file|, _ => 0 as byte);
    }
  }

  /** An accepted WRITE: at the beginning of the medium the session decides whether the pass is encrypted;
      the data, sealed if it is, lies at the head with nothing beyond it, marks up to the old head stay,
      and the head is behind the data. */
  lemma WriteLaysDown(c: Cipher, t: Tape, n: nat, buffers: seq<seq<byte>>)
    requires Sorted(t) && Step(c, t, Write(n, buffers)).1 == Good([])
    ensures var u, data := Step(c, t, Write(n, buffers)).0, DataOut(n, buffers);
            var s := c.seal(t.key, t.position, data);
            && u.encrypted == (if t.position == 0 then t.encryptOn && |t.key| == 32 else t.encrypted)
            && LaidDown(u.file, t.file, t.position, if u.encrypted then s.ciphertext else data)
            && MarksUpTo(u.marks, t.marks, t.position) && u.position == t.position + |data|
            && (!u.encrypted ==> u.tags == t.tags)
            && (u.encrypted ==> forall x :: x in u.tags <==>
                  (x in t.tags && x.start < t.position) || x == EncTag(t.position, |data|, s.tag))
            && u == t.(encrypted := u.encrypted, file := u.file, marks := u.marks, tags := u.tags,
                position := u.position)
  {
    hide DataOut, Recording, TagsBefore, MarksUpTo, LaidDown;
    var data := DataOut(n, buffers);
    var v := if t.position == 0 then t.(encrypted := EncryptionActive(t)) else t;
    KeptTagsAre(t.tags, t.position);
    RecordingLaysDown(v, data);
    RecordingLaysDown(v, c.seal(t.key, t.position, data).ciphertext);
  }

  /** WRITE FILEMARKS: refused like WRITE without a tape or on a protected one; with count 0 nothing
      happens; otherwise the tape ends at the head, with one mark there behind the earlier ones. */
  lemma WriteFilemarksAnswers(c: Cipher, t: Tape, count: nat)
    requires Sorted(t)
    ensures var (u, r) := Step(c, t, WriteFilemarks(count));
            if !t.mounted then u == t && r == Check(MediumNotPresent, [])
            else if t.writeProtected then u == t && r == Check(DataProtected, [])
            else
              && r == Good([]) && (count == 0 ==> u == t)
              && (count > 0 ==>
                    && IsBeginning(u.file, t.file, t.position) && Ascending(u.marks)
                    && (forall m: nat :: m in u.marks <==> m == t.position || (m in t.marks && m < t.position))
                    && u == t.(file := u.file, marks := u.marks))
  {
    RecordedIs(t.marks, t.position);
  }

  lemma RecordedIs(marks: seq<nat>, pos: nat)
    requires Ascending(marks)
    ensures Ascending(Recorded(marks, pos))
    ensures forall m: nat :: m in Recorded(marks, pos) <==> m == pos || (m in marks && m < pos)
  {
    var all, j := Recorded(marks, pos), Below(marks, pos);
    forall m: nat | m == pos || (m in marks && m < pos) ensures m in all {
      if m in marks && m < pos {
        var i :| 0 <= i < |marks| && marks[i] == m;
        assert i < j;
        assert all[i] == m;
      } else {
        assert all[j] == pos;
      }
    }
    forall m | m in all ensures m == pos || (m in marks && m < pos) {
      var i :| 0 <= i < |all| && all[i] == m;
      assert i < j ==> all[i] == marks[i];
    }
  }

  // ---- SPACE and LOCATE

  /** The 24-bit two's complement of the count field. */
  lemma SpaceCountIs(raw: nat)
    ensures -0x80_0000 <= SignExtend24(raw) < 0x80_0000 && (raw - SignExtend24(raw)) % 0x100_0000 == 0
  {
  }

  /** SPACE over blocks moves that many bytes, stops at the beginning, and reports BLANK CHECK at the end
      of data when the target is beyond it; to end of data it goes there; other codes but that of
      filemarks are refused. */
  lemma SpaceAnswers(c: Cipher, t: Tape, code: nat, raw: nat)
    ensures var count := SignExtend24(raw);
            Step(c, t, Space(code, raw)) ==
              if !t.mounted then (t, Check(MediumNotPresent, []))
              else if code == 1 then if count == 0 then (t, Good([])) else ApplySpace(t, 1, count)
              else if code == 0 then
                if t.position + count > |t.file| then (t.(position := |t.file|), Check(BlankCheck(None), []))
                else (t.(position := if t.position + count < 0 then 0 else t.position + count), Good([]))
              else if code == 3 then (t.(position := |t.file|), Good([]))
              else (t, Check(InvalidField, []))
  {
  }

  /** SPACE over blocks lands within the data, as near to its target as that allows, and reports BLANK CHECK
      exactly when the target is beyond the end of data. */
  lemma SpaceLandsNearest(c: Cipher, t: Tape, raw: nat, p: nat)
    requires t.mounted && p <= Eod(t)
    ensures var (u, r) := Step(c, t, Space(0, raw));
            var target := t.position + SignExtend24(raw);
            && u == t.(position := u.position) && u.position <= Eod(t)
            && (if target < u.position then u.position - target else target - u.position)
               <= (if target < p then p - target else target - p)
            && (r == Check(BlankCheck(None), []) <==> Eod(t) < target) && (r == Good([]) <==> target <= Eod(t))
  {
    hide SignExtend24;
  }

  function MarksBetween(marks: seq<nat>, low: nat, high: nat): set<nat> {
    set m | m in marks && low <= m < high
  }

  function Ranked(marks: seq<nat>, i: nat, j: nat): set<nat>
    requires i <= j <= |marks|
  {
    set k | i <= k < j :: marks[k]
  }

  lemma NothingRanked(marks: seq<nat>, i: nat)
    requires i <= |marks|
    ensures Ranked(marks, i, i) == {}
  {
  }

  lemma {:induction false} RankedMarks(marks: seq<nat>, i: nat, j: nat)
    requires Ascending(marks) && i <= j <= |marks|
    ensures |Ranked(marks, i, j)| == j - i
  {
    if i < j {
      RankedMarks(marks, i, j - 1);
      assert Ranked(marks, i, j) == Ranked(marks, i, j - 1) + {marks[j - 1]};
      assert marks[j - 1] !in Ranked(marks, i, j - 1);
    } else {
      NothingRanked(marks, i);
    }
  }

  lemma BetweenIsRanked(marks: seq<nat>, i: nat, high: nat, low: nat)
    requires Ascending(marks) && i <= Below(marks, high)
    requires forall k :: 0 <= k < i ==> marks[k] < low
    requires forall k :: i <= k < |marks| ==> low <= marks[k]
    ensures |MarksBetween(marks, low, high)| == Below(marks, high) - i
  {
    var j := Below(marks, high);
    RankedMarks(marks, i, j);
    forall m ensures m in MarksBetween(marks, low, high) <==> m in Ranked(marks, i, j) {
      if m in MarksBetween(marks, low, high) {
        var k :| 0 <= k < |marks| && marks[k] == m;
        assert i <= k < j;
      }
    }
    assert MarksBetween(marks, low, high) == Ranked(marks, i, j);
  }

  /** SPACE back over filemarks stops on the mark with exactly `count` marks from it to the start; with
      fewer behind it stops at the beginning of the medium. */
  lemma SpaceReverseCounts(t: Tape, count: int)
    requires t.mounted && Ascending(t.marks) && count > 0
    ensures var behind := |MarksBetween(t.marks, 0, t.position)|;
            var (u, r) := ApplySpace(t, 1, -count);
            && r == Good([]) && u == t.(position := u.position)
            && (if behind < count then u.position == 0
                else u.position in t.marks && |MarksBetween(t.marks, u.position, t.position)| == count)
  {
    var j := Below(t.marks, t.position);
    BetweenIsRanked(t.marks, 0, t.position, 0);
    if count <= j {
      BetweenIsRanked(t.marks, j - count, t.position, t.marks[j - count]);
    }
  }

  /** REWIND goes to the beginning, LOCATE of a mounted tape to the address given, wherever that is. */
  lemma LocateAnswers(c: Cipher, t: Tape, address: nat)
    ensures Step(c, t, Rewind) == (t.(position := 0), Good([]))
    ensures Step(c, t, Locate(address)) ==
              if t.mounted then (t.(position := address), Good([])) else (t, Check(MediumNotPresent, []))
  {
  }

  /** LOCATE within the data and READ short of the next mark and of the end deliver the bytes of that place. */
  lemma ReadAt(c: Cipher, t: Tape, address: nat, n: nat, sili: bool)
    requires t.mounted && !t.encrypted && Ascending(t.marks) && address + n <= Eod(t) && n > 0
    requires NoMarkWithin(t.marks, address, n)
    ensures Responses(c, t, [Locate(address), Read(n, sili)]) == [Good([]), Good(t.file[address..address + n])]
    ensures Run(c, t, [Locate(address), Read(n, sili)]) == t.(position := address + n)
  {
    hide Step;
    var cmds := [Locate(address), Read(n, sili)];
    LocateAnswers(c, t, address);
    var u := t.(position := address);
    ReadWithoutMark(c, u, n, sili);
    var read := Step(c, u, Read(n, sili));
    assert Bytes(t.file, address, n) == t.file[address..address + n];
    assert read == (u.(position := address + n), Good(t.file[address..address + n]));
    assert [Read(n, sili)][1..] == [];
    assert Run(c, u, [Read(n, sili)]) == read.0 && Responses(c, u, [Read(n, sili)]) == [read.1];
    assert cmds[1..] == [Read(n, sili)];
  }

  // ---- the session

  /** SET CAPACITY of proportion p limits the session to that many 65535ths of the capacity, rounded
      down; 0 lifts the limit. */
  lemma SetCapacityAnswers(c: Cipher, t: Tape, proportion: nat)
    ensures var (u, r) := Step(c, t, SetCapacity(proportion));
            if !t.mounted then u == t && r == Check(MediumNotPresent, [])
            else
              && r == Good([]) && u == t.(limit := u.limit) && (proportion == 0 ==> u.limit == 0)
              && (proportion > 0 ==> u.limit * 0xFFFF <= t.capacity * proportion < (u.limit + 1) * 0xFFFF)
  {
  }

  /** LOAD starts a new session; UNLOAD changes nothing. A key must have 32 bytes to be switched on. */
  lemma SessionAnswers(c: Cipher, t: Tape, on: bool, newKey: Key)
    ensures Step(c, t, LoadUnload(false)) == (t, Good([]))
    ensures Step(c, t, LoadUnload(true)) ==
              if t.mounted then (t.(position := 0, limit := 0, encryptOn := false, key := []), Good([]))
              else (t, Check(MediumNotPresent, []))
    ensures var (u, r) := Step(c, t, SetEncryption(on, newKey));
            if on && |newKey| != 32 then u == t && r == Check(InvalidField, [])
            else r == Good([]) && u == t.(encryptOn := on, key := if on then newKey else [])
  {
  }

  /** Without a tape nothing but the session can be set: every command that needs one says so. */
  lemma WithoutTape(c: Cipher, t: Tape, cmd: Command)
    requires !t.mounted && !cmd.Rewind? && !cmd.SetEncryption? && cmd != LoadUnload(false)
    ensures Step(c, t, cmd) == (t, Check(MediumNotPresent, []))
  {
  }
}
