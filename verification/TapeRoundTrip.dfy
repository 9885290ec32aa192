/** What was written is what is read back, file by file: the promise of WRITE, WRITE FILEMARKS,
    REWIND, SPACE and READ taken together (SCSI-2 sections 10.2.4, 10.2.12, 10.2.14, 10.2.15). */
module TapeRoundTrip {
  import opened Common
  import opened Filemarks
  import opened TapeState
  import opened EncryptedTape

  /** A file is a list of blocks; every block is one WRITE. */
  type File = seq<seq<byte>>

  ghost predicate IsFile(f: File) {
    f != [] && forall i :: 0 <= i < |f| ==> f[i] != []
  }

  function Writes(f: File): seq<Command> {
    if f == [] then [] else [Write(|f[0]|, [f[0]])] + Writes(f[1..])
  }

  /** The recording session: each file's blocks, then one filemark. */
  function Recorder(files: seq<File>): seq<Command> {
    if files == [] then [] else Writes(files[0]) + [WriteFilemarks(1)] + Recorder(files[1..])
  }

  function Text(files: seq<File>): seq<byte> {
    if files == [] then [] else Flatten(files[0]) + Text(files[1..])
  }

  /** Where each file ends when the first starts at `base`. */
  function Ends(files: seq<File>, base: nat): (ends: seq<nat>)
    ensures |ends| == |files|
  {
    if files == [] then [] else
    var end := base + |Flatten(files[0])|;
    [end] + Ends(files[1..], end)
  }

  /** Ready to record `more` bytes at the head. */
  ghost predicate Ready(t: Tape, more: nat) {
    && t.mounted && !t.writeProtected
    && Ascending(t.marks) && t.position <= Eod(t)
    && (EffectiveCapacity(t) > 0 ==> t.position + more <= EffectiveCapacity(t))
  }

  ghost predicate Plain(t: Tape) {
    !t.encrypted && !EncryptionActive(t)
  }

  /** The head is at end of data and no mark lies beyond it. */
  ghost predicate Appending(t: Tape) {
    t.position == Eod(t) && forall m :: m in t.marks ==> m <= Eod(t)
  }

  // ---- sequences

  lemma FlattenCons(before: seq<byte>, f: File)
    requires f != []
    ensures before + f[0] + Flatten(f[1..]) == before + Flatten(f)
  {
  }

  lemma TextCons(before: seq<byte>, files: seq<File>)
    requires files != []
    ensures before + Flatten(files[0]) + Text(files[1..]) == before + Text(files)
  {
  }

  lemma EndsCons(before: seq<nat>, files: seq<File>, base: nat)
    requires files != []
    ensures var end := base + |Flatten(files[0])|;
            before + [end] + Ends(files[1..], end) == before + Ends(files, base)
  {
  }

  lemma TwoSlices(file: seq<byte>, a: nat, b: nat, d: nat)
    requires a <= b <= d <= |file|
    ensures file[a..b] + file[b..d] == file[a..d]
  {
  }

  lemma WholePrefix(file: seq<byte>, n: nat)
    requires n == |file|
    ensures file[..n] == file && file + [] == file
  {
  }

  // ---- recording

  lemma {:induction false} CommandsAppend(c: Cipher, t: Tape, a: seq<Command>, b: seq<Command>)
    ensures Run(c, t, a + b) == Run(c, Run(c, t, a), b)
    decreases |a|
  {
    hide Step;
    if a == [] {
      assert [] + b == b;
    } else {
      assert (a + b)[0] == a[0] && (a + b)[1..] == a[1..] + b;
      CommandsAppend(c, Step(c, t, a[0]).0, a[1..], b);
    }
  }

  lemma WriteBlock(c: Cipher, t: Tape, block: seq<byte>)
    requires Ready(t, |block|) && Plain(t) && block != []
    ensures Step(c, t, Write(|block|, [block])).0
         == t.(encrypted := false, file := t.file[..t.position] + block, marks := Invalidated(t.marks, t.position),
               position := t.position + |block|)
  {
    assert [block][1..] == [];
    assert Flatten([block]) == block + [] == block;
    assert DataOut(|block|, [block]) == block;
    RecordingIs(t, block);
  }

  lemma AppendingKeepsMarks(t: Tape)
    requires Ascending(t.marks) && Appending(t)
    ensures Invalidated(t.marks, t.position) == t.marks
  {
    assert forall j :: 0 <= j < |t.marks| ==> t.marks[j] in t.marks;
    UptoIs(t.marks, t.position, |t.marks|);
  }

  lemma WritesCons(c: Cipher, t: Tape, f: File)
    requires f != []
    ensures Run(c, t, Writes(f)) == Run(c, Step(c, t, Write(|f[0]|, [f[0]])).0, Writes(f[1..]))
    ensures |Flatten(f)| == |f[0]| + |Flatten(f[1..])|
  {
    hide Step;
    assert Writes(f)[0] == Write(|f[0]|, [f[0]]) && Writes(f)[1..] == Writes(f[1..]);
  }

  /** The tape with more data laid down at the head. */
  function Appended(t: Tape, data: seq<byte>): Tape {
    t.(file := t.file + data, position := t.position + |data|)
  }

  lemma AppendedKeeps(t: Tape, data: seq<byte>, more: nat)
    requires Ready(t, |data| + more) && Plain(t) && Appending(t)
    ensures var u := Appended(t, data); Ready(u, more) && Plain(u) && Appending(u)
  {
  }

  lemma AppendBlock(c: Cipher, t: Tape, block: seq<byte>, more: nat)
    requires Ready(t, |block| + more) && Plain(t) && Appending(t) && block != []
    ensures Step(c, t, Write(|block|, [block])).0 == Appended(t, block)
  {
    hide Step, Ascending;
    WriteBlock(c, t, block);
    AppendingKeepsMarks(t);
    WholePrefix(t.file, t.position);
  }

  lemma AppendedTwice(t: Tape, f: File)
    requires f != []
    ensures Appended(Appended(t, f[0]), Flatten(f[1..])) == Appended(t, Flatten(f))
  {
    FlattenCons(t.file, f);
  }

  lemma AppendedNothing(t: Tape)
    ensures Appended(t, []) == t
  {
    WholePrefix(t.file, |t.file|);
  }

  lemma LaterBlocks(f: File)
    requires f != [] && forall i :: 0 <= i < |f| ==> f[i] != []
    ensures forall i :: 0 <= i < |f[1..]| ==> f[1..][i] != []
  {
  }

  /** All blocks of one file, appended at end of data. */
  lemma {:induction false} AppendBlocks(c: Cipher, t: Tape, f: File)
    requires Ready(t, |Flatten(f)|) && Plain(t) && Appending(t)
    requires forall i :: 0 <= i < |f| ==> f[i] != []
    ensures Run(c, t, Writes(f)) == Appended(t, Flatten(f))
    decreases |f|
  {
    if f == [] {
      AppendedNothing(t);
    } else {
      hide Step, Run, Writes, Flatten, Ready, Plain, Appending, Appended;
      WritesCons(c, t, f);
      AppendBlock(c, t, f[0], |Flatten(f[1..])|);
      AppendedKeeps(t, f[0], |Flatten(f[1..])|);
      LaterBlocks(f);
      AppendBlocks(c, Appended(t, f[0]), f[1..]);
      AppendedTwice(t, f);
    }
  }

  /** The first blocks go wherever the head is; from then on it is appending. */
  lemma RecordBlocks(c: Cipher, t: Tape, f: File)
    requires Ready(t, |Flatten(f)|) && Plain(t) && IsFile(f)
    ensures Run(c, t, Writes(f)) == t.(file := t.file[..t.position] + Flatten(f),
                                       marks := Invalidated(t.marks, t.position),
                                       position := t.position + |Flatten(f)|)
  {
    hide Step, Run, Writes, Flatten;
    WritesCons(c, t, f);
    WriteBlock(c, t, f[0]);
    var u := t.(file := t.file[..t.position] + f[0], marks := Invalidated(t.marks, t.position),
                position := t.position + |f[0]|);
    AppendBlocks(c, u, f[1..]);
    FlattenCons(t.file[..t.position], f);
  }

  lemma CloseFile(c: Cipher, t: Tape)
    requires Ready(t, 0) && Appending(t) && (t.marks != [] ==> t.marks[|t.marks| - 1] < t.position)
    ensures Step(c, t, WriteFilemarks(1)).0 == t.(marks := t.marks + [t.position])
  {
    forall j | 0 <= j < |t.marks| ensures t.marks[j] < t.position {
      assert j < |t.marks| - 1 ==> t.marks[j] < t.marks[|t.marks| - 1];
    }
    BelowIs(t.marks, t.position, |t.marks|);
  }

  /** The tape after `file` was kept, file f laid down behind it, and one filemark behind that. */
  function FileRecorded(t: Tape, file: seq<byte>, marks: seq<nat>, f: File): Tape {
    var end := |file| + |Flatten(f)|;
    t.(file := file + Flatten(f), marks := marks + [end], position := end)
  }

  /** A file and its filemark, recorded at the head. */
  lemma RecordFile(c: Cipher, t: Tape, f: File)
    requires Ready(t, |Flatten(f)|) && Plain(t) && IsFile(f)
    ensures Run(c, t, Writes(f) + [WriteFilemarks(1)])
         == FileRecorded(t, t.file[..t.position], Invalidated(t.marks, t.position), f)
  {
    hide Step;
    RecordBlocks(c, t, f);
    var u := Run(c, t, Writes(f));
    CommandsAppend(c, t, Writes(f), [WriteFilemarks(1)]);
    assert |Flatten(f)| > 0;
    CloseFile(c, u);
    RunOne(c, u, WriteFilemarks(1));
  }

  lemma AppendFile(c: Cipher, t: Tape, f: File, more: nat)
    requires Ready(t, |Flatten(f)| + more) && Plain(t) && Appending(t) && IsFile(f)
    ensures var u := FileRecorded(t, t.file, t.marks, f);
            && Run(c, t, Writes(f) + [WriteFilemarks(1)]) == u
            && Ready(u, more) && Plain(u) && Appending(u)
  {
    hide Step;
    RecordFile(c, t, f);
    AppendingKeepsMarks(t);
    WholePrefix(t.file, t.position);
    FileBytes(f);
    assert forall j :: 0 <= j < |t.marks| ==> t.marks[j] in t.marks;
  }

  lemma FileBytes(f: File)
    requires IsFile(f)
    ensures |Flatten(f)| > 0
  {
  }

  /** The whole session in append position. */
  lemma {:induction false} AppendFiles(c: Cipher, t: Tape, files: seq<File>)
    requires Ready(t, |Text(files)|) && Plain(t) && Appending(t)
    requires forall i :: 0 <= i < |files| ==> IsFile(files[i])
    ensures Run(c, t, Recorder(files))
         == t.(file := t.file + Text(files), marks := t.marks + Ends(files, t.position),
             position := t.position + |Text(files)|)
    decreases |files|
  {
    hide Step;
    if files == [] {
      WholePrefix(t.file, t.position);
      assert t.marks + [] == t.marks;
    } else {
      var f, rest := files[0], files[1..];
      var u := FileRecorded(t, t.file, t.marks, f);
      AppendFile(c, t, f, |Text(rest)|);
      CommandsAppend(c, t, Writes(f) + [WriteFilemarks(1)], Recorder(rest));
      AppendFiles(c, u, rest);
      TextCons(t.file, files);
      EndsCons(t.marks, files, t.position);
    }
  }

  /** A mark left at the very beginning survives a recording from there; all others go. */
  function MarkAtBOT(marks: seq<nat>): seq<nat> {
    if marks != [] && marks[0] == 0 then [0] else []
  }

  lemma FirstFile(c: Cipher, t: Tape, f: File, more: nat)
    requires Ready(t, |Flatten(f)| + more) && Plain(t) && t.position == 0 && IsFile(f)
    ensures var u := FileRecorded(t, [], MarkAtBOT(t.marks), f);
            && Run(c, t, Writes(f) + [WriteFilemarks(1)]) == u
            && Ready(u, more) && Plain(u) && Appending(u)
  {
    hide Step;
    var kept := MarkAtBOT(t.marks);
    RecordFile(c, t, f);
    assert |t.marks| > 1 ==> t.marks[0] < t.marks[1];
    UptoIs(t.marks, 0, |kept|);
    FileBytes(f);
  }

  /** Recording from the beginning of the medium, over whatever was on the tape. */
  lemma RecordFromBOT(c: Cipher, t: Tape, files: seq<File>)
    requires Ready(t, |Text(files)|) && Plain(t) && t.position == 0
    requires files != [] && forall i :: 0 <= i < |files| ==> IsFile(files[i])
    ensures Run(c, t, Recorder(files))
         == t.(file := Text(files), marks := MarkAtBOT(t.marks) + Ends(files, 0), position := |Text(files)|)
  {
    hide Step;
    var f, rest := files[0], files[1..];
    var u := FileRecorded(t, [], MarkAtBOT(t.marks), f);
    FirstFile(c, t, f, |Text(rest)|);
    CommandsAppend(c, t, Writes(f) + [WriteFilemarks(1)], Recorder(rest));
    AppendFiles(c, u, rest);
    TextCons([], files);
    EndsCons(MarkAtBOT(t.marks), files, 0);
    assert [] + Text(files) == Text(files);
  }

  // ---- reading back

  datatype Capture = Capture(bytes: seq<byte>, atMark: bool, tape: Tape)

  /** READs of the given sizes, one after another, until one reports FILEMARK. */
  function Reads(c: Cipher, t: Tape, sizes: seq<nat>, sili: bool): Capture
    decreases |sizes|
  {
    if sizes == [] then Capture([], false, t) else
    var step := Step(c, t, Read(sizes[0], sili));
    if step.1.Check? && step.1.sense.FilemarkDetected? then Capture(step.1.data, true, step.0) else
    var rest := Reads(c, step.0, sizes[1..], sili);
    rest.(bytes := step.1.data + rest.bytes)
  }

  /** One READ short of the next mark, or one that reaches it. */
  lemma ReadTowardsMark(c: Cipher, t: Tape, j: nat, n: nat, sili: bool)
    requires t.mounted && Plain(t) && Ascending(t.marks) && n > 0
    requires j == Upto(t.marks, t.position) < |t.marks| && t.marks[j] <= Eod(t)
    ensures var m := t.marks[j];
            Step(c, t, Read(n, sili)) == if m <= t.position + n
            then (t.(position := m), Check(FilemarkDetected(n - (m - t.position)), t.file[t.position..m]))
            else (t.(position := t.position + n), Good(t.file[t.position..t.position + n]))
  {
  }

  /** What READs from the head deliver when the sizes add up to `total` and the next mark is m. */
  function UpToMark(t: Tape, total: nat, m: nat): Capture
    requires t.position <= m <= Eod(t)
  {
    var reach := Min(t.position + total, m);
    Capture(t.file[t.position..reach], m <= t.position + total, t.(position := reach))
  }

  lemma ReadsContinue(c: Cipher, t: Tape, j: nat, sizes: seq<nat>, sili: bool)
    requires t.mounted && Plain(t) && Ascending(t.marks) && sizes != [] && sizes[0] > 0
    requires j == Upto(t.marks, t.position) < |t.marks| && t.marks[j] <= Eod(t)
    ensures if t.marks[j] <= t.position + sizes[0]
            then Reads(c, t, sizes, sili) == UpToMark(t, sizes[0], t.marks[j])
            else var u := t.(position := t.position + sizes[0]);
                 var rest := Reads(c, u, sizes[1..], sili);
                 Reads(c, t, sizes, sili) == rest.(bytes := t.file[t.position..u.position] + rest.bytes)
  {
    hide Step;
    ReadTowardsMark(c, t, j, sizes[0], sili);
  }

  lemma NoReads(c: Cipher, t: Tape, m: nat, sili: bool)
    requires t.position < m <= Eod(t)
    ensures Reads(c, t, [], sili) == UpToMark(t, 0, m)
  {
    assert t.file[t.position..t.position] == [];
  }

  /** Reading a first part and then the rest is reading all of it. */
  lemma UpToMarkAdds(t: Tape, first: nat, rest: nat, m: nat)
    requires t.position + first < m <= Eod(t)
    ensures var u := t.(position := t.position + first);
            (UpToMark(t, first + rest, m)
             == UpToMark(u, rest, m).(bytes := t.file[t.position..u.position] + UpToMark(u, rest, m).bytes))
  {
    TwoSlices(t.file, t.position, t.position + first, Min(t.position + first + rest, m));
  }

  /** From anywhere inside a file, READs of any positive sizes deliver the bytes up to the next
      mark, never one beyond it, and report FILEMARK exactly when they reach it. */
  lemma {:induction false} ReadsStopAtMark(c: Cipher, t: Tape, j: nat, sizes: seq<nat>, sili: bool)
    requires t.mounted && Plain(t) && Ascending(t.marks)
    requires j == Upto(t.marks, t.position) < |t.marks| && t.marks[j] <= Eod(t)
    requires forall i :: 0 <= i < |sizes| ==> sizes[i] > 0
    ensures Reads(c, t, sizes, sili) == UpToMark(t, Sum(sizes), t.marks[j])
    decreases |sizes|
  {
    hide Step, Reads, UpToMark, Upto;
    if sizes == [] {
      NoReads(c, t, t.marks[j], sili);
    } else {
      ReadsContinue(c, t, j, sizes, sili);
      if t.position + sizes[0] < t.marks[j] {
        var u := t.(position := t.position + sizes[0]);
        UptoIs(t.marks, u.position, j);
        ReadsStopAtMark(c, u, j, sizes[1..], sili);
        UpToMarkAdds(t, sizes[0], Sum(sizes[1..]), t.marks[j]);
      } else {
        BeyondMark(t, sizes[0], Sum(sizes), t.marks[j]);
      }
    }
  }

  lemma BeyondMark(t: Tape, first: nat, total: nat, m: nat)
    requires t.position <= m <= Eod(t) && m <= t.position + first && first <= total
    ensures UpToMark(t, first, m) == UpToMark(t, total, m)
  {
  }

  function Start(files: seq<File>, k: nat, base: nat): nat
    requires k < |files|
  {
    if k == 0 then base else Ends(files, base)[k - 1]
  }

  /** Ends are ascending, and file k's bytes lie between the k-th start and the k-th end. */
  lemma {:induction false} FileLies(files: seq<File>, k: nat, base: nat, before: seq<byte>)
    requires k < |files| && |before| == base
    requires forall i :: 0 <= i < |files| ==> IsFile(files[i])
    ensures base <= Start(files, k, base) < Ends(files, base)[k] <= base + |Text(files)|
    ensures (before + Text(files))[Start(files, k, base)..Ends(files, base)[k]] == Flatten(files[k])
    decreases |files|
  {
    var f, rest := files[0], files[1..];
    var end := base + |Flatten(f)|;
    assert IsFile(f) && |Flatten(f)| > 0;
    if k == 0 {
      assert (before + Text(files))[base..end] == Flatten(f);
    } else {
      FileLies(rest, k - 1, end, before + Flatten(f));
      assert before + Flatten(f) + Text(rest) == before + Text(files);
    }
  }

  lemma {:induction false} EndsAscend(files: seq<File>, base: nat)
    requires forall i :: 0 <= i < |files| ==> IsFile(files[i])
    ensures Ascending(Ends(files, base))
    ensures forall i :: 0 <= i < |files| ==> base < Ends(files, base)[i]
    decreases |files|
  {
    hide Flatten, Ascending;
    if files == [] {
      EmptyAscends();
    } else {
      FileBytes(files[0]);
      var end := base + |Flatten(files[0])|;
      EndsAscend(files[1..], end);
      PrependAscends(end, Ends(files[1..], end));
    }
  }

  lemma EmptyAscends()
    ensures Ascending([])
  {
  }

  lemma PrependAscends(end: nat, ends: seq<nat>)
    requires Ascending(ends) && forall i :: 0 <= i < |ends| ==> end < ends[i]
    ensures Ascending([end] + ends)
  {
  }

  /** In a recorded tape, the marks up to the k-th start are those of the first k files. */
  lemma MarksBeforeFile(marks: seq<nat>, files: seq<File>, kept: seq<nat>, k: nat)
    requires (kept == [] || kept == [0]) && marks == kept + Ends(files, 0)
    requires k < |files| && forall i :: 0 <= i < |files| ==> IsFile(files[i])
    ensures Ascending(marks) && Upto(marks, 0) == |kept|
    ensures Upto(marks, Start(files, k, 0)) == |kept| + k
    ensures k > 0 ==> marks[|kept| + k - 1] == Start(files, k, 0)
  {
    hide Ends, Upto;
    EndsAscend(files, 0);
    UptoIs(marks, 0, |kept|);
    if k > 0 {
      UptoOfMark(marks, |kept| + k - 1);
    }
  }

  lemma UptoOfMark(marks: seq<nat>, i: nat)
    requires Ascending(marks) && i < |marks|
    ensures Upto(marks, marks[i]) == i + 1
  {
    UptoIs(marks, marks[i], i + 1);
  }

  lemma SmallCount(k: nat)
    requires k < 0x80_0000
    ensures SignExtend24(k) == k
  {
  }

  /** SPACE k filemarks from the beginning lands at the start of file k. */
  lemma SpaceToFile(c: Cipher, t: Tape, files: seq<File>, kept: seq<nat>, k: nat)
    requires t.mounted && (kept == [] || kept == [0]) && t.marks == kept + Ends(files, 0)
    requires k < |files| && k < 0x80_0000 && forall i :: 0 <= i < |files| ==> IsFile(files[i])
    ensures Run(c, t, [Rewind, Space(1, k)]) == t.(position := Start(files, k, 0))
  {
    hide Ends, ApplySpace, Upto, Run, Step, SignExtend24;
    MarksBeforeFile(t.marks, files, kept, k);
    SeekRun(c, t, k);
    SmallCount(k);
    SpaceFromBOT(t.(position := 0), |kept|, k, Start(files, k, 0));
  }

  lemma SeekRun(c: Cipher, t: Tape, k: nat)
    ensures Run(c, t, [Rewind, Space(1, k)]) == ApplySpace(t.(position := 0), 1, SignExtend24(k)).0
  {
    hide ApplySpace;
    RunTwo(c, t, Rewind, Space(1, k));
  }

  lemma SpaceFromBOT(t: Tape, first: nat, k: nat, start: nat)
    requires t.mounted && t.position == 0 && Upto(t.marks, 0) == first && first + k <= |t.marks|
    requires start == if k == 0 then 0 else t.marks[first + k - 1]
    ensures ApplySpace(t, 1, k).0 == t.(position := start)
  {
  }

  lemma RunTwo(c: Cipher, t: Tape, a: Command, b: Command)
    ensures Run(c, t, [a, b]) == Step(c, Step(c, t, a).0, b).0
  {
    assert [a] + [b] == [a, b];
    RunOne(c, t, a);
    RunOne(c, Step(c, t, a).0, b);
    CommandsAppend(c, t, [a], [b]);
  }

  lemma RunOne(c: Cipher, t: Tape, cmd: Command)
    ensures Run(c, t, [cmd]) == Step(c, t, cmd).0
  {
    assert [cmd][1..] == [];
  }

  /** READs of file k from its start. */
  lemma ReadsOfFile(c: Cipher, t: Tape, files: seq<File>, kept: seq<nat>, k: nat, sizes: seq<nat>, sili: bool)
    requires t.mounted && Plain(t) && t.file == Text(files)
    requires (kept == [] || kept == [0]) && t.marks == kept + Ends(files, 0)
    requires k < |files| && forall i :: 0 <= i < |files| ==> IsFile(files[i])
    requires t.position == Start(files, k, 0) && forall i :: 0 <= i < |sizes| ==> sizes[i] > 0
    ensures ReadsFile(Reads(c, t, sizes, sili), Flatten(files[k]), Sum(sizes), Ends(files, 0)[k])
  {
    hide Step, Text, Flatten, Reads, Upto, Ends, Ascending, UpToMark, ReadsFile;
    MarksBeforeFile(t.marks, files, kept, k);
    FileLies(files, k, 0, []);
    assert [] + Text(files) == Text(files);
    var start, end := t.position, Ends(files, 0)[k];
    assert t.marks[|kept| + k] == end;
    ReadsStopAtMark(c, t, |kept| + k, sizes, sili);
    UpToMarkOfFile(t, Sum(sizes), end, Flatten(files[k]));
  }

  lemma UpToMarkOfFile(t: Tape, total: nat, end: nat, file: seq<byte>)
    requires t.position <= end <= Eod(t) && t.file[t.position..end] == file
    ensures ReadsFile(UpToMark(t, total, end), file, total, end)
  {
    PrefixOfSlice(t.file, t.position, end, Min(t.position + total, end));
  }

  lemma PrefixOfSlice(text: seq<byte>, start: nat, end: nat, reach: nat)
    requires start <= reach <= end <= |text|
    ensures text[start..reach] == text[start..end][..reach - start]
  {
  }

  /** What a sequence of READs delivered of one file: a prefix as long as asked for, the whole file
      and FILEMARK, with the head on the mark, once the sizes add up to its length. */
  ghost predicate ReadsFile(got: Capture, file: seq<byte>, total: nat, end: nat) {
    && got.bytes == file[..Min(total, |file|)]
    && (got.atMark <==> |file| <= total)
    && (got.atMark ==> got.tape.position == end)
  }

  /** The round trip: record any non-empty files from the beginning of the medium, one filemark
      after each; then for every k, REWIND, SPACE k filemarks and READs of any positive sizes
      deliver exactly file k. */
  lemma RoundTrip(c: Cipher, t: Tape, files: seq<File>, k: nat, sizes: seq<nat>, sili: bool)
    requires Ready(t, |Text(files)|) && Plain(t) && t.position == 0
    requires forall i :: 0 <= i < |files| ==> IsFile(files[i])
    requires k < |files| && k < 0x80_0000 && forall i :: 0 <= i < |sizes| ==> sizes[i] > 0
    ensures var atFile := Run(c, Run(c, t, Recorder(files)), [Rewind, Space(1, k)]);
            ReadsFile(Reads(c, atFile, sizes, sili), Flatten(files[k]), Sum(sizes), Ends(files, 0)[k])
  {
    hide Step;
    RecordFromBOT(c, t, files);
    var u := Run(c, t, Recorder(files));
    SpaceToFile(c, u, files, MarkAtBOT(t.marks), k);
    ReadsOfFile(c, u.(position := Start(files, k, 0)), files, MarkAtBOT(t.marks), k, sizes, sili);
  }

  // ---- the same under encryption

  /** Nothing but WRITE and WRITE FILEMARKS. */
  predicate OnlyRecords(cmds: seq<Command>) {
    forall i :: 0 <= i < |cmds| ==> cmds[i].Write? || cmds[i].WriteFilemarks?
  }

  lemma {:induction false} RecorderOnlyRecords(files: seq<File>)
    ensures OnlyRecords(Recorder(files))
    decreases |files|
  {
    if files == [] {
    } else {
      WritesOnlyRecord(files[0]);
      RecorderOnlyRecords(files[1..]);
    }
  }

  lemma {:induction false} WritesOnlyRecord(f: File)
    ensures OnlyRecords(Writes(f))
    decreases |f|
  {
    if f == [] {
    } else {
      WritesOnlyRecord(f[1..]);
    }
  }

  /** Recording at end of data under encryption stays at end of data. */
  ghost predicate SealingAtEnd(e: Tape) {
    e.encrypted && EncryptionActive(e) && e.position == Eod(e)
  }

  lemma RecordStaysAtEnd(c: Cipher, e: Tape, cmd: Command)
    requires SealingAtEnd(e) && (cmd.Write? || cmd.WriteFilemarks?)
    ensures Aligned(e, cmd) && SealingAtEnd(Step(c, e, cmd).0)
  {
    if cmd.Write? {
      var data := DataOut(cmd.n, cmd.buffers);
      RecordingLength(e, c.seal(e.key, e.position, data).ciphertext);
    }
  }

  lemma {:induction false} RecordingIsAligned(c: Cipher, e: Tape, cmds: seq<Command>)
    requires SealingAtEnd(e) && OnlyRecords(cmds)
    ensures AlignedRun(c, e, cmds)
    decreases |cmds|
  {
    hide Step, Aligned;
    if cmds == [] {
    } else {
      RecordStaysAtEnd(c, e, cmds[0]);
      RecordingIsAligned(c, Step(c, e, cmds[0]).0, cmds[1..]);
    }
  }

  lemma {:induction false} ReadsMirror(c: Cipher, e: Tape, p: Tape, sizes: seq<nat>, sili: bool)
    requires Mirrors(c, e, p)
    ensures var a, b := Reads(c, e, sizes, sili), Reads(c, p, sizes, sili);
            a.bytes == b.bytes && a.atMark == b.atMark && a.tape.position == b.tape.position
    decreases |sizes|
  {
    hide Step, Tiles;
    if sizes == [] {
    } else {
      var cmd := Read(sizes[0], sili);
      StepMirrors(c, e, p, cmd);
      ReadsMirror(c, Step(c, e, cmd).0, Step(c, p, cmd).0, sizes[1..], sili);
    }
  }

  lemma FirstBlockMirrors(c: Cipher, e: Tape, p: Tape, block: seq<byte>)
    requires Ready(e, |block|) && e.position == 0 && EncryptionActive(e) && TagsAscending(e.tags) && Plain(p)
    requires p == e.(encrypted := p.encrypted, encryptOn := p.encryptOn, key := p.key)
    ensures var cmd := Write(|block|, [block]);
            && Mirrors(c, Step(c, e, cmd).0, Step(c, p, cmd).0)
            && SealingAtEnd(Step(c, e, cmd).0)
  {
    hide Tiles;
    var data := DataOut(|block|, [block]);
    FirstWriteMirrors(c, e, p, data);
    RecordingLength(e, c.seal(e.key, 0, data).ciphertext);
  }

  /** Recording from the beginning of the medium with a key leaves a tape that mirrors the one
      recorded without. */
  lemma SealedRecordingMirrors(c: Cipher, e: Tape, p: Tape, files: seq<File>)
    requires Ready(e, |Text(files)|) && e.position == 0 && EncryptionActive(e) && TagsAscending(e.tags) && Plain(p)
    requires p == e.(encrypted := p.encrypted, encryptOn := p.encryptOn, key := p.key)
    requires files != [] && forall i :: 0 <= i < |files| ==> IsFile(files[i])
    ensures Mirrors(c, Run(c, e, Recorder(files)), Run(c, p, Recorder(files)))
  {
    hide Step, Mirrors, Text;
    var cmds := Recorder(files);
    var block := files[0][0];
    assert IsFile(files[0]) && block != [];
    FirstBlockLength(files);
    assert cmds[0] == Write(|block|, [block]);
    FirstBlockMirrors(c, e, p, block);
    RecorderOnlyRecords(files);
    var e1, p1 := Step(c, e, cmds[0]).0, Step(c, p, cmds[0]).0;
    RecordingIsAligned(c, e1, cmds[1..]);
    RunMirrors(c, e1, p1, cmds[1..]);
  }

  lemma FirstBlockLength(files: seq<File>)
    requires files != [] && IsFile(files[0])
    ensures |files[0][0]| <= |Text(files)|
  {
  }

  /** The round trip of a drive session with a key, on a tape recorded under any other. */
  lemma SealedRoundTrip(c: Cipher, e: Tape, files: seq<File>, k: nat, sizes: seq<nat>, sili: bool)
    requires Ready(e, |Text(files)|) && e.position == 0 && EncryptionActive(e) && TagsAscending(e.tags)
    requires forall i :: 0 <= i < |files| ==> IsFile(files[i])
    requires k < |files| && k < 0x80_0000 && forall i :: 0 <= i < |sizes| ==> sizes[i] > 0
    ensures var atFile := Run(c, Run(c, e, Recorder(files)), [Rewind, Space(1, k)]);
            ReadsFile(Reads(c, atFile, sizes, sili), Flatten(files[k]), Sum(sizes), Ends(files, 0)[k])
  {
    hide Step, Text, Recorder, Reads;
    var p := e.(encrypted := false, encryptOn := false, key := []);
    var seek := [Rewind, Space(1, k)];
    RoundTrip(c, p, files, k, sizes, sili);
    SealedRecordingMirrors(c, e, p, files);
    var e1, p1 := Run(c, e, Recorder(files)), Run(c, p, Recorder(files));
    SeekIsAligned(c, e1, k);
    RunMirrors(c, e1, p1, seek);
    ReadsMirror(c, Run(c, e1, seek), Run(c, p1, seek), sizes, sili);
  }

  lemma SeekIsAligned(c: Cipher, e: Tape, k: nat)
    ensures AlignedRun(c, e, [Rewind, Space(1, k)])
  {
    hide Step;
    var cmds := [Rewind, Space(1, k)];
    assert cmds[1..] == [Space(1, k)] && cmds[1..][1..] == [];
    assert AlignedRun(c, Step(c, Step(c, e, Rewind).0, Space(1, k)).0, []);
    assert AlignedRun(c, Step(c, e, Rewind).0, [Space(1, k)]) by {
      assert [Space(1, k)][1..] == [];
    }
  }
}
