/** The tape engine as pure state transitions: what each SCSI command does to one mounted
    cartridge and to the drive session (internal/scsi/drive.go, internal/scsi/encryption.go).
    `TapeDrive.Drive` is the imperative form; its methods are proved to compute these. */
module TapeState {
  import opened Common
  import opened Filemarks

  // ---- authenticated encryption, abstracted

  type Key = seq<byte>
  type Tag = seq<byte>

  const KEY_LENGTH: nat := 32

  datatype Sealed = Sealed(ciphertext: seq<byte>, tag: Tag)

  /** AES-GCM with the nonce derived from the chunk's byte offset. */
  datatype RawCipher = RawCipher(
    seal: (Key, nat, seq<byte>) -> Sealed,
    open: (Key, nat, seq<byte>, Tag) -> Option<seq<byte>>)

  /** Ciphertext is as long as plaintext, and opening under the sealing key and offset undoes sealing. */
  ghost predicate Sound(c: RawCipher) {
    && (forall k, pos, text {:trigger c.seal(k, pos, text)} ::
          var s := c.seal(k, pos, text);
          |s.ciphertext| == |text| && (|k| == KEY_LENGTH ==> c.open(k, pos, s.ciphertext, s.tag) == Some(text)))
    && (forall k, pos, text, tag {:trigger c.open(k, pos, text, tag)} ::
          c.open(k, pos, text, tag).Some? ==> |c.open(k, pos, text, tag).value| == |text|)
  }

  type Cipher = c: RawCipher | Sound(c)
    witness RawCipher((k, pos, text) => Sealed(text, []), (k, pos, text, tag) => Some(text))

  /** One recorded chunk: it covers the bytes [start, start + length) of the backing file. */
  datatype EncTag = EncTag(start: nat, length: nat, tag: Tag)

  ghost predicate TagsAscending(tags: seq<EncTag>) {
    forall i, j :: 0 <= i < j < |tags| ==> tags[i].start < tags[j].start
  }

  // ---- state, commands, responses

  datatype Tape = Tape(
    mounted: bool, writeProtected: bool, capacity: nat, encrypted: bool,
    file: seq<byte>, marks: seq<nat>, tags: seq<EncTag>,
    position: nat, limit: nat, encryptOn: bool, key: Key)

  datatype Command =
    | Rewind
    | LoadUnload(load: bool)
    | Write(n: nat, buffers: seq<seq<byte>>)
    | WriteFilemarks(count: nat)
    | Read(n: nat, sili: bool)
    | Verify(n: nat)
    | Space(code: nat, raw: nat)
    | Locate(address: nat)
    | Erase(long: bool)
    | SetCapacity(proportion: nat)
    | SetEncryption(on: bool, newKey: Key)

  datatype Sense =
    | MediumNotPresent
    | DataProtected
    | VolumeOverflow
    | BlankCheck(info: Option<nat>)
    | FilemarkDetected(residual: nat)
    | IncorrectLength(residual: nat)
    | AccessNotAuthorized
    | InvalidField

  datatype Response = Good(data: seq<byte>) | Check(sense: Sense, data: seq<byte>)

  /** End of data is the backing file's size. */
  function Eod(t: Tape): nat {
    |t.file|
  }

  function EffectiveCapacity(t: Tape): nat {
    if t.limit > 0 then t.limit else t.capacity
  }

  predicate EncryptionActive(t: Tape) {
    t.encryptOn && |t.key| == KEY_LENGTH
  }

  // ---- backing file primitives

  function Truncated(file: seq<byte>, eod: nat): seq<byte> {
    if |file| <= eod then file else file[..eod]
  }

  /** A positioned write: a gap past the end reads as zeros; writing nothing changes nothing. */
  function WrittenAt(file: seq<byte>, pos: nat, data: seq<byte>): seq<byte> {
    if data == [] then file
    else if |file| < pos then file + seq(pos - |file|, i => 0) + data
    else if |file| <= pos + |data| then file[..pos] + data
    else file[..pos] + data + file[pos + |data|..]
  }

  /** A positioned read of at most `length` bytes. */
  function Window(file: seq<byte>, pos: nat, length: nat): (w: seq<byte>)
    ensures |w| == if |file| <= pos then 0 else Min(length, |file| - pos)
  {
    if |file| <= pos then [] else file[pos..pos + Min(length, |file| - pos)]
  }

  function Flatten(buffers: seq<seq<byte>>): seq<byte> {
    if buffers == [] then [] else buffers[0] + Flatten(buffers[1..])
  }

  function DataOut(n: nat, buffers: seq<seq<byte>>): seq<byte> {
    var all := Flatten(buffers);
    all[..Min(n, |all|)]
  }

  // ---- chunk tags

  function TagsBefore(tags: seq<EncTag>, pos: nat): (kept: seq<EncTag>) {
    if tags == [] then []
    else (if tags[0].start < pos then [tags[0]] else []) + TagsBefore(tags[1..], pos)
  }

  /** The plaintext of [pos, end) read chunk by chunk from tag i on; None when a chunk fails to
      authenticate. A gap, or a chunk past the end of the backing file, ends the recorded data. */
  function Decrypt(c: Cipher, key: Key, file: seq<byte>, tags: seq<EncTag>, i: nat, pos: nat,
                   end: nat): Option<seq<byte>>
    requires i <= |tags|
    decreases |tags| - i
  {
    if i == |tags| || end <= pos then Some([]) else
    var t := tags[i];
    if t.start + t.length <= pos then Decrypt(c, key, file, tags, i + 1, pos, end)
    else if pos < t.start || |file| < t.start + t.length then Some([])
    else
      match c.open(key, t.start, file[t.start..t.start + t.length], t.tag)
      case None => None
      case Some(text) =>
        var to := if end < t.start + t.length then end - t.start else |text|;
        Prepend(text[pos - t.start..to], Decrypt(c, key, file, tags, i + 1, t.start + to, end))
  }

  function Prepend(out: seq<byte>, r: Option<seq<byte>>): Option<seq<byte>> {
    if r.None? then None else Some(out + r.value)
  }

  // ---- commands

  function ApplyWrite(c: Cipher, t: Tape, n: nat, buffers: seq<seq<byte>>): (Tape, Response) {
    if !t.mounted then (t, Check(MediumNotPresent, []))
    else if t.writeProtected then (t, Check(DataProtected, []))
    else if 0 < EffectiveCapacity(t) < t.position + n then (t, Check(VolumeOverflow, []))
    else WriteData(c, t, DataOut(n, buffers))
  }

  /** Encryption is decided at the beginning of the medium, for the whole recording pass. */
  function WriteData(c: Cipher, t: Tape, data: seq<byte>): (Tape, Response) {
    var u := if t.position == 0 then t.(encrypted := EncryptionActive(t)) else t;
    if !u.encrypted then (Recording(u, data), Good([]))
    else if !EncryptionActive(u) then (u, Check(AccessNotAuthorized, []))
    else
      var s := c.seal(u.key, u.position, data);
      var tag := EncTag(u.position, |s.ciphertext|, s.tag);
      (Recording(u, s.ciphertext).(tags := TagsBefore(u.tags, u.position) + [tag]), Good([]))
  }

  /** Lays down `data` at the head: everything recorded beyond it is gone, except a mark exactly
      at the old head position, which closes the file before this data. */
  function Recording(t: Tape, data: seq<byte>): Tape {
    t.(file := Truncated(WrittenAt(t.file, t.position, data), t.position + |data|),
       marks := Invalidated(t.marks, t.position),
       position := t.position + |data|)
  }

  function ApplyWriteFilemarks(t: Tape, count: nat): (Tape, Response) {
    if !t.mounted then (t, Check(MediumNotPresent, []))
    else if t.writeProtected then (t, Check(DataProtected, []))
    else if count == 0 then (t, Good([]))
    else (t.(file := Truncated(t.file, t.position), marks := Recorded(t.marks, t.position)), Good([]))
  }

  /** A read of n bytes runs into the first mark strictly ahead if that mark is within reach. */
  predicate HitsMark(marks: seq<nat>, pos: nat, n: nat) {
    var j := Upto(marks, pos);
    j < |marks| && marks[j] <= pos + n
  }

  function ReadLength(marks: seq<nat>, pos: nat, n: nat): (len: nat)
    ensures len <= n
  {
    if HitsMark(marks, pos, n) then marks[Upto(marks, pos)] - pos else n
  }

  function ReadResponse(hit: bool, readLen: nat, n: nat, sili: bool, got: seq<byte>): Response
    requires |got| <= readLen <= n
  {
    if got == [] && n > 0 && !hit then Check(BlankCheck(None), [])
    else if hit && |got| == readLen then Check(FilemarkDetected(n - |got|), got)
    else if |got| < n && !sili then Check(IncorrectLength(n - |got|), got)
    else Good(got)
  }

  /** The bytes a READ of `len` bytes obtains; None when a chunk fails to authenticate. */
  function Fetch(c: Cipher, t: Tape, len: nat): (r: Option<seq<byte>>) {
    if t.encrypted then Decrypt(c, t.key, t.file, t.tags, 0, t.position, t.position + len)
    else Some(Window(t.file, t.position, len))
  }

  /** Decryption yields no more than was asked for, and nothing past the end of the backing file. */
  lemma {:induction false} DecryptLength(c: Cipher, key: Key, file: seq<byte>, tags: seq<EncTag>, i: nat, pos: nat,
                                         end: nat)
    requires i <= |tags|
    ensures var r := Decrypt(c, key, file, tags, i, pos, end);
            r.Some? ==> && (|r.value| <= if pos <= end then end - pos else 0)
                        && (pos <= |file| ==> pos + |r.value| <= |file|)
    decreases |tags| - i
  {
    if i == |tags| || end <= pos {
    } else {
      var t := tags[i];
      if t.start + t.length <= pos {
        DecryptLength(c, key, file, tags, i + 1, pos, end);
      } else if t.start <= pos && t.start + t.length <= |file| {
        DecryptLength(c, key, file, tags, i + 1, if end < t.start + t.length then end else t.start + t.length, end);
      }
    }
  }

  function ApplyRead(c: Cipher, t: Tape, n: nat, sili: bool): (Tape, Response) {
    if !t.mounted then (t, Check(MediumNotPresent, [])) else
    var hit := HitsMark(t.marks, t.position, n);
    var readLen := ReadLength(t.marks, t.position, n);
    match Fetch(c, t, readLen)
    case None => (t, Check(AccessNotAuthorized, []))
    case Some(got) =>
      DecryptLength(c, t.key, t.file, t.tags, 0, t.position, t.position + readLen);
      (t.(position := t.position + |got|), ReadResponse(hit, readLen, n, sili, got))
  }

  /** VERIFY moves the head like a READ of the same length but transfers nothing. */
  function ApplyVerify(t: Tape, n: nat): (Tape, Response) {
    if !t.mounted then (t, Check(MediumNotPresent, [])) else
    var hit := HitsMark(t.marks, t.position, n);
    var readLen := ReadLength(t.marks, t.position, n);
    var read := Min(readLen, if |t.file| <= t.position then 0 else |t.file| - t.position);
    (t.(position := t.position + read),
     if read == 0 && n > 0 && !hit then Check(BlankCheck(None), [])
     else if hit && read == readLen then Check(FilemarkDetected(n - read), [])
     else if read < n then Check(IncorrectLength(n - read), [])
     else Good([]))
  }

  /** The 24-bit two's-complement SPACE count. */
  function SignExtend24(raw: nat): int {
    if 0x80_0000 <= raw % 0x100_0000 then raw % 0x100_0000 - 0x100_0000 else raw % 0x100_0000
  }

  function ApplySpace(t: Tape, code: nat, count: int): (Tape, Response) {
    if !t.mounted then (t, Check(MediumNotPresent, []))
    else if code == 0 then
      var newPos := if t.position + count < 0 then 0 else t.position + count;
      if |t.file| < newPos then (t.(position := |t.file|), Check(BlankCheck(None), []))
      else (t.(position := newPos), Good([]))
    else if code == 1 then
      if count >= 0 then
        var s := Forward(t.marks, t.position, count);
        if s.found < count
        then (t.(position := |t.file|), Check(BlankCheck(Some(count - s.found)), []))
        else (t.(position := s.pos), Good([]))
      else
        var s := Reverse(t.marks, t.position, -count);
        (t.(position := if s.found < -count then 0 else s.pos), Good([]))
    else if code == 3 then (t.(position := |t.file|), Good([]))
    else (t, Check(InvalidField, []))
  }

  function ApplyErase(t: Tape, long: bool): (Tape, Response) {
    if !t.mounted then (t, Check(MediumNotPresent, []))
    else if t.writeProtected then (t, Check(DataProtected, []))
    else if long then (t.(position := 0, file := [], marks := [], tags := []), Good([]))
    else (t.(file := Truncated(t.file, t.position),
             marks := Invalidated(t.marks, t.position),
             tags := TagsBefore(t.tags, t.position)), Good([]))
  }

  function ApplySetCapacity(t: Tape, proportion: nat): (Tape, Response) {
    if !t.mounted then (t, Check(MediumNotPresent, []))
    else (t.(limit := if proportion == 0 then 0 else t.capacity * proportion / 0xFFFF), Good([]))
  }

  function ApplyLoadUnload(t: Tape, load: bool): (Tape, Response) {
    if !load then (t, Good([]))
    else if !t.mounted then (t, Check(MediumNotPresent, []))
    else (t.(position := 0, limit := 0, encryptOn := false, key := []), Good([]))
  }

  function ApplySetEncryption(t: Tape, on: bool, newKey: Key): (Tape, Response) {
    if on && |newKey| != KEY_LENGTH then (t, Check(InvalidField, []))
    else (t.(encryptOn := on, key := if on then newKey else []), Good([]))
  }

  function Step(c: Cipher, t: Tape, cmd: Command): (Tape, Response) {
    match cmd
    case Rewind => (t.(position := 0), Good([]))
    case LoadUnload(load) => ApplyLoadUnload(t, load)
    case Write(n, buffers) => ApplyWrite(c, t, n, buffers)
    case WriteFilemarks(count) => ApplyWriteFilemarks(t, count)
    case Read(n, sili) => ApplyRead(c, t, n, sili)
    case Verify(n) => ApplyVerify(t, n)
    case Space(code, raw) => ApplySpace(t, code, SignExtend24(raw))
    case Locate(address) => if t.mounted then (t.(position := address), Good([])) else (t, Check(MediumNotPresent, []))
    case Erase(long) => ApplyErase(t, long)
    case SetCapacity(proportion) => ApplySetCapacity(t, proportion)
    case SetEncryption(on, newKey) => ApplySetEncryption(t, on, newKey)
  }

  function Run(c: Cipher, t: Tape, cmds: seq<Command>): Tape
    decreases |cmds|
  {
    if cmds == [] then t else Run(c, Step(c, t, cmds[0]).0, cmds[1..])
  }

  /** The responses of a run, in order. */
  function Responses(c: Cipher, t: Tape, cmds: seq<Command>): seq<Response>
    decreases |cmds|
  {
    if cmds == [] then []
    else [Step(c, t, cmds[0]).1] + Responses(c, Step(c, t, cmds[0]).0, cmds[1..])
  }

  // ---- what every command keeps

  /** The sidecars are ascending lists by construction. */
  ghost predicate Sorted(t: Tape) {
    Ascending(t.marks) && TagsAscending(t.tags)
  }

  /** Marks and head within the recorded data, recorded data within the capacity. */
  ghost predicate Bounded(t: Tape) {
    && (forall m :: m in t.marks ==> m <= Eod(t))
    && t.position <= Eod(t)
    && (t.capacity > 0 ==> Eod(t) <= t.capacity)
    && t.limit <= t.capacity
  }

  /** The CDB fields fit their widths: 16 bits for a SET CAPACITY proportion. */
  predicate WellFormed(cmd: Command) {
    cmd.SetCapacity? ==> cmd.proportion <= 0xFFFF
  }

  lemma {:induction false} TagsBeforeIs(tags: seq<EncTag>, pos: nat)
    requires TagsAscending(tags)
    ensures TagsBefore(tags, pos) <= tags
    ensures forall i :: 0 <= i < |TagsBefore(tags, pos)| ==> tags[i].start < pos
    ensures forall i :: |TagsBefore(tags, pos)| <= i < |tags| ==> pos <= tags[i].start
  {
    if tags == [] {
    } else {
      var rest := tags[1..];
      TagsBeforeIs(rest, pos);
      var kept := TagsBefore(rest, pos);
      assert forall i :: 1 <= i < |tags| ==> tags[i] == rest[i - 1];
      if tags[0].start < pos {
        assert [tags[0]] + rest == tags;
      } else {
        assert rest != [] ==> tags[0].start < rest[0].start;
        assert kept == [];
      }
    }
  }

  /** End of data after recording sits right behind the data. */
  lemma RecordingLength(t: Tape, data: seq<byte>)
    ensures Eod(Recording(t, data)) == if data == [] then Min(Eod(t), t.position) else t.position + |data|
  {
  }

  lemma RecordingKeepsMarks(t: Tape, data: seq<byte>)
    requires Ascending(t.marks)
    ensures Ascending(Recording(t, data).marks)
    ensures forall m :: m in Recording(t, data).marks ==> m in t.marks && m <= t.position
  {
  }

  lemma WriteKeepsSorted(c: Cipher, t: Tape, data: seq<byte>)
    requires Sorted(t)
    ensures Sorted(WriteData(c, t, data).0)
  {
    TagsBeforeIs(t.tags, t.position);
    RecordingKeepsMarks(t, data);
  }

  /** Commands that only move the head. */
  predicate OnlyMoves(cmd: Command) {
    cmd.Rewind? || cmd.Read? || cmd.Verify? || cmd.Space? || cmd.Locate?
  }

  lemma ReadMovesHead(c: Cipher, t: Tape, n: nat, sili: bool)
    ensures var u := ApplyRead(c, t, n, sili).0; u == t.(position := u.position)
  {
  }

  lemma SpaceMovesHead(t: Tape, code: nat, count: int)
    ensures var u := ApplySpace(t, code, count).0; u == t.(position := u.position)
  {
  }

  lemma VerifyMovesHead(t: Tape, n: nat)
    ensures var u := ApplyVerify(t, n).0; u == t.(position := u.position)
  {
  }

  lemma MovingKeepsRecording(c: Cipher, t: Tape, cmd: Command)
    requires OnlyMoves(cmd)
    ensures var u := Step(c, t, cmd).0; u == t.(position := u.position)
  {
    match cmd
    case Read(n, sili) => ReadMovesHead(c, t, n, sili);
    case Space(code, raw) => SpaceMovesHead(t, code, SignExtend24(raw));
    case Verify(n) => VerifyMovesHead(t, n);
    case Rewind =>
    case Locate(address) =>
  }

  /** Every command keeps both sidecars strictly ascending, whatever the head position; so no
      two recorded chunks start at the same offset and no nonce is shared. */
  lemma StepKeepsSorted(c: Cipher, t: Tape, cmd: Command)
    requires Sorted(t)
    ensures Sorted(Step(c, t, cmd).0)
  {
    if OnlyMoves(cmd) {
      MovingKeepsRecording(c, t, cmd);
    } else {
      match cmd
      case Write(n, buffers) => WriteKeepsSorted(c, t, DataOut(n, buffers));
      case Erase(long) => TagsBeforeIs(t.tags, t.position);
      case WriteFilemarks(count) =>
      case LoadUnload(load) =>
      case SetCapacity(proportion) =>
      case SetEncryption(on, newKey) =>
    }
  }

  /** Over every command sequence, LOCATE past the end of data included. */
  lemma {:induction false} RunKeepsSorted(c: Cipher, t: Tape, cmds: seq<Command>)
    requires Sorted(t)
    ensures Sorted(Run(c, t, cmds))
    decreases |cmds|
  {
    if cmds == [] {
    } else {
      StepKeepsSorted(c, t, cmds[0]);
      RunKeepsSorted(c, Step(c, t, cmds[0]).0, cmds[1..]);
    }
  }

  lemma SessionLimitWithinCapacity(capacity: nat, proportion: nat)
    requires proportion <= 0xFFFF
    ensures capacity * proportion / 0xFFFF <= capacity
  {
    assert capacity * proportion <= capacity * 0xFFFF;
  }

  lemma WriteKeepsBounded(c: Cipher, t: Tape, n: nat, buffers: seq<seq<byte>>)
    requires Sorted(t) && Bounded(t)
    ensures Bounded(ApplyWrite(c, t, n, buffers).0)
  {
    var data := DataOut(n, buffers);
    RecordingKeepsMarks(t, data);
    RecordingLength(t, data);
    RecordingLength(t, c.seal(t.key, t.position, data).ciphertext);
  }

  lemma EraseKeepsBounded(t: Tape, long: bool)
    requires Sorted(t) && Bounded(t)
    ensures Bounded(ApplyErase(t, long).0)
  {
  }

  lemma WriteFilemarksKeepsBounded(t: Tape, count: nat)
    requires Sorted(t) && Bounded(t)
    ensures Bounded(ApplyWriteFilemarks(t, count).0)
  {
  }

  lemma ReadKeepsBounded(c: Cipher, t: Tape, n: nat, sili: bool)
    requires Bounded(t)
    ensures Bounded(ApplyRead(c, t, n, sili).0)
  {
    DecryptLength(c, t.key, t.file, t.tags, 0, t.position, t.position + ReadLength(t.marks, t.position, n));
  }

  lemma SpacingWithinData(marks: seq<nat>, pos: nat, count: nat, eod: nat)
    requires pos <= eod && forall m :: m in marks ==> m <= eod
    ensures Forward(marks, pos, count).pos <= eod && Reverse(marks, pos, count).pos <= eod
  {
    SpacingLands(marks, pos, count);
  }

  lemma SpaceKeepsBounded(t: Tape, code: nat, count: int)
    requires Bounded(t)
    ensures ApplySpace(t, code, count).0.position <= Eod(t)
  {
    SpacingWithinData(t.marks, t.position, if count >= 0 then count else -count, Eod(t));
  }

  /** A command keeps the bounds exactly when it is not a LOCATE of a mounted tape past the end
      of data: LOCATE accepts any address. */
  lemma StepKeepsBounded(c: Cipher, t: Tape, cmd: Command)
    requires Sorted(t) && Bounded(t) && WellFormed(cmd)
    ensures Bounded(Step(c, t, cmd).0) <==> !(cmd.Locate? && t.mounted && Eod(t) < cmd.address)
  {
    if OnlyMoves(cmd) {
      MovingKeepsRecording(c, t, cmd);
      match cmd
      case Read(n, sili) => ReadKeepsBounded(c, t, n, sili);
      case Space(code, raw) => SpaceKeepsBounded(t, code, SignExtend24(raw));
      case Rewind =>
      case Verify(n) =>
      case Locate(address) =>
    } else {
      match cmd
      case SetCapacity(proportion) => SessionLimitWithinCapacity(t.capacity, proportion);
      case Write(n, buffers) => WriteKeepsBounded(c, t, n, buffers);
      case WriteFilemarks(count) => WriteFilemarksKeepsBounded(t, count);
      case Erase(long) => EraseKeepsBounded(t, long);
      case LoadUnload(load) =>
      case SetEncryption(on, newKey) =>
    }
  }

  /** The LOCATE targets of a run, each at or below the end of data at its turn. */
  ghost predicate LocatesWithinData(c: Cipher, t: Tape, cmds: seq<Command>)
    decreases |cmds|
  {
    cmds == [] ||
    (&& WellFormed(cmds[0])
     && (cmds[0].Locate? ==> cmds[0].address <= Eod(t))
     && LocatesWithinData(c, Step(c, t, cmds[0]).0, cmds[1..]))
  }

  /** Over every command sequence: ascending marks at or below end of data, head within the
      data, data within the capacity. */
  lemma {:induction false} RunKeepsBounded(c: Cipher, t: Tape, cmds: seq<Command>)
    requires Sorted(t) && Bounded(t) && LocatesWithinData(c, t, cmds)
    ensures Sorted(Run(c, t, cmds)) && Bounded(Run(c, t, cmds))
    decreases |cmds|
  {
    if cmds == [] {
    } else {
      StepKeepsSorted(c, t, cmds[0]);
      StepKeepsBounded(c, t, cmds[0]);
      RunKeepsBounded(c, Step(c, t, cmds[0]).0, cmds[1..]);
    }
  }

  ghost predicate WithinCapacity(t: Tape) {
    t.limit <= t.capacity && (t.capacity > 0 ==> Eod(t) <= t.capacity)
  }

  lemma WriteKeepsCapacity(c: Cipher, t: Tape, n: nat, buffers: seq<seq<byte>>)
    requires WithinCapacity(t)
    ensures WithinCapacity(ApplyWrite(c, t, n, buffers).0) && ApplyWrite(c, t, n, buffers).0.capacity == t.capacity
  {
    var data := DataOut(n, buffers);
    RecordingLength(t, data);
    RecordingLength(t, c.seal(t.key, t.position, data).ciphertext);
  }

  lemma StepKeepsCapacity(c: Cipher, t: Tape, cmd: Command)
    requires WithinCapacity(t) && WellFormed(cmd)
    ensures WithinCapacity(Step(c, t, cmd).0) && Step(c, t, cmd).0.capacity == t.capacity
  {
    if OnlyMoves(cmd) {
      MovingKeepsRecording(c, t, cmd);
    } else {
      match cmd
      case SetCapacity(proportion) => SessionLimitWithinCapacity(t.capacity, proportion);
      case Write(n, buffers) => WriteKeepsCapacity(c, t, n, buffers);
      case WriteFilemarks(count) =>
      case Erase(long) =>
      case LoadUnload(load) =>
      case SetEncryption(on, newKey) =>
    }
  }

  /** Recorded data never exceeds a positive capacity, even with LOCATE past the end of data. */
  lemma {:induction false} RunKeepsCapacity(c: Cipher, t: Tape, cmds: seq<Command>)
    requires WithinCapacity(t) && forall i :: 0 <= i < |cmds| ==> WellFormed(cmds[i])
    ensures WithinCapacity(Run(c, t, cmds)) && Run(c, t, cmds).capacity == t.capacity
    decreases |cmds|
  {
    if cmds == [] {
    } else {
      StepKeepsCapacity(c, t, cmds[0]);
      RunKeepsCapacity(c, Step(c, t, cmds[0]).0, cmds[1..]);
    }
  }

  // ---- SPACE over filemarks, by what is recorded

  function MarksAfter(marks: seq<nat>, low: nat): set<nat> {
    set m | m in marks && low < m
  }

  function MarksWithin(marks: seq<nat>, low: nat, high: nat): set<nat> {
    set m | m in marks && low < m <= high
  }

  lemma OneMoreMark(marks: seq<nat>, low: nat, i: nat)
    requires Ascending(marks) && i < |marks| && low < marks[i]
    ensures MarksAfter(marks[..i + 1], low) == MarksAfter(marks[..i], low) + {marks[i]}
    ensures marks[i] !in MarksAfter(marks[..i], low)
  {
    assert marks[..i + 1] == marks[..i] + [marks[i]];
  }

  /** Counting marks in a stretch of tape is subtracting their ranks. */
  lemma {:induction false} MarksCounted(marks: seq<nat>, low: nat, i: nat)
    requires Ascending(marks) && Upto(marks, low) <= i <= |marks|
    ensures |MarksAfter(marks[..i], low)| == i - Upto(marks, low)
  {
    hide Upto, MarksAfter;
    var j := Upto(marks, low);
    if i == j {
      NoMarkAfter(marks[..i], low);
    } else {
      MarksCounted(marks, low, i - 1);
      OneMoreMark(marks, low, i - 1);
    }
  }

  lemma NoMarkAfter(marks: seq<nat>, low: nat)
    requires forall i :: 0 <= i < |marks| ==> marks[i] <= low
    ensures MarksAfter(marks, low) == {}
  {
  }

  lemma MarksAhead(marks: seq<nat>, pos: nat)
    requires Ascending(marks)
    ensures |MarksAfter(marks, pos)| == |marks| - Upto(marks, pos)
  {
    MarksCounted(marks, pos, |marks|);
    assert marks[..|marks|] == marks;
  }

  lemma WithinIsPrefix(marks: seq<nat>, low: nat, i: nat)
    requires Ascending(marks) && i < |marks|
    ensures MarksWithin(marks, low, marks[i]) == MarksAfter(marks[..i + 1], low)
  {
    forall m | m in MarksWithin(marks, low, marks[i]) ensures m in marks[..i + 1] {
      var k :| 0 <= k < |marks| && marks[k] == m;
      assert marks[..i + 1][k] == m;
    }
  }

  /** SPACE forward stops on the mark with exactly `count` marks passed; with fewer marks ahead it
      runs to the end of data and reports how many are missing. */
  lemma SpaceForwardCounts(t: Tape, count: nat)
    requires t.mounted && Ascending(t.marks) && count > 0
    ensures var ahead := |MarksAfter(t.marks, t.position)|;
            var (u, r) := ApplySpace(t, 1, count);
            if ahead < count then u == t.(position := Eod(t)) && r == Check(BlankCheck(Some(count - ahead)), [])
            else r == Good([]) && u == t.(position := u.position) && u.position in t.marks
                 && |MarksWithin(t.marks, t.position, u.position)| == count
  {
    MarksAhead(t.marks, t.position);
    var j := Upto(t.marks, t.position);
    if j + count <= |t.marks| {
      MarksCounted(t.marks, t.position, j + count);
      WithinIsPrefix(t.marks, t.position, j + count - 1);
    }
  }

  /** SPACE forward k that succeeds, then back k: the last mark at or before the start, or the
      beginning of the medium if there is none. */
  lemma SpaceThereAndBack(t: Tape, k: int)
    requires t.mounted && Ascending(t.marks) && k > 0 && ApplySpace(t, 1, k).1 == Good([])
    ensures var back := ApplySpace(ApplySpace(t, 1, k).0, 1, -k);
            && back.1 == Good([])
            && (if exists m :: m in t.marks && m <= t.position
                then back.0.position in t.marks && back.0.position <= t.position
                     && forall m :: m in t.marks && m <= t.position ==> m <= back.0.position
                else back.0.position == 0)
  {
    ForwardThenReverse(t.marks, t.position, k);
  }
}
