/** An encrypted recording pass is indistinguishable from a plaintext one: the drive that seals
    every WRITE into an authenticated chunk answers each command as the drive that does not. */
module EncryptedTape {
  import opened Common
  import opened Filemarks
  import opened TapeState

  /** Where the chunk of tag i has to end: at the next recorded chunk, or at end of data. */
  function NextStart(tags: seq<EncTag>, i: nat, eod: nat): nat
    requires i < |tags|
  {
    if i + 1 < |tags| && tags[i + 1].start < eod then tags[i + 1].start else eod
  }

  ghost predicate Seals(c: Cipher, key: Key, file: seq<byte>, t: EncTag, text: seq<byte>) {
    && t.start + t.length <= |file| == |text|
    && c.seal(key, t.start, text[t.start..t.start + t.length]) == Sealed(file[t.start..t.start + t.length], t.tag)
  }

  /** Tag i, if below end of data, seals the stretch up to the next chunk. */
  ghost predicate TileAt(c: Cipher, key: Key, file: seq<byte>, tags: seq<EncTag>, text: seq<byte>, i: nat)
    requires i < |tags|
  {
    tags[i].start < |file| ==>
      tags[i].start + tags[i].length == NextStart(tags, i, |file|) && Seals(c, key, file, tags[i], text)
  }

  /** The tags below end of data tile [0, EOD), each sealing its stretch of `text`. Tags at or
      past end of data may be left over from an earlier pass: WRITE FILEMARKS does not drop them. */
  ghost predicate Tiles(c: Cipher, key: Key, file: seq<byte>, tags: seq<EncTag>, text: seq<byte>) {
    && TagsAscending(tags)
    && |file| == |text|
    && (file != [] ==> tags != [] && tags[0].start == 0)
    && forall i :: 0 <= i < |tags| ==> TileAt(c, key, file, tags, text, i)
  }

  ghost predicate AtBoundary(file: seq<byte>, tags: seq<EncTag>, pos: nat) {
    pos == |file| || (pos < |file| && exists i :: 0 <= i < |tags| && tags[i].start == pos)
  }

  lemma SliceOfSlice(s: seq<byte>, a: nat, b: nat, x: nat, y: nat)
    requires a <= b <= |s| && x <= y <= b - a
    ensures s[a..b][x..y] == s[a + x..a + y]
  {
    assert forall k :: 0 <= k < y - x ==> s[a..b][x..y][k] == s[a + x + k];
  }

  lemma WindowSplits(text: seq<byte>, pos: nat, mid: nat, end: nat)
    requires pos <= mid <= end && mid <= |text|
    ensures Window(text, pos, end - pos) == text[pos..mid] + Window(text, mid, end - mid)
  {
  }

  lemma SealsCut(c: Cipher, key: Key, file: seq<byte>, t: EncTag, text: seq<byte>, pos: nat)
    requires Seals(c, key, file, t, text) && t.start + t.length <= pos <= |file|
    ensures Seals(c, key, file[..pos], t, text[..pos])
  {
    SliceOfSlice(file, 0, pos, t.start, t.start + t.length);
    SliceOfSlice(text, 0, pos, t.start, t.start + t.length);
    assert file[0..pos] == file[..pos] && text[0..pos] == text[..pos];
  }

  lemma SealsExtended(c: Cipher, key: Key, file: seq<byte>, t: EncTag, text: seq<byte>, more: seq<byte>,
                      moreText: seq<byte>)
    requires Seals(c, key, file, t, text) && |more| == |moreText|
    ensures Seals(c, key, file + more, t, text + moreText)
  {
    assert (file + more)[t.start..t.start + t.length] == file[t.start..t.start + t.length];
    assert (text + moreText)[t.start..t.start + t.length] == text[t.start..t.start + t.length];
  }

  // ---- reading

  /** Decryption inside tile i yields the tile's plaintext up to `next` and goes on there. */
  lemma DecryptInTile(c: Cipher, key: Key, file: seq<byte>, tags: seq<EncTag>, text: seq<byte>, i: nat, pos: nat,
                      end: nat)
    requires |key| == KEY_LENGTH && i < |tags| && Seals(c, key, file, tags[i], text)
    requires tags[i].start <= pos < tags[i].start + tags[i].length && pos < end
    ensures var next := Min(end, tags[i].start + tags[i].length);
            (Decrypt(c, key, file, tags, i, pos, end)
             == Prepend(text[pos..next], Decrypt(c, key, file, tags, i + 1, next, end)))
  {
    var t := tags[i];
    var next := Min(end, t.start + t.length);
    SliceOfSlice(text, t.start, t.start + t.length, pos - t.start, next - t.start);
    assert c.open(key, t.start, file[t.start..t.start + t.length], t.tag) == Some(text[t.start..t.start + t.length]);
  }

  lemma TileSeals(c: Cipher, key: Key, file: seq<byte>, tags: seq<EncTag>, text: seq<byte>, i: nat)
    requires Tiles(c, key, file, tags, text) && i < |tags| && tags[i].start < |file|
    ensures tags[i].start + tags[i].length <= |file| && Seals(c, key, file, tags[i], text)
    ensures tags[i].start + tags[i].length < |file| ==>
            i + 1 < |tags| && tags[i + 1].start == tags[i].start + tags[i].length
  {
    assert TileAt(c, key, file, tags, text, i);
  }

  lemma DecryptPastTile(c: Cipher, key: Key, file: seq<byte>, tags: seq<EncTag>, i: nat, pos: nat, end: nat)
    requires i < |tags| && tags[i].start + tags[i].length <= pos < end
    ensures Decrypt(c, key, file, tags, i, pos, end) == Decrypt(c, key, file, tags, i + 1, pos, end)
  {
  }

  /** At the end of the range, or past the recorded data, nothing is left to decrypt. */
  lemma NothingToDecrypt(c: Cipher, key: Key, file: seq<byte>, tags: seq<EncTag>, text: seq<byte>, i: nat, pos: nat,
                         end: nat)
    requires i <= |tags| && |file| == |text| && pos <= end
    requires pos < |file| && pos < end ==> i < |tags| && tags[i].start <= pos
    ensures i == |tags| || pos == end ==>
              Decrypt(c, key, file, tags, i, pos, end) == Some([]) && Window(text, pos, end - pos) == []
    ensures i < |tags| && pos < end && pos < tags[i].start + tags[i].length
            && (pos < tags[i].start || |file| < tags[i].start + tags[i].length) ==>
              Decrypt(c, key, file, tags, i, pos, end) == Some([])
                  && (|text| <= pos ==> Window(text, pos, end - pos) == [])
  {
  }

  lemma {:induction false} DecryptFromTag(c: Cipher, key: Key, file: seq<byte>, tags: seq<EncTag>, text: seq<byte>,
                                          i: nat, pos: nat, end: nat)
    requires |key| == KEY_LENGTH && Tiles(c, key, file, tags, text) && |file| == |text| && i <= |tags| && pos <= end
    requires pos < |file| && pos < end ==> i < |tags| && tags[i].start <= pos
    ensures Decrypt(c, key, file, tags, i, pos, end) == Some(Window(text, pos, end - pos))
    decreases |tags| - i
  {
    hide Tiles, Seals, Decrypt, Window;
    NothingToDecrypt(c, key, file, tags, text, i, pos, end);
    if i < |tags| && pos < end {
      var t := tags[i];
      if t.start < |file| {
        TileSeals(c, key, file, tags, text, i);
      }
      if t.start + t.length <= pos {
        DecryptPastTile(c, key, file, tags, i, pos, end);
        DecryptFromTag(c, key, file, tags, text, i + 1, pos, end);
      } else if t.start <= pos && t.start + t.length <= |file| {
        var next := Min(end, t.start + t.length);
        DecryptInTile(c, key, file, tags, text, i, pos, end);
        DecryptFromTag(c, key, file, tags, text, i + 1, next, end);
        WindowSplits(text, pos, next, end);
      }
    }
  }

  /** `decryptRange(start, length)` returns exactly plaintext[start..min(start + length, EOD)]. */
  lemma DecryptReturnsPlaintext(c: Cipher, key: Key, file: seq<byte>, tags: seq<EncTag>, text: seq<byte>,
                                start: nat, length: nat)
    requires |key| == KEY_LENGTH && Tiles(c, key, file, tags, text)
    ensures Decrypt(c, key, file, tags, 0, start, start + length) == Some(Window(text, start, length))
  {
    DecryptFromTag(c, key, file, tags, text, 0, start, start + length);
  }

  // ---- writing

  /** Cutting the tape at a chunk boundary keeps the tiling; what tags follow the cut is immaterial. */
  lemma CutAtBoundary(c: Cipher, key: Key, file: seq<byte>, tags: seq<EncTag>, text: seq<byte>, pos: nat,
                      kept: seq<EncTag>, m: nat)
    requires Tiles(c, key, file, tags, text) && AtBoundary(file, tags, pos)
    requires TagsAscending(kept) && m <= |kept| && m <= |tags|
    requires forall i :: 0 <= i < m ==> kept[i] == tags[i] && kept[i].start < pos
    requires forall i :: m <= i < |kept| ==> pos <= kept[i].start
    requires m < |tags| ==> pos <= tags[m].start
    ensures Tiles(c, key, file[..pos], kept, text[..pos])
  {
    forall i | 0 <= i < |kept|
      ensures TileAt(c, key, file[..pos], kept, text[..pos], i)
    {
      if kept[i].start < pos {
        assert i < m && kept[i] == tags[i];
        CutOneTag(c, key, file, tags, text, pos, i);
      }
    }
    assert pos > 0 ==> tags[0].start == 0 && 0 < m && kept[0] == tags[0];
  }

  lemma CutOneTag(c: Cipher, key: Key, file: seq<byte>, tags: seq<EncTag>, text: seq<byte>, pos: nat, i: nat)
    requires Tiles(c, key, file, tags, text) && AtBoundary(file, tags, pos)
    requires i < |tags| && tags[i].start < pos
    ensures tags[i].start + tags[i].length
            == if i + 1 < |tags| && tags[i + 1].start < pos then tags[i + 1].start else pos
    ensures Seals(c, key, file[..pos], tags[i], text[..pos])
  {
    LastBeforeBoundary(file, tags, pos, i);
    assert TileAt(c, key, file, tags, text, i);
    SealsCut(c, key, file, tags[i], text, pos);
  }

  /** Seen from below a boundary, the next chunk start does not change when the tape is cut there. */
  lemma LastBeforeBoundary(file: seq<byte>, tags: seq<EncTag>, pos: nat, i: nat)
    requires TagsAscending(tags) && AtBoundary(file, tags, pos)
    requires i < |tags| && tags[i].start < pos
    ensures NextStart(tags, i, |file|) == if i + 1 < |tags| && tags[i + 1].start < pos then tags[i + 1].start else pos
  {
    if pos < |file| {
      var j :| 0 <= j < |tags| && tags[j].start == pos;
      assert i < j;
      assert i + 1 < j ==> tags[i + 1].start < tags[j].start;
    }
  }

  lemma AppendChunk(c: Cipher, key: Key, file: seq<byte>, tags: seq<EncTag>, text: seq<byte>, data: seq<byte>)
    requires Tiles(c, key, file, tags, text)
    requires forall i :: 0 <= i < |tags| ==> tags[i].start < |file|
    ensures var s := c.seal(key, |file|, data);
            Tiles(c, key, file + s.ciphertext, tags + [EncTag(|file|, |data|, s.tag)], text + data)
  {
    var s := c.seal(key, |file|, data);
    var newTag := EncTag(|file|, |data|, s.tag);
    var file', tags', text' := file + s.ciphertext, tags + [newTag], text + data;
    NewChunkSeals(c, key, file, text, data);
    forall i | 0 <= i < |tags'|
      ensures TileAt(c, key, file', tags', text', i)
    {
      if i < |tags| {
        assert tags'[i] == tags[i] && TileAt(c, key, file, tags, text, i);
        SealsExtended(c, key, file, tags[i], text, s.ciphertext, data);
      }
    }
  }

  lemma NewChunkSeals(c: Cipher, key: Key, file: seq<byte>, text: seq<byte>, data: seq<byte>)
    requires |file| == |text|
    ensures var s := c.seal(key, |file|, data);
            Seals(c, key, file + s.ciphertext, EncTag(|file|, |data|, s.tag), text + data)
  {
    var s := c.seal(key, |file|, data);
    assert (file + s.ciphertext)[|file|..|file| + |data|] == s.ciphertext;
    assert (text + data)[|file|..|file| + |data|] == data;
  }

  /** Recording at a position within the data keeps what precedes it and ends with the new data. */
  lemma RecordingIs(t: Tape, data: seq<byte>)
    requires t.position <= Eod(t)
    ensures Recording(t, data).file == t.file[..t.position] + data
  {
  }

  // ---- the simulation

  /** `e` records the bytes of `p` under encryption; nothing else tells the two tapes apart. */
  ghost predicate Mirrors(c: Cipher, e: Tape, p: Tape) {
    && e.encrypted && EncryptionActive(e)
    && !p.encrypted && !EncryptionActive(p)
    && e.mounted == p.mounted && e.writeProtected == p.writeProtected
    && e.capacity == p.capacity && e.limit == p.limit
    && e.position == p.position && e.marks == p.marks
    && Tiles(c, e.key, e.file, e.tags, p.file)
  }

  /** The commands of one recording pass: one key throughout, and WRITE, WRITE FILEMARKS and
      short ERASE only at a chunk boundary or at end of data. */
  ghost predicate Aligned(e: Tape, cmd: Command) {
    match cmd
    case Write(_, _) => AtBoundary(e.file, e.tags, e.position)
    case WriteFilemarks(count) => count > 0 ==> AtBoundary(e.file, e.tags, e.position)
    case Erase(long) => !long ==> AtBoundary(e.file, e.tags, e.position)
    case LoadUnload(load) => !load
    case SetEncryption(_, _) => false
    case _ => true
  }

  lemma WriteTiles(c: Cipher, key: Key, file: seq<byte>, tags: seq<EncTag>, text: seq<byte>, pos: nat, data: seq<byte>)
    requires Tiles(c, key, file, tags, text) && AtBoundary(file, tags, pos)
    ensures var s := c.seal(key, pos, data);
            Tiles(c, key, file[..pos] + s.ciphertext, TagsBefore(tags, pos) + [EncTag(pos, |data|, s.tag)],
                text[..pos] + data)
  {
    var kept := TagsBefore(tags, pos);
    TagsBeforeIs(tags, pos);
    CutAtBoundary(c, key, file, tags, text, pos, kept, |kept|);
    AppendChunk(c, key, file[..pos], kept, text[..pos], data);
  }

  /** A WRITE at a boundary mirrors a plaintext WRITE, whatever lay beyond. */
  lemma WriteMirrors(c: Cipher, e: Tape, p: Tape, data: seq<byte>)
    requires Mirrors(c, e, p) && AtBoundary(e.file, e.tags, e.position)
    ensures WriteData(c, e, data).1 == WriteData(c, p, data).1
    ensures Mirrors(c, WriteData(c, e, data).0, WriteData(c, p, data).0)
  {
    WriteTiles(c, e.key, e.file, e.tags, p.file, e.position, data);
    RecordingIs(e, c.seal(e.key, e.position, data).ciphertext);
    RecordingIs(p, data);
  }

  lemma ApplyWriteMirrors(c: Cipher, e: Tape, p: Tape, n: nat, buffers: seq<seq<byte>>)
    requires Mirrors(c, e, p) && AtBoundary(e.file, e.tags, e.position)
    ensures ApplyWrite(c, e, n, buffers).1 == ApplyWrite(c, p, n, buffers).1
    ensures Mirrors(c, ApplyWrite(c, e, n, buffers).0, ApplyWrite(c, p, n, buffers).0)
  {
    WriteMirrors(c, e, p, DataOut(n, buffers));
  }

  /** The first WRITE at the beginning of the medium starts a pass on any tape, however recorded
      before: leftovers of another key, of plaintext or of filemarks do not matter. */
  lemma FirstWriteMirrors(c: Cipher, e: Tape, p: Tape, data: seq<byte>)
    requires e.position == 0 && EncryptionActive(e) && !EncryptionActive(p) && TagsAscending(e.tags)
    requires p == e.(encrypted := p.encrypted, encryptOn := p.encryptOn, key := p.key, tags := p.tags)
    ensures WriteData(c, e, data).1 == WriteData(c, p, data).1 == Good([])
    ensures Mirrors(c, WriteData(c, e, data).0, WriteData(c, p, data).0)
  {
    var s := c.seal(e.key, 0, data);
    TagsBeforeIs(e.tags, 0);
    assert TagsBefore(e.tags, 0) == [];
    AppendChunk(c, e.key, [], [], [], data);
    RecordingIs(e, s.ciphertext);
    RecordingIs(p, data);
    assert [] + s.ciphertext == s.ciphertext && [] + data == data;
  }

  lemma TruncatedIs(file: seq<byte>, pos: nat)
    requires pos <= |file|
    ensures Truncated(file, pos) == file[..pos]
  {
  }

  lemma FilemarksMirror(c: Cipher, e: Tape, p: Tape, count: nat)
    requires Mirrors(c, e, p) && (count > 0 ==> AtBoundary(e.file, e.tags, e.position))
    ensures ApplyWriteFilemarks(e, count).1 == ApplyWriteFilemarks(p, count).1
    ensures Mirrors(c, ApplyWriteFilemarks(e, count).0, ApplyWriteFilemarks(p, count).0)
  {
    if count > 0 {
      TagsBeforeIs(e.tags, e.position);
      CutAtBoundary(c, e.key, e.file, e.tags, p.file, e.position, e.tags, |TagsBefore(e.tags, e.position)|);
      TruncatedIs(e.file, e.position);
      TruncatedIs(p.file, p.position);
    }
  }

  lemma EraseMirrors(c: Cipher, e: Tape, p: Tape, long: bool)
    requires Mirrors(c, e, p) && (!long ==> AtBoundary(e.file, e.tags, e.position))
    ensures ApplyErase(e, long).1 == ApplyErase(p, long).1
    ensures Mirrors(c, ApplyErase(e, long).0, ApplyErase(p, long).0)
  {
    if !long {
      TagsBeforeIs(e.tags, e.position);
      var kept := TagsBefore(e.tags, e.position);
      CutAtBoundary(c, e.key, e.file, e.tags, p.file, e.position, kept, |kept|);
      TruncatedIs(e.file, e.position);
      TruncatedIs(p.file, p.position);
    }
  }

  lemma ReadMirrors(c: Cipher, e: Tape, p: Tape, n: nat, sili: bool)
    requires Mirrors(c, e, p)
    ensures ApplyRead(c, e, n, sili).1 == ApplyRead(c, p, n, sili).1
    ensures Mirrors(c, ApplyRead(c, e, n, sili).0, ApplyRead(c, p, n, sili).0)
  {
    DecryptReturnsPlaintext(c, e.key, e.file, e.tags, p.file, e.position, ReadLength(e.marks, e.position, n));
  }

  lemma SpaceMirrors(c: Cipher, e: Tape, p: Tape, code: nat, count: int)
    requires Mirrors(c, e, p)
    ensures ApplySpace(e, code, count).1 == ApplySpace(p, code, count).1
    ensures Mirrors(c, ApplySpace(e, code, count).0, ApplySpace(p, code, count).0)
  {
  }

  lemma VerifyMirrors(c: Cipher, e: Tape, p: Tape, n: nat)
    requires Mirrors(c, e, p)
    ensures ApplyVerify(e, n).1 == ApplyVerify(p, n).1
    ensures Mirrors(c, ApplyVerify(e, n).0, ApplyVerify(p, n).0)
  {
  }

  lemma SetCapacityMirrors(c: Cipher, e: Tape, p: Tape, proportion: nat)
    requires Mirrors(c, e, p)
    ensures ApplySetCapacity(e, proportion).1 == ApplySetCapacity(p, proportion).1
    ensures Mirrors(c, ApplySetCapacity(e, proportion).0, ApplySetCapacity(p, proportion).0)
  {
  }

  lemma StepMirrors(c: Cipher, e: Tape, p: Tape, cmd: Command)
    requires Mirrors(c, e, p) && Aligned(e, cmd)
    ensures Step(c, e, cmd).1 == Step(c, p, cmd).1
    ensures Mirrors(c, Step(c, e, cmd).0, Step(c, p, cmd).0)
  {
    match cmd
    case Write(n, buffers) => ApplyWriteMirrors(c, e, p, n, buffers);
    case WriteFilemarks(count) => FilemarksMirror(c, e, p, count);
    case Erase(long) => EraseMirrors(c, e, p, long);
    case Read(n, sili) => ReadMirrors(c, e, p, n, sili);
    case Space(code, raw) => SpaceMirrors(c, e, p, code, SignExtend24(raw));
    case Verify(n) => VerifyMirrors(c, e, p, n);
    case SetCapacity(proportion) => SetCapacityMirrors(c, e, p, proportion);
    case Rewind =>
    case Locate(address) =>
    case LoadUnload(load) =>
  }

  ghost predicate AlignedRun(c: Cipher, e: Tape, cmds: seq<Command>)
    decreases |cmds|
  {
    cmds == [] || (Aligned(e, cmds[0]) && AlignedRun(c, Step(c, e, cmds[0]).0, cmds[1..]))
  }

  /** Over a whole aligned run the encrypted drive gives the plaintext drive's responses, bytes
      and sense alike, and the tags below end of data still tile the recorded data. */
  lemma {:induction false} RunMirrors(c: Cipher, e: Tape, p: Tape, cmds: seq<Command>)
    requires Mirrors(c, e, p) && AlignedRun(c, e, cmds)
    ensures Responses(c, e, cmds) == Responses(c, p, cmds)
    ensures Mirrors(c, Run(c, e, cmds), Run(c, p, cmds))
    decreases |cmds|
  {
    if cmds == [] {
    } else {
      StepMirrors(c, e, p, cmds[0]);
      RunMirrors(c, Step(c, e, cmds[0]).0, Step(c, p, cmds[0]).0, cmds[1..]);
    }
  }
}
