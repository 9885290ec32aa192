/** The tape drive as the object the source has: a head position, session settings and the
    mounted cartridge's backing file with its two sidecars, all updated in place
    (internal/scsi/drive.go, internal/scsi/encryption.go). */
module TapeDrive {
  import opened Common
  import opened Filemarks
  import opened TapeState

  class Drive {
    const cipher: Cipher

    // the mounted cartridge
    var mounted: bool
    var writeProtected: bool
    var capacity: nat
    var encrypted: bool
    var file: seq<byte>
    var marks: seq<nat>
    var tags: seq<EncTag>

    // the drive session
    var position: nat
    var limit: nat
    var encryptOn: bool
    var key: Key

    ghost function View(): Tape
      reads this
    {
      Tape(mounted, writeProtected, capacity, encrypted, file, marks, tags, position, limit, encryptOn, key)
    }

    ghost predicate Valid()
      reads this
    {
      Sorted(View())
    }

    constructor (cipher: Cipher, capacity: nat)
      ensures Valid() && this.cipher == cipher
      ensures View() == Tape(true, false, capacity, false, [], [], [], 0, 0, false, [])
    {
      this.cipher := cipher;
      this.capacity := capacity;
      mounted, writeProtected, encrypted := true, false, false;
      file, marks, tags := [], [], [];
      position, limit, encryptOn, key := 0, 0, false, [];
    }

    /** Dispatches one command. */
    method Handle(cmd: Command) returns (r: Response)
      requires Valid()
      modifies this
      ensures Valid()
      ensures (View(), r) == Step(cipher, old(View()), cmd)
    {
      match cmd
      case Rewind =>
        position := 0;
        r := Good([]);
      case LoadUnload(load) => r := LoadUnload(load);
      case Write(n, buffers) => r := Write6(n, buffers);
      case WriteFilemarks(count) => r := WriteFilemarks(count);
      case Read(n, sili) => r := Read6(n, sili);
      case Verify(n) => r := Verify6(n);
      case Space(code, raw) => r := Space6(code, SignExtend24(raw));
      case Locate(address) =>
        if !mounted {
          return Check(MediumNotPresent, []);
        }
        position := address;
        r := Good([]);
      case Erase(long) => r := Erase(long);
      case SetCapacity(proportion) =>
        if !mounted {
          return Check(MediumNotPresent, []);
        }
        limit := if proportion == 0 then 0 else capacity * proportion / 0xFFFF;
        r := Good([]);
      case SetEncryption(on, newKey) =>
        if on && |newKey| != KEY_LENGTH {
          return Check(InvalidField, []);
        }
        encryptOn, key := on, if on then newKey else [];
        r := Good([]);
    }

    method LoadUnload(load: bool) returns (r: Response)
      requires Valid()
      modifies this
      ensures Valid() && (View(), r) == ApplyLoadUnload(old(View()), load)
    {
      if !load {
        return Good([]);
      }
      if !mounted {
        return Check(MediumNotPresent, []);
      }
      position, limit, encryptOn, key := 0, 0, false, [];
      r := Good([]);
    }

    /** Gathers up to `n` bytes from the data-out buffers. */
    static method Gather(n: nat, buffers: seq<seq<byte>>) returns (data: seq<byte>)
      ensures data == DataOut(n, buffers)
    {
      data := [];
      assert buffers[0..] == buffers;
      for i := 0 to |buffers|
        invariant |data| <= n
        invariant DataOut(n, buffers) == data + DataOut(n - |data|, buffers[i..])
      {
        if |data| >= n {
          assert DataOut(0, buffers[i..]) == [];
          return;
        }
        var take := Min(n - |data|, |buffers[i]|);
        assert buffers[i..][1..] == buffers[i + 1..];
        GatherStep(n - |data|, buffers[i..]);
        data := data + buffers[i][..take];
      }
    }

    method Write6(n: nat, buffers: seq<seq<byte>>) returns (r: Response)
      requires Valid()
      modifies this
      ensures Valid() && (View(), r) == ApplyWrite(cipher, old(View()), n, buffers)
    {
      if !mounted {
        return Check(MediumNotPresent, []);
      }
      if writeProtected {
        return Check(DataProtected, []);
      }
      var cap := if limit > 0 then limit else capacity;
      if cap > 0 && position + n > cap {
        return Check(VolumeOverflow, []);
      }
      var data := Gather(n, buffers);
      r := Record(data);
    }

    /** The second half of WRITE: seal if the pass is encrypted, then lay the bytes down. */
    method Record(data: seq<byte>) returns (r: Response)
      requires Valid()
      modifies this
      ensures Valid() && (View(), r) == WriteData(cipher, old(View()), data)
    {
      hide TagsBefore, Ascending, TagsAscending, Truncated, WrittenAt, Invalidated;
      var keyUsable := encryptOn && |key| == KEY_LENGTH;
      if position == 0 && encrypted != keyUsable {
        encrypted := keyUsable;
      }
      if !encrypted {
        LayDown(data);
        return Good([]);
      }
      if !keyUsable {
        return Check(AccessNotAuthorized, []);
      }
      var sealed := cipher.seal(key, position, data);
      SealedTagsAscend(tags, EncTag(position, |sealed.ciphertext|, sealed.tag));
      tags := AppendEncTag(tags, EncTag(position, |sealed.ciphertext|, sealed.tag));
      LayDown(sealed.ciphertext);
      r := Good([]);
    }

    method LayDown(data: seq<byte>)
      requires Valid()
      modifies this
      ensures Valid() && View() == Recording(old(View()), data)
    {
      ghost var written := WrittenAt(file, position, data);
      file := WrittenAt(file, position, data);
      marks := InvalidateFilemarksFrom(marks, position);
      file := TruncateToEOD(file, position + |data|);
      OnlyTruncated(written, position + |data|, file);
      position := position + |data|;
    }

    method WriteFilemarks(count: nat) returns (r: Response)
      requires Valid()
      modifies this
      ensures Valid() && (View(), r) == ApplyWriteFilemarks(old(View()), count)
    {
      if !mounted {
        return Check(MediumNotPresent, []);
      }
      if writeProtected {
        return Check(DataProtected, []);
      }
      if count > 0 {
        file := TruncateToEOD(file, position);
        OnlyTruncated(old(file), position, file);
      }
      ghost var before := marks;
      for i := 0 to count
        invariant Ascending(marks)
        invariant file == if count > 0 then Truncated(old(file), old(position)) else old(file)
        invariant View() == old(View()).(file := file, marks := marks)
        invariant marks == if i == 0 then before else Recorded(before, position)
      {
        if i > 0 {
          RecordTwice(before, position);
        }
        marks := RecordFilemark(marks, position);
      }
      r := Good([]);
    }

    /** The scan both READ and VERIFY make for the first mark strictly ahead. */
    method NextMark(n: nat) returns (readLen: nat, hit: bool)
      requires Valid()
      ensures hit == HitsMark(marks, position, n)
      ensures readLen == ReadLength(marks, position, n)
    {
      readLen, hit := n, false;
      for i := 0 to |marks|
        invariant readLen == n && !hit
        invariant i <= Upto(marks, position)
      {
        if marks[i] > position {
          assert i == Upto(marks, position);
          if marks[i] <= position + n {
            readLen, hit := marks[i] - position, true;
          }
          break;
        }
      }
    }

    method Read6(n: nat, sili: bool) returns (r: Response)
      requires Valid()
      modifies this
      ensures Valid() && (View(), r) == ApplyRead(cipher, old(View()), n, sili)
    {
      hide Decrypt, HitsMark, ReadLength, Ascending, TagsAscending;
      if !mounted {
        return Check(MediumNotPresent, []);
      }
      var readLen, hit := NextMark(n);
      var got;
      if encrypted {
        var plain := DecryptRange(position, readLen);
        if plain.None? {
          return Check(AccessNotAuthorized, []);
        }
        got := plain.value;
        DecryptLength(cipher, key, file, tags, 0, position, position + readLen);
      } else {
        got := Window(file, position, readLen);
      }
      if got == [] && n > 0 && !hit {
        return Check(BlankCheck(None), []);
      }
      position := position + |got|;
      if hit && |got| == readLen {
        return Check(FilemarkDetected(n - |got|), got);
      }
      if |got| < n && !sili {
        return Check(IncorrectLength(n - |got|), got);
      }
      r := Good(got);
    }

    method Verify6(n: nat) returns (r: Response)
      requires Valid()
      modifies this
      ensures Valid() && (View(), r) == ApplyVerify(old(View()), n)
    {
      if !mounted {
        return Check(MediumNotPresent, []);
      }
      var readLen, hit := NextMark(n);
      var available := if |file| <= position then 0 else |file| - position;
      var read := if readLen > available then available else readLen;
      if read == 0 && n > 0 && !hit {
        return Check(BlankCheck(None), []);
      }
      position := position + read;
      if hit && read == readLen {
        return Check(FilemarkDetected(n - read), []);
      }
      if read < n {
        return Check(IncorrectLength(n - read), []);
      }
      r := Good([]);
    }

    method Space6(code: nat, count: int) returns (r: Response)
      requires Valid()
      modifies this
      ensures Valid() && (View(), r) == ApplySpace(old(View()), code, count)
    {
      if !mounted {
        return Check(MediumNotPresent, []);
      }
      match code {
        case 0 =>
          var newPos := position + count;
          if newPos < 0 {
            newPos := 0;
          }
          if newPos > |file| {
            position := |file|;
            return Check(BlankCheck(None), []);
          }
          position := newPos;
        case 1 =>
          if count == 0 {
            return Good([]);
          }
          if count > 0 {
            var newPos, found := FilemarkForward(marks, position, count);
            position := newPos;
            if found < count {
              position := |file|;
              return Check(BlankCheck(Some(count - found)), []);
            }
            return Good([]);
          }
          var newPos, found := FilemarkReverse(marks, position, -count);
          if found < -count {
            newPos := 0;
          }
          position := newPos;
        case 3 =>
          position := |file|;
        case _ =>
          return Check(InvalidField, []);
      }
      r := Good([]);
    }

    method Erase(long: bool) returns (r: Response)
      requires Valid()
      modifies this
      ensures Valid() && (View(), r) == ApplyErase(old(View()), long)
    {
      if !mounted {
        return Check(MediumNotPresent, []);
      }
      if writeProtected {
        return Check(DataProtected, []);
      }
      if long {
        position := 0;
      }
      file := TruncateToEOD(file, position);
      OnlyTruncated(old(file), position, file);
      if long {
        marks, tags := [], [];
      } else {
        TagsBeforeIs(tags, position);
        marks := InvalidateFilemarksFrom(marks, position);
        tags := DropEncTagsFrom(tags, position);
      }
      r := Good([]);
    }

    /** The plaintext of [start, start + length), one authenticated chunk after another. */
    method DecryptRange(start: nat, length: nat) returns (plain: Option<seq<byte>>)
      ensures plain == Decrypt(cipher, key, file, tags, 0, start, start + length)
    {
      hide Ascending, TagsAscending, Prepend;
      if length == 0 {
        return Some([]);
      }
      var end := start + length;
      var pos: nat := start;
      var out: seq<byte> := [];
      PrependNothing(Decrypt(cipher, key, file, tags, 0, start, end));
      for i := 0 to |tags|
        invariant Decrypt(cipher, key, file, tags, 0, start, end)
               == Prepend(out, Decrypt(cipher, key, file, tags, i, pos, end))
      {
        var t := tags[i];
        var chunkEnd := t.start + t.length;
        if pos >= end {
          break;
        }
        if chunkEnd <= pos {
          continue;
        }
        if t.start > pos || |file| < chunkEnd {
          break;
        }
        var unsealed := cipher.open(key, t.start, file[t.start..chunkEnd], t.tag);
        if unsealed.None? {
          PrependEnds(out);
          return None;
        }
        var text := unsealed.value;
        var from := pos - t.start;
        var to := |text|;
        if chunkEnd > end {
          to := end - t.start;
        }
        PrependTwice(out, text[from..to], Decrypt(cipher, key, file, tags, i + 1, t.start + to, end));
        out := out + text[from..to];
        pos := t.start + to;
      }
      PrependEnds(out);
      return Some(out);
    }
  }

  /** End of data only ever shrinks here: what remains is the beginning, as much of it as fits. */
  method TruncateToEOD(file: seq<byte>, eod: nat) returns (out: seq<byte>)
    ensures out <= file && |out| == Min(|file|, eod)
  {
    if |file| <= eod {
      return file;
    }
    out := file[..eod];
  }

  /** Only one beginning has that length. */
  lemma OnlyTruncated(file: seq<byte>, eod: nat, out: seq<byte>)
    requires out <= file && |out| == Min(|file|, eod)
    ensures out == Truncated(file, eod)
  {
  }

  method DropEncTagsFrom(tags: seq<EncTag>, pos: nat) returns (kept: seq<EncTag>)
    ensures kept == TagsBefore(tags, pos)
  {
    hide TagsBefore;
    kept := [];
    assert tags[0..] == tags;
    for i := 0 to |tags|
      invariant TagsBefore(tags, pos) == kept + TagsBefore(tags[i..], pos)
    {
      OneTagBefore(tags, pos, i);
      if tags[i].start < pos {
        kept := kept + [tags[i]];
      }
    }
    assert tags[|tags|..] == [];
    NoTagsBefore(pos);
  }

  lemma OneTagBefore(tags: seq<EncTag>, pos: nat, i: nat)
    requires i < |tags|
    ensures TagsBefore(tags[i..], pos)
         == (if tags[i].start < pos then [tags[i]] else []) + TagsBefore(tags[i + 1..], pos)
  {
    assert tags[i..][1..] == tags[i + 1..];
  }

  lemma NoTagsBefore(pos: nat)
    ensures TagsBefore([], pos) == []
  {
  }

  method AppendEncTag(tags: seq<EncTag>, t: EncTag) returns (out: seq<EncTag>)
    ensures out == TagsBefore(tags, t.start) + [t]
  {
    out := DropEncTagsFrom(tags, t.start);
    out := out + [t];
  }

  lemma SealedTagsAscend(tags: seq<EncTag>, t: EncTag)
    requires TagsAscending(tags)
    ensures TagsAscending(TagsBefore(tags, t.start) + [t])
  {
    TagsBeforeIs(tags, t.start);
  }

  lemma PrependNothing(r: Option<seq<byte>>)
    ensures Prepend([], r) == r
  {
    assert r.Some? ==> [] + r.value == r.value;
  }

  lemma PrependEnds(out: seq<byte>)
    ensures Prepend(out, None) == None && Prepend(out, Some([])) == Some(out)
  {
    assert out + [] == out;
  }

  lemma PrependTwice(a: seq<byte>, b: seq<byte>, r: Option<seq<byte>>)
    ensures Prepend(a, Prepend(b, r)) == Prepend(a + b, r)
  {
    assert r.Some? ==> a + (b + r.value) == a + b + r.value;
  }

  lemma GatherStep(n: nat, buffers: seq<seq<byte>>)
    requires buffers != []
    ensures var take := Min(n, |buffers[0]|);
            DataOut(n, buffers) == buffers[0][..take] + DataOut(n - take, buffers[1..])
  {
    var rest := Flatten(buffers[1..]);
    var take := Min(n, |buffers[0]|);
    assert (buffers[0] + rest)[..Min(n, |buffers[0] + rest|)] == buffers[0][..take] + rest[..Min(n - take, |rest|)];
  }

  /** Two filemarks at one position are stored as one. */
  lemma RecordTwice(marks: seq<nat>, pos: nat)
    requires Ascending(marks)
    ensures Recorded(Recorded(marks, pos), pos) == Recorded(marks, pos)
  {
    var kept := marks[..Below(marks, pos)];
    assert Ascending(kept + [pos]);
    BelowIs(kept + [pos], pos, |kept|);
  }
}
