/** Nonces: the offset of a chunk makes its nonce, so where a drive seals decides whether a key ever
    uses one twice (internal/scsi/encryption.go:100-157; NIST SP 800-38D, section 8). */
module Nonces {
  import opened Common
  import opened TapeState
  import opened EncryptedTape

  // ---- on the tape

  /** The 12-byte nonce of a chunk: four zero bytes, then its offset as eight big-endian bytes. */
  function Nonce(pos: nat): (b: seq<byte>)
    requires pos < 0x1_0000_0000_0000_0000
    ensures |b| == 12
  {
    [0, 0, 0, 0] + BigEndian(pos, 8)
  }

  function BigEndian(n: nat, width: nat): (b: seq<byte>)
    ensures |b| == width
  {
    if width == 0 then [] else BigEndian(n / 0x100, width - 1) + [(n % 0x100) as byte]
  }

  function Power256(width: nat): (p: nat)
    ensures p > 0
  {
    if width == 0 then 1 else 0x100 * Power256(width - 1)
  }

  lemma {:induction false} BigEndianInjective(a: nat, b: nat, width: nat)
    requires a < Power256(width) && b < Power256(width)
    requires BigEndian(a, width) == BigEndian(b, width)
    ensures a == b
  {
    if width == 0 {
    } else {
      var x, y := BigEndian(a / 0x100, width - 1), BigEndian(b / 0x100, width - 1);
      assert BigEndian(a, width)[..width - 1] == x && BigEndian(b, width)[..width - 1] == y;
      assert BigEndian(a, width)[width - 1] == BigEndian(b, width)[width - 1];
      BigEndianInjective(a / 0x100, b / 0x100, width - 1);
    }
  }

  /** The number that bytes spell, most significant first. */
  function Spelled(b: seq<byte>): nat {
    if b == [] then 0 else 0x100 * Spelled(b[..|b| - 1]) + b[|b| - 1] as nat
  }

  lemma {:induction false} BigEndianSpells(n: nat, width: nat)
    requires n < Power256(width)
    ensures Spelled(BigEndian(n, width)) == n
  {
    if width > 0 {
      BigEndianSpells(n / 0x100, width - 1);
      var b := BigEndian(n, width);
      assert b[..width - 1] == BigEndian(n / 0x100, width - 1);
    }
  }

  /** A nonce is four zero bytes and the chunk's offset, most significant byte first. */
  lemma NonceSpells(pos: nat)
    requires pos < 0x1_0000_0000_0000_0000
    ensures Nonce(pos)[..4] == [0, 0, 0, 0] && Spelled(Nonce(pos)[4..]) == pos
  {
    assert Nonce(pos)[4..] == BigEndian(pos, 8);
    assert Power256(8) == 0x1_0000_0000_0000_0000 by {
      assert Power256(4) == 0x1_0000_0000;
    }
    BigEndianSpells(pos, 8);
  }

  lemma NonceIs(a: nat, b: nat)
    requires a < 0x1_0000_0000_0000_0000 && b < 0x1_0000_0000_0000_0000
    ensures Nonce(a) == Nonce(b) <==> a == b
  {
    if Nonce(a) == Nonce(b) {
      assert Nonce(a)[4..] == BigEndian(a, 8) && Nonce(b)[4..] == BigEndian(b, 8);
      assert Power256(8) == 0x1_0000_0000_0000_0000 by {
        assert Power256(4) == 0x1_0000_0000;
      }
      BigEndianInjective(a, b, 8);
    }
  }

  /** Whatever commands have been run, no two chunks recorded on the tape share a nonce. */
  lemma NoncesDistinct(c: Cipher, t: Tape, cmds: seq<Command>, i: nat, j: nat)
    requires Sorted(t) && i < j < |Run(c, t, cmds).tags|
    requires Run(c, t, cmds).tags[i].start < 0x1_0000_0000_0000_0000
    requires Run(c, t, cmds).tags[j].start < 0x1_0000_0000_0000_0000
    ensures Nonce(Run(c, t, cmds).tags[i].start) != Nonce(Run(c, t, cmds).tags[j].start)
  {
    RunKeepsSorted(c, t, cmds);
    NonceIs(Run(c, t, cmds).tags[i].start, Run(c, t, cmds).tags[j].start);
  }

  // ---- over time

  datatype Sealing = Sealing(key: Key, start: nat)

  /** The key and offset a command seals a chunk under, if it does. */
  function SealedBy(c: Cipher, t: Tape, cmd: Command): seq<Sealing> {
    if cmd.Write? && Step(c, t, cmd).1.Good? && Step(c, t, cmd).0.encrypted then [Sealing(t.key, t.position)] else []
  }

  /** Everything a run seals, in order, whether it stays on the tape or not. */
  function Sealings(c: Cipher, t: Tape, cmds: seq<Command>): seq<Sealing>
    decreases |cmds|
  {
    if cmds == [] then [] else SealedBy(c, t, cmds[0]) + Sealings(c, Step(c, t, cmds[0]).0, cmds[1..])
  }

  /** Recording goes on at end of data only, and nothing recorded is cut off. */
  predicate Appends(t: Tape, cmd: Command) {
    match cmd
    case Write(n, buffers) => t.position == Eod(t) && DataOut(n, buffers) != []
    case WriteFilemarks(count) => count > 0 ==> t.position == Eod(t)
    case Erase(long) => !long && t.position == Eod(t)
    case _ => true
  }

  ghost predicate AppendsOnly(c: Cipher, t: Tape, cmds: seq<Command>)
    decreases |cmds|
  {
    cmds == [] || (Appends(t, cmds[0]) && AppendsOnly(c, Step(c, t, cmds[0]).0, cmds[1..]))
  }

  lemma AppendingGrows(c: Cipher, t: Tape, cmd: Command)
    requires Appends(t, cmd)
    ensures Eod(t) + |SealedBy(c, t, cmd)| <= Eod(Step(c, t, cmd).0)
  {
    if OnlyMoves(cmd) {
      MovingKeepsRecording(c, t, cmd);
    } else if cmd.Write? {
      var data := DataOut(cmd.n, cmd.buffers);
      RecordingLength(t, data);
      RecordingLength(t, c.seal(t.key, t.position, data).ciphertext);
    }
  }

  /** A run that only appends never seals twice under one nonce, whatever keys it uses. */
  lemma {:induction false} AppendingSealsAfresh(c: Cipher, t: Tape, cmds: seq<Command>)
    requires AppendsOnly(c, t, cmds)
    ensures forall i :: 0 <= i < |Sealings(c, t, cmds)| ==> Eod(t) <= Sealings(c, t, cmds)[i].start
    ensures forall i, j :: 0 <= i < j < |Sealings(c, t, cmds)| ==>
            Sealings(c, t, cmds)[i].start < Sealings(c, t, cmds)[j].start
    decreases |cmds|
  {
    hide Step, Appends, Eod;
    if cmds != [] {
      AppendingGrows(c, t, cmds[0]);
      AppendingStart(c, t, cmds[0]);
      AppendingSealsAfresh(c, Step(c, t, cmds[0]).0, cmds[1..]);
    }
  }

  lemma AppendingStart(c: Cipher, t: Tape, cmd: Command)
    requires Appends(t, cmd)
    ensures |SealedBy(c, t, cmd)| <= 1
    ensures forall s :: s in SealedBy(c, t, cmd) ==> s.start == Eod(t)
  {
    hide Step;
  }

  /** Ready to seal at the beginning of the medium. */
  ghost predicate CanSeal(t: Tape, data: seq<byte>) {
    && t.mounted && !t.writeProtected && t.position == 0 && EncryptionActive(t)
    && (EffectiveCapacity(t) > 0 ==> |data| <= EffectiveCapacity(t))
  }

  lemma WriteSeals(c: Cipher, t: Tape, data: seq<byte>, more: seq<byte>)
    requires CanSeal(t, data)
    ensures var cmd := Write(|data|, [data]);
            && SealedBy(c, t, cmd) == [Sealing(t.key, 0)]
            && Step(c, t, cmd).0.key == t.key
            && (CanSeal(t, more) ==> CanSeal(Step(c, Step(c, t, cmd).0, Rewind).0, more))
  {
    hide DataOut, Recording;
    RecordingSession(t.(encrypted := true), c.seal(t.key, 0, DataOut(|data|, [data])).ciphertext);
  }

  lemma RecordingSession(t: Tape, data: seq<byte>)
    ensures var u := Recording(t, data); u == t.(file := u.file, marks := u.marks, position := u.position)
  {
  }

  /** Rewriting from the beginning of the medium under one key seals new data under a nonce that key has
      already used: the offset alone makes the nonce. */
  lemma RewritingReusesNonce(c: Cipher, t: Tape, first: seq<byte>, second: seq<byte>)
    requires CanSeal(t, first) && CanSeal(t, second)
    ensures Sealings(c, t, [Write(|first|, [first]), Rewind, Write(|second|, [second])])
            == [Sealing(t.key, 0), Sealing(t.key, 0)]
  {
    hide Step, SealedBy, CanSeal;
    var a, b := Write(|first|, [first]), Write(|second|, [second]);
    WriteSeals(c, t, first, second);
    var t1 := Step(c, t, a).0;
    var t2 := Step(c, t1, Rewind).0;
    RewindSealsNothing(c, t1);
    WriteSeals(c, t2, second, second);
    SealingsCons(c, t, a, [Rewind, b]);
    SealingsCons(c, t1, Rewind, [b]);
    SealingsCons(c, t2, b, []);
    assert [a] + ([Rewind] + ([b] + [])) == [a, Rewind, b] && [Rewind] + ([b] + []) == [Rewind, b] && [b] + [] == [b];
  }

  lemma RewindSealsNothing(c: Cipher, t: Tape)
    ensures SealedBy(c, t, Rewind) == [] && Step(c, t, Rewind).0.key == t.key
  {
  }

  lemma SealingsCons(c: Cipher, t: Tape, cmd: Command, rest: seq<Command>)
    ensures Sealings(c, t, [cmd] + rest) == SealedBy(c, t, cmd) + Sealings(c, Step(c, t, cmd).0, rest)
  {
    assert ([cmd] + rest)[1..] == rest;
  }

  // ---- exactly when no nonce is used twice

  function Starts(tags: seq<EncTag>): set<nat> {
    set i | 0 <= i < |tags| :: tags[i].start
  }

  /** The chunks recorded below end of data. */
  function RecordedChunks(t: Tape): seq<EncTag> {
    TagsBefore(t.tags, Eod(t))
  }

  /** The first offset beyond the start of every recorded chunk. */
  function Frontier(t: Tape): nat {
    var chunks := RecordedChunks(t);
    if chunks == [] then 0 else chunks[|chunks| - 1].start + 1
  }

  /** Each WRITE that seals finds the head beyond the start of every chunk sealed before it. */
  ghost predicate SealsBeyond(c: Cipher, t: Tape, cmds: seq<Command>, frontier: nat)
    decreases |cmds|
  {
    cmds == [] ||
    var seals := SealedBy(c, t, cmds[0]) != [];
    && (seals ==> frontier <= t.position)
    && SealsBeyond(c, Step(c, t, cmds[0]).0, cmds[1..], if seals then t.position + 1 else frontier)
  }

  /** No offset is sealed at twice, nor is one of those already used. */
  ghost predicate SealsAfresh(s: seq<Sealing>, used: set<nat>) {
    && (forall i :: 0 <= i < |s| ==> s[i].start !in used)
    && (forall i, j :: 0 <= i < j < |s| ==> s[i].start != s[j].start)
  }

  /** At a chunk boundary, a pass can only be at an offset used before or at an end of data beyond them all. */
  ghost predicate InPass(t: Tape, used: set<nat>, frontier: nat) {
    && t.encrypted && EncryptionActive(t) && TagsAscending(t.tags)
    && (forall i :: 0 <= i < |t.tags| && t.tags[i].start < Eod(t) ==> t.tags[i].start in used)
    && (forall u :: u in used ==> u < frontier)
    && (Eod(t) in used || frontier <= Eod(t))
    && (0 in used || (frontier == 0 && t.file == []))
  }

  lemma BoundaryIsUsedOrBeyond(t: Tape, used: set<nat>, frontier: nat)
    requires InPass(t, used, frontier) && AtBoundary(t.file, t.tags, t.position)
    ensures t.position in used || (t.position == Eod(t) && frontier <= t.position)
  {
  }

  /** Sealing at end of data, beyond everything before. */
  lemma SealingKeepsPass(c: Cipher, t: Tape, used: set<nat>, frontier: nat, data: seq<byte>)
    requires InPass(t, used, frontier) && t.position == Eod(t) && frontier <= t.position
    ensures InPass(WriteData(c, t, data).0, used + {t.position}, t.position + 1)
    ensures WriteData(c, t, data).0.key == t.key
  {
    TagsBeforeIs(t.tags, t.position);
    RecordingLength(t, c.seal(t.key, t.position, data).ciphertext);
  }

  /** Cutting the tape at a boundary, with or without the tags beyond. */
  lemma CuttingKeepsPass(t: Tape, u: Tape, used: set<nat>, frontier: nat)
    requires InPass(t, used, frontier) && AtBoundary(t.file, t.tags, t.position)
    requires u.encrypted && EncryptionActive(u) && TagsAscending(u.tags)
    requires u.tags == t.tags || u.tags == TagsBefore(t.tags, t.position)
    requires u.file == Truncated(t.file, t.position)
    ensures InPass(u, used, frontier)
  {
    TagsBeforeIs(t.tags, t.position);
    BoundaryIsUsedOrBeyond(t, used, frontier);
  }

  lemma WipingKeepsPass(t: Tape, u: Tape, used: set<nat>, frontier: nat)
    requires InPass(t, used, frontier) && u.encrypted && EncryptionActive(u) && u.tags == [] && u.file == []
    ensures InPass(u, used, frontier)
  {
  }

  lemma SameRecordingKeepsPass(t: Tape, u: Tape, used: set<nat>, frontier: nat)
    requires InPass(t, used, frontier) && u.file == t.file && u.tags == t.tags
    requires u.encrypted == t.encrypted && u.encryptOn == t.encryptOn && u.key == t.key
    ensures InPass(u, used, frontier)
  {
  }

  /** Commands that do not seal keep the pass. */
  lemma QuietStepKeepsPass(c: Cipher, t: Tape, used: set<nat>, frontier: nat, cmd: Command)
    requires InPass(t, used, frontier) && Aligned(t, cmd) && !cmd.Write?
    ensures InPass(Step(c, t, cmd).0, used, frontier) && Step(c, t, cmd).0.key == t.key && SealedBy(c, t, cmd) == []
  {
    hide InPass, AtBoundary;
    var u := Step(c, t, cmd).0;
    if OnlyMoves(cmd) {
      MovingKeepsRecording(c, t, cmd);
      SameRecordingKeepsPass(t, u, used, frontier);
    } else {
      PassIsActive(t, used, frontier);
      match cmd {
        case WriteFilemarks(count) =>
          if u == t { SameRecordingKeepsPass(t, u, used, frontier); } else { CuttingKeepsPass(t, u, used, frontier); }
        case Erase(long) =>
          if u == t {
            SameRecordingKeepsPass(t, u, used, frontier);
          } else if long {
            WipingKeepsPass(t, u, used, frontier);
          } else {
            TagsBeforeIs(t.tags, t.position);
            CuttingKeepsPass(t, u, used, frontier);
          }
        case _ => SameRecordingKeepsPass(t, u, used, frontier);
      }
    }
  }

  lemma PassIsActive(t: Tape, used: set<nat>, frontier: nat)
    requires InPass(t, used, frontier)
    ensures t.encrypted && EncryptionActive(t) && TagsAscending(t.tags)
  {
  }

  /** A WRITE seals at the head, or does nothing. */
  lemma WriteInPass(c: Cipher, t: Tape, used: set<nat>, frontier: nat, cmd: Command)
    requires InPass(t, used, frontier) && cmd.Write?
    ensures SealedBy(c, t, cmd) == [] ==> Step(c, t, cmd).0 == t
    ensures SealedBy(c, t, cmd) != [] ==>
              SealedBy(c, t, cmd) == [Sealing(t.key, t.position)]
              && Step(c, t, cmd).0 == WriteData(c, t, DataOut(cmd.n, cmd.buffers)).0
  {
    hide DataOut, Recording, TagsBefore, InPass;
    PassIsActive(t, used, frontier);
    RecordingSession(t, c.seal(t.key, t.position, DataOut(cmd.n, cmd.buffers)).ciphertext);
    assert t.(encrypted := true) == t;
  }

  lemma AfreshCons(start: nat, key: Key, rest: seq<Sealing>, used: set<nat>)
    ensures SealsAfresh([Sealing(key, start)] + rest, used) <==> start !in used && SealsAfresh(rest, used + {start})
  {
    var all := [Sealing(key, start)] + rest;
    if SealsAfresh(all, used) {
      assert all[0].start == start;
      forall i | 0 <= i < |rest| ensures rest[i].start !in used + {start} {
        assert all[i + 1] == rest[i];
      }
      forall i, j | 0 <= i < j < |rest| ensures rest[i].start != rest[j].start {
        assert all[i + 1] == rest[i] && all[j + 1] == rest[j];
      }
    }
  }

  /** A WRITE in the pass: at a used offset it breaks the promise, anywhere else it keeps the pass. */
  lemma WriteDecides(c: Cipher, t: Tape, used: set<nat>, frontier: nat, cmd: Command)
    requires InPass(t, used, frontier) && Aligned(t, cmd) && cmd.Write? && SealedBy(c, t, cmd) != []
    ensures t.position in used <==> t.position < frontier
    ensures t.position !in used ==>
              InPass(Step(c, t, cmd).0, used + {t.position}, t.position + 1) && Step(c, t, cmd).0.key == t.key
  {
    hide Step, WriteData;
    WriteInPass(c, t, used, frontier, cmd);
    BoundaryIsUsedOrBeyond(t, used, frontier);
    if t.position !in used {
      SealingKeepsPass(c, t, used, frontier, DataOut(cmd.n, cmd.buffers));
    }
  }

  lemma {:induction false} PassSealsAfresh(c: Cipher, t: Tape, cmds: seq<Command>, used: set<nat>, frontier: nat)
    requires InPass(t, used, frontier) && AlignedRun(c, t, cmds)
    ensures SealsAfresh(Sealings(c, t, cmds), used) <==> SealsBeyond(c, t, cmds, frontier)
    decreases |cmds|
  {
    hide Step, InPass, SealedBy, SealsAfresh, Aligned;
    if cmds == [] {
      NothingIsAfresh(used);
    } else {
      var cmd, u, rest := cmds[0], Step(c, t, cmds[0]).0, cmds[1..];
      if !cmd.Write? {
        QuietStepKeepsPass(c, t, used, frontier, cmd);
        PassSealsAfresh(c, u, rest, used, frontier);
        assert [] + Sealings(c, u, rest) == Sealings(c, u, rest);
      } else if SealedBy(c, t, cmd) == [] {
        WriteInPass(c, t, used, frontier, cmd);
        PassSealsAfresh(c, u, rest, used, frontier);
        assert [] + Sealings(c, u, rest) == Sealings(c, u, rest);
      } else {
        WriteInPass(c, t, used, frontier, cmd);
        WriteDecides(c, t, used, frontier, cmd);
        AfreshCons(t.position, t.key, Sealings(c, u, rest), used);
        if t.position !in used {
          PassSealsAfresh(c, u, rest, used + {t.position}, t.position + 1);
        }
      }
    }
  }

  lemma NothingIsAfresh(used: set<nat>)
    ensures SealsAfresh([], used)
  {
  }

  /** All of a pass is sealed under one key. */
  lemma {:induction false} PassKeepsKey(c: Cipher, t: Tape, cmds: seq<Command>)
    requires AlignedRun(c, t, cmds)
    ensures forall i :: 0 <= i < |Sealings(c, t, cmds)| ==> Sealings(c, t, cmds)[i].key == t.key
    decreases |cmds|
  {
    hide Step, SealedBy, Aligned;
    if cmds != [] {
      AlignedKeepsKey(c, t, cmds[0]);
      PassKeepsKey(c, Step(c, t, cmds[0]).0, cmds[1..]);
    }
  }

  lemma AlignedKeepsKey(c: Cipher, t: Tape, cmd: Command)
    requires Aligned(t, cmd)
    ensures Step(c, t, cmd).0.key == t.key
    ensures forall s :: s in SealedBy(c, t, cmd) ==> s.key == t.key
  {
    hide Recording, DataOut, TagsBefore;
    if OnlyMoves(cmd) {
      MovingKeepsRecording(c, t, cmd);
    } else if cmd.Write? {
      var data := DataOut(cmd.n, cmd.buffers);
      RecordingSession(t, data);
      RecordingSession(t.(encrypted := true), data);
      RecordingSession(t.(encrypted := true), c.seal(t.key, t.position, data).ciphertext);
      RecordingSession(t, c.seal(t.key, t.position, data).ciphertext);
      RecordingSession(t.(encrypted := false), data);
    }
  }

  /** The starts of these sealings go up from `frontier`. */
  ghost predicate Ascends(s: seq<Sealing>, frontier: nat) {
    && (forall i :: 0 <= i < |s| ==> frontier <= s[i].start)
    && (forall i, j :: 0 <= i < j < |s| ==> s[i].start < s[j].start)
  }

  lemma AscendsCons(start: nat, key: Key, rest: seq<Sealing>, frontier: nat)
    ensures Ascends([Sealing(key, start)] + rest, frontier) <==> frontier <= start && Ascends(rest, start + 1)
  {
    var all := [Sealing(key, start)] + rest;
    if Ascends(all, frontier) {
      assert all[0].start == start;
      forall i | 0 <= i < |rest| ensures start < rest[i].start {
        assert all[i + 1] == rest[i];
      }
      forall i, j | 0 <= i < j < |rest| ensures rest[i].start < rest[j].start {
        assert all[i + 1] == rest[i] && all[j + 1] == rest[j];
      }
    }
  }

  lemma {:induction false} BeyondIsAscending(c: Cipher, t: Tape, cmds: seq<Command>, frontier: nat)
    ensures SealsBeyond(c, t, cmds, frontier) <==> Ascends(Sealings(c, t, cmds), frontier)
    decreases |cmds|
  {
    hide Step, Ascends;
    if cmds == [] {
      NothingAscends(frontier);
    } else {
      var u, rest := Step(c, t, cmds[0]).0, cmds[1..];
      if SealedBy(c, t, cmds[0]) == [] {
        BeyondIsAscending(c, u, rest, frontier);
        assert [] + Sealings(c, u, rest) == Sealings(c, u, rest);
      } else {
        BeyondIsAscending(c, u, rest, t.position + 1);
        AscendsCons(t.position, t.key, Sealings(c, u, rest), frontier);
      }
    }
  }

  lemma NothingAscends(frontier: nat)
    ensures Ascends([], frontier)
  {
  }

  lemma TapeIsInPass(c: Cipher, t: Tape, text: seq<byte>)
    requires t.encrypted && EncryptionActive(t) && Tiles(c, t.key, t.file, t.tags, text)
    ensures InPass(t, Starts(RecordedChunks(t)), Frontier(t))
  {
    TagsBeforeIs(t.tags, Eod(t));
    var chunks := RecordedChunks(t);
    forall i | 0 <= i < |t.tags| && t.tags[i].start < Eod(t) ensures t.tags[i].start in Starts(chunks) {
      assert chunks[i] == t.tags[i];
    }
    forall u | u in Starts(chunks) ensures u < Frontier(t) {
      var i :| 0 <= i < |chunks| && chunks[i].start == u;
      assert i < |chunks| - 1 ==> chunks[i].start < chunks[|chunks| - 1].start;
    }
    if t.file != [] {
      assert t.tags[0].start == 0;
    } else {
      assert chunks == [];
    }
    assert chunks != [] ==> chunks[|chunks| - 1].start < Eod(t);
  }

  /** Exactly when a key's promise is kept over time. Go on with a pass under one key, from a blank medium
      or from what it has recorded so far, with every recording at a chunk boundary or at end of data. All
      sealing is under that key, and no offset, so no nonce, is used twice or taken from a chunk on the
      tape exactly when every WRITE that seals finds the head beyond the start of all chunks sealed before
      it: what is rewritten is what reuses. */
  lemma NoncesFreshExactlyBeyond(c: Cipher, t: Tape, text: seq<byte>, cmds: seq<Command>)
    requires t.encrypted && EncryptionActive(t) && Tiles(c, t.key, t.file, t.tags, text) && AlignedRun(c, t, cmds)
    ensures forall i :: 0 <= i < |Sealings(c, t, cmds)| ==> Sealings(c, t, cmds)[i].key == t.key
    ensures SealsAfresh(Sealings(c, t, cmds), Starts(RecordedChunks(t))) <==> SealsBeyond(c, t, cmds, Frontier(t))
    ensures SealsBeyond(c, t, cmds, Frontier(t)) <==> Ascends(Sealings(c, t, cmds), Frontier(t))
  {
    BeyondIsAscending(c, t, cmds, Frontier(t));
    hide InPass, Frontier, Tiles;
    PassKeepsKey(c, t, cmds);
    TapeIsInPass(c, t, text);
    PassSealsAfresh(c, t, cmds, Starts(RecordedChunks(t)), Frontier(t));
  }
}
