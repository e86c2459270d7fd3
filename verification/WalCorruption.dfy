/** Which corrupted records the checksum is sure to catch, by the position of the damage. */
module WalCorruption {
  import opened Bytes
  import opened Crc32c
  import opened Wal
  import opened Journals
  import opened CrcLinear
  import opened ChecksumWords

  /** The payload of a command. */
  const COMMAND_PAYLOAD: nat := 72

  /** `bad` is the record with some change in the four bytes from `at` on, its length field intact. */
  ghost predicate Altered(e: LogEntry, bad: seq<byte>, at: nat) {
    && Sealed(e) && bad != EntryBytes(e) && SameOutside(bad, EntryBytes(e), at)
    && bad[18..20] == EntryBytes(e)[18..20]
  }

  ghost predicate AlwaysRefused(at: nat) {
    forall e: LogEntry, bad: seq<byte>, tail: seq<byte> :: Altered(e, bad, at) ==> Refused(bad, tail)
  }

  ghost predicate Refused(bad: seq<byte>, tail: seq<byte>) {
    Records(bad + tail) == Scan([], false)
  }

  /** A window that reaches over the end of the checksum field into the payload. */
  predicate Straddles(at: nat) {
    21 <= at <= 23
  }

  // ----- windows that are caught

  lemma WindowRefused(e: LogEntry, bad: seq<byte>, at: nat, tail: seq<byte>)
    requires Altered(e, bad, at) && at != 17 && !Straddles(at)
    ensures Refused(bad, tail)
  {
    hide Sealed, Records, EntryBytes;
    var good := EntryBytes(e);
    EntryLength(e);
    if at == 18 || at == 19 || at == 20 {
      assert bad[..18] == good[..18] && bad[24..] == good[24..];
      assert bad[..20] == bad[..18] + bad[18..20] && good[..20] == good[..18] + good[18..20];
      assert Body(bad) == Body(good);
    } else {
      assert bad[20..24] == good[20..24];
    }
    CorruptionRefused([], e, bad, at, tail);
    assert EntriesBytes([]) + (bad + tail) == bad + tail;
  }

  lemma EntryLength(e: LogEntry)
    ensures |EntryBytes(e)| >= RECORD_HEADER
  {
  }

  // ----- how two accepted records differ

  /** The stored checksum is the one computed. */
  ghost predicate Accepted(s: seq<byte>) {
    |s| >= RECORD_HEADER && Get(s[18..20]) == |s| - RECORD_HEADER && Get(s[20..24]) == Check(s[..20], s[24..])
  }

  lemma AcceptedWord(s: seq<byte>)
    requires Accepted(s)
    ensures Word(s[20..24]) == Complement(Register(INITIAL_CRC, Body(s)))
  {
    hide Register, Complement, Word, Get, Word32;
    CheckIsOnePass(s[..20], s[24..]);
    WordInt(s[20..24]);
    WordInjective32(Word(s[20..24]), Crc(Body(s), INITIAL_CRC));
  }

  /** The stored checksums of two accepted records differ as their bodies make the register differ:
      `a` and `b` are the different bytes, `t` what follows them in both. */
  lemma AcceptedXor(s: seq<byte>, r: seq<byte>, p: seq<byte>, a: seq<byte>, b: seq<byte>, t: seq<byte>)
    requires Accepted(s) && Accepted(r) && |a| == |b| <= 4
    requires Body(s) == p + (a + t) && Body(r) == p + (b + t)
    ensures Xor(Word(s[20..24]), Word(r[20..24])) == Steps(Xor(Word(a), Word(b)), 8 * (|a| + |t|))
  {
    hide Accepted, Register, Complement, Word, Steps, Xor, Body;
    AcceptedLength(s);
    AcceptedLength(r);
    AcceptedWord(s);
    AcceptedWord(r);
    ComplementXor(Register(INITIAL_CRC, Body(s)), Register(INITIAL_CRC, Body(r)));
    RegisterConcat(INITIAL_CRC, p, a + t);
    RegisterConcat(INITIAL_CRC, p, b + t);
    BurstXor(Register(INITIAL_CRC, p), a, b, t);
  }

  lemma AcceptedLength(s: seq<byte>)
    requires Accepted(s)
    ensures |s| >= RECORD_HEADER
  {
  }

  lemma SealedAccepted(e: LogEntry)
    requires Sealed(e)
    ensures Accepted(EntryBytes(e))
  {
    hide Check, Get, HeaderBytes;
    SealedFields(e);
  }

  /** What is not refused is accepted. */
  lemma AlteredAccepted(e: LogEntry, bad: seq<byte>, at: nat, tail: seq<byte>)
    requires Altered(e, bad, at) && !Refused(bad, tail)
    ensures Accepted(bad)
  {
    hide Check, Get, EntryBytes, Records, Sealed;
    SealedFields(e);
    EntryLength(e);
    if Get(bad[20..24]) != Check(bad[..20], bad[24..]) {
      WrongChecksum(bad, tail);
    }
  }

  // ----- damage of a command record

  /** Two accepted records of command size that differ at most in the four bytes from `at` on, and not
      in the length field. */
  ghost predicate Alike(good: seq<byte>, bad: seq<byte>, at: nat) {
    && Accepted(good) && Accepted(bad) && |good| == 96 && SameOutside(bad, good, at)
    && bad[18..20] == good[18..20]
  }

  lemma TypeParts(good: seq<byte>, bad: seq<byte>)
    requires |good| == 96 && SameOutside(bad, good, 17)
    ensures |bad| == 96 && bad[..17] == good[..17] && bad[24..] == good[24..]
    ensures good[20..24][1..] == bad[20..24][1..]
  {
  }

  lemma TypeBody(good: seq<byte>, bad: seq<byte>)
    requires |good| == |bad| == 96 && bad[..17] == good[..17] && bad[18..20] == good[18..20] && bad[24..] == good[24..]
    ensures var t := good[18..20] + good[24..];
            && |t| == 74 && Body(good) == good[..17] + (good[17..18] + t) && Body(bad) == good[..17] + (bad[17..18] + t)
  {
    assert good[..20] == good[..17] + good[17..18] + good[18..20] && bad[..20] == bad[..17] + bad[17..18] + bad[18..20];
  }

  /** The second byte of the message type and the first of the checksum cannot make up for each other. */
  lemma TypeWindow(good: seq<byte>, bad: seq<byte>)
    requires Alike(good, bad, 17)
    ensures good == bad
  {
    hide Alike, Accepted, Word, Xor, Steps, Sum, Body, SameOutside;
    AlikeParts(good, bad, 17);
    TypeParts(good, bad);
    TypeBody(good, bad);
    var a, b, t := good[17..18], bad[17..18], good[18..20] + good[24..];
    AcceptedXor(good, bad, good[..17], a, b, t);
    FirstByte(good[20..24], bad[20..24]);
    OneByte(a, b);
    var d := Xor(Word(a), Word(b));
    if d == 0 {
      NothingChanged(a, b, good[20..24], bad[20..24], 600);
      Rebuilt(good, bad);
    } else {
      LowImage(d);
      LowLeaves(d);
      assert false;
    }
  }

  lemma AlikeParts(good: seq<byte>, bad: seq<byte>, at: nat)
    requires Alike(good, bad, at)
    ensures Accepted(good) && Accepted(bad) && |good| == |bad| == 96 && SameOutside(bad, good, at)
    ensures bad[18..20] == good[18..20]
  {
    hide Accepted;
  }

  lemma Rebuilt(a: seq<byte>, b: seq<byte>)
    requires |a| == |b| >= 24 && a[..17] == b[..17] && a[17..18] == b[17..18] && a[18..20] == b[18..20]
    requires a[20..24] == b[20..24] && a[24..] == b[24..]
    ensures a == b
  {
    assert a == a[..17] + a[17..18] + a[18..20] + a[20..24] + a[24..];
    assert b == b[..17] + b[17..18] + b[18..20] + b[20..24] + b[24..];
  }

  /** A window that takes in the first `k` payload bytes. */
  lemma StraddlingParts(good: seq<byte>, bad: seq<byte>, k: nat)
    requires 1 <= k <= 3 && |good| == 96 && SameOutside(bad, good, 20 + k)
    ensures |bad| == 96 && bad[..20] == good[..20] && bad[24 + k..] == good[24 + k..]
    ensures good[20..24][..k] == bad[20..24][..k]
  {
    assert forall i :: 20 <= i < 20 + k ==> good[i] == bad[i];
  }

  lemma StraddlingBody(good: seq<byte>, bad: seq<byte>, k: nat)
    requires |good| == |bad| == 96 && 1 <= k <= 3 && bad[..20] == good[..20] && bad[24 + k..] == good[24 + k..]
    ensures var t := good[24 + k..];
            && |t| == 72 - k && Body(good) == good[..20] + (good[24..24 + k] + t)
            && Body(bad) == good[..20] + (bad[24..24 + k] + t)
  {
    assert good[24..] == good[24..24 + k] + good[24 + k..] && bad[24..] == bad[24..24 + k] + bad[24 + k..];
  }

  lemma StraddlingXor(good: seq<byte>, bad: seq<byte>, k: nat)
    requires 1 <= k <= 3 && Alike(good, bad, 20 + k)
    ensures |good| == |bad| == 96 && bad[..20] == good[..20] && bad[24 + k..] == good[24 + k..]
    ensures var x := Xor(Word(good[20..24]), Word(bad[20..24]));
            LowClear(x, k) && x == Steps(Xor(Word(good[24..24 + k]), Word(bad[24..24 + k])), 576)
  {
    hide Alike, Accepted, Word, Xor, Steps, Body, LowClear, SameOutside;
    AlikeParts(good, bad, 20 + k);
    StraddlingParts(good, bad, k);
    StraddlingBody(good, bad, k);
    AcceptedXor(good, bad, good[..20], good[24..24 + k], bad[24..24 + k], good[24 + k..]);
    WordsAgree(good[20..24], bad[20..24], k);
  }

  lemma SameWithin(a: seq<byte>, b: seq<byte>, k: nat)
    requires |a| == |b| >= 24 + k && a[..20] == b[..20] && a[20..24] == b[20..24]
    requires a[24..24 + k] == b[24..24 + k] && a[24 + k..] == b[24 + k..]
    ensures a == b
  {
    assert a == a[..20] + a[20..24] + a[24..24 + k] + a[24 + k..];
    assert b == b[..20] + b[20..24] + b[24..24 + k] + b[24 + k..];
  }

  /** Nor can three bytes of the checksum and one of the payload. */
  lemma OneWindow(good: seq<byte>, bad: seq<byte>)
    requires Alike(good, bad, 21)
    ensures good == bad
  {
    hide Alike, Word, Xor, Steps, Sum, LowClear;
    StraddlingXor(good, bad, 1);
    var a, b := good[24..25], bad[24..25];
    OneByte(a, b);
    var d := Xor(Word(a), Word(b));
    if d == 0 {
      NothingChanged(a, b, good[20..24], bad[20..24], 576);
      SameWithin(good, bad, 1);
    } else {
      LowImage(d);
      LowShows(d);
      NotClear(Sum(d, LOW_72));
      assert false;
    }
  }

  lemma NotClear(x: bv32)
    requires x & 0xFF != 0
    ensures !LowClear(x, 1)
  {
  }

  /** Nor one byte of the checksum and three of the payload. */
  lemma ThreeWindow(good: seq<byte>, bad: seq<byte>)
    requires Alike(good, bad, 23)
    ensures good == bad
  {
    hide Alike, Word, Xor, Steps, Sum, LowClear, Narrow;
    StraddlingXor(good, bad, 3);
    var a, b := good[24..27], bad[24..27];
    var d, x := Xor(Word(a), Word(b)), Xor(Word(good[20..24]), Word(bad[20..24]));
    WordNarrow(a);
    WordNarrow(b);
    NarrowXor(Word(a), Word(b));
    var y := OnlyTop(x);
    TopImage(y);
    StepsInjective(Sum(y, BEFORE_TOP_72), d, 576);
    if y == 0 {
      NoSum();
      NothingChanged(a, b, good[20..24], bad[20..24], 576);
      SameWithin(good, bad, 3);
    } else {
      TopReaches(y);
      assert false;
    }
  }

  lemma NarrowXor(x: bv32, y: bv32)
    requires Narrow(x) && Narrow(y)
    ensures Xor(x, y) < 0x100_0000
  {
  }

  lemma OnlyTop(x: bv32) returns (y: bv32)
    requires LowClear(x, 3)
    ensures y < 0x100 && x == y << 24
  {
    y := x >> 24;
  }

  lemma NoSum()
    ensures Sum(0, BEFORE_TOP_72) == 0
  {
  }

  lemma CommandWindow(e: LogEntry, bad: seq<byte>, at: nat, tail: seq<byte>)
    requires Altered(e, bad, at) && |e.payload| == COMMAND_PAYLOAD && at != 22
    ensures Refused(bad, tail)
  {
    hide Refused, Sealed, Accepted, HeaderBytes;
    if at != 17 && !Straddles(at) {
      WindowRefused(e, bad, at, tail);
    } else if !Refused(bad, tail) {
      var good := EntryBytes(e);
      SealedAccepted(e);
      AlteredAccepted(e, bad, at, tail);
      assert Alike(good, bad, at);
      hide Alike;
      if at == 17 {
        TypeWindow(good, bad);
      } else if at == 21 {
        OneWindow(good, bad);
      } else {
        ThreeWindow(good, bad);
      }
      assert false;
    }
  }

  // ----- windows that are not caught

  /** `q` is `p` with `ds` xored into its first bytes. */
  ghost predicate Flipped(p: seq<byte>, q: seq<byte>, ds: seq<bv32>) {
    && |p| == |q| >= |ds| && p[|ds|..] == q[|ds|..]
    && (forall i :: 0 <= i < |ds| ==> Bits(q[i]) == Xor(Bits(p[i]), ds[i]))
  }

  function WordsOf(ds: seq<bv32>): bv32 {
    if ds == [] then 0 else Joined(ds[0], WordsOf(ds[1..]))
  }

  /** The bytes whose bits are those of `p` with `ds` xored in. */
  ghost function Flip(p: seq<byte>, ds: seq<bv32>): (q: seq<byte>)
    requires |ds| <= |p| && forall i :: 0 <= i < |ds| ==> ds[i] < 0x100
    ensures |q| == |p|
  {
    seq(|p|, i requires 0 <= i < |p| => if i < |ds| then FlippedByte(p[i], ds[i]) else p[i])
  }

  function FlippedByte(b: byte, d: bv32): byte
    requires d < 0x100
  {
    hide Bits, Xor;
    BitsBelow(b);
    XorSmall(Bits(b), d);
    ByteOf(Xor(Bits(b), d))
  }

  lemma FlipIs(p: seq<byte>, ds: seq<bv32>)
    requires |ds| <= |p| && forall i :: 0 <= i < |ds| ==> ds[i] < 0x100
    ensures Flipped(p, Flip(p, ds), ds)
  {
    hide Bits, Xor, ByteOf;
    forall i | 0 <= i < |ds|
      ensures Bits(Flip(p, ds)[i]) == Xor(Bits(p[i]), ds[i])
    {
      BitsBelow(p[i]);
      XorSmall(Bits(p[i]), ds[i]);
      ByteBits(Xor(Bits(p[i]), ds[i]));
    }
  }

  lemma {:induction false} FlippedWord(p: seq<byte>, q: seq<byte>, ds: seq<bv32>)
    requires Flipped(p, q, ds) && |ds| <= 4
    ensures Xor(Word(p[..|ds|]), Word(q[..|ds|])) == WordsOf(ds)
    decreases |ds|
  {
    hide Bits, Xor, Joined;
    var k := |ds|;
    if k == 0 {
      assert p[..0] == [] && q[..0] == [];
      XorSelf(0);
    } else {
      var a, b := p[..k], q[..k];
      assert a[1..] == p[1..][..k - 1] && b[1..] == q[1..][..k - 1];
      FlippedWord(p[1..], q[1..], ds[1..]);
      JoinedXors(Bits(a[0]), Word(a[1..]), Bits(b[0]), Word(b[1..]));
      XorBack(Bits(a[0]), ds[0]);
    }
  }

  lemma XorBack(x: bv32, y: bv32)
    ensures Xor(x, Xor(x, y)) == y
  {
  }

  /** The record with another payload of the same length, sealed again. */
  ghost function Resealed(e: LogEntry, q: seq<byte>): (r: LogEntry)
    requires Sealed(e) && |q| == |e.payload|
    ensures Sealed(r) && r.payload == q && r.header == e.header.(checksum := r.header.checksum)
  {
    var h := e.header;
    Seal(h.sequence, h.timestamp, h.messageType, q)
  }

  lemma ResealedPrefix(e: LogEntry, q: seq<byte>)
    requires Sealed(e) && |q| == |e.payload|
    ensures EntryBytes(Resealed(e, q))[..20] == EntryBytes(e)[..20]
  {
    hide Sealed, HeaderBytes, Pack;
    var r := Resealed(e, q);
    PrefixOnly(e.header);
    PrefixOnly(r.header);
    assert EntryBytes(e)[..20] == HeaderBytes(e.header)[..20] && EntryBytes(r)[..20] == HeaderBytes(r.header)[..20];
  }

  /** If the change of the first `k` payload bytes leaves the `k` lowest bytes of the checksum alone, the
      resealed record is altered only within four bytes, and accepted. */
  lemma Hidden(e: LogEntry, ds: seq<bv32>) returns (bad: seq<byte>)
    requires Sealed(e) && 1 <= |ds| <= 3 && |ds| <= |e.payload| && (forall i :: 0 <= i < |ds| ==> ds[i] < 0x100)
    requires WordsOf(ds) != 0 && LowClear(Steps(WordsOf(ds), 8 * |e.payload|), |ds|)
    ensures Altered(e, bad, 20 + |ds|) && !Refused(bad, [])
  {
    hide Sealed, Accepted, Word, WordsOf, Xor, Steps, Body, LowClear, HeaderBytes, Flip, Flipped, Refused;
    var k, p := |ds|, e.payload;
    var q := Flip(p, ds);
    FlipIs(p, ds);
    FlippedTail(p, q, ds);
    FlippedWord(p, q, ds);
    var r := Resealed(e, q);
    bad := EntryBytes(r);
    var good := EntryBytes(e);
    SealedAccepted(e);
    SealedAccepted(r);
    ResealedPrefix(e, q);
    PayloadBody(good, good[..20], p, k);
    PayloadBody(bad, good[..20], q, k);
    AcceptedXor(good, bad, good[..20], p[..k], q[..k], p[k..]);
    WordsAgree(good[20..24], bad[20..24], k);
    if p == q {
      XorSelf(Word(p[..k]));
      assert false;
    }
    SameBut(good, bad, k);
    NotRefused(r);
  }

  lemma FlippedTail(p: seq<byte>, q: seq<byte>, ds: seq<bv32>)
    requires Flipped(p, q, ds)
    ensures |p| == |q| && p[|ds|..] == q[|ds|..]
  {
  }

  lemma PayloadBody(s: seq<byte>, head: seq<byte>, p: seq<byte>, k: nat)
    requires |s| == 24 + |p| && s[..20] == head && s[24..] == p && k <= |p|
    ensures Body(s) == head + (p[..k] + p[k..])
  {
  }

  lemma SameBut(good: seq<byte>, bad: seq<byte>, k: nat)
    requires |good| == |bad| >= 24 + k && 1 <= k <= 3 && good[..20] == bad[..20]
    requires good[20..24][..k] == bad[20..24][..k] && good[24..][k..] == bad[24..][k..]
    ensures SameOutside(bad, good, 20 + k) && bad[18..20] == good[18..20]
  {
    forall i | 0 <= i < |bad| && (i < 20 + k || 24 + k <= i)
      ensures bad[i] == good[i]
    {
      if i < 20 {
        assert good[..20][i] == bad[..20][i];
      } else if i < 20 + k {
        assert good[20..24][..k][i - 20] == bad[20..24][..k][i - 20];
      } else {
        assert good[24..][k..][i - 24 - k] == bad[24..][k..][i - 24 - k];
      }
    }
    assert good[18..20] == good[..20][18..20];
  }

  lemma NotRefused(e: LogEntry)
    requires Sealed(e)
    ensures !Refused(EntryBytes(e), [])
  {
    hide Records, Sealed, EntryBytes;
    RecordRead(e, []);
  }

  /** Every record of one payload byte can be damaged in that byte and three of the checksum unnoticed. */
  lemma StraddlingOne(e: LogEntry) returns (bad: seq<byte>)
    requires Sealed(e) && |e.payload| == 1
    ensures Altered(e, bad, 21) && !Refused(bad, [])
  {
    hide Altered, Refused, Sealed, Steps;
    OneHides();
    bad := Hidden(e, [0x5D]);
  }

  lemma OneHides()
    ensures WordsOf([0x5D]) == 0x5D && LowClear(Steps(0x5D, 8), 1)
  {
    hide Steps;
    EightIs(0x5D);
    assert Eight(0x5D) == 0xEE0D_9600;
    JoinedZero(0x5D);
  }

  /** Every record of two payload bytes in both and two of the checksum. */
  lemma StraddlingTwo(e: LogEntry) returns (bad: seq<byte>)
    requires Sealed(e) && |e.payload| == 2
    ensures Altered(e, bad, 22) && !Refused(bad, [])
  {
    hide Altered, Refused, Sealed, Steps;
    TwoHide();
    bad := Hidden(e, [0x4D, 0x90]);
  }

  lemma TwoHide()
    ensures WordsOf([0x4D, 0x90]) == 0x904D && LowClear(Steps(0x904D, 16), 2)
  {
    hide Steps;
    EightIs(0x904D);
    TwiceEight(0x904D, 8);
    assert Eight(Eight(0x904D)) == 0xAD83_0000;
    PairWord(0x4D, 0x90);
  }

  lemma PairWord(x: bv32, y: bv32)
    ensures WordsOf([x, y]) == Joined(x, y)
  {
    hide Joined;
    assert [x, y][1..] == [y] && [y][1..] == [];
    assert WordsOf([y]) == Joined(y, 0);
    JoinedZero(y);
  }

  /** Every record of four payload bytes in three of them and one of the checksum. */
  lemma StraddlingThree(e: LogEntry) returns (bad: seq<byte>)
    requires Sealed(e) && |e.payload| == 4
    ensures Altered(e, bad, 23) && !Refused(bad, [])
  {
    hide Altered, Refused, Sealed, Steps;
    ThreeHide();
    bad := Hidden(e, [0xC1, 0xE0, 2]);
  }

  lemma ThreeHide()
    ensures WordsOf([0xC1, 0xE0, 2]) == 0x2_E0C1 && LowClear(Steps(0x2_E0C1, 32), 3)
  {
    hide Steps, WordsOf;
    EightIs(0x2_E0C1);
    TwiceEight(0x2_E0C1, 8);
    TwiceEight(0x2_E0C1, 16);
    TwiceEight(0x2_E0C1, 24);
    assert Eight(Eight(Eight(Eight(0x2_E0C1)))) == 0xAE00_0000;
    ThreeWord();
  }

  lemma ThreeWord()
    ensures WordsOf([0xC1, 0xE0, 2]) == 0x2_E0C1
  {
    PairWord(0xE0, 2);
    assert [0xC1, 0xE0, 2][1..] == [0xE0, 2];
  }

  /** And every record of command size in its first two payload bytes and two of the checksum. */
  lemma StraddlingCommand(e: LogEntry) returns (bad: seq<byte>)
    requires Sealed(e) && |e.payload| == COMMAND_PAYLOAD
    ensures Altered(e, bad, 22) && !Refused(bad, [])
  {
    hide Altered, Refused, Sealed, Steps;
    PairHides();
    PairWord(0xD8, 0xF1);
    bad := Hidden(e, [0xD8, 0xF1]);
  }

  // ----- exactly which

  /** Damage within four consecutive bytes that leaves the length field intact is always refused exactly
      when the window does not reach from the checksum field into the payload. */
  lemma AlwaysRefusedIff(at: nat)
    requires at != 17
    ensures AlwaysRefused(at) <==> !Straddles(at)
  {
    hide Altered, Refused, Sealed;
    if !Straddles(at) {
      forall e: LogEntry, bad: seq<byte>, tail: seq<byte> | Altered(e, bad, at)
        ensures Refused(bad, tail)
      {
        WindowRefused(e, bad, at, tail);
      }
    } else {
      hide AlwaysRefused;
      NotAlways(at);
    }
  }

  lemma NotAlways(at: nat)
    requires Straddles(at)
    ensures !AlwaysRefused(at)
  {
    hide Altered, Refused, Sealed, Seal;
    if at == 21 {
      var e := Seal(0, 0, 0, [0]);
      var bad := StraddlingOne(e);
    } else if at == 22 {
      var e := Seal(0, 0, 0, [0, 0]);
      var bad := StraddlingTwo(e);
    } else {
      var e := Seal(0, 0, 0, [0, 0, 0, 0]);
      var bad := StraddlingThree(e);
    }
  }

  /** On records of command size, every change in the window is refused. */
  ghost predicate CommandsRefused(at: nat) {
    forall e: LogEntry, bad: seq<byte>, tail: seq<byte> ::
      Altered(e, bad, at) && |e.payload| == COMMAND_PAYLOAD ==> Refused(bad, tail)
  }

  /** For records of command size only one window lets damage through: two bytes of the checksum and two
      of the payload. */
  lemma CommandsRefusedIff(at: nat)
    ensures CommandsRefused(at) <==> at != 22
  {
    hide Altered, Refused, Sealed;
    if at != 22 {
      forall e: LogEntry, bad: seq<byte>, tail: seq<byte> | Altered(e, bad, at) && |e.payload| == COMMAND_PAYLOAD
        ensures Refused(bad, tail)
      {
        CommandWindow(e, bad, at, tail);
      }
    } else {
      var bad := StraddlingCommand(Seal(0, 0, 0, seq(COMMAND_PAYLOAD, _ => 0)));
    }
  }
}
