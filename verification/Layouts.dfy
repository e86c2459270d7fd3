/** The bytes on disk and on the wire, offset by offset, and the checksum's published check value. */
module Layouts {
  import opened Domain
  import opened Bytes
  import opened Crc32c
  import opened CrcLinear
  import opened ChecksumWords
  import opened Wal
  import opened BookSpec
  import opened SnapshotFormat
  import opened SnapshotLaws
  import opened Commands
  import Framing

  // ----- fields by offset

  lemma SliceShift(s: seq<byte>, w: nat, a: nat, b: nat)
    requires a <= b && w + b <= |s|
    ensures s[w..][a..b] == s[w + a..w + b]
  {
  }

  lemma SizeTail(widths: seq<nat>, k: nat)
    requires 0 < k <= |widths|
    ensures Size(widths[..k]) == widths[0] + Size(widths[1..][..k - 1]) && Size(widths) == widths[0] + Size(widths[1..])
  {
    assert widths[..k][1..] == widths[1..][..k - 1];
  }

  lemma UnpackTail(widths: seq<nat>, s: seq<byte>, k: nat)
    requires |s| == Size(widths) && k < |widths|
    ensures if k == 0 then widths[0] <= |s| && Unpack(widths, s)[0] == Get(s[..widths[0]])
            else widths[0] <= |s| && |s[widths[0]..]| == Size(widths[1..]) &&
                 Unpack(widths, s)[k] == Unpack(widths[1..], s[widths[0]..])[k - 1]
  {
    hide Get;
  }

  /** Field `k` of a packed struct lies behind the fields before it. */
  lemma {:induction false} FieldAt(widths: seq<nat>, s: seq<byte>, k: nat, at: nat)
    requires |s| == Size(widths) && k < |widths| && at == Size(widths[..k])
    ensures at + widths[k] <= |s| && Unpack(widths, s)[k] == Get(s[at..at + widths[k]])
    decreases k
  {
    hide Get, Unpack, Size;
    UnpackTail(widths, s, k);
    if k == 0 {
      assert widths[..0] == [];
      NoSize();
    } else {
      var w := widths[0];
      SizeTail(widths, k);
      FieldAt(widths[1..], s[w..], k - 1, at - w);
      SliceShift(s, w, at - w, at - w + widths[k]);
    }
  }

  lemma SizeOne(a: nat)
    ensures Size([a]) == a
  {
    assert [a][1..] == [];
  }

  lemma SizeTwo(a: nat, b: nat)
    ensures Size([a, b]) == a + b
  {
    assert [a, b][1..] == [b];
    SizeOne(b);
  }

  lemma SizeThree(a: nat, b: nat, c: nat)
    ensures Size([a, b, c]) == a + b + c
  {
    assert [a, b, c][1..] == [b, c];
    SizeTwo(b, c);
  }

  lemma SizeFour(a: nat, b: nat, c: nat, d: nat)
    ensures Size([a, b, c, d]) == a + b + c + d
  {
    assert [a, b, c, d][1..] == [b, c, d];
    SizeThree(b, c, d);
  }

  lemma SizeFive(a: nat, b: nat, c: nat, d: nat, e: nat)
    ensures Size([a, b, c, d, e]) == a + b + c + d + e
  {
    assert [a, b, c, d, e][1..] == [b, c, d, e];
    SizeFour(b, c, d, e);
  }

  lemma NoSize()
    ensures Size([]) == 0
  {
  }

  lemma FirstFields(widths: seq<nat>, s: seq<byte>)
    requires |s| == Size(widths) && |widths| >= 2
    ensures var a, b, v := widths[0], widths[0] + widths[1], Unpack(widths, s);
            b <= |s| && v[0] == Get(s[..a]) && v[1] == Get(s[a..b])
  {
    hide Get, Unpack, Size;
    assert widths[..0] == [] && widths[..1] == [widths[0]];
    NoSize();
    SizeOne(widths[0]);
    FieldAt(widths, s, 0, 0);
    FieldAt(widths, s, 1, widths[0]);
  }

  lemma ThirdField(widths: seq<nat>, s: seq<byte>)
    requires |s| == Size(widths) && |widths| >= 3
    ensures var b, v := widths[0] + widths[1], Unpack(widths, s);
            b + widths[2] <= |s| && v[2] == Get(s[b..b + widths[2]])
  {
    hide Get, Unpack, Size;
    assert widths[..2] == [widths[0], widths[1]];
    SizeTwo(widths[0], widths[1]);
    FieldAt(widths, s, 2, widths[0] + widths[1]);
  }

  lemma FourthField(widths: seq<nat>, s: seq<byte>)
    requires |s| == Size(widths) && |widths| >= 4
    ensures var c, v := widths[0] + widths[1] + widths[2], Unpack(widths, s);
            c + widths[3] <= |s| && v[3] == Get(s[c..c + widths[3]])
  {
    hide Get, Unpack, Size;
    assert widths[..3] == [widths[0], widths[1], widths[2]];
    SizeThree(widths[0], widths[1], widths[2]);
    FieldAt(widths, s, 3, widths[0] + widths[1] + widths[2]);
  }

  lemma FifthField(widths: seq<nat>, s: seq<byte>)
    requires |s| == Size(widths) && |widths| >= 5
    ensures var d, v := widths[0] + widths[1] + widths[2] + widths[3], Unpack(widths, s);
            d + widths[4] <= |s| && v[4] == Get(s[d..d + widths[4]])
  {
    hide Get, Unpack, Size;
    assert widths[..4] == [widths[0], widths[1], widths[2], widths[3]];
    SizeFour(widths[0], widths[1], widths[2], widths[3]);
    FieldAt(widths, s, 4, widths[0] + widths[1] + widths[2] + widths[3]);
  }

  lemma FourFields(widths: seq<nat>, s: seq<byte>)
    requires |s| == Size(widths) && |widths| >= 4
    ensures var a, b, c := widths[0], widths[0] + widths[1], widths[0] + widths[1] + widths[2];
            var v := Unpack(widths, s);
            && c + widths[3] <= |s| && v[0] == Get(s[..a]) && v[1] == Get(s[a..b]) && v[2] == Get(s[b..c])
            && v[3] == Get(s[c..c + widths[3]])
  {
    hide Get, Unpack, Size;
    FirstFields(widths, s);
    ThirdField(widths, s);
    FourthField(widths, s);
  }

  /** The first five fields of a struct, by the widths before them. */
  lemma FiveFields(widths: seq<nat>, s: seq<byte>)
    requires |s| == Size(widths) && |widths| >= 5
    ensures var a, b, c, d := widths[0], widths[0] + widths[1], widths[0] + widths[1] + widths[2],
                              widths[0] + widths[1] + widths[2] + widths[3];
            var v := Unpack(widths, s);
            && d + widths[4] <= |s| && v[0] == Get(s[..a]) && v[1] == Get(s[a..b]) && v[2] == Get(s[b..c])
            && v[3] == Get(s[c..d]) && v[4] == Get(s[d..d + widths[4]])
  {
    hide Get, Unpack, Size;
    FourFields(widths, s);
    FifthField(widths, s);
  }

  // ----- the journal

  /** The 24 bytes of a record header. */
  lemma RecordLayout(h: RecordHeader)
    ensures var s := HeaderBytes(h);
            && |s| == 24 && Get(s[..8]) == h.sequence && Get(s[8..16]) == h.timestamp
            && Get(s[16..18]) == h.messageType && Get(s[18..20]) == h.payloadLength && Get(s[20..24]) == h.checksum
  {
    hide Get, Unpack, HeaderBytes;
    FieldSizes();
    HeaderBack(h);
    FiveFields(RECORD_FIELDS, HeaderBytes(h));
  }

  /** The 32 bytes of a file header, which starts with the letters FLUX and version 1. */
  lemma FileLayout(startSequence: u64, timestamp: u64)
    ensures var s := FileHeaderBytes(Stamp(startSequence, timestamp));
            && |s| == 32 && s[..6] == [0x46, 0x4C, 0x55, 0x58, 1, 0] && Get(s[6..8]) == 0
            && Get(s[8..16]) == startSequence && Get(s[16..24]) == timestamp
  {
    hide Get, Unpack, FileHeaderBytes;
    FieldSizes();
    var h := Stamp(startSequence, timestamp);
    var s := FileHeaderBytes(h);
    FileHeaderBack(h);
    FiveFields(FILE_FIELDS, s);
    Magic(s[..4], s[4..6]);
    assert s[..6] == s[..4] + s[4..6];
  }

  lemma Magic(a: seq<byte>, b: seq<byte>)
    requires |a| == 4 && Get(a) == 0x5855_4C46 && |b| == 2 && Get(b) == 1
    ensures a == [0x46, 0x4C, 0x55, 0x58] && b == [1, 0]
  {
    GetFour(0x46, 0x4C, 0x55, 0x58);
    GetTwo(1, 0);
    GetInjective(a, [0x46, 0x4C, 0x55, 0x58]);
    GetInjective(b, [1, 0]);
  }

  lemma GetTwo(a: byte, b: byte)
    ensures Get([a, b]) == a + 256 * b
  {
    assert [a, b][1..] == [b] && [b][1..] == [];
    assert Get([b]) == b + 256 * Get([]);
  }

  lemma GetFour(a: byte, b: byte, c: byte, d: byte)
    ensures Get([a, b, c, d]) == a + 256 * b + 65536 * c + 16777216 * d
  {
    assert [a, b, c, d][1..] == [b, c, d] && [b, c, d][1..] == [c, d];
    GetTwo(c, d);
    assert Get([b, c, d]) == b + 256 * Get([c, d]);
  }

  // ----- snapshots

  /** The 40 bytes of a snapshot header. */
  lemma SnapshotLayout(h: SnapshotHeader)
    ensures var s := SnapshotHeaderBytes(h);
            && |s| == 40 && Get(s[..4]) == h.magic && Get(s[4..6]) == h.version && Get(s[6..8]) == h.flags
            && Get(s[8..16]) == h.sequence && Get(s[16..24]) == h.timestamp
            && Get(s[24..28]) == h.bidLevels && Get(s[28..32]) == h.askLevels && Get(s[32..36]) == h.checksum
  {
    hide Get, Unpack, LabelBytes, CountBytes;
    SnapshotSizes();
    LabelsBack(h);
    CountsBack(h);
    var a, b, s := LabelBytes(h), CountBytes(h), SnapshotHeaderBytes(h);
    FiveFields(LABEL_FIELDS, a);
    FourFields(COUNT_FIELDS, b);
    assert s[..4] == a[..4] && s[4..6] == a[4..6] && s[6..8] == a[6..8] && s[8..16] == a[8..16] &&
           s[16..24] == a[16..24];
    assert s[24..28] == b[..4] && s[28..32] == b[4..8] && s[32..36] == b[8..12];
  }

  /** The 24 bytes of a level and the 32 of an order. */
  lemma EntryLayout(l: LevelSnapshot, r: Resting)
    ensures var s := LevelBytes(l);
            |s| == 24 && Get(s[..8]) == Wrap64(l.price) && Get(s[8..16]) == l.totalQty && Get(s[16..20]) == l.orderCount
    ensures var s := OrderBytes(r);
            && |s| == 32 && Get(s[..4]) == r.symbolId && Get(s[8..16]) == r.orderId
            && Get(s[16..24]) == r.qty && Get(s[24..32]) == r.prioritySeq
  {
    LevelLayout(l);
    OrderLayout(r);
  }

  lemma LevelLayout(l: LevelSnapshot)
    ensures var s := LevelBytes(l);
            |s| == 24 && Get(s[..8]) == Wrap64(l.price) && Get(s[8..16]) == l.totalQty && Get(s[16..20]) == l.orderCount
  {
    hide Get, Unpack, Pack, Size, Pow256;
    SnapshotSizes();
    Powers();
    PackUnpack(LEVEL_FIELDS, [Wrap64(l.price), l.totalQty, l.orderCount, 0]);
    FourFields(LEVEL_FIELDS, LevelBytes(l));
  }

  lemma OrderLayout(r: Resting)
    ensures var s := OrderBytes(r);
            && |s| == 32 && Get(s[..4]) == r.symbolId && Get(s[8..16]) == r.orderId
            && Get(s[16..24]) == r.qty && Get(s[24..32]) == r.prioritySeq
  {
    hide Get, Unpack, Pack, Size, Pow256;
    SnapshotSizes();
    Powers();
    PackUnpack(ORDER_FIELDS, [r.symbolId, 0, r.orderId, r.qty, r.prioritySeq]);
    FiveFields(ORDER_FIELDS, OrderBytes(r));
  }

  lemma GetIs(s: seq<byte>, t: seq<byte>)
    requires |s| == |t|
    ensures Get(s) == Get(t) <==> s == t
  {
    if Get(s) == Get(t) {
      GetInjective(s, t);
    }
  }

  lemma SixBytes(s: seq<byte>, a: seq<byte>, b: seq<byte>)
    requires |s| >= 6 && |a| == 4 && |b| == 2
    ensures s[..6] == a + b <==> s[..4] == a && s[4..6] == b
  {
    assert s[..6] == s[..4] + s[4..6];
    if s[..6] == a + b {
      assert s[..4] == s[..6][..4] && (a + b)[..4] == a && s[4..6] == s[..6][4..] && (a + b)[4..] == b;
    }
  }

  /** A journal file is read exactly when it is long enough for its header and starts with the letters FLUX
      and version 1. */
  lemma GoodJournal(file: seq<byte>)
    ensures GoodHeader(file) <==> |file| >= 32 && file[..6] == [0x46, 0x4C, 0x55, 0x58] + [1, 0]
  {
    hide Get, Unpack;
    if |file| >= 32 {
      FieldSizes();
      var s := file[..32];
      FiveFields(FILE_FIELDS, s);
      assert s[..4] == file[..4] && s[4..6] == file[4..6];
      GetFour(0x46, 0x4C, 0x55, 0x58);
      GetTwo(1, 0);
      GetIs(file[..4], [0x46, 0x4C, 0x55, 0x58]);
      GetIs(file[4..6], [1, 0]);
      SixBytes(file, [0x46, 0x4C, 0x55, 0x58], [1, 0]);
    }
  }

  /** A snapshot file is read exactly when it is long enough for its header and starts with the letters of
      SNAP, last first, and version 1. */
  lemma GoodSnapshotFile(file: seq<byte>)
    ensures GoodSnapshot(file) <==> |file| >= 40 && file[..6] == [0x50, 0x41, 0x4E, 0x53] + [1, 0]
  {
    hide Get, Unpack;
    if |file| >= 40 {
      SnapshotSizes();
      var s := file[..40][..24];
      assert s == file[..24];
      FiveFields(LABEL_FIELDS, s);
      assert s[..4] == file[..4] && s[4..6] == file[4..6];
      GetFour(0x50, 0x41, 0x4E, 0x53);
      GetTwo(1, 0);
      GetIs(file[..4], [0x50, 0x41, 0x4E, 0x53]);
      GetIs(file[4..6], [1, 0]);
      SixBytes(file, [0x50, 0x41, 0x4E, 0x53], [1, 0]);
    }
  }

  /** The bytes of a saved level: its price, its total as a 64-bit sum and the number of its orders. */
  lemma SavedLevel(level: Level)
    requires |level.queue| < 0x1_0000_0000
    ensures var s := LevelBytes(HeadOf(level));
            && |s| == 24 && Get(s[..8]) == Wrap64(level.price) && Get(s[8..16]) == Wrap64(QueueSum(level.queue))
            && Get(s[16..20]) == |level.queue|
  {
    hide Get, LevelBytes;
    LevelLayout(HeadOf(level));
  }

  /** A saved file is a header and then the bids and the asks. */
  lemma SavedFile(book: Book, sequence: u64, timestamp: u64)
    requires |book.bids| < 0x1_0000_0000 && |book.asks| < 0x1_0000_0000
    ensures var file := SnapshotBytes(book, sequence, timestamp);
            && |file| >= 40 && Get(file[8..16]) == sequence && Get(file[16..24]) == timestamp
            && Get(file[24..28]) == |book.bids| && Get(file[28..32]) == |book.asks|
            && file[40..] == LevelsBytes(book.bids) + LevelsBytes(book.asks)
  {
    hide Get, SnapshotHeaderBytes, LevelsBytes, BodyCheck;
    var h := HeaderFor(book, sequence, timestamp);
    SnapshotLayout(h);
    var s, file := SnapshotHeaderBytes(h), SnapshotBytes(book, sequence, timestamp);
    assert file[8..16] == s[8..16] && file[16..24] == s[16..24] && file[24..28] == s[24..28] &&
           file[28..32] == s[28..32];
  }

  // ----- commands

  /** The 72 bytes of a command; a buy is 1 and a sell 2, limit, market and stop are 1, 2 and 3. */
  lemma CommandLayout(c: OrderCommand)
    ensures var s := CommandBytes(c);
            && |s| == 72 && Get(s[..1]) == c.kind && Get(s[8..16]) == c.sequence && Get(s[16..24]) == c.timestamp
            && Get(s[24..32]) == c.clientOrderId && Get(s[32..40]) == c.origClientOrderId
            && Get(s[40..44]) == c.symbolId && Get(s[44..48]) == c.accountId
            && Get(s[48..56]) == Wrap64(c.price) && Get(s[56..64]) == c.qty
            && Get(s[64..65]) == (match c.side case Buy => 1 case Sell => 2)
            && Get(s[65..66]) == (match c.orderType case Limit => 1 case Market => 2 case Stop => 3)
            && Get(s[66..67]) == c.tif && Get(s[68..72]) == c.connId
  {
    hide Get, IdBytes, SizeBytes, KindBytes, Wrap64;
    IdLayout(c);
    SizeLayout(c);
    KindLayout(c);
    var s, a, b, d := CommandBytes(c), IdBytes(c), SizeBytes(c), KindBytes(c);
    assert s[..1] == a[..1] && s[8..16] == a[8..16] && s[16..24] == a[16..24] && s[24..32] == a[24..32];
    assert s[32..40] == a[32..40] && s[40..44] == b[..4] && s[44..48] == b[4..8] && s[48..56] == b[8..16];
    assert s[56..64] == b[16..24] && s[64..65] == d[..1] && s[65..66] == d[1..2] && s[66..67] == d[2..3];
    assert s[68..72] == d[4..8];
  }

  lemma IdLayout(c: OrderCommand)
    ensures var s := IdBytes(c);
            && Get(s[..1]) == c.kind && Get(s[8..16]) == c.sequence && Get(s[16..24]) == c.timestamp
            && Get(s[24..32]) == c.clientOrderId && Get(s[32..40]) == c.origClientOrderId
  {
    hide Get, Unpack, Pack, Size, Pow256;
    CommandSizes();
    Powers();
    var s := IdBytes(c);
    PackUnpack(ID_FIELDS, [c.kind, 0, c.sequence, c.timestamp, c.clientOrderId, c.origClientOrderId]);
    FiveFields(ID_FIELDS, s);
    assert ID_FIELDS[..5] == [1, 7, 8, 8, 8];
    SizeFive(1, 7, 8, 8, 8);
    FieldAt(ID_FIELDS, s, 5, 32);
  }

  lemma SizeLayout(c: OrderCommand)
    ensures var s := SizeBytes(c);
            && Get(s[..4]) == c.symbolId && Get(s[4..8]) == c.accountId && Get(s[8..16]) == Wrap64(c.price)
            && Get(s[16..24]) == c.qty
  {
    hide Get, Unpack, Pack, Size, Pow256;
    CommandSizes();
    Powers();
    PackUnpack(SIZE_FIELDS, [c.symbolId, c.accountId, Wrap64(c.price), c.qty]);
    FourFields(SIZE_FIELDS, SizeBytes(c));
  }

  lemma KindLayout(c: OrderCommand)
    ensures var s := KindBytes(c);
            && Get(s[..1]) == (match c.side case Buy => 1 case Sell => 2)
            && Get(s[1..2]) == (match c.orderType case Limit => 1 case Market => 2 case Stop => 3)
            && Get(s[2..3]) == c.tif && Get(s[4..8]) == c.connId
  {
    hide Get, Unpack, Pack, Size, Pow256;
    CommandSizes();
    Powers();
    PackUnpack(KIND_FIELDS, [SideCode(c.side), TypeCode(c.orderType), c.tif, 0, c.connId]);
    FiveFields(KIND_FIELDS, KindBytes(c));
  }

  // ----- packets

  /** The 24 bytes of a packet header. */
  lemma PacketLayout(h: Framing.MessageHeader)
    ensures var s := Framing.HeaderBytes(h);
            && |s| == 24 && Get(s[..2]) == h.length && Get(s[2..4]) == h.messageType && Get(s[4..8]) == h.padding
            && Get(s[8..16]) == h.sequence && Get(s[16..24]) == h.timestamp
  {
    hide Get, Unpack, Framing.HeaderBytes;
    Framing.HeaderSize();
    Framing.HeaderBack(h);
    FiveFields(Framing.HEADER_FIELDS, Framing.HeaderBytes(h));
  }

  // ----- the checksum

  lemma BitsAre(b: byte, x: bv32)
    requires x < 0x100 && Word32(x) == b
    ensures Bits(b) == x
  {
    hide Word32, Bits;
    ByteBits(x);
  }

  lemma Digit(b: byte, x: bv32, from: bv32, to: bv32)
    requires x < 0x100 && Word32(x) == b && Eight(Xor(from, x)) == to
    ensures ByteStep(from, b) == to
  {
    hide Word32, Bits, Eight, Xor, Steps;
    BitsAre(b, x);
    EightIs(Xor(from, x));
  }

  lemma DigitSteps()
    ensures Eight(Xor(0xFFFF_FFFF, 0x31)) == 0x6F0A_661C
    ensures Eight(Xor(0x6F0A_661C, 0x32)) == 0x8CAA_3B9F
    ensures Eight(Xor(0x8CAA_3B9F, 0x33)) == 0xEF84_D04D
    ensures Eight(Xor(0xEF84_D04D, 0x34)) == 0x09C5_0B11
    ensures Eight(Xor(0x09C5_0B11, 0x35)) == 0xE72E_DCCA
    ensures Eight(Xor(0xE72E_DCCA, 0x36)) == 0xBECA_8E79
    ensures Eight(Xor(0xBECA_8E79, 0x37)) == 0xEDBD_6815
    ensures Eight(Xor(0xEDBD_6815, 0x38)) == 0x9F78_7F65
    ensures Eight(Xor(0x9F78_7F65, 0x39)) == 0x1CF9_6D7C
  {
  }

  lemma DigitValues()
    ensures Word32(0x31) == 0x31 && Word32(0x32) == 0x32 && Word32(0x33) == 0x33 && Word32(0x34) == 0x34
    ensures Word32(0x35) == 0x35 && Word32(0x36) == 0x36 && Word32(0x37) == 0x37 && Word32(0x38) == 0x38
    ensures Word32(0x39) == 0x39
  {
  }

  /** The register runs through `xs` as the bytes go in. */
  ghost predicate Traces(xs: seq<bv32>, bytes: seq<byte>) {
    |xs| == |bytes| + 1 && forall i :: 0 <= i < |bytes| ==> ByteStep(xs[i], bytes[i]) == xs[i + 1]
  }

  lemma {:induction false} TraceRegister(xs: seq<bv32>, bytes: seq<byte>)
    requires Traces(xs, bytes)
    ensures Register(xs[0], bytes) == xs[|bytes|]
    decreases |bytes|
  {
    hide ByteStep;
    if bytes != [] {
      assert ByteStep(xs[0], bytes[0]) == xs[1];
      assert forall i :: 0 <= i < |bytes| - 1 ==>
             ByteStep(xs[1..][i], bytes[1..][i]) == ByteStep(xs[i + 1], bytes[i + 1]);
      TraceRegister(xs[1..], bytes[1..]);
    }
  }

  /** The digits 1 to 9. */
  const DIGITS: seq<byte> := [0x31, 0x32, 0x33, 0x34, 0x35, 0x36, 0x37, 0x38, 0x39]

  /** The check value of CRC-32C: the checksum of the digits 1 to 9 is 0xE3069283, and so is a record's over
      them however they are split between header and payload. */
  lemma CheckValue(k: nat)
    requires k <= 9
    ensures Crc(DIGITS, INITIAL_CRC) == 0xE306_9283 && Check(DIGITS[..k], DIGITS[k..]) == Word32(0xE306_9283)
  {
    hide Register, ByteStep, Check, Word32, Eight;
    DigitTrace();
    assert DIGITS[..k] + DIGITS[k..] == DIGITS;
    CheckIsOnePass(DIGITS[..k], DIGITS[k..]);
  }

  lemma DigitTrace()
    ensures Register(INITIAL_CRC, DIGITS) == 0x1CF9_6D7C
  {
    hide Register, ByteStep, Word32, Eight, Xor;
    DigitSteps();
    DigitValues();
    var xs := [0xFFFF_FFFF, 0x6F0A_661C, 0x8CAA_3B9F, 0xEF84_D04D, 0x09C5_0B11,
               0xE72E_DCCA, 0xBECA_8E79, 0xEDBD_6815, 0x9F78_7F65, 0x1CF9_6D7C];
    Digit(0x31, 0x31, 0xFFFF_FFFF, 0x6F0A_661C);
    Digit(0x32, 0x32, 0x6F0A_661C, 0x8CAA_3B9F);
    Digit(0x33, 0x33, 0x8CAA_3B9F, 0xEF84_D04D);
    Digit(0x34, 0x34, 0xEF84_D04D, 0x09C5_0B11);
    Digit(0x35, 0x35, 0x09C5_0B11, 0xE72E_DCCA);
    Digit(0x36, 0x36, 0xE72E_DCCA, 0xBECA_8E79);
    Digit(0x37, 0x37, 0xBECA_8E79, 0xEDBD_6815);
    Digit(0x38, 0x38, 0xEDBD_6815, 0x9F78_7F65);
    Digit(0x39, 0x39, 0x9F78_7F65, 0x1CF9_6D7C);
    TraceRegister(xs, DIGITS);
  }
}
