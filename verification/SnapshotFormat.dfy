/** The snapshot file: the bytes of a book, what reading them inserts, and that the two invert
    each other. */
module SnapshotFormat {
  import opened Domain
  import opened Bytes
  import opened BookSpec

  const SNAPSHOT_MAGIC: u32 := 0x534E4150
  const SNAPSHOT_VERSION: u16 := 1
  const SNAPSHOT_HEADER: nat := 40
  const LEVEL_RECORD: nat := 24
  const ORDER_RECORD: nat := 32

  // The 40 bytes of the header in two runs of fields: 24 and 16 bytes.
  const LABEL_FIELDS: seq<nat> := [4, 2, 2, 8, 8]
  const COUNT_FIELDS: seq<nat> := [4, 4, 4, 4]
  const LEVEL_FIELDS: seq<nat> := [8, 8, 4, 4]
  const ORDER_FIELDS: seq<nat> := [4, 4, 8, 8, 8]

  datatype SnapshotHeader = SnapshotHeader(magic: u32, version: u16, flags: u16, sequence: u64, timestamp: u64,
                                           bidLevels: u32, askLevels: u32, checksum: u32)

  datatype LevelSnapshot = LevelSnapshot(price: Price, totalQty: u64, orderCount: u32)

  lemma SnapshotSizes()
    ensures Size(LABEL_FIELDS) == 24 && Size(COUNT_FIELDS) == 16
    ensures Size(LEVEL_FIELDS) == LEVEL_RECORD && Size(ORDER_FIELDS) == ORDER_RECORD
  {
    assert LABEL_FIELDS[1..] == [2, 2, 8, 8] && [2, 2, 8, 8][1..] == [2, 8, 8] && [2, 8, 8][1..] == [8, 8] &&
           [8, 8][1..] == [8];
    assert COUNT_FIELDS[1..] == [4, 4, 4] && [4, 4, 4][1..] == [4, 4] && [4, 4][1..] == [4];
    assert LEVEL_FIELDS[1..] == [8, 4, 4];
    assert [8, 4, 4][1..] == [4, 4];
    assert ORDER_FIELDS[1..] == [4, 8, 8, 8] && [4, 8, 8, 8][1..] == [8, 8, 8] && [8, 8, 8][1..] == [8, 8];
    assert Size([8]) == 8 && Size([4]) == 4;
  }

  function LabelBytes(h: SnapshotHeader): (r: seq<byte>)
    ensures |r| == 24
  {
    SnapshotSizes();
    Pack(LABEL_FIELDS, [h.magic, h.version, h.flags, h.sequence, h.timestamp])
  }

  function CountBytes(h: SnapshotHeader): (r: seq<byte>)
    ensures |r| == 16
  {
    SnapshotSizes();
    Pack(COUNT_FIELDS, [h.bidLevels, h.askLevels, h.checksum, 0])
  }

  function SnapshotHeaderBytes(h: SnapshotHeader): (r: seq<byte>)
    ensures |r| == SNAPSHOT_HEADER
  {
    LabelBytes(h) + CountBytes(h)
  }

  function LevelBytes(l: LevelSnapshot): (r: seq<byte>)
    ensures |r| == LEVEL_RECORD
  {
    SnapshotSizes();
    Pack(LEVEL_FIELDS, [Wrap64(l.price), l.totalQty, l.orderCount, 0])
  }

  function OrderBytes(r: Resting): (s: seq<byte>)
    ensures |s| == ORDER_RECORD
  {
    SnapshotSizes();
    Pack(ORDER_FIELDS, [r.symbolId, 0, r.orderId, r.qty, r.prioritySeq])
  }

  function LabelsOf(s: seq<byte>): (r: (u32, u16, u16, u64, u64))
    requires |s| == 24
  {
    SnapshotSizes();
    Powers();
    var v := Unpack(LABEL_FIELDS, s);
    (v[0], v[1], v[2], v[3], v[4])
  }

  function CountsOf(s: seq<byte>): (r: (u32, u32, u32))
    requires |s| == 16
  {
    SnapshotSizes();
    Powers();
    var v := Unpack(COUNT_FIELDS, s);
    (v[0], v[1], v[2])
  }

  function SnapshotHeaderOf(s: seq<byte>): SnapshotHeader
    requires |s| == SNAPSHOT_HEADER
  {
    var (a, b) := (LabelsOf(s[..24]), CountsOf(s[24..]));
    SnapshotHeader(a.0, a.1, a.2, a.3, a.4, b.0, b.1, b.2)
  }

  function LevelOfBytes(s: seq<byte>): LevelSnapshot
    requires |s| == LEVEL_RECORD
  {
    SnapshotSizes();
    Powers();
    var v := Unpack(LEVEL_FIELDS, s);
    LevelSnapshot(Signed(v[0]), v[1], v[2])
  }

  function OrderOfBytes(s: seq<byte>): Resting
    requires |s| == ORDER_RECORD
  {
    SnapshotSizes();
    Powers();
    var v := Unpack(ORDER_FIELDS, s);
    Resting(v[0], v[2], v[3], v[4])
  }

  lemma SnapshotHeaderBack(h: SnapshotHeader)
    ensures SnapshotHeaderOf(SnapshotHeaderBytes(h)) == h
  {
    hide LabelsOf, CountsOf, LabelBytes, CountBytes;
    LabelsBack(h);
    CountsBack(h);
    var s := LabelBytes(h) + CountBytes(h);
    assert s[..24] == LabelBytes(h) && s[24..] == CountBytes(h);
  }

  lemma LabelsBack(h: SnapshotHeader)
    ensures |LabelBytes(h)| == 24 && LabelsOf(LabelBytes(h)) == (h.magic, h.version, h.flags, h.sequence, h.timestamp)
  {
    hide Pack, Unpack, Size, Pow256;
    SnapshotSizes();
    Powers();
    PackUnpack(LABEL_FIELDS, [h.magic, h.version, h.flags, h.sequence, h.timestamp]);
  }

  lemma CountsBack(h: SnapshotHeader)
    ensures |CountBytes(h)| == 16 && CountsOf(CountBytes(h)) == (h.bidLevels, h.askLevels, h.checksum)
  {
    hide Pack, Unpack, Size, Pow256;
    SnapshotSizes();
    Powers();
    PackUnpack(COUNT_FIELDS, [h.bidLevels, h.askLevels, h.checksum, 0]);
  }

  lemma LevelBack(l: LevelSnapshot)
    ensures LevelOfBytes(LevelBytes(l)) == l
  {
    hide Pack, Unpack, Size, Pow256, Signed;
    SnapshotSizes();
    Powers();
    SignedWrap(l.price);
    PackUnpack(LEVEL_FIELDS, [Wrap64(l.price), l.totalQty, l.orderCount, 0]);
  }

  lemma OrderBack(r: Resting)
    ensures OrderOfBytes(OrderBytes(r)) == r
  {
    hide Pack, Unpack, Size, Pow256;
    SnapshotSizes();
    Powers();
    PackUnpack(ORDER_FIELDS, [r.symbolId, 0, r.orderId, r.qty, r.prioritySeq]);
  }
}
