/** The write-ahead log: record building with its chained checksum, the byte format of a journal
    file and what reading a file gives. */
module Wal {
  import opened Domain
  import opened Bytes
  import opened Crc32c

  const WAL_MAGIC: u32 := 0x58554C46
  const WAL_VERSION: u16 := 1
  const FILE_HEADER: nat := 32
  const RECORD_HEADER: nat := 24
  const CHECKSUM_AT: nat := 20
  const MAX_PAYLOAD: nat := 256
  const INITIAL_CRC: bv32 := 0xFFFF_FFFF

  datatype FileHeader = FileHeader(magic: u32, version: u16, flags: u16, startSequence: u64, timestamp: u64)

  datatype RecordHeader = RecordHeader(sequence: u64, timestamp: u64, messageType: u16, payloadLength: u16,
                                       checksum: u32)

  /** A record; of the envelope's payload array only the first `payloadLength` bytes are used. */
  datatype LogEntry = LogEntry(header: RecordHeader, payload: seq<byte>)

  const FILE_FIELDS: seq<nat> := [4, 2, 2, 8, 8, 8]
  const RECORD_FIELDS: seq<nat> := [8, 8, 2, 2, 4]

  lemma FieldSizes()
    ensures Size(FILE_FIELDS) == FILE_HEADER && Size(RECORD_FIELDS) == RECORD_HEADER
  {
    assert FILE_FIELDS[1..] == [2, 2, 8, 8, 8] && [2, 2, 8, 8, 8][1..] == [2, 8, 8, 8] &&
           [2, 8, 8, 8][1..] == [8, 8, 8];
    assert [8, 8, 8][1..] == [8, 8] && [8, 8][1..] == [8];
    assert RECORD_FIELDS[1..] == [8, 2, 2, 4] && [8, 2, 2, 4][1..] == [2, 2, 4] && [2, 2, 4][1..] == [2, 4] &&
           [2, 4][1..] == [4];
    assert Size([8]) == 8 && Size([4]) == 4;
  }

  function FileHeaderBytes(h: FileHeader): (r: seq<byte>)
    ensures |r| == FILE_HEADER
  {
    FieldSizes();
    Pack(FILE_FIELDS, [h.magic, h.version, h.flags, h.startSequence, h.timestamp, 0])
  }

  function FileHeaderOf(s: seq<byte>): FileHeader
    requires |s| == FILE_HEADER
  {
    FieldSizes();
    Powers();
    var v := Unpack(FILE_FIELDS, s);
    FileHeader(v[0], v[1], v[2], v[3], v[4])
  }

  function HeaderBytes(h: RecordHeader): (r: seq<byte>)
    ensures |r| == RECORD_HEADER
  {
    FieldSizes();
    Pack(RECORD_FIELDS, [h.sequence, h.timestamp, h.messageType, h.payloadLength, h.checksum])
  }

  function HeaderOf(s: seq<byte>): RecordHeader
    requires |s| == RECORD_HEADER
  {
    FieldSizes();
    Powers();
    var v := Unpack(RECORD_FIELDS, s);
    RecordHeader(v[0], v[1], v[2], v[3], v[4])
  }

  lemma FileHeaderBack(h: FileHeader)
    ensures FileHeaderOf(FileHeaderBytes(h)) == h
  {
    hide Pack, Unpack, Size;
    FieldSizes();
    Powers();
    PackUnpack(FILE_FIELDS, [h.magic, h.version, h.flags, h.startSequence, h.timestamp, 0]);
  }

  lemma HeaderBack(h: RecordHeader)
    ensures HeaderOf(HeaderBytes(h)) == h
  {
    hide Pack, Unpack, Size;
    FieldSizes();
    Powers();
    PackUnpack(RECORD_FIELDS, [h.sequence, h.timestamp, h.messageType, h.payloadLength, h.checksum]);
  }

  function Word32(x: bv32): u32 {
    x as int
  }

  lemma WordInjective32(x: bv32, y: bv32)
    requires Word32(x) == Word32(y)
    ensures x == y
  {
    assert (x as int) as bv32 == x && (y as int) as bv32 == y;
  }

  /** The checksum of a record: over the header up to its checksum field, then, chained through
      the complement, over the payload. */
  function Check(prefix: seq<byte>, payload: seq<byte>): u32 {
    Word32(Crc(payload, Complement(Crc(prefix, INITIAL_CRC))))
  }

  lemma CheckIsOnePass(prefix: seq<byte>, payload: seq<byte>)
    ensures Check(prefix, payload) == Word32(Crc(prefix + payload, INITIAL_CRC))
  {
    hide Crc, Complement, Word32;
    Chained(prefix, payload, INITIAL_CRC);
  }

  predicate Sealed(e: LogEntry) {
    && e.header.payloadLength == |e.payload|
    && e.header.checksum == Check(HeaderBytes(e.header)[..CHECKSUM_AT], e.payload)
  }

  function EntryBytes(e: LogEntry): (r: seq<byte>)
    ensures |r| == RECORD_HEADER + |e.payload|
  {
    HeaderBytes(e.header) + e.payload
  }

  function EntriesBytes(entries: seq<LogEntry>): seq<byte> {
    if entries == [] then [] else EntryBytes(entries[0]) + EntriesBytes(entries[1..])
  }

  lemma {:induction false} EntriesBytesAppend(entries: seq<LogEntry>, e: LogEntry)
    ensures EntriesBytes(entries + [e]) == EntriesBytes(entries) + EntryBytes(e)
  {
    hide EntryBytes;
    if entries == [] {
      assert [e][1..] == [];
      assert entries + [e] == [e];
      assert EntryBytes(e) + [] == EntryBytes(e);
    } else {
      EntriesBytesAppend(entries[1..], e);
      assert (entries + [e])[1..] == entries[1..] + [e];
    }
  }

  // ----- reading

  /** The records read, and whether no checksum failed. */
  datatype Scan = Scan(entries: seq<LogEntry>, intact: bool)

  /** The record loop: a short header or payload ends it quietly, a wrong checksum ends it in failure. */
  function Records(s: seq<byte>): Scan
    decreases |s|
  {
    if |s| < RECORD_HEADER then Scan([], true)
    else
      var h := HeaderOf(s[..RECORD_HEADER]);
      var end := RECORD_HEADER + h.payloadLength;
      if |s| < end then Scan([], true)
      else if h.checksum != Check(s[..CHECKSUM_AT], s[RECORD_HEADER..end]) then Scan([], false)
      else
        var rest := Records(s[end..]);
        Scan([LogEntry(h, s[RECORD_HEADER..end])] + rest.entries, rest.intact)
  }

  predicate GoodHeader(file: seq<byte>) {
    |file| >= FILE_HEADER && var h := FileHeaderOf(file[..FILE_HEADER]);
    h.magic == WAL_MAGIC && h.version == WAL_VERSION
  }

  function FileBytes(h: FileHeader, entries: seq<LogEntry>): seq<byte> {
    FileHeaderBytes(h) + EntriesBytes(entries)
  }

  function Stamp(startSequence: u64, timestamp: u64): FileHeader {
    FileHeader(WAL_MAGIC, WAL_VERSION, 0, startSequence, timestamp)
  }

  /** One sealed record in front: it is read first, and the rest as if it were not there. */
  lemma RecordRead(e: LogEntry, tail: seq<byte>)
    requires Sealed(e)
    ensures Records(EntryBytes(e) + tail) == Scan([e] + Records(tail).entries, Records(tail).intact)
  {
    hide HeaderBytes, HeaderOf, Check;
    var s := EntryBytes(e) + tail;
    HeaderBack(e.header);
    assert s[..RECORD_HEADER] == HeaderBytes(e.header);
    assert s[..CHECKSUM_AT] == HeaderBytes(e.header)[..CHECKSUM_AT];
    assert s[RECORD_HEADER..RECORD_HEADER + |e.payload|] == e.payload;
    assert s[RECORD_HEADER + |e.payload|..] == tail;
  }

  ghost predicate AllSealed(entries: seq<LogEntry>) {
    forall i :: 0 <= i < |entries| ==> Sealed(entries[i])
  }

  lemma {:induction false} RecordsRead(entries: seq<LogEntry>, tail: seq<byte>)
    requires AllSealed(entries)
    ensures Records(EntriesBytes(entries) + tail) == Scan(entries + Records(tail).entries, Records(tail).intact)
    decreases |entries|
  {
    hide EntryBytes, Sealed, Records;
    if entries == [] {
      assert EntriesBytes(entries) + tail == tail;
      assert entries + Records(tail).entries == Records(tail).entries;
    } else {
      var e, rest := entries[0], entries[1..];
      RecordsRead(rest, tail);
      RecordRead(e, EntriesBytes(rest) + tail);
      assert EntryBytes(e) + (EntriesBytes(rest) + tail) == EntriesBytes(entries) + tail;
      assert [e] + (rest + Records(tail).entries) == entries + Records(tail).entries;
    }
  }

  /** A record cut short is not read, and is no failure. */
  lemma TornRecord(e: LogEntry, n: nat)
    requires Sealed(e) && n < |EntryBytes(e)|
    ensures Records(EntryBytes(e)[..n]) == Scan([], true)
  {
    hide HeaderBytes, HeaderOf, Check;
    if n >= RECORD_HEADER {
      HeaderBack(e.header);
      assert EntryBytes(e)[..n][..RECORD_HEADER] == HeaderBytes(e.header);
    }
  }

  /** How many whole records the first `n` bytes hold. */
  function Whole(entries: seq<LogEntry>, n: nat): (k: nat)
    ensures k <= |entries|
  {
    if entries == [] || |EntryBytes(entries[0])| > n then 0
    else 1 + Whole(entries[1..], n - |EntryBytes(entries[0])|)
  }

  /** Wherever the bytes are cut, reading them succeeds on exactly the records that are whole. */
  lemma {:induction false} CutRecords(entries: seq<LogEntry>, n: nat)
    requires AllSealed(entries) && n <= |EntriesBytes(entries)|
    ensures Records(EntriesBytes(entries)[..n]) == Scan(entries[..Whole(entries, n)], true)
    decreases |entries|
  {
    hide EntryBytes, Sealed, Records;
    if entries == [] {
      EmptyRead();
    } else {
      var e, rest := entries[0], entries[1..];
      var cut := EntriesBytes(entries)[..n];
      if |EntryBytes(e)| > n {
        TornRecord(e, n);
        assert cut == EntryBytes(e)[..n];
      } else {
        var m := n - |EntryBytes(e)|;
        CutRecords(rest, m);
        RecordRead(e, EntriesBytes(rest)[..m]);
        assert cut == EntryBytes(e) + EntriesBytes(rest)[..m];
        assert [e] + rest[..Whole(rest, m)] == entries[..1 + Whole(rest, m)];
      }
    }
  }

  lemma EmptyRead()
    ensures Records([]) == Scan([], true)
  {
  }

  /** `Whole` is the largest number of records that fit. */
  lemma {:induction false} WholeFits(entries: seq<LogEntry>, n: nat)
    ensures var k := Whole(entries, n);
            |EntriesBytes(entries[..k])| <= n && (k < |entries| ==> n < |EntriesBytes(entries[..k + 1])|)
    decreases |entries|
  {
    hide EntryBytes;
    if entries != [] && |EntryBytes(entries[0])| <= n {
      var rest := entries[1..];
      WholeFits(rest, n - |EntryBytes(entries[0])|);
      var k := Whole(entries, n);
      assert entries[..k][1..] == rest[..k - 1];
      if k < |entries| {
        assert entries[..k + 1][1..] == rest[..k];
      }
    } else if entries != [] {
      assert entries[..1][1..] == [];
      assert EntriesBytes(entries[..1]) == EntryBytes(entries[0]) + [];
    }
  }

  /** A journal file reads back as the records written to it, and cut anywhere at or behind its
      header as the whole records before the cut. */
  lemma CutFile(startSequence: u64, timestamp: u64, entries: seq<LogEntry>, n: nat)
    requires AllSealed(entries) && FILE_HEADER <= n <= |FileBytes(Stamp(startSequence, timestamp), entries)|
    ensures var file := FileBytes(Stamp(startSequence, timestamp), entries)[..n];
            GoodHeader(file) && Records(file[FILE_HEADER..]) == Scan(entries[..Whole(entries, n - FILE_HEADER)], true)
  {
    hide Records, EntriesBytes, Whole, FileHeaderBytes, FileHeaderOf;
    var h := Stamp(startSequence, timestamp);
    var file := FileBytes(h, entries)[..n];
    FileHeaderBack(h);
    assert file[..FILE_HEADER] == FileHeaderBytes(h);
    assert file[FILE_HEADER..] == EntriesBytes(entries)[..n - FILE_HEADER];
    CutRecords(entries, n - FILE_HEADER);
  }

  lemma WholeAll(entries: seq<LogEntry>)
    ensures Whole(entries, |EntriesBytes(entries)|) == |entries|
  {
  }

  lemma FileReadBack(startSequence: u64, timestamp: u64, entries: seq<LogEntry>)
    requires AllSealed(entries)
    ensures var file := FileBytes(Stamp(startSequence, timestamp), entries);
            GoodHeader(file) && Records(file[FILE_HEADER..]) == Scan(entries, true)
  {
    hide Records, EntriesBytes, Whole, FileHeaderBytes, FileHeaderOf;
    var file := FileBytes(Stamp(startSequence, timestamp), entries);
    CutFile(startSequence, timestamp, entries, |file|);
    WholeAll(entries);
    assert file[..|file|] == file && entries[..|entries|] == entries;
  }

  // ----- corruption

  lemma HeaderFields(s: seq<byte>)
    requires |s| == RECORD_HEADER
    ensures HeaderOf(s).payloadLength == Get(s[18..20]) && HeaderOf(s).checksum == Get(s[20..24])
  {
    hide Get;
    FieldSizes();
    assert RECORD_FIELDS[1..] == [8, 2, 2, 4] && [8, 2, 2, 4][1..] == [2, 2, 4] && [2, 2, 4][1..] == [2, 4] &&
           [2, 4][1..] == [4];
    var a, b, c, d := s[8..], s[16..], s[18..], s[20..];
    assert a[8..] == b && b[2..] == c && c[2..] == d && c[..2] == s[18..20] && d[..4] == s[20..24];
    assert Unpack([4], d) == [Get(d[..4])] + Unpack([4][1..], d[4..]);
    assert Unpack([2, 4], c) == [Get(c[..2])] + Unpack([4], d);
    assert Unpack([2, 2, 4], b) == [Get(b[..2])] + Unpack([2, 4], c);
    assert Unpack([8, 2, 2, 4], a) == [Get(a[..8])] + Unpack([2, 2, 4], b);
  }

  /** What the checksum covers. */
  function Body(s: seq<byte>): seq<byte>
    requires |s| >= RECORD_HEADER
  {
    s[..CHECKSUM_AT] + s[RECORD_HEADER..]
  }

  lemma BodyWindow(a: seq<byte>, b: seq<byte>, at: nat)
    requires |a| >= RECORD_HEADER && SameOutside(a, b, at)
    ensures SameOutside(Body(a), Body(b), if at < 20 then at else at - 4)
  {
    var shift := if at < 20 then at else at - 4;
    forall i | 0 <= i < |Body(a)| && (i < shift || shift + 4 <= i)
      ensures Body(a)[i] == Body(b)[i]
    {
      var k := if i < 20 then i else i + 4;
      assert Body(a)[i] == a[k] && Body(b)[i] == b[k];
      assert a[k] == b[k];
    }
  }

  /** One record whose length field is in order but whose stored checksum is not that of its body. */
  lemma WrongChecksum(bad: seq<byte>, tail: seq<byte>)
    requires |bad| >= RECORD_HEADER && Get(bad[18..20]) == |bad| - RECORD_HEADER
    requires Get(bad[20..24]) != Check(bad[..20], bad[24..])
    ensures Records(bad + tail) == Scan([], false)
  {
    hide Check, Get, HeaderOf;
    var s := bad + tail;
    HeaderFields(bad[..24]);
    assert s[..24] == bad[..24] && s[..20] == bad[..20] && s[24..|bad|] == bad[24..];
    assert bad[..24][18..20] == bad[18..20] && bad[..24][20..24] == bad[20..24];
  }

  lemma SealedFields(e: LogEntry)
    requires Sealed(e)
    ensures var s := EntryBytes(e);
            Get(s[18..20]) == |s| - RECORD_HEADER && Get(s[20..24]) == Check(s[..20], s[24..])
  {
    hide Check, Get, HeaderBytes, HeaderOf;
    var s := EntryBytes(e);
    HeaderBack(e.header);
    HeaderFields(HeaderBytes(e.header));
    assert s[18..20] == HeaderBytes(e.header)[18..20] && s[20..24] == HeaderBytes(e.header)[20..24];
    assert s[..20] == HeaderBytes(e.header)[..20] && s[24..] == e.payload;
  }

  /** A record altered within four consecutive bytes, in its body or in its checksum but not in its
      length field, is refused, and so is everything behind it; the records before it are read. */
  lemma CorruptionRefused(before: seq<LogEntry>, e: LogEntry, bad: seq<byte>, at: nat, tail: seq<byte>)
    requires AllSealed(before) && Sealed(e) && bad != EntryBytes(e) && SameOutside(bad, EntryBytes(e), at)
    requires bad[18..20] == EntryBytes(e)[18..20]
    requires bad[20..24] == EntryBytes(e)[20..24] || Body(bad) == Body(EntryBytes(e))
    ensures Records(EntriesBytes(before) + (bad + tail)) == Scan(before, false)
  {
    hide Records, Sealed, Check, Get, EntryBytes, EntriesBytes, Crc, SameOutside, AllSealed;
    var good := EntryBytes(e);
    SealedFields(e);
    SameLength(bad, good, at);
    if Body(bad) == Body(good) {
      BodySplit(bad, good);
      assert bad == bad[..20] + bad[20..24] + bad[24..] && good == good[..20] + good[20..24] + good[24..];
      if Get(bad[20..24]) == Get(good[20..24]) {
        GetInjective(bad[20..24], good[20..24]);
      }
    } else {
      BodyWindow(bad, good, at);
      BurstDetected(Body(bad), Body(good), if at < 20 then at else at - 4, INITIAL_CRC);
      CheckIsOnePass(bad[..20], bad[24..]);
      CheckIsOnePass(good[..20], good[24..]);
      if Check(bad[..20], bad[24..]) == Check(good[..20], good[24..]) {
        WordInjective32(Crc(Body(bad), INITIAL_CRC), Crc(Body(good), INITIAL_CRC));
      }
    }
    WrongChecksum(bad, tail);
    RecordsRead(before, bad + tail);
    assert before + [] == before;
  }

  lemma SameLength(a: seq<byte>, b: seq<byte>, at: nat)
    requires SameOutside(a, b, at)
    ensures |a| == |b|
  {
  }

  lemma BodySplit(a: seq<byte>, b: seq<byte>)
    requires |a| == |b| >= RECORD_HEADER && Body(a) == Body(b)
    ensures a[..20] == b[..20] && a[24..] == b[24..]
  {
    assert Body(a)[..20] == a[..20] && Body(b)[..20] == b[..20];
    assert Body(a)[20..] == a[24..] && Body(b)[20..] == b[24..];
  }
}
