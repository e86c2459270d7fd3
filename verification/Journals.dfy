/** The journal writers: building a record for the queue, writing records to rotating files, and
    reading a whole directory of files back. */
module Journals {
  import opened Domain
  import opened Bytes
  import opened Crc32c
  import opened Wal

  /** The bounded queue between the engine and the journal thread. */
  class EntryQueue {
    const capacity: nat
    var items: seq<LogEntry>

    constructor (capacity: nat)
      ensures items == [] && this.capacity == capacity
    {
      this.capacity := capacity;
      items := [];
    }

    method Push(e: LogEntry) returns (ok: bool)
      modifies this
      ensures ok == (|old(items)| < capacity)
      ensures items == if ok then old(items) + [e] else old(items)
    {
      ok := |items| < capacity;
      if ok {
        items := items + [e];
      }
    }
  }

  /** `MemoryJournal::append`: an oversized payload or a full queue leaves the queue as it was;
      otherwise exactly the sealed record of the given fields joins it. */
  method Append(queue: EntryQueue, sequence: u64, timestamp: u64, messageType: u16, data: seq<byte>) returns (ok: bool)
    modifies queue
    ensures ok == (|data| <= 256 && |old(queue.items)| < queue.capacity)
    ensures !ok ==> queue.items == old(queue.items)
    ensures ok ==> exists e ::
              && Sealed(e) && e.payload == data && queue.items == old(queue.items) + [e]
              && e.header.sequence == sequence && e.header.timestamp == timestamp && e.header.messageType == messageType
  {
    hide HeaderBytes, Crc, Complement, Check;
    if |data| > MAX_PAYLOAD {
      return false;
    }
    var header := RecordHeader(sequence, timestamp, messageType, |data|, 0);
    var crc := Checksum(HeaderBytes(header)[..CHECKSUM_AT], INITIAL_CRC);
    crc := Checksum(data, Complement(crc));
    var e := LogEntry(header.(checksum := Word32(crc)), data);
    SealedBy(header, data, crc);
    ok := queue.Push(e);
  }

  /** The bytes a record's checksum is computed over. */
  function CheckedFields(h: RecordHeader): (r: seq<byte>)
    ensures |r| == CHECKSUM_AT
  {
    assert [8, 8, 2, 2][1..] == [8, 2, 2] && [8, 2, 2][1..] == [2, 2] && [2, 2][1..] == [2] && Size([2]) == 2;
    Pack([8, 8, 2, 2], [h.sequence, h.timestamp, h.messageType, h.payloadLength])
  }

  lemma PrefixOnly(h: RecordHeader)
    ensures HeaderBytes(h)[..CHECKSUM_AT] == CheckedFields(h)
  {
    hide Pack;
    var fields, values := [8, 8, 2, 2], [h.sequence, h.timestamp, h.messageType, h.payloadLength];
    assert fields + [4] == RECORD_FIELDS;
    assert values + [h.checksum] == [h.sequence, h.timestamp, h.messageType, h.payloadLength, h.checksum];
    PackConcat(fields, values, [4], [h.checksum]);
    assert |CheckedFields(h)| == CHECKSUM_AT;
  }

  lemma SealedBy(h: RecordHeader, data: seq<byte>, crc: bv32)
    requires h.payloadLength == |data| && crc == Crc(data, Complement(Crc(HeaderBytes(h)[..CHECKSUM_AT], INITIAL_CRC)))
    ensures Sealed(LogEntry(h.(checksum := Word32(crc)), data))
  {
    hide HeaderBytes, Crc, Complement;
    PrefixOnly(h);
    PrefixOnly(h.(checksum := Word32(crc)));
  }

  /** The sealed record of these fields. */
  function Seal(sequence: u64, timestamp: u64, messageType: u16, data: seq<byte>): (e: LogEntry)
    requires |data| < 0x1_0000
    ensures Sealed(e) && e.payload == data
    ensures e.header.sequence == sequence && e.header.timestamp == timestamp && e.header.messageType == messageType
  {
    hide HeaderBytes, Crc, Complement, Check, Sealed;
    var h := RecordHeader(sequence, timestamp, messageType, |data|, 0);
    var crc := Crc(data, Complement(Crc(HeaderBytes(h)[..CHECKSUM_AT], INITIAL_CRC)));
    SealedBy(h, data, crc);
    LogEntry(h.(checksum := Word32(crc)), data)
  }

  // ----- files

  ghost function Flat(segments: seq<seq<LogEntry>>): seq<LogEntry> {
    if segments == [] then [] else segments[0] + Flat(segments[1..])
  }

  lemma {:induction false} FlatAppend(a: seq<seq<LogEntry>>, last: seq<LogEntry>)
    ensures Flat(a + [last]) == Flat(a) + last
  {
    if a == [] {
      assert [last][1..] == [];
      assert a + [last] == [last];
    } else {
      FlatAppend(a[1..], last);
      assert (a + [last])[1..] == a[1..] + [last];
    }
  }

  lemma {:induction false} FlatSplit(segments: seq<seq<LogEntry>>, j: nat)
    requires j <= |segments|
    ensures Flat(segments) == Flat(segments[..j]) + Flat(segments[j..])
    decreases |segments|
  {
    if j == 0 {
      assert segments[0..] == segments && segments[..0] == [];
    } else {
      FlatSplit(segments[1..], j - 1);
      assert segments[..j][1..] == segments[1..][..j - 1] && segments[1..][j - 1..] == segments[j..];
    }
  }

  ghost predicate Stamped(h: FileHeader) {
    h == Stamp(h.startSequence, h.timestamp)
  }

  /** Journals 1, 2, ... hold these stamps and these records. */
  ghost predicate Holds(files: map<nat, seq<byte>>, stamps: seq<FileHeader>, segments: seq<seq<LogEntry>>) {
    && |stamps| == |segments|
    && (forall k :: 0 <= k < |stamps| ==> Stamped(stamps[k]))
    && (forall k :: 1 <= k <= |segments| ==> k in files && files[k] == FileBytes(stamps[k - 1], segments[k - 1]))
  }

  class DiskJournal {
    const maxFileSize: nat
    /** The directory: contents by journal number. */
    var files: map<nat, seq<byte>>
    var fileIndex: nat
    var open: bool
    var currentBytes: nat
    ghost var stamps: seq<FileHeader>
    ghost var segments: seq<seq<LogEntry>>

    ghost predicate Valid()
      reads this
    {
      && Holds(files, stamps, segments) && |segments| == fileIndex
      && (open ==> fileIndex > 0 && currentBytes == |files[fileIndex]|)
    }

    /** Everything written so far. */
    ghost function Written(): seq<LogEntry>
      reads this
    {
      Flat(segments)
    }

    constructor (maxFileSize: nat, directory: map<nat, seq<byte>>)
      ensures Valid() && Written() == [] && files == directory && fileIndex == 0 && !open
      ensures this.maxFileSize == maxFileSize
    {
      this.maxFileSize := maxFileSize;
      files, fileIndex, open, currentBytes := directory, 0, false, 0;
      stamps, segments := [], [];
    }

    method RotateFile(sequence: u64, now: u64)
      requires Valid()
      modifies this
      ensures Valid() && open && fileIndex == old(fileIndex) + 1 && currentBytes == FILE_HEADER
      ensures segments == old(segments) + [[]] && Written() == old(Written())
      ensures files == old(files)[fileIndex := files[fileIndex]]
    {
      hide FileHeaderBytes, Flat;
      fileIndex := fileIndex + 1;
      var header := Stamp(sequence, now);
      files := files[fileIndex := FileHeaderBytes(header)];
      open, currentBytes := true, FILE_HEADER;
      stamps, segments := stamps + [header], segments + [[]];
      assert FileBytes(header, []) == FileHeaderBytes(header) + [];
      FlatAppend(old(segments), []);
    }

    /** Append the record to the current file, or to a new one when there is none or it is full. */
    method WriteEntry(e: LogEntry, now: u64)
      requires Valid() && e.header.payloadLength == |e.payload|
      modifies this
      ensures Valid() && open && Written() == old(Written()) + [e]
      ensures fileIndex == old(fileIndex) + if old(open && currentBytes < maxFileSize) then 0 else 1
      ensures files == old(files)[fileIndex := files[fileIndex]]
    {
      hide Flat, HeaderBytes, Holds, FileBytes;
      if !open || currentBytes >= maxFileSize {
        RotateFile(e.header.sequence, now);
      }
      LastHeld(files, stamps, segments);
      ghost var before := files;
      files := files[fileIndex := files[fileIndex] + HeaderBytes(e.header)];
      files := files[fileIndex := files[fileIndex] + e.payload];
      currentBytes := currentBytes + RECORD_HEADER + e.header.payloadLength;
      Extended(before, stamps, segments, e);
      assert before[fileIndex] + HeaderBytes(e.header) + e.payload == before[fileIndex] + EntryBytes(e);
      assert files == before[fileIndex := before[fileIndex] + EntryBytes(e)];
      segments := segments[fileIndex - 1 := segments[fileIndex - 1] + [e]];
    }

    /** Reading the directory gives back everything written, in order, through every rotation, and
        then whatever an older file behind the last journal holds; so it gives back just what was
        written exactly when nothing can be read from there. */
    lemma ReadsBack()
      requires Valid() && AllSealed(Written())
      ensures var stale := ReadFrom(files, fileIndex + 1);
              && ReadFrom(files, 1) == Scan(Written() + stale.entries, stale.intact)
              && (ReadFrom(files, 1) == Scan(Written(), true) <==> stale == Scan([], true))
              && (fileIndex + 1 !in files ==> stale == Scan([], true))
    {
      hide ReadFrom, Holds, Flat, AllSealed, SegmentsSealed;
      NoJournal(files, fileIndex + 1);
      FlatSealed(segments);
      ReadBack(files, stamps, segments, 0);
      assert segments[0..] == segments;
      NothingMore(Written(), ReadFrom(files, fileIndex + 1).entries);
    }

    method Stop()
      requires Valid()
      modifies this`open
      ensures Valid() && !open
    {
      open := false;
    }
  }

  /** A new journal over a directory in which an earlier one left a second file: reading back what was
      written goes on with the older records. */
  method StaleExample(e: LogEntry, older: seq<LogEntry>, maxFileSize: nat, now: u64) returns (journal: DiskJournal)
    requires Sealed(e) && AllSealed(older) && older != []
    ensures journal.Valid() && journal.Written() == [e]
    ensures ReadFrom(journal.files, 1) == Scan([e] + older, true) != Scan(journal.Written(), true)
  {
    hide ReadFrom, FileBytes, Flat, Holds, Sealed, Records, GoodHeader;
    SealedLength(e);
    var left := FileBytes(Stamp(0, 0), older);
    journal := new DiskJournal(maxFileSize, map[2 := left]);
    journal.WriteEntry(e, now);
    assert journal.files[2] == left;
    FileReadBack(0, 0, older);
    NextJournal(journal.files, 2);
    NoJournal(journal.files, 3);
    assert older + [] == older;
    journal.ReadsBack();
  }

  lemma SealedLength(e: LogEntry)
    requires Sealed(e)
    ensures e.header.payloadLength == |e.payload|
  {
  }

  lemma NextJournal(files: map<nat, seq<byte>>, k: nat)
    requires k in files && GoodHeader(files[k]) && Records(files[k][FILE_HEADER..]).intact
    ensures var here, rest := Records(files[k][FILE_HEADER..]), ReadFrom(files, k + 1);
            ReadFrom(files, k) == Scan(here.entries + rest.entries, rest.intact)
  {
    hide Records, GoodHeader;
  }

  lemma LastHeld(files: map<nat, seq<byte>>, stamps: seq<FileHeader>, segments: seq<seq<LogEntry>>)
    requires Holds(files, stamps, segments) && segments != []
    ensures |segments| in files
  {
  }

  /** One more record at the end of the last file. */
  lemma Extended(files: map<nat, seq<byte>>, stamps: seq<FileHeader>, segments: seq<seq<LogEntry>>, e: LogEntry)
    requires Holds(files, stamps, segments) && segments != [] && |segments| in files
    ensures var n := |segments|; var more := segments[n - 1 := segments[n - 1] + [e]];
            Flat(more) == Flat(segments) + [e] && Holds(files[n := files[n] + EntryBytes(e)], stamps, more)
  {
    hide Flat, EntryBytes, FileHeaderBytes, EntriesBytes;
    var n := |segments| - 1;
    var before := segments[..n];
    assert segments == before + [segments[n]] && segments[n := segments[n] + [e]] == before + [segments[n] + [e]];
    FlatAppend(before, segments[n]);
    FlatAppend(before, segments[n] + [e]);
    EntriesBytesAppend(segments[n], e);
    assert files[n + 1] + EntryBytes(e) == FileBytes(stamps[n], segments[n] + [e]);
  }

  // ----- reading the directory

  ghost function From(files: map<nat, seq<byte>>, k: nat): set<nat> {
    set i | i in files && i >= k
  }

  lemma FromLess(files: map<nat, seq<byte>>, k: nat)
    requires k in files
    ensures From(files, k + 1) < From(files, k)
  {
    assert k in From(files, k) && k !in From(files, k + 1);
  }

  /** All records of journals `k`, `k + 1`, ... up to the first that is missing or fails. */
  ghost function ReadFrom(files: map<nat, seq<byte>>, k: nat): Scan
    decreases From(files, k)
  {
    if k !in files then Scan([], true)
    else if !GoodHeader(files[k]) then Scan([], false)
    else
      var here := Records(files[k][FILE_HEADER..]);
      if !here.intact then here
      else
        FromLess(files, k);
        var rest := ReadFrom(files, k + 1);
        Scan(here.entries + rest.entries, rest.intact)
  }

  ghost predicate SegmentsSealed(segments: seq<seq<LogEntry>>) {
    forall k :: 0 <= k < |segments| ==> AllSealed(segments[k])
  }

  lemma NoJournal(files: map<nat, seq<byte>>, k: nat)
    ensures k !in files ==> ReadFrom(files, k) == Scan([], true)
  {
  }

  lemma NothingMore(a: seq<LogEntry>, b: seq<LogEntry>)
    ensures a + b == a <==> b == []
  {
    assert |a + b| == |a| + |b|;
  }

  /** Reading on from journal `k` gives back exactly what was written from that journal on, and then
      whatever lies behind the last. */
  lemma {:induction false} ReadBack(files: map<nat, seq<byte>>, stamps: seq<FileHeader>, segments: seq<seq<LogEntry>>,
                                    k: nat)
    requires Holds(files, stamps, segments) && SegmentsSealed(segments)
    requires k <= |segments|
    ensures var stale := ReadFrom(files, |segments| + 1);
            ReadFrom(files, k + 1) == Scan(Flat(segments[k..]) + stale.entries, stale.intact)
    decreases |segments| - k
  {
    hide Records, FileBytes, GoodHeader, AllSealed;
    var stale := ReadFrom(files, |segments| + 1);
    if k == |segments| {
      assert Flat(segments[k..]) + stale.entries == stale.entries;
    } else {
      ReadBack(files, stamps, segments, k + 1);
      assert files[k + 1] == FileBytes(stamps[k], segments[k]);
      FileReadBack(stamps[k].startSequence, stamps[k].timestamp, segments[k]);
      assert segments[k..][1..] == segments[k + 1..];
      Regrouped(segments[k], Flat(segments[k + 1..]), stale.entries);
    }
  }

  lemma Regrouped(a: seq<LogEntry>, b: seq<LogEntry>, c: seq<LogEntry>)
    ensures a + b + c == a + (b + c)
  {
  }

  lemma {:induction false} FlatSealed(segments: seq<seq<LogEntry>>)
    requires AllSealed(Flat(segments))
    ensures SegmentsSealed(segments)
  {
    hide Sealed;
    if segments != [] {
      var rest := Flat(segments[1..]);
      assert forall i :: 0 <= i < |rest| ==> rest[i] == Flat(segments)[|segments[0]| + i];
      FlatSealed(segments[1..]);
      assert forall i :: 0 <= i < |segments[0]| ==> segments[0][i] == Flat(segments)[i];
      assert forall k :: 1 <= k < |segments| ==> segments[k] == segments[1..][k - 1];
    }
  }

  /** What is left of the records when the last journal is lost from byte `n` on. */
  ghost function Kept(segments: seq<seq<LogEntry>>, n: nat): seq<seq<LogEntry>>
    requires segments != [] && FILE_HEADER <= n
  {
    var last := |segments| - 1;
    segments[last := segments[last][..Whole(segments[last], n - FILE_HEADER)]]
  }

  lemma KeptPrefix(segments: seq<seq<LogEntry>>, n: nat)
    requires segments != [] && FILE_HEADER <= n
    ensures var last := |segments| - 1;
            Flat(Kept(segments, n)) == Flat(segments[..last]) + segments[last][..Whole(segments[last], n - FILE_HEADER)]
    ensures Flat(Kept(segments, n)) <= Flat(segments)
  {
    hide Whole, Flat;
    var last := |segments| - 1;
    var kept := segments[last][..Whole(segments[last], n - FILE_HEADER)];
    assert segments[..last] + [segments[last]] == segments && segments[..last] + [kept] == Kept(segments, n);
    FlatAppend(segments[..last], segments[last]);
    FlatAppend(segments[..last], kept);
  }

  ghost function Torn(files: map<nat, seq<byte>>, last: nat, n: nat): map<nat, seq<byte>>
    requires last in files && n <= |files[last]|
  {
    files[last := files[last][..n]]
  }

  /** The last journal is lost from byte `n` on: reading on from any journal succeeds on exactly what is
      kept from there, and then goes on behind the last. */
  lemma {:induction false} TornJournal(files: map<nat, seq<byte>>, stamps: seq<FileHeader>,
                                       segments: seq<seq<LogEntry>>, n: nat, k: nat)
    requires Holds(files, stamps, segments) && AllSealed(Flat(segments)) && segments != [] && |segments| in files
    requires FILE_HEADER <= n <= |files[|segments|]| && k <= |segments|
    ensures var stale := ReadFrom(Torn(files, |segments|, n), |segments| + 1);
            ReadFrom(Torn(files, |segments|, n), k + 1) ==
              Scan(Flat(Kept(segments, n)[k..]) + stale.entries, stale.intact)
    decreases |segments| - k
  {
    hide Records, FileBytes, GoodHeader, Sealed, Whole;
    var torn, kept, stale := Torn(files, |segments|, n), Kept(segments, n),
      ReadFrom(Torn(files, |segments|, n), |segments| + 1);
    if k == |segments| {
      assert Flat(kept[k..]) + stale.entries == stale.entries;
    } else {
      TornJournal(files, stamps, segments, n, k + 1);
      TornFile(files, stamps, segments, n, k);
      assert kept[k..][1..] == kept[k + 1..];
      Regrouped(kept[k], Flat(kept[k + 1..]), stale.entries);
    }
  }

  lemma TornFile(files: map<nat, seq<byte>>, stamps: seq<FileHeader>, segments: seq<seq<LogEntry>>, n: nat, k: nat)
    requires Holds(files, stamps, segments) && AllSealed(Flat(segments)) && segments != [] && |segments| in files
    requires FILE_HEADER <= n <= |files[|segments|]| && k < |segments|
    ensures var torn := Torn(files, |segments|, n);
            && k + 1 in torn && GoodHeader(torn[k + 1])
            && Records(torn[k + 1][FILE_HEADER..]) == Scan(Kept(segments, n)[k], true)
  {
    hide Records, FileBytes, Sealed, Whole, Flat;
    FlatSealed(segments);
    assert AllSealed(segments[k]);
    assert files[k + 1] == FileBytes(stamps[k], segments[k]);
    if k + 1 == |segments| {
      CutFile(stamps[k].startSequence, stamps[k].timestamp, segments[k], n);
    } else {
      FileReadBack(stamps[k].startSequence, stamps[k].timestamp, segments[k]);
    }
  }
}
