/** The replay engine on the linked book: one journal, and recovery from a snapshot and journals. */
module ReplayEngines {
  import opened Domain
  import opened Bytes
  import opened Crc32c
  import opened BookSpec
  import opened EngineSpec
  import opened BookRep
  import opened SideRep
  import opened OrderBooks
  import opened Wal
  import opened Journals
  import opened Commands
  import opened Replay
  import opened SnapshotFormat
  import opened SnapshotLaws
  import opened Rebuilding
  import opened Snapshots

  /** What is still to be replayed completes what was to be replayed in all. */
  ghost predicate Pending(now: Progress, rest: Scan, first: Progress, whole: Scan) {
    && Playable(now, rest.entries) && Replayed(now, rest.entries) == Replayed(first, whole.entries)
    && rest.intact == whole.intact
  }

  /** The record that starts at `pos`, when it is whole and its checksum is right. */
  ghost predicate RecordAt(file: seq<byte>, pos: nat, e: LogEntry) {
    && pos + RECORD_HEADER + |e.payload| <= |file|
    && e.header == HeaderOf(file[pos..pos + RECORD_HEADER]) && |e.payload| == e.header.payloadLength
    && e.payload == file[pos + RECORD_HEADER..pos + RECORD_HEADER + |e.payload|]
    && e.header.checksum == Check(file[pos..pos + CHECKSUM_AT], e.payload)
  }

  lemma NextRecord(file: seq<byte>, pos: nat, e: LogEntry, now: Progress, first: Progress, whole: Scan)
    requires pos <= |file| && RecordAt(file, pos, e) && Pending(now, Records(file[pos..]), first, whole)
    ensures now.seqNum < e.header.sequence ==> Possible(now.book, e)
    ensures Pending(Apply(now, e), Records(file[pos + RECORD_HEADER + |e.payload|..]), first, whole)
  {
    hide Check, HeaderOf, Apply, Possible;
    var s, end := file[pos..], RECORD_HEADER + |e.payload|;
    assert s[..RECORD_HEADER] == file[pos..pos + RECORD_HEADER] && s[..CHECKSUM_AT] == file[pos..pos + CHECKSUM_AT];
    assert s[RECORD_HEADER..end] == e.payload && s[end..] == file[pos + end..];
    assert Records(s).entries == [e] + Records(s[end..]).entries;
    assert Records(s).entries[1..] == Records(s[end..]).entries;
  }

  /** A short header or payload ends the journal in good order, a wrong checksum in failure. */
  lemma LastRecord(file: seq<byte>, pos: nat, now: Progress, first: Progress, whole: Scan)
    requires pos <= |file| && Pending(now, Records(file[pos..]), first, whole)
    ensures |file| - pos < RECORD_HEADER ==> now == Replayed(first, whole.entries) && whole.intact
    ensures |file| - pos >= RECORD_HEADER ==>
              var length := HeaderOf(file[pos..pos + RECORD_HEADER]).payloadLength;
              && (|file| - pos - RECORD_HEADER < length ==> now == Replayed(first, whole.entries) && whole.intact)
              && (|file| - pos - RECORD_HEADER >= length
                  && HeaderOf(file[pos..pos + RECORD_HEADER]).checksum
                     != Check(file[pos..pos + CHECKSUM_AT], file[pos + RECORD_HEADER..pos + RECORD_HEADER + length])
                  ==> now == Replayed(first, whole.entries) && !whole.intact)
  {
    hide Check, HeaderOf;
    var s := file[pos..];
    if |s| >= RECORD_HEADER {
      assert s[..RECORD_HEADER] == file[pos..pos + RECORD_HEADER] && s[..CHECKSUM_AT] == file[pos..pos + CHECKSUM_AT];
      var end := RECORD_HEADER + HeaderOf(s[..RECORD_HEADER]).payloadLength;
      if |s| >= end {
        assert s[RECORD_HEADER..end] == file[pos + RECORD_HEADER..pos + end];
      }
    }
  }

  /** Apply one record to the book. */
  method ApplyRecord(e: LogEntry, book: LimitOrderBook, currentSeq: u64) returns (reached: u64)
    requires book.Valid() && (currentSeq < e.header.sequence ==> Possible(book.Abs(), e))
    modifies book, book.bids, book.asks, book.levelPool, book.orderPool
    ensures book.Valid() && Progress(book.Abs(), reached) == Apply(Progress(old(book.Abs()), currentSeq), e)
  {
    hide Sides, LookupOk, NoEmptyQueue, PoolOk, CommandOf, InsertSpec, CancelSpec, Insertable, NoSharedPrice;
    reached := currentSeq;
    if e.header.sequence <= currentSeq {
      return;
    }
    if |e.payload| == COMMAND_SIZE {
      var c := CommandOf(e.payload);
      if e.header.messageType == NEW_ORDER {
        InsertInto(book, OrderOf(c), c.sequence);
      } else if e.header.messageType == CANCEL_ORDER {
        var found := book.Cancel(c.origClientOrderId);
      }
    }
    reached := e.header.sequence;
  }

  /** Replaying a journal does to the book and the sequence exactly what its readable records do in
      order, and succeeds exactly when the header is right and no checksum is wrong. */
  method ReplayJournal(file: seq<byte>, book: LimitOrderBook, currentSeq: u64) returns (ok: bool, reached: u64)
    requires book.Valid()
    requires GoodHeader(file) ==> Playable(Progress(book.Abs(), currentSeq), Records(file[FILE_HEADER..]).entries)
    modifies book, book.bids, book.asks, book.levelPool, book.orderPool
    ensures book.Valid()
    ensures ok == (GoodHeader(file) && Records(file[FILE_HEADER..]).intact)
    ensures Progress(book.Abs(), reached) ==
              var first := Progress(old(book.Abs()), currentSeq);
              if GoodHeader(file) then Replayed(first, Records(file[FILE_HEADER..]).entries) else first
  {
    hide Sides, LookupOk, NoEmptyQueue, PoolOk, Check, Crc, Complement, HeaderOf, FileHeaderOf, Records, Apply,
      Possible, Playable,
      Replayed, Pending, Word32;
    ok, reached := false, currentSeq;
    if |file| < FILE_HEADER {
      return;
    }
    var header := FileHeaderOf(file[..FILE_HEADER]);
    if header.magic != WAL_MAGIC || header.version != WAL_VERSION {
      return;
    }
    ghost var first, whole := Progress(book.Abs(), currentSeq), Records(file[FILE_HEADER..]);
    AllPending(first, whole);
    var pos := FILE_HEADER;
    ok := true;
    while pos < |file|
      invariant FILE_HEADER <= pos <= |file| && book.Valid() && ok
      invariant Pending(Progress(book.Abs(), reached), Records(file[pos..]), first, whole)
      decreases |file| - pos
    {
      LastRecord(file, pos, Progress(book.Abs(), reached), first, whole);
      if |file| - pos < RECORD_HEADER {
        return;
      }
      var h := HeaderOf(file[pos..pos + RECORD_HEADER]);
      if |file| - pos - RECORD_HEADER < h.payloadLength {
        return;
      }
      var payload := file[pos + RECORD_HEADER..pos + RECORD_HEADER + h.payloadLength];
      var crc := Checksum(file[pos..pos + CHECKSUM_AT], INITIAL_CRC);
      crc := Checksum(payload, Complement(crc));
      CheckIs(file[pos..pos + CHECKSUM_AT], payload);
      if h.checksum != Word32(crc) {
        ok := false;
        return;
      }
      NextRecord(file, pos, LogEntry(h, payload), Progress(book.Abs(), reached), first, whole);
      reached := ApplyRecord(LogEntry(h, payload), book, reached);
      pos := pos + RECORD_HEADER + h.payloadLength;
    }
    LastRecord(file, pos, Progress(book.Abs(), reached), first, whole);
  }

  lemma CheckIs(prefix: seq<byte>, payload: seq<byte>)
    ensures Check(prefix, payload) == Word32(Crc(payload, Complement(Crc(prefix, INITIAL_CRC))))
  {
  }

  lemma AllPending(first: Progress, whole: Scan)
    requires Playable(first, whole.entries)
    ensures Pending(first, whole, first, whole)
  {
  }

  // ----- recovery

  /** What `latest.meta` says, when it could be read. */
  datatype Metadata = Metadata(latestSnapshotSequence: u64, currentJournalIndex: u64)

  /** The snapshot that recovery loads, if any. */
  ghost function Latest(meta: Option<Metadata>, snapshots: map<u64, seq<byte>>): Option<seq<byte>> {
    if meta.Some? && meta.value.latestSnapshotSequence in snapshots
    then Some(snapshots[meta.value.latestSnapshotSequence]) else None
  }

  ghost function FirstJournal(meta: Option<Metadata>, snapshots: map<u64, seq<byte>>): nat {
    if Latest(meta, snapshots).Some? then meta.value.currentJournalIndex else 1
  }

  /** Where replay starts: the loaded snapshot under its own sequence, or the book as it is at zero. */
  ghost function Base(book: Book, latest: Option<seq<byte>>): Progress {
    if latest.None? then Progress(book, 0)
    else if !GoodSnapshot(latest.value) then Progress(book, 0)
    else Progress(Inserted(EMPTY, InsertsOf(latest.value)), SnapshotHeaderOf(latest.value[..SNAPSHOT_HEADER]).sequence)
  }

  ghost predicate Usable(latest: Option<seq<byte>>) {
    latest.Some? ==> GoodSnapshot(latest.value) && Loads(latest.value)
  }

  lemma {:induction false} PlayableConcat(p: Progress, a: seq<LogEntry>, b: seq<LogEntry>)
    requires Playable(p, a + b)
    ensures Playable(p, a) && Playable(Replayed(p, a), b)
    decreases |a|
  {
    hide Apply, Possible;
    if a == [] {
      assert a + b == b;
    } else {
      assert (a + b)[1..] == a[1..] + b;
      PlayableConcat(Apply(p, a[0]), a[1..], b);
    }
  }

  /** The journal in front of those still to be replayed. */
  lemma NextJournal(files: map<nat, seq<byte>>, k: nat, now: Progress, first: Progress, whole: Scan)
    requires Pending(now, ReadFrom(files, k), first, whole)
    ensures k !in files ==> now == Replayed(first, whole.entries) && whole.intact
    ensures k in files && !GoodHeader(files[k]) ==> now == Replayed(first, whole.entries) && !whole.intact
    ensures k in files && GoodHeader(files[k]) ==>
              var here := Records(files[k][FILE_HEADER..]);
              && Playable(now, here.entries)
              && (if here.intact then Pending(Replayed(now, here.entries), ReadFrom(files, k + 1), first, whole)
                  else Replayed(now, here.entries) == Replayed(first, whole.entries) && !whole.intact)
  {
    hide Records, FileHeaderOf, Playable, Replayed;
    NothingReplayed(now);
    if k in files && GoodHeader(files[k]) {
      var here := Records(files[k][FILE_HEADER..]);
      if here.intact {
        PlayableConcat(now, here.entries, ReadFrom(files, k + 1).entries);
        ReplayConcat(now, here.entries, ReadFrom(files, k + 1).entries);
      }
    }
  }

  lemma NothingReplayed(p: Progress)
    ensures Replayed(p, []) == p
  {
  }

  /** Recovery fails when the snapshot named by the metadata does not load or a journal fails; the book
      is then what could be recovered. Otherwise the book is the snapshot, or the given book, with all
      journals from the recorded one, or the first, replayed on it. */
  method Recover(book: LimitOrderBook, meta: Option<Metadata>, snapshots: map<u64, seq<byte>>,
                 journals: map<nat, seq<byte>>)
    returns (ok: bool)
    requires book.Valid()
    requires var latest := Latest(meta, snapshots);
             && (latest.Some? && GoodSnapshot(latest.value) ==> Fillable(EMPTY, InsertsOf(latest.value)))
             && (Usable(latest) ==>
                 Playable(Base(book.Abs(), latest), ReadFrom(journals, FirstJournal(meta, snapshots)).entries))
    modifies book, book.bids, book.asks, book.levelPool, book.orderPool
    ensures book.Valid()
    ensures var latest, read := Latest(meta, snapshots), ReadFrom(journals, FirstJournal(meta, snapshots));
            && ok == (Usable(latest) && read.intact)
            && book.Abs() == (var base := Base(old(book.Abs()), latest);
                              if Usable(latest) then Replayed(base, read.entries).book else base.book)
  {
    hide Sides, LookupOk, NoEmptyQueue, PoolOk, Records, GoodHeader, Playable, Replayed, Pending, ReadFrom,
      GoodSnapshot, Loads, InsertsOf, Inserted, Fillable, SnapshotHeaderOf;
    var lastSeq, timestamp := 0, 0;
    var index: nat := 1;
    ok := true;
    if meta.Some? && meta.value.latestSnapshotSequence in snapshots {
      ok, lastSeq, timestamp := Load(snapshots[meta.value.latestSnapshotSequence], book);
      if !ok {
        return;
      }
      index := meta.value.currentJournalIndex;
    }
    ghost var first, whole := Progress(book.Abs(), lastSeq), ReadFrom(journals, index);
    AllPending(first, whole);
    while index in journals
      invariant book.Valid() && index >= 0 && ok
      invariant Pending(Progress(book.Abs(), lastSeq), ReadFrom(journals, index), first, whole)
      decreases From(journals, index)
    {
      NextJournal(journals, index, Progress(book.Abs(), lastSeq), first, whole);
      FromLess(journals, index);
      ok, lastSeq := ReplayJournal(journals[index], book, lastSeq);
      if !ok {
        return;
      }
      index := index + 1;
    }
    NextJournal(journals, index, Progress(book.Abs(), lastSeq), first, whole);
  }
}
