/** Recovery end to end: a snapshot saved from the live book, a crash that tears the last journal, and
    the replay engine. */
module Recovery {
  import opened Domain
  import opened Bytes
  import opened BookSpec
  import opened EngineSpec
  import opened OrderBooks
  import opened Wal
  import opened Journals
  import opened Commands
  import opened Replay
  import opened SnapshotFormat
  import opened SnapshotLaws
  import opened Rebuilding
  import opened Snapshots
  import opened ReplayEngines

  lemma {:induction false} QuietSuffix(book: Book, cmds: seq<OrderCommand>, k: nat)
    requires WellFormed(book) && QuietRun(book, cmds) && Roomy(book, cmds) && k <= |cmds|
    ensures var mid := Live(book, cmds[..k]); WellFormed(mid) && QuietRun(mid, cmds[k..]) && Roomy(mid, cmds[k..])
    decreases k
  {
    hide LiveStep, Quiet, WellFormed, Insertable;
    if k == 0 {
      assert cmds[..0] == [] && cmds[0..] == cmds;
    } else {
      LiveKeeps(book, cmds[0]);
      QuietSuffix(LiveStep(book, cmds[0]), cmds[1..], k - 1);
      assert cmds[..k][1..] == cmds[1..][..k - 1] && cmds[1..][k - 1..] == cmds[k..];
    }
  }

  lemma {:induction false} RoomyPrefix(book: Book, cmds: seq<OrderCommand>, k: nat)
    requires Roomy(book, cmds) && k <= |cmds|
    ensures Roomy(book, cmds[..k])
    decreases |cmds|
  {
    hide LiveStep, Insertable;
    if k > 0 {
      RoomyPrefix(LiveStep(book, cmds[0]), cmds[1..], k - 1);
      assert cmds[..k][1..] == cmds[1..][..k - 1];
    }
  }

  lemma {:induction false} PlayableSkips(p: Progress, done: seq<LogEntry>, more: seq<LogEntry>)
    requires AtMost(done, p.seqNum) && Playable(p, more)
    ensures Playable(p, done + more)
    decreases |done|
  {
    hide Possible, Effect;
    if done == [] {
      assert done + more == more;
    } else {
      assert AtMost(done[1..], p.seqNum);
      PlayableSkips(p, done[1..], more);
      assert (done + more)[1..] == done[1..] + more;
    }
  }

  /** Replaying the kept part of the journals on the saved live book is possible at every step, and ends
      in the live book of the saved point or of the last whole record, whichever is later. */
  lemma KeptOnSaved(kept: seq<LogEntry>, cmds: seq<OrderCommand>, k: nat, s: u64, from: nat)
    requires |kept| <= |cmds| && Recorded(kept, cmds[..|kept|]) && Numbered(cmds, 0) && QuietRun(EMPTY, cmds) &&
             Roomy(EMPTY, cmds)
    requires k <= |cmds| && (k > 0 ==> cmds[k - 1].sequence <= s) && (k < |cmds| ==> s < cmds[k].sequence)
    requires from <= k && from <= |kept|
    ensures var start, last := Progress(Live(EMPTY, cmds[..k]), s), if k <= |kept| then |kept| else k;
            Playable(start, kept[from..]) && Replayed(start, kept[from..]).book == Live(EMPTY, cmds[..last])
  {
    hide Recorded, Numbered, QuietRun, Roomy, Playable, Replayed, Live, AtMost;
    var done := |kept|;
    var start := Progress(Live(EMPTY, cmds[..k]), s);
    if k <= done {
      QuietPrefix(EMPTY, cmds, done);
      RoomyPrefix(EMPTY, cmds, done);
      NumberedPrefix(cmds, done);
      assert cmds[..done][..k] == cmds[..k];
      SnapshotIsLive(kept, cmds[..done], k, s, from);
      PlayableOnSaved(kept, cmds[..done], k, s, from);
    } else {
      SkippedAll(kept, cmds, k, s, from);
      ReplaySkips(start, kept[from..]);
      NothingPlayable(start);
      PlayableSkips(start, kept[from..], []);
      assert kept[from..] + [] == kept[from..];
    }
  }

  lemma NothingPlayable(p: Progress)
    ensures Playable(p, [])
  {
  }

  lemma NumberedPrefix(cmds: seq<OrderCommand>, k: nat)
    requires Numbered(cmds, 0) && k <= |cmds|
    ensures Numbered(cmds[..k], 0)
  {
  }

  lemma SkippedAll(kept: seq<LogEntry>, cmds: seq<OrderCommand>, k: nat, s: u64, from: nat)
    requires |kept| < k <= |cmds| && Recorded(kept, cmds[..|kept|]) && Numbered(cmds, 0) &&
             cmds[k - 1].sequence <= s && from <= |kept|
    ensures AtMost(kept[from..], s)
  {
    hide RecordOf;
    forall i | from <= i < |kept|
      ensures kept[i].header.sequence <= s
    {
      SequenceOf(kept[i], cmds[..|kept|][i]);
      assert i < k - 1 ==> cmds[i].sequence < cmds[k - 1].sequence;
    }
  }

  lemma PlayableOnSaved(kept: seq<LogEntry>, cmds: seq<OrderCommand>, k: nat, s: u64, from: nat)
    requires Recorded(kept, cmds) && Numbered(cmds, 0) && QuietRun(EMPTY, cmds) && Roomy(EMPTY, cmds)
    requires from <= k <= |cmds| && (k > 0 ==> cmds[k - 1].sequence <= s) && (k < |cmds| ==> s < cmds[k].sequence) &&
             k <= |kept|
    ensures Playable(Progress(Live(EMPTY, cmds[..k]), s), kept[from..])
  {
    hide QuietRun, Roomy, Playable, Live, AtMost, RecordOf, WellFormed, Increasing;
    EmptyFormed();
    QuietSuffix(EMPTY, cmds, k);
    var mid := Live(EMPTY, cmds[..k]);
    NumberedSuffix(cmds, k, s);
    assert Recorded(kept[k..], cmds[k..]);
    QuietPlayable(mid, s, kept[k..], cmds[k..]);
    RecordedIncreasing(kept, cmds, 0);
    BoundsOf(kept, cmds, k, s);
    EarlierAtMost(kept, from, k, s);
    PlayableSkips(Progress(mid, s), kept[from..k], kept[k..]);
    CutAt(kept, from, k);
  }

  lemma NumberedSuffix(cmds: seq<OrderCommand>, k: nat, s: u64)
    requires Numbered(cmds, 0) && k <= |cmds| && (k < |cmds| ==> s < cmds[k].sequence)
    ensures Numbered(cmds[k..], s)
  {
    forall i | 0 <= i < |cmds[k..]|
      ensures s < cmds[k..][i].sequence
    {
      assert i > 0 ==> cmds[k].sequence < cmds[k + i].sequence;
    }
  }

  lemma {:induction false} PlayableConcat(p: Progress, a: seq<LogEntry>, b: seq<LogEntry>)
    requires Playable(p, a) && Playable(Replayed(p, a), b)
    ensures Playable(p, a + b)
    decreases |a|
  {
    hide Possible, Apply;
    if a == [] {
      assert a + b == b;
    } else {
      PlayableConcat(Apply(p, a[0]), a[1..], b);
      assert (a + b)[1..] == a[1..] + b;
    }
  }

  lemma StalePlayable(p: Progress, entries: seq<LogEntry>, stale: seq<LogEntry>)
    requires Playable(p, entries) && AtMost(stale, Reached(entries, p.seqNum))
    ensures Playable(p, entries + stale) && Replayed(p, entries + stale) == Replayed(p, entries)
  {
    hide Playable, Replayed;
    var q := Replayed(p, entries);
    ReplayReaches(p, entries);
    NothingPlayable(q);
    PlayableSkips(q, stale, []);
    assert stale + [] == stale;
    PlayableConcat(p, entries, stale);
    StaleSkips(p, entries, stale);
  }

  /** Save the live book of a non-crossing history after its first `k` commands, lose the last journal from
      byte `n` on, and recover, into any book, from the snapshot and the journals from number `index`
      on. The book is the live one as of the saved point or the last whole record, whichever is later;
      older files behind the last journal may hold anything up to the sequence reached, and recovery
      succeeds exactly when they read intact, as no files do. */
  method SaveCrashRecover(live: LimitOrderBook, target: LimitOrderBook, s: u64, timestamp: u64, index: u64,
                          found: map<nat, seq<byte>>, ghost files: map<nat, seq<byte>>, ghost n: nat,
                          ghost stamps: seq<FileHeader>, ghost segments: seq<seq<LogEntry>>,
                          ghost cmds: seq<OrderCommand>, ghost k: nat)
    returns (ok: bool)
    requires live.Valid() && target.Valid() && k <= |cmds| && live.Abs() == Live(EMPTY, cmds[..k])
    requires Holds(files, stamps, segments) && Recorded(Flat(segments), cmds)
    requires segments != [] && |segments| in files && FILE_HEADER <= n <= |files[|segments|]|
    requires found == Torn(files, |segments|, n)
    requires Numbered(cmds, 0) && QuietRun(EMPTY, cmds) && Roomy(EMPTY, cmds)
    requires (k > 0 ==> cmds[k - 1].sequence <= s) && (k < |cmds| ==> s < cmds[k].sequence)
    requires 1 <= index <= |segments| && |Flat(segments[..index - 1])| <= k
    requires AtMost(ReadFrom(found, |segments| + 1).entries, Reached(Flat(Kept(segments, n)[index - 1..]), s))
    modifies target, target.bids, target.asks, target.levelPool, target.orderPool
    ensures target.Valid() && ok == ReadFrom(found, |segments| + 1).intact
    ensures var whole := |Flat(Kept(segments, n))|;
            whole <= |cmds| && target.Abs() == Live(EMPTY, cmds[..if k <= whole then whole else k])
  {
    hide LimitOrderBook.Abs, LimitOrderBook.Valid, Holds, Recorded, Numbered, QuietRun, Roomy, Live, Flat, Kept, Torn,
      SnapshotBytes,
      GoodSnapshot, Loads, InsertsOf, Inserted, Fillable, Playable, Replayed, ReadFrom, SnapshotHeaderOf, AtMost,
        Reached;
    var file := Save(live, s, timestamp);
    SnapshotRestores(live, s, timestamp);
    TornRead(files, stamps, segments, n, cmds, index - 1);
    KeptBefore(segments, n, index - 1);
    ghost var from := |Flat(segments[..index - 1])|;
    KeptOnSaved(Flat(Kept(segments, n)), cmds, k, s, from);
    StalePlayable(Progress(Live(EMPTY, cmds[..k]), s), Flat(Kept(segments, n))[from..],
                  ReadFrom(found, |segments| + 1).entries);
    ok := Recover(target, Some(Metadata(s, index)), map[s := file], found);
  }

  /** Without a snapshot, or with metadata that names one that is missing: recover into an empty book from
      all the journals of a non-crossing history, the last one lost from byte `n` on. The book is the live
      one as of the last whole record. */
  method CrashRecover(target: LimitOrderBook, meta: Option<Metadata>, snapshots: map<u64, seq<byte>>,
                      found: map<nat, seq<byte>>, ghost files: map<nat, seq<byte>>, ghost n: nat,
                      ghost stamps: seq<FileHeader>, ghost segments: seq<seq<LogEntry>>, ghost cmds: seq<OrderCommand>)
    returns (ok: bool)
    requires target.Valid() && target.Abs() == EMPTY
    requires meta.Some? ==> meta.value.latestSnapshotSequence !in snapshots
    requires Holds(files, stamps, segments) && Recorded(Flat(segments), cmds)
    requires segments != [] && |segments| in files && FILE_HEADER <= n <= |files[|segments|]|
    requires found == Torn(files, |segments|, n)
    requires Numbered(cmds, 0) && QuietRun(EMPTY, cmds) && Roomy(EMPTY, cmds)
    requires AtMost(ReadFrom(found, |segments| + 1).entries, Reached(Flat(Kept(segments, n)), 0))
    modifies target, target.bids, target.asks, target.levelPool, target.orderPool
    ensures target.Valid() && ok == ReadFrom(found, |segments| + 1).intact
    ensures var whole := |Flat(Kept(segments, n))|; whole <= |cmds| && target.Abs() == Live(EMPTY, cmds[..whole])
  {
    hide LimitOrderBook.Abs, LimitOrderBook.Valid, Holds, Recorded, Numbered, QuietRun, Roomy, Live, Flat, Kept, Torn,
      GoodSnapshot, Loads, InsertsOf, Inserted, Fillable, Playable, Replayed, ReadFrom, SnapshotHeaderOf, AtMost,
      Reached;
    TornRead(files, stamps, segments, n, cmds, 0);
    NothingBefore(segments);
    NoneLive(cmds);
    assert Flat(Kept(segments, n))[0..] == Flat(Kept(segments, n));
    FirstNumbered(cmds);
    KeptOnSaved(Flat(Kept(segments, n)), cmds, 0, 0, 0);
    StalePlayable(START, Flat(Kept(segments, n)), ReadFrom(found, |segments| + 1).entries);
    ok := Recover(target, meta, snapshots, found);
  }

  lemma NoneLive(cmds: seq<OrderCommand>)
    ensures Live(EMPTY, cmds[..0]) == EMPTY
  {
  }

  lemma FirstNumbered(cmds: seq<OrderCommand>)
    requires Numbered(cmds, 0)
    ensures 0 < |cmds| ==> 0 < cmds[0].sequence
  {
  }
}
