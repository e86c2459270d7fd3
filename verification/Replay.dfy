/** Replaying journal records into a book: what one record does, what a whole journal does, and
    how that compares with the live path that wrote it. */
module Replay {
  import opened Domain
  import opened Bytes
  import opened BookSpec
  import opened Matching
  import opened EngineSpec
  import opened Wal
  import opened Journals
  import opened Commands

  /** The book so far and the sequence number of the last record applied to it. */
  datatype Progress = Progress(book: Book, seqNum: u64)

  const START: Progress := Progress(EMPTY, 0)

  /** What a record does to the book: a new order is inserted as it is, without matching. */
  ghost function Effect(book: Book, e: LogEntry): Book {
    if |e.payload| != COMMAND_SIZE then book
    else
      var c := CommandOf(e.payload);
      if e.header.messageType == NEW_ORDER then InsertSpec(book, OrderOf(c), c.sequence)
      else if e.header.messageType == CANCEL_ORDER then CancelSpec(book, c.origClientOrderId)
      else book
  }

  /** A record at or below the sequence already reached is skipped. */
  ghost function Apply(p: Progress, e: LogEntry): Progress {
    if e.header.sequence <= p.seqNum then p else Progress(Effect(p.book, e), e.header.sequence)
  }

  ghost function Replayed(p: Progress, entries: seq<LogEntry>): Progress
    decreases |entries|
  {
    if entries == [] then p else Replayed(Apply(p, entries[0]), entries[1..])
  }

  lemma {:induction false} ReplayConcat(p: Progress, a: seq<LogEntry>, b: seq<LogEntry>)
    ensures Replayed(p, a + b) == Replayed(Replayed(p, a), b)
    decreases |a|
  {
    hide Apply;
    if a == [] {
      assert a + b == b;
    } else {
      ReplayConcat(Apply(p, a[0]), a[1..], b);
      assert (a + b)[1..] == a[1..] + b;
    }
  }

  ghost predicate AtMost(entries: seq<LogEntry>, s: u64) {
    forall i :: 0 <= i < |entries| ==> entries[i].header.sequence <= s
  }

  lemma {:induction false} ReplaySkips(p: Progress, entries: seq<LogEntry>)
    requires AtMost(entries, p.seqNum)
    ensures Replayed(p, entries) == p
    decreases |entries|
  {
    hide Effect;
    if entries != [] {
      ReplaySkips(p, entries[1..]);
    }
  }

  /** The sequence reached is at least every sequence replayed. */
  lemma {:induction false} ReplayReaches(p: Progress, entries: seq<LogEntry>)
    ensures AtMost(entries, Replayed(p, entries).seqNum) && p.seqNum <= Replayed(p, entries).seqNum
    decreases |entries|
  {
    hide Effect;
    if entries != [] {
      ReplayReaches(Apply(p, entries[0]), entries[1..]);
      assert forall i :: 1 <= i < |entries| ==> entries[i] == entries[1..][i - 1];
    }
  }

  /** Replaying a journal again, with the sequence carried over, changes nothing. */
  lemma ReplayTwice(p: Progress, entries: seq<LogEntry>)
    ensures Replayed(Replayed(p, entries), entries) == Replayed(p, entries)
  {
    ReplayReaches(p, entries);
    ReplaySkips(Replayed(p, entries), entries);
  }

  ghost predicate Increasing(entries: seq<LogEntry>) {
    forall i, j :: 0 <= i < j < |entries| ==> entries[i].header.sequence < entries[j].header.sequence
  }

  /** Which sequence the books share matters only for what it skips. */
  lemma SameFrom(book: Book, s: u64, t: u64, entries: seq<LogEntry>)
    requires entries != [] && s < entries[0].header.sequence && t < entries[0].header.sequence
    ensures Replayed(Progress(book, s), entries) == Replayed(Progress(book, t), entries)
  {
    hide Effect;
  }

  /** A snapshot of the book after the first `k` records, labelled `s`, and then any part of the
      journal that starts no later than record `k`, gives the book of replaying everything. */
  lemma SnapshotThenJournal(entries: seq<LogEntry>, k: nat, s: u64, from: nat)
    requires Increasing(entries) && from <= k <= |entries|
    requires k > 0 ==> entries[k - 1].header.sequence <= s
    requires k < |entries| ==> s < entries[k].header.sequence
    ensures Replayed(Progress(Replayed(START, entries[..k]).book, s), entries[from..]).book ==
            Replayed(START, entries).book
  {
    hide Effect, Apply, Replayed, AtMost, Increasing;
    var mid := Replayed(START, entries[..k]);
    CutAt(entries, from, k);
    ReplayConcat(START, entries[..k], entries[k..]);
    ReplayConcat(Progress(mid.book, s), entries[from..k], entries[k..]);
    EarlierAtMost(entries, from, k, s);
    ReplaySkips(Progress(mid.book, s), entries[from..k]);
    SnapshotTail(entries, k, s, mid);
  }

  lemma CutAt(entries: seq<LogEntry>, from: nat, k: nat)
    requires from <= k <= |entries|
    ensures entries == entries[..k] + entries[k..] && entries[from..] == entries[from..k] + entries[k..]
  {
  }

  lemma EarlierAtMost(entries: seq<LogEntry>, from: nat, k: nat, s: u64)
    requires Increasing(entries) && from <= k <= |entries| && (k > 0 ==> entries[k - 1].header.sequence <= s)
    ensures AtMost(entries[from..k], s)
  {
    forall i | from <= i < k
      ensures entries[i].header.sequence <= s
    {
      assert i < k - 1 ==> entries[i].header.sequence < entries[k - 1].header.sequence;
    }
  }

  lemma SnapshotTail(entries: seq<LogEntry>, k: nat, s: u64, mid: Progress)
    requires Increasing(entries) && k <= |entries| && mid == Replayed(START, entries[..k])
    requires k < |entries| ==> s < entries[k].header.sequence
    ensures Replayed(Progress(mid.book, s), entries[k..]).book == Replayed(mid, entries[k..]).book
  {
    hide Effect;
    if k < |entries| {
      if mid.seqNum < entries[k].header.sequence {
        SameFrom(mid.book, s, mid.seqNum, entries[k..]);
      } else {
        ReachedByOne(START, entries[..k]);
      }
    }
  }

  /** The sequence reached is the starting one or that of some record. */
  lemma {:induction false} ReachedByOne(p: Progress, entries: seq<LogEntry>)
    ensures Replayed(p, entries).seqNum == p.seqNum ||
            exists i :: 0 <= i < |entries| && entries[i].header.sequence == Replayed(p, entries).seqNum
    decreases |entries|
  {
    hide Effect;
    if entries != [] {
      ReachedByOne(Apply(p, entries[0]), entries[1..]);
      if exists i :: 0 <= i < |entries[1..]| && entries[1..][i].header.sequence == Replayed(p, entries).seqNum {
        var i :| 0 <= i < |entries[1..]| && entries[1..][i].header.sequence == Replayed(p, entries).seqNum;
        assert entries[i + 1].header.sequence == Replayed(p, entries).seqNum;
      }
    }
  }

  // ----- the live path

  /** What the engine thread does with a command that passed the risk checks. */
  ghost function LiveStep(book: Book, c: OrderCommand): Book {
    if c.kind == NEW_ORDER then SubmitSpec(book, OrderOf(c))
    else if c.kind == CANCEL_ORDER then CancelSpec(book, c.origClientOrderId)
    else book
  }

  ghost function Live(book: Book, cmds: seq<OrderCommand>): Book
    decreases |cmds|
  {
    if cmds == [] then book else Live(LiveStep(book, cmds[0]), cmds[1..])
  }

  /** The record the engine thread appends for a command before it acts on it. */
  ghost predicate RecordOf(e: LogEntry, c: OrderCommand) {
    && Sealed(e) && e.payload == CommandBytes(c)
    && e.header.sequence == c.sequence && e.header.timestamp == c.timestamp && e.header.messageType == c.kind
  }

  ghost predicate Recorded(entries: seq<LogEntry>, cmds: seq<OrderCommand>) {
    |entries| == |cmds| && forall i :: 0 <= i < |cmds| ==> RecordOf(entries[i], cmds[i])
  }

  ghost predicate Numbered(cmds: seq<OrderCommand>, above: u64) {
    && (forall i :: 0 <= i < |cmds| ==> above < cmds[i].sequence)
    && (forall i, j :: 0 <= i < j < |cmds| ==> cmds[i].sequence < cmds[j].sequence)
  }

  /** A new order is a limit order of positive size that crosses nothing when it arrives. */
  ghost predicate Quiet(book: Book, c: OrderCommand) {
    c.kind == NEW_ORDER ==> c.orderType == Limit && c.qty > 0 && !FrontCrosses(OrderOf(c), book)
  }

  ghost predicate QuietRun(book: Book, cmds: seq<OrderCommand>)
    decreases |cmds|
  {
    cmds != [] ==> Quiet(book, cmds[0]) && QuietRun(LiveStep(book, cmds[0]), cmds[1..])
  }

  lemma EffectOf(book: Book, e: LogEntry, c: OrderCommand)
    requires RecordOf(e, c)
    ensures Effect(book, e) == if c.kind == NEW_ORDER then InsertSpec(book, OrderOf(c), c.sequence)
                               else if c.kind == CANCEL_ORDER then CancelSpec(book, c.origClientOrderId) else book
  {
    hide Sealed, CommandOf, InsertSpec, CancelSpec;
    CommandBack(c);
  }

  lemma {:induction false} MatchCount(order: Order, levels: seq<Level>, left: u64)
    ensures OrderCount(Match(order, levels, left).levels) <= OrderCount(levels)
    decreases OrderCount(levels)
  {
    if !Stops(order, levels, left) {
      var f := FillOf(levels[0].price, levels[0].queue[0], left);
      if f.makerLeft > 0 {
        CountShrinkHead(levels, f.makerLeft);
      } else {
        CountWithoutHead(levels);
        MatchCount(order, WithoutHead(levels), f.takerLeft);
      }
    }
  }

  /** For a limit order of positive size, inserting it as replay does and submitting it as the live
      engine does agree exactly when it crosses nothing. */
  lemma AgreeIffQuiet(book: Book, order: Order)
    requires WellFormed(book) && order.orderType == Limit && order.qty > 0
    ensures InsertSpec(book, order, order.seqNum) == SubmitSpec(book, order) <==> !FrontCrosses(order, book)
  {
    var side := order.side.Opposite();
    var levels := book.Of(side);
    if FrontCrosses(order, book) {
      SweepChanges(order, levels);
      assert InsertSpec(book, order, order.seqNum).Of(side) == levels;
      assert SubmitSpec(book, order).Of(side) == Match(order, levels, order.qty).levels;
    } else {
      assert Match(order, levels, order.qty) == Outcome(levels, [], order.qty);
      assert Matched(book, order) == book;
    }
  }

  const OFFER: OrderCommand := OrderCommand(0, 1, 0, 1, 0, 1, 1, 100, 10, Sell, Limit, 0, 0)
  const TAKE: OrderCommand := OrderCommand(0, 2, 0, 2, 0, 1, 1, 100, 10, Buy, Limit, 0, 0)

  /** The journal of these commands. */
  ghost function JournalOf(cmds: seq<OrderCommand>): seq<LogEntry> {
    seq(|cmds|, i requires 0 <= i < |cmds| =>
      Seal(cmds[i].sequence, cmds[i].timestamp, cmds[i].kind, CommandBytes(cmds[i])))
  }

  /** Every history has a journal. */
  lemma JournalRecords(cmds: seq<OrderCommand>)
    ensures Recorded(JournalOf(cmds), cmds)
  {
    hide Sealed, CommandBytes;
  }

  /** Ten lots offered and then bid for at the same price: the live engine trades them away, and
      replaying the journal does not give its book. */
  lemma CrossingExample()
    ensures var cmds := [OFFER, TAKE]; var entries := JournalOf(cmds);
            Recorded(entries, cmds) && Replayed(START, entries).book != Live(EMPTY, cmds)
  {
    JournalRecords([OFFER, TAKE]);
    hide JournalOf;
    CrossingDiffers(JournalOf([OFFER, TAKE]));
  }

  lemma CrossingDiffers(entries: seq<LogEntry>)
    requires Recorded(entries, [OFFER, TAKE])
    ensures Replayed(START, entries).book != Live(EMPTY, [OFFER, TAKE])
  {
    hide Effect, LiveStep, InsertSpec, RecordOf;
    var book := LiveStep(EMPTY, OFFER);
    EffectOf(EMPTY, entries[0], OFFER);
    EffectOf(book, entries[1], TAKE);
    SequenceOf(entries[0], OFFER);
    SequenceOf(entries[1], TAKE);
    OfferRests();
    TakeTrades(book);
    assert [OFFER, TAKE][1..] == [TAKE] && [TAKE][1..] == [];
    assert Live(book, [TAKE]) == Live(LiveStep(book, TAKE), []);
    assert entries[1..][0] == entries[1] && entries[1..][1..] == [];
    var mid := Progress(book, 1);
    assert Apply(START, entries[0]) == mid;
    assert Replayed(mid, entries[1..]) == Replayed(Apply(mid, entries[1]), []);
  }

  lemma OfferRests()
    ensures var book := LiveStep(EMPTY, OFFER);
            book == InsertSpec(EMPTY, OrderOf(OFFER), 1) && book == Book([], [Level(100, [Resting(1, 1, 10, 1)])])
  {
    EmptyFormed();
    AgreeIffQuiet(EMPTY, OrderOf(OFFER));
  }

  lemma TakeTrades(book: Book)
    requires book == Book([], [Level(100, [Resting(1, 1, 10, 1)])])
    ensures InsertSpec(book, OrderOf(TAKE), 2) != LiveStep(book, TAKE)
  {
    hide InsertSpec, SubmitSpec;
    AgreeIffQuiet(book, OrderOf(TAKE));
  }

  lemma {:induction false} SweepChanges(order: Order, levels: seq<Level>)
    requires levels != [] && levels[0].queue != [] && order.qty > 0 && Crosses(order, levels[0].price)
    ensures Match(order, levels, order.qty).levels != levels
  {
    var f := FillOf(levels[0].price, levels[0].queue[0], order.qty);
    if f.makerLeft > 0 {
      assert ShrinkHead(levels, f.makerLeft)[0].queue[0].qty == f.makerLeft;
    } else {
      CountWithoutHead(levels);
      MatchCount(order, WithoutHead(levels), f.takerLeft);
    }
  }

  lemma LiveKeeps(book: Book, c: OrderCommand)
    requires WellFormed(book)
    ensures WellFormed(LiveStep(book, c))
  {
    hide WellFormed, SubmitSpec, CancelSpec;
    if c.kind == NEW_ORDER {
      SubmitKeeps(book, OrderOf(c));
    } else if c.kind == CANCEL_ORDER {
      CancelKeeps(book, c.origClientOrderId);
    }
  }

  lemma QuietStep(book: Book, e: LogEntry, c: OrderCommand)
    requires WellFormed(book) && RecordOf(e, c) && Quiet(book, c)
    ensures Effect(book, e) == LiveStep(book, c)
  {
    hide WellFormed, SubmitSpec, CancelSpec, InsertSpec, Effect, RecordOf, FrontCrosses;
    EffectOf(book, e, c);
    if c.kind == NEW_ORDER {
      AgreeIffQuiet(book, OrderOf(c));
    }
  }

  /** For every history of non-crossing limit orders and cancels, replaying its journal rebuilds the
      book of the live engine. */
  lemma {:induction false} ReplayIsLive(book: Book, s: u64, entries: seq<LogEntry>, cmds: seq<OrderCommand>)
    requires WellFormed(book) && Recorded(entries, cmds) && Numbered(cmds, s) && QuietRun(book, cmds)
    ensures Replayed(Progress(book, s), entries).book == Live(book, cmds)
    decreases |cmds|
  {
    hide WellFormed, Effect, LiveStep, Quiet, RecordOf;
    if cmds != [] {
      var e, c := entries[0], cmds[0];
      QuietStep(book, e, c);
      LiveKeeps(book, c);
      SequenceOf(e, c);
      assert Numbered(cmds[1..], c.sequence);
      ReplayIsLive(LiveStep(book, c), c.sequence, entries[1..], cmds[1..]);
    }
  }

  lemma SequenceOf(e: LogEntry, c: OrderCommand)
    requires RecordOf(e, c)
    ensures e.header.sequence == c.sequence
  {
  }

  lemma {:induction false} QuietPrefix(book: Book, cmds: seq<OrderCommand>, k: nat)
    requires QuietRun(book, cmds) && k <= |cmds|
    ensures QuietRun(book, cmds[..k])
    decreases |cmds|
  {
    hide LiveStep, Quiet;
    if k > 0 {
      QuietPrefix(LiveStep(book, cmds[0]), cmds[1..], k - 1);
      assert cmds[..k][1..] == cmds[1..][..k - 1];
    }
  }

  /** The sequence reached by replaying these records of growing sequence from `s`. */
  ghost function Reached(entries: seq<LogEntry>, s: u64): u64 {
    if entries != [] && entries[|entries| - 1].header.sequence > s then entries[|entries| - 1].header.sequence else s
  }

  /** Older records behind the journals are skipped when none is above the sequence reached. */
  lemma StaleSkips(p: Progress, entries: seq<LogEntry>, stale: seq<LogEntry>)
    ensures Replayed(p, entries + stale) == Replayed(Replayed(p, entries), stale)
    ensures AtMost(stale, Reached(entries, p.seqNum)) ==> Replayed(p, entries + stale) == Replayed(p, entries)
  {
    hide Replayed;
    ReplayConcat(p, entries, stale);
    ReplayReaches(p, entries);
    if AtMost(stale, Reached(entries, p.seqNum)) {
      ReplaySkips(Replayed(p, entries), stale);
    }
  }

  /** Crash recovery: the journals of a non-crossing history, the last one lost from byte `n` on, read
      back as the whole records, those of earlier journals and of the last, and then as what older
      files hold behind. The whole records rebuild the live book as it was after their commands, and
      so does all of it unless an older record has a higher sequence. */
  lemma CrashRecovery(files: map<nat, seq<byte>>, stamps: seq<FileHeader>, segments: seq<seq<LogEntry>>, n: nat,
                      cmds: seq<OrderCommand>)
    requires Holds(files, stamps, segments) && Recorded(Flat(segments), cmds)
    requires segments != [] && |segments| in files && FILE_HEADER <= n <= |files[|segments|]|
    requires Numbered(cmds, 0) && QuietRun(EMPTY, cmds)
    ensures var last, torn, kept := |segments|, Torn(files, |segments|, n), Flat(Kept(segments, n));
            var read, stale, done := ReadFrom(torn, 1), ReadFrom(torn, last + 1), |kept|;
            && done == |Flat(segments[..last - 1])| + |segments[last - 1][..Whole(segments[last - 1], n - FILE_HEADER)]|
            && done <= |cmds| && read == Scan(kept + stale.entries, stale.intact)
            && Replayed(START, kept).book == Live(EMPTY, cmds[..done])
            && Replayed(START, read.entries) == Replayed(Replayed(START, kept), stale.entries)
            && (AtMost(stale.entries, Reached(kept, 0)) ==>
                Replayed(START, read.entries).book == Live(EMPTY, cmds[..done]))
  {
    hide Holds, ReadFrom, RecordOf, Quiet, LiveStep, Effect, Apply, Replayed, Live, QuietRun, Whole, WellFormed, AtMost,
      Reached, Flat, Kept;
    TornRead(files, stamps, segments, n, cmds, 0);
    NothingBefore(segments);
    var kept := Flat(Kept(segments, n));
    assert kept[0..] == kept;
    QuietPrefix(EMPTY, cmds, |kept|);
    EmptyFormed();
    ReplayIsLive(EMPTY, 0, kept, cmds[..|kept|]);
    StaleSkips(START, kept, ReadFrom(Torn(files, |segments|, n), |segments| + 1).entries);
  }

  lemma NothingBefore(segments: seq<seq<LogEntry>>)
    ensures Flat(segments[..0]) == []
  {
  }

  /** The records kept are those of the first so many commands, and reading on from journal `j` gives
      those of them that are not in earlier journals, and then what older files hold behind. */
  lemma TornRead(files: map<nat, seq<byte>>, stamps: seq<FileHeader>, segments: seq<seq<LogEntry>>, n: nat,
                 cmds: seq<OrderCommand>, j: nat)
    requires Holds(files, stamps, segments) && Recorded(Flat(segments), cmds)
    requires segments != [] && |segments| in files && FILE_HEADER <= n <= |files[|segments|]| && j < |segments|
    ensures var last, kept := |segments| - 1, Flat(Kept(segments, n));
            var torn := Torn(files, |segments|, n);
            var stale := ReadFrom(torn, |segments| + 1);
            && |kept| == |Flat(segments[..last])| + |segments[last][..Whole(segments[last], n - FILE_HEADER)]| <= |cmds|
            && Recorded(kept, cmds[..|kept|])
            && |Flat(segments[..j])| <= |kept|
            && ReadFrom(torn, j + 1) == Scan(kept[|Flat(segments[..j])|..] + stale.entries, stale.intact)
  {
    hide Holds, ReadFrom, Recorded, Whole, Flat, Kept, Torn;
    RecordedSealed(Flat(segments), cmds);
    TornJournal(files, stamps, segments, n, j);
    KeptPrefix(segments, n);
    KeptBefore(segments, n, j);
    RecordedPrefix(Flat(segments), cmds, Flat(Kept(segments, n)));
  }

  lemma KeptBefore(segments: seq<seq<LogEntry>>, n: nat, j: nat)
    requires segments != [] && FILE_HEADER <= n && j < |segments|
    ensures |Kept(segments, n)| == |segments|
    ensures var kept, from := Flat(Kept(segments, n)), |Flat(segments[..j])|;
            from <= |kept| && Flat(Kept(segments, n)[j..]) == kept[from..]
  {
    hide Whole, Flat;
    FlatSplit(Kept(segments, n), j);
    assert Kept(segments, n)[..j] == segments[..j];
  }

  lemma RecordedPrefix(entries: seq<LogEntry>, cmds: seq<OrderCommand>, kept: seq<LogEntry>)
    requires Recorded(entries, cmds) && kept <= entries
    ensures |kept| <= |cmds| && Recorded(kept, cmds[..|kept|])
  {
    hide RecordOf;
    assert forall i :: 0 <= i < |kept| ==> kept[i] == entries[i];
  }

  lemma RecordedSealed(entries: seq<LogEntry>, cmds: seq<OrderCommand>)
    requires Recorded(entries, cmds)
    ensures AllSealed(entries)
  {
    hide Sealed;
    assert forall i :: 0 <= i < |entries| ==> RecordOf(entries[i], cmds[i]);
  }

  lemma EmptyFormed()
    ensures WellFormed(EMPTY)
  {
  }

  lemma RecordedIncreasing(entries: seq<LogEntry>, cmds: seq<OrderCommand>, above: u64)
    requires Recorded(entries, cmds) && Numbered(cmds, above)
    ensures Increasing(entries)
  {
    hide RecordOf;
    forall i | 0 <= i < |entries|
      ensures entries[i].header.sequence == cmds[i].sequence
    {
      SequenceOf(entries[i], cmds[i]);
    }
  }

  /** Recovery: the live book after the first `k` commands of a non-crossing history, saved under a
      label between the `k`-th sequence and the next, and then the journals from number `j + 1` on,
      none of whose earlier ones holds a command behind the `k`-th, rebuild the live book; older files
      behind the last journal change nothing unless they hold a higher sequence. */
  lemma SnapshotRecovery(files: map<nat, seq<byte>>, stamps: seq<FileHeader>, segments: seq<seq<LogEntry>>,
                         cmds: seq<OrderCommand>, k: nat, s: u64, j: nat)
    requires Holds(files, stamps, segments) && Recorded(Flat(segments), cmds)
    requires Numbered(cmds, 0) && QuietRun(EMPTY, cmds)
    requires k <= |cmds| && (k > 0 ==> cmds[k - 1].sequence <= s) && (k < |cmds| ==> s < cmds[k].sequence)
    requires j <= |segments| && |Flat(segments[..j])| <= k
    ensures var read, stale, start := ReadFrom(files, j + 1), ReadFrom(files, |segments| + 1),
            Progress(Live(EMPTY, cmds[..k]), s);
            var mine := Flat(segments[j..]);
            && read == Scan(mine + stale.entries, stale.intact)
            && Replayed(start, mine).book == Live(EMPTY, cmds)
            && Replayed(start, read.entries) == Replayed(Replayed(start, mine), stale.entries)
            && (AtMost(stale.entries, Reached(mine, s)) ==> Replayed(start, read.entries).book == Live(EMPTY, cmds))
  {
    hide Holds, ReadFrom, Recorded, Numbered, Replayed, Live, QuietRun, Flat, SegmentsSealed, AllSealed, AtMost,
      Reached;
    RecordedSealed(Flat(segments), cmds);
    FlatSealed(segments);
    ReadBack(files, stamps, segments, j);
    FlatSplit(segments, j);
    var from := |Flat(segments[..j])|;
    assert Flat(segments)[from..] == Flat(segments[j..]);
    SnapshotIsLive(Flat(segments), cmds, k, s, from);
    StaleSkips(Progress(Live(EMPTY, cmds[..k]), s), Flat(segments[j..]), ReadFrom(files, |segments| + 1).entries);
  }

  lemma SnapshotIsLive(entries: seq<LogEntry>, cmds: seq<OrderCommand>, k: nat, s: u64, from: nat)
    requires Recorded(entries, cmds) && Numbered(cmds, 0) && QuietRun(EMPTY, cmds) && from <= k <= |cmds| &&
             from <= |entries|
    requires (k > 0 ==> cmds[k - 1].sequence <= s) && (k < |cmds| ==> s < cmds[k].sequence)
    ensures Replayed(Progress(Live(EMPTY, cmds[..k]), s), entries[from..]).book == Live(EMPTY, cmds)
  {
    hide RecordOf, Replayed, Live, QuietRun, WellFormed, Increasing;
    RecordedIncreasing(entries, cmds, 0);
    BoundsOf(entries, cmds, k, s);
    SnapshotThenJournal(entries, k, s, from);
    QuietPrefix(EMPTY, cmds, k);
    EmptyFormed();
    assert Recorded(entries[..k], cmds[..k]);
    ReplayIsLive(EMPTY, 0, entries[..k], cmds[..k]);
    ReplayIsLive(EMPTY, 0, entries, cmds);
  }

  lemma BoundsOf(entries: seq<LogEntry>, cmds: seq<OrderCommand>, k: nat, s: u64)
    requires Recorded(entries, cmds) && k <= |cmds|
    requires (k > 0 ==> cmds[k - 1].sequence <= s) && (k < |cmds| ==> s < cmds[k].sequence)
    ensures (k > 0 ==> entries[k - 1].header.sequence <= s) && (k < |entries| ==> s < entries[k].header.sequence)
  {
    hide Sealed;
    if k > 0 {
      SequenceOf(entries[k - 1], cmds[k - 1]);
    }
    if k < |cmds| {
      SequenceOf(entries[k], cmds[k]);
    }
  }

  // ----- when the book operations of a replay are possible

  /** An insert meets a new id and free slots, and a cancel a book with no price on both sides. */
  ghost predicate Possible(book: Book, e: LogEntry) {
    |e.payload| == COMMAND_SIZE ==>
      var c := CommandOf(e.payload);
      && (e.header.messageType == NEW_ORDER ==> Insertable(book, OrderOf(c)))
      && (e.header.messageType == CANCEL_ORDER ==> NoSharedPrice(book))
  }

  ghost predicate Playable(p: Progress, entries: seq<LogEntry>)
    decreases |entries|
  {
    entries != [] ==>
      && (p.seqNum < entries[0].header.sequence ==> Possible(p.book, entries[0]))
      && Playable(Apply(p, entries[0]), entries[1..])
  }

  /** Every new order of the history had an id not in use and room in the pools. */
  ghost predicate Roomy(book: Book, cmds: seq<OrderCommand>)
    decreases |cmds|
  {
    cmds != [] ==>
      && (cmds[0].kind == NEW_ORDER ==> Insertable(book, OrderOf(cmds[0])))
      && Roomy(LiveStep(book, cmds[0]), cmds[1..])
  }

  /** A history the live book had room for can be replayed step by step. */
  lemma {:induction false} QuietPlayable(book: Book, s: u64, entries: seq<LogEntry>, cmds: seq<OrderCommand>)
    requires WellFormed(book) && Recorded(entries, cmds) && Numbered(cmds, s) && QuietRun(book, cmds) &&
             Roomy(book, cmds)
    ensures Playable(Progress(book, s), entries)
    decreases |cmds|
  {
    hide WellFormed, Effect, LiveStep, Quiet, RecordOf, Possible, Insertable;
    if cmds != [] {
      var e, c := entries[0], cmds[0];
      QuietStep(book, e, c);
      LiveKeeps(book, c);
      SequenceOf(e, c);
      assert Numbered(cmds[1..], c.sequence);
      QuietPlayable(LiveStep(book, c), c.sequence, entries[1..], cmds[1..]);
      PossibleFor(book, e, c);
    }
  }

  lemma PossibleFor(book: Book, e: LogEntry, c: OrderCommand)
    requires WellFormed(book) && RecordOf(e, c) && (c.kind == NEW_ORDER ==> Insertable(book, OrderOf(c)))
    ensures Possible(book, e)
  {
    hide Sealed, CommandOf, Insertable;
    CommandBack(c);
    UncrossedUnshared(book);
  }
}
