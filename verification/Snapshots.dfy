/** The snapshot writer and reader on the linked book. */
module Snapshots {
  import opened Domain
  import opened Bytes
  import opened Crc32c
  import opened BookSpec
  import opened EngineSpec
  import opened Links
  import opened BookRep
  import opened SideRep
  import opened BookSides
  import opened OrderBooks
  import opened Wal
  import opened SnapshotFormat
  import opened SnapshotLaws
  import opened Rebuilding
  import opened BookIds

  /** What the walk finds at the level in position `i`. */
  lemma LevelRead(book: LimitOrderBook, s: BookSide, i: nat)
    requires book.Valid() && (s == book.bids || s == book.asks) && i < |s.levels|
    ensures var l, ls, os := s.levels[i], book.levelPool.storage, book.orderPool.storage;
            && l < |ls| && ls[l].next == At(s.levels, i + 1) && l in book.queues && InStore(os, book.queues[l])
            && |book.SideAbs(s)| == |s.levels|
            && book.SideAbs(s)[i] == Level(ls[l].item.price, View(os, book.queues[l]))
            && ls[l].item.totalQty == Wrap64(QueueSum(View(os, book.queues[l])))
            && ls[l].item.head == First(book.queues[l]) && Chain(os, book.queues[l]) &&
               |book.queues[l]| == ls[l].item.orderCount
  {
    hide Sides, LookupOk, NoEmptyQueue, PoolOk, Chain;
    var os, ls, other := book.orderPool.storage, book.levelPool.storage, book.Other(s);
    book.Oriented(s);
    SidesAt(os, ls, book.queues, book.home, s.State(), other.State(), i);
    SidesUsed(os, ls, book.queues, book.home, s.State(), other.State());
    SideBest(s.side, ls, s.best, s.index, s.levels);
    LinksAt(ls, s.levels, i);
  }

  lemma BestRead(book: LimitOrderBook, s: BookSide)
    requires book.Valid() && (s == book.bids || s == book.asks)
    ensures s.best == First(s.levels) && |book.SideAbs(s)| == |s.levels|
  {
    hide Sides, LookupOk, NoEmptyQueue, PoolOk, Chain;
    book.Oriented(s);
    SidesUsed(book.orderPool.storage, book.levelPool.storage, book.queues, book.home, s.State(), book.Other(s).State());
    SideBest(s.side, book.levelPool.storage, s.best, s.index, s.levels);
  }

  method CountLevels(book: LimitOrderBook, s: BookSide) returns (count: nat)
    requires book.Valid() && (s == book.bids || s == book.asks)
    ensures count == |book.SideAbs(s)|
  {
    hide LimitOrderBook.Valid;
    BestRead(book, s);
    count := 0;
    var curr := s.best;
    while curr != NULL
      invariant count <= |s.levels| && curr == At(s.levels, count)
      decreases |s.levels| - count
    {
      LevelRead(book, s, count);
      count := count + 1;
      curr := book.levelPool.storage[curr].next;
    }
  }

  method CountOrders(os: seq<LiveOrder>, head: int, ghost nodes: seq<nat>) returns (count: nat)
    requires Chain(os, nodes) && head == First(nodes)
    ensures count == |nodes|
  {
    hide Chain;
    count := 0;
    var curr := head;
    while curr != NULL
      invariant count <= |nodes| && curr == At(nodes, count)
      decreases |nodes| - count
    {
      LinksAt(os, nodes, count);
      count := count + 1;
      curr := os[curr].next;
    }
  }

  /** The order loop of one level: every queued order's record, in queue order, with the checksum
      carried on. */
  method WriteOrders(os: seq<LiveOrder>, head: int, ghost nodes: seq<nat>, before: seq<byte>, crc0: bv32,
                     ghost body: seq<byte>)
    returns (file: seq<byte>, crc: bv32)
    requires Chain(os, nodes) && InStore(os, nodes) && head == First(nodes) && crc0 == Crc(body, 0)
    ensures file == before + QueueBytes(View(os, nodes))
    ensures crc == Crc(body + QueueBytes(View(os, nodes)), 0)
  {
    hide Chain, Crc, Complement, OrderBytes, QueueBytes;
    file, crc := before, crc0;
    ghost var queue := View(os, nodes);
    ghost var i := 0;
    var curr := head;
    NoQueueBytes(queue);
    assert before + [] == before && body + [] == body;
    while curr != NULL
      invariant i <= |nodes| && curr == At(nodes, i)
      invariant file == before + QueueBytes(queue[..i]) && crc == Crc(body + QueueBytes(queue[..i]), 0)
      decreases |nodes| - i
    {
      LinksAt(os, nodes, i);
      var record := OrderBytes(RestingOf(os[curr].item));
      file := file + record;
      crc := Checksum(record, Complement(crc));
      WriteStep(queue, i, before, body);
      i := i + 1;
      curr := os[curr].next;
    }
    assert queue[..i] == queue;
  }

  lemma NoQueueBytes(queue: seq<Resting>)
    ensures QueueBytes(queue[..0]) == []
  {
  }

  lemma WriteStep(queue: seq<Resting>, i: nat, before: seq<byte>, body: seq<byte>)
    requires i < |queue|
    ensures before + QueueBytes(queue[..i]) + OrderBytes(queue[i]) == before + QueueBytes(queue[..i + 1])
    ensures Crc(OrderBytes(queue[i]), Complement(Crc(body + QueueBytes(queue[..i]), 0))) ==
            Crc(body + QueueBytes(queue[..i + 1]), 0)
  {
    hide Crc, Complement, OrderBytes, QueueBytes;
    assert queue[..i + 1] == queue[..i] + [queue[i]];
    QueueBytesAppend(queue[..i], queue[i]);
    Chained(body + QueueBytes(queue[..i]), OrderBytes(queue[i]), 0);
    assert body + QueueBytes(queue[..i]) + OrderBytes(queue[i]) ==
           body + (QueueBytes(queue[..i]) + OrderBytes(queue[i]));
  }

  /** The level loop of one side. */
  method WriteLevels(book: LimitOrderBook, s: BookSide, before: seq<byte>, crc0: bv32, ghost body: seq<byte>)
    returns (file: seq<byte>, crc: bv32)
    requires book.Valid() && (s == book.bids || s == book.asks) && crc0 == Crc(body, 0)
    ensures file == before + LevelsBytes(book.SideAbs(s))
    ensures crc == Crc(body + LevelsBytes(book.SideAbs(s)), 0)
  {
    hide Sides, LookupOk, NoEmptyQueue, PoolOk, LimitOrderBook.SideAbs, Chain, Crc, Complement, LevelBytes, QueueBytes,
      LevelsBytes, HeadOf, View, QueueSum, Wrap64;
    BestRead(book, s);
    file, crc := before, crc0;
    ghost var levels := book.SideAbs(s);
    ghost var i := 0;
    var curr := s.best;
    NoLevelsBytes(levels);
    assert before + [] == before && body + [] == body;
    while curr != NULL
      invariant i <= |levels| && curr == At(s.levels, i)
      invariant file == before + LevelsBytes(levels[..i]) && crc == Crc(body + LevelsBytes(levels[..i]), 0)
      decreases |levels| - i
    {
      LevelRead(book, s, i);
      var level := book.levelPool.storage[curr].item;
      var count := CountOrders(book.orderPool.storage, level.head, book.queues[curr]);
      var record := LevelBytes(LevelSnapshot(level.price, level.totalQty, count % TWO_32));
      file := file + record;
      crc := Checksum(record, Complement(crc));
      ViewSize(book.orderPool.storage, book.queues[curr]);
      HeadIs(levels[i]);
      Chained(body + LevelsBytes(levels[..i]), record, 0);
      file, crc := WriteOrders(book.orderPool.storage, level.head, book.queues[curr], file, crc,
                               body + LevelsBytes(levels[..i]) + record);
      LevelStep(levels, i, before);
      LevelStep(levels, i, body);
      i := i + 1;
      curr := book.levelPool.storage[curr].next;
    }
    assert levels[..i] == levels;
  }

  lemma ViewSize(os: seq<LiveOrder>, nodes: seq<nat>)
    requires InStore(os, nodes)
    ensures |View(os, nodes)| == |nodes|
  {
  }

  lemma HeadIs(level: Level)
    ensures HeadOf(level) == LevelSnapshot(level.price, Wrap64(QueueSum(level.queue)), |level.queue| % TWO_32)
  {
  }

  lemma NoLevelsBytes(levels: seq<Level>)
    ensures LevelsBytes(levels[..0]) == []
  {
  }

  lemma LevelStep(levels: seq<Level>, i: nat, before: seq<byte>)
    requires i < |levels|
    ensures before + LevelsBytes(levels[..i]) + LevelBytes(HeadOf(levels[i])) + QueueBytes(levels[i].queue) ==
            before + LevelsBytes(levels[..i + 1])
  {
    hide LevelBytes, QueueBytes, LevelsBytes, HeadOf;
    assert levels[..i + 1] == levels[..i] + [levels[i]];
    LevelsBytesAppend(levels[..i], levels[i]);
    Reassociated(before, LevelsBytes(levels[..i]), LevelBytes(HeadOf(levels[i])), QueueBytes(levels[i].queue));
  }

  lemma NoBodyCrc()
    ensures Crc([], 0) == 0xFFFF_FFFF
  {
  }

  /** The file is exactly the snapshot of the book that the structure stands for. */
  method Save(book: LimitOrderBook, sequence: u64, timestamp: u64) returns (file: seq<byte>)
    requires book.Valid()
    ensures file == SnapshotBytes(book.Abs(), sequence, timestamp)
  {
    hide Sides, LookupOk, NoEmptyQueue, PoolOk, LimitOrderBook.SideAbs, Crc, Complement, LevelsBytes,
      SnapshotHeaderBytes, Word32, SnapshotBytes;
    var bids := CountLevels(book, book.bids);
    var asks := CountLevels(book, book.asks);
    var header := SnapshotHeader(SNAPSHOT_MAGIC, SNAPSHOT_VERSION, 0, sequence, timestamp, bids % TWO_32,
                                 asks % TWO_32, 0);
    file := SnapshotHeaderBytes(header);
    var crc: bv32 := 0xFFFF_FFFF;
    NoBodyCrc();
    ghost var b, a := LevelsBytes(book.SideAbs(book.bids)), LevelsBytes(book.SideAbs(book.asks));
    file, crc := WriteLevels(book, book.bids, file, crc, []);
    assert [] + b == b;
    file, crc := WriteLevels(book, book.asks, file, crc, b);
    Body(header, b, a);
    header := header.(checksum := Word32(Complement(crc)));
    SavedIs(book.Abs(), header, sequence, timestamp);
    file := SnapshotHeaderBytes(header) + file[SNAPSHOT_HEADER..];
  }

  lemma Body(h: SnapshotHeader, b: seq<byte>, a: seq<byte>)
    ensures |SnapshotHeaderBytes(h) + b + a| >= SNAPSHOT_HEADER &&
            (SnapshotHeaderBytes(h) + b + a)[SNAPSHOT_HEADER..] == b + a
  {
    hide SnapshotHeaderBytes;
    HeaderLength(h);
  }

  lemma SavedIs(book: Book, h: SnapshotHeader, sequence: u64, timestamp: u64)
    requires h == SnapshotHeader(SNAPSHOT_MAGIC, SNAPSHOT_VERSION, 0, sequence, timestamp, |book.bids| % TWO_32,
                                 |book.asks| % TWO_32,
                                 Word32(Complement(Crc(LevelsBytes(book.bids) + LevelsBytes(book.asks), 0))))
    ensures SnapshotBytes(book, sequence, timestamp) ==
            SnapshotHeaderBytes(h) + (LevelsBytes(book.bids) + LevelsBytes(book.asks))
  {
    hide Crc, Complement, LevelsBytes, SnapshotHeaderBytes, Word32;
  }

  // ----- loading

  lemma {:induction false} FillableConcat(book: Book, a: seq<Insert>, b: seq<Insert>)
    requires Fillable(book, a + b)
    ensures Fillable(book, a) && Fillable(Inserted(book, a), b)
    decreases |a|
  {
    hide InsertSpec, Insertable;
    if a == [] {
      assert a + b == b;
    } else {
      assert (a + b)[1..] == a[1..] + b;
      FillableConcat(InsertSpec(book, a[0].order, a[0].prioritySeq), a[1..], b);
    }
  }

  /** Insert where the abstract book has room for it. */
  method InsertInto(book: LimitOrderBook, order: Order, prioritySeq: u64)
    requires book.Valid() && Insertable(book.Abs(), order)
    modifies book, book.bids, book.asks, book.levelPool, book.orderPool
    ensures book.Valid() && book.Abs() == InsertSpec(old(book.Abs()), order, prioritySeq)
  {
    hide Sides, LookupOk, NoEmptyQueue, OnSide, PriceOn, InsertSpec;
    book.Accounts();
    var p := book.Insert(order, prioritySeq);
  }

  /** What is still to be read at `pos` completes what was to be read in all. */
  ghost predicate Remaining(now: Book, pos: nat, rest: Reading, first: Book, start: nat, whole: Reading) {
    && Fillable(now, rest.inserts) && Inserted(now, rest.inserts) == Inserted(first, whole.inserts)
    && rest.complete == whole.complete && pos + rest.used == start + whole.used
  }

  lemma OneOrder(now: Book, pos: nat, body: seq<byte>, left: nat, side: Side, price: Price, first: Book, start: nat,
                 whole: Reading)
    requires pos <= |body| && left > 0 &&
             Remaining(now, pos, ReadOrders(body[pos..], left, side, price), first, start, whole)
    ensures if |body| - pos < ORDER_RECORD then now == Inserted(first, whole.inserts) && !whole.complete
            else
              var next := Rebuilt(side, price, OrderOfBytes(body[pos..pos + ORDER_RECORD]));
              && Insertable(now, next.order)
              && Remaining(InsertSpec(now, next.order, next.prioritySeq), pos + ORDER_RECORD,
                           ReadOrders(body[pos + ORDER_RECORD..], left - 1, side, price), first, start, whole)
  {
    hide OrderOfBytes, InsertSpec, Insertable;
    if |body| - pos >= ORDER_RECORD {
      assert body[pos..][..ORDER_RECORD] == body[pos..pos + ORDER_RECORD] &&
             body[pos..][ORDER_RECORD..] == body[pos + ORDER_RECORD..];
    }
  }

  lemma CrcOn(body: seq<byte>, pos: nat, n: nat)
    requires pos + n <= |body|
    ensures Crc(body[pos..pos + n], Complement(Crc(body[..pos], 0))) == Crc(body[..pos + n], 0)
  {
    hide Crc, Complement;
    Chained(body[..pos], body[pos..pos + n], 0);
    assert body[..pos] + body[pos..pos + n] == body[..pos + n];
  }

  /** The order loop of one level. */
  method LoadOrders(book: LimitOrderBook, body: seq<byte>, start: nat, count: nat, side: Side, price: Price, crc0: bv32)
    returns (ok: bool, pos: nat, crc: bv32)
    requires book.Valid() && start <= |body| && crc0 == Crc(body[..start], 0)
    requires Fillable(book.Abs(), ReadOrders(body[start..], count, side, price).inserts)
    modifies book, book.bids, book.asks, book.levelPool, book.orderPool
    ensures book.Valid()
    ensures var r := ReadOrders(body[start..], count, side, price);
            && ok == r.complete && book.Abs() == Inserted(old(book.Abs()), r.inserts)
            && (ok ==> pos == start + r.used <= |body| && crc == Crc(body[..pos], 0))
  {
    hide Sides, LookupOk, NoEmptyQueue, PoolOk, Crc, Complement, OrderOfBytes, ReadOrders, InsertSpec, Insertable,
      Remaining;
    ok, pos, crc := true, start, crc0;
    ghost var first := book.Abs();
    ghost var whole := ReadOrders(body[start..], count, side, price);
    Begin(first, start, whole);
    for j := 0 to count
      invariant book.Valid() && start <= pos <= |body| && crc == Crc(body[..pos], 0) && ok
      invariant Remaining(book.Abs(), pos, ReadOrders(body[pos..], count - j, side, price), first, start, whole)
    {
      OneOrder(book.Abs(), pos, body, count - j, side, price, first, start, whole);
      if |body| - pos < ORDER_RECORD {
        ok := false;
        return;
      }
      var record := body[pos..pos + ORDER_RECORD];
      crc := Checksum(record, Complement(crc));
      CrcOn(body, pos, ORDER_RECORD);
      var next := Rebuilt(side, price, OrderOfBytes(record));
      InsertInto(book, next.order, next.prioritySeq);
      pos := pos + ORDER_RECORD;
    }
    OrdersDone(book.Abs(), pos, body[pos..], side, price, first, start, whole);
  }

  lemma Begin(first: Book, start: nat, whole: Reading)
    requires Fillable(first, whole.inserts)
    ensures Remaining(first, start, whole, first, start, whole)
  {
  }

  lemma OrdersDone(now: Book, pos: nat, s: seq<byte>, side: Side, price: Price, first: Book, start: nat, whole: Reading)
    requires Remaining(now, pos, ReadOrders(s, 0, side, price), first, start, whole)
    ensures now == Inserted(first, whole.inserts) && whole.complete && pos == start + whole.used
  {
  }

  /** One level of those still to be read. */
  lemma OneLevelRead(now: Book, pos: nat, body: seq<byte>, left: nat, side: Side, first: Book, start: nat,
                     whole: Reading)
    requires pos <= |body| && left > 0 && Remaining(now, pos, ReadLevels(body[pos..], left, side), first, start, whole)
    ensures if |body| - pos < LEVEL_RECORD then now == Inserted(first, whole.inserts) && !whole.complete
            else
              var head := LevelOfBytes(body[pos..pos + LEVEL_RECORD]);
              var orders := ReadOrders(body[pos + LEVEL_RECORD..], head.orderCount, side, head.price);
              && Fillable(now, orders.inserts)
              && if !orders.complete then Inserted(now, orders.inserts) == Inserted(first, whole.inserts) &&
                 !whole.complete
                 else
                   var end := pos + LEVEL_RECORD + orders.used;
                   && end <= |body|
                   && Remaining(Inserted(now, orders.inserts), end, ReadLevels(body[end..], left - 1, side), first,
                                start, whole)
  {
    hide LevelOfBytes, ReadOrders, Inserted, Fillable;
    if |body| - pos < LEVEL_RECORD {
      NothingToInsert(now);
    } else {
      var rest := body[pos + LEVEL_RECORD..];
      assert body[pos..][..LEVEL_RECORD] == body[pos..pos + LEVEL_RECORD] && body[pos..][LEVEL_RECORD..] == rest;
      var head := LevelOfBytes(body[pos..pos + LEVEL_RECORD]);
      var orders := ReadOrders(rest, head.orderCount, side, head.price);
      UsedAtMost(rest, head.orderCount, side, head.price);
      if orders.complete {
        var end := pos + LEVEL_RECORD + orders.used;
        assert body[pos..][LEVEL_RECORD + orders.used..] == body[end..];
        var more := ReadLevels(body[end..], left - 1, side);
        FillableConcat(now, orders.inserts, more.inserts);
        InsertedConcat(now, orders.inserts, more.inserts);
      }
    }
  }

  lemma UsedAtMost(s: seq<byte>, count: nat, side: Side, price: Price)
    ensures ReadOrders(s, count, side, price).used <= |s|
  {
  }

  lemma LevelsDone(now: Book, pos: nat, s: seq<byte>, side: Side, first: Book, start: nat, whole: Reading)
    requires Remaining(now, pos, ReadLevels(s, 0, side), first, start, whole)
    ensures now == Inserted(first, whole.inserts) && whole.complete && pos == start + whole.used
  {
  }

  /** The level loop of one side. */
  method LoadLevels(book: LimitOrderBook, body: seq<byte>, start: nat, count: nat, side: Side, crc0: bv32)
    returns (ok: bool, pos: nat, crc: bv32)
    requires book.Valid() && start <= |body| && crc0 == Crc(body[..start], 0)
    requires Fillable(book.Abs(), ReadLevels(body[start..], count, side).inserts)
    modifies book, book.bids, book.asks, book.levelPool, book.orderPool
    ensures book.Valid()
    ensures var r := ReadLevels(body[start..], count, side);
            && ok == r.complete && book.Abs() == Inserted(old(book.Abs()), r.inserts)
            && (ok ==> pos == start + r.used <= |body| && crc == Crc(body[..pos], 0))
  {
    hide Sides, LookupOk, NoEmptyQueue, PoolOk, Crc, Complement, LevelOfBytes, ReadOrders, ReadLevels, Fillable,
      Inserted, Remaining;
    ok, pos, crc := true, start, crc0;
    ghost var first := book.Abs();
    ghost var whole := ReadLevels(body[start..], count, side);
    Begin(first, start, whole);
    for i := 0 to count
      invariant book.Valid() && start <= pos <= |body| && crc == Crc(body[..pos], 0) && ok
      invariant Remaining(book.Abs(), pos, ReadLevels(body[pos..], count - i, side), first, start, whole)
    {
      OneLevelRead(book.Abs(), pos, body, count - i, side, first, start, whole);
      if |body| - pos < LEVEL_RECORD {
        ok := false;
        return;
      }
      var record := body[pos..pos + LEVEL_RECORD];
      crc := Checksum(record, Complement(crc));
      CrcOn(body, pos, LEVEL_RECORD);
      var head := LevelOfBytes(record);
      ok, pos, crc := LoadOrders(book, body, pos + LEVEL_RECORD, head.orderCount, side, head.price, crc);
      if !ok {
        return;
      }
    }
    LevelsDone(book.Abs(), pos, body[pos..], side, first, start, whole);
  }

  lemma NoBytes(body: seq<byte>)
    ensures Crc(body[..0], 0) == 0xFFFF_FFFF
  {
    NoBodyCrc();
    assert body[..0] == [];
  }

  /** A file with a bad header leaves the book alone. Otherwise the book is emptied and given every
      order that can be read, and the result says whether all could be and the checksum agreed. */
  method Load(file: seq<byte>, book: LimitOrderBook) returns (ok: bool, sequence: u64, timestamp: u64)
    requires book.Valid()
    requires GoodSnapshot(file) ==> Fillable(EMPTY, InsertsOf(file))
    modifies book, book.bids, book.asks, book.levelPool, book.orderPool
    ensures book.Valid()
    ensures ok == (GoodSnapshot(file) && Loads(file))
    ensures book.Abs() == if GoodSnapshot(file) then Inserted(EMPTY, InsertsOf(file)) else old(book.Abs())
    ensures GoodSnapshot(file) ==>
              var h := SnapshotHeaderOf(file[..SNAPSHOT_HEADER]); sequence == h.sequence && timestamp == h.timestamp
    ensures !GoodSnapshot(file) ==> sequence == timestamp == 0
  {
    hide Sides, LookupOk, NoEmptyQueue, PoolOk, Crc, Complement, SnapshotHeaderOf, ReadLevels, Fillable, Inserted,
      Word32;
    ok, sequence, timestamp := false, 0, 0;
    if |file| < SNAPSHOT_HEADER {
      return;
    }
    var header := SnapshotHeaderOf(file[..SNAPSHOT_HEADER]);
    if header.magic != SNAPSHOT_MAGIC || header.version != SNAPSHOT_VERSION {
      return;
    }
    sequence, timestamp := header.sequence, header.timestamp;
    var body := file[SNAPSHOT_HEADER..];
    var crc: bv32 := 0xFFFF_FFFF;
    NoBytes(body);
    book.Clear();
    ghost var bids := ReadLevels(body, header.bidLevels, Buy);
    assert body[0..] == body;
    if bids.complete {
      ghost var asks := ReadLevels(body[bids.used..], header.askLevels, Sell);
      FillableConcat(EMPTY, bids.inserts, asks.inserts);
      InsertedConcat(EMPTY, bids.inserts, asks.inserts);
    }
    var pos: nat;
    ok, pos, crc := LoadLevels(book, body, 0, header.bidLevels, Buy, crc);
    if !ok {
      return;
    }
    ok, pos, crc := LoadLevels(book, body, pos, header.askLevels, Sell, crc);
    if !ok {
      return;
    }
    ok := header.checksum == Word32(Complement(crc));
  }

  /** A snapshot saved from any sound book can be loaded into any other, passes the checksum, and makes
      it stand for the same abstract book. */
  lemma SnapshotRestores(book: LimitOrderBook, sequence: u64, timestamp: u64)
    requires book.Valid()
    ensures var file := SnapshotBytes(book.Abs(), sequence, timestamp);
            && GoodSnapshot(file) && Loads(file)
            && Fillable(EMPTY, InsertsOf(file)) && Inserted(EMPTY, InsertsOf(file)) == book.Abs()
            && SnapshotHeaderOf(file[..SNAPSHOT_HEADER]).sequence == sequence
  {
    hide Sides, LookupOk, NoEmptyQueue, PoolOk, SnapshotBytes, GoodSnapshot, Loads, InsertsOf, Sorted, NonEmptyQueues,
      Fillable, Inserted, Unique, OnSide, PriceOn, FrontIs;
    book.Front(book.bids);
    book.Front(book.asks);
    book.Accounts();
    BookUnique(book);
    CountableWithin(book.Abs().bids);
    CountableWithin(book.Abs().asks);
    SavedLoads(book.Abs(), sequence, timestamp);
    ContentsRebuild(book.Abs());
    SavedLabel(book.Abs(), sequence, timestamp);
  }

  lemma SavedLabel(book: Book, sequence: u64, timestamp: u64)
    ensures var file := SnapshotBytes(book, sequence, timestamp);
            |file| >= SNAPSHOT_HEADER && SnapshotHeaderOf(file[..SNAPSHOT_HEADER]).sequence == sequence
  {
    hide SnapshotHeaderBytes, SnapshotHeaderOf, BodyBytes, BodyCheck;
    var h := HeaderFor(book, sequence, timestamp);
    HeaderLength(h);
    SnapshotHeaderBack(h);
    assert SnapshotBytes(book, sequence, timestamp)[..SNAPSHOT_HEADER] == SnapshotHeaderBytes(h);
  }

  lemma BookUnique(book: LimitOrderBook)
    requires book.Valid()
    ensures Unique(Contents(book.Abs()))
  {
    hide Sides, LookupOk, NoEmptyQueue, PoolOk, Unique, RebuiltSide;
    var os, ls, b, a := book.orderPool.storage, book.levelPool.storage, book.bids.State(), book.asks.State();
    book.Oriented(book.bids);
    book.Oriented(book.asks);
    SidesUsed(os, ls, book.queues, book.home, b, a);
    SidesUsed(os, ls, book.queues, book.home, a, b);
    IdsUnique(os, ls, book.queues, book.home, book.lookup, b, a);
  }

  lemma {:induction false} CountableWithin(levels: seq<Level>)
    requires |levels| <= LEVEL_CAPACITY && OrderCount(levels) <= ORDER_CAPACITY
    ensures Countable(levels)
  {
    forall i | 0 <= i < |levels|
      ensures |levels[i].queue| < TWO_32
    {
      QueueWithin(levels, i);
    }
  }

  lemma {:induction false} QueueWithin(levels: seq<Level>, i: nat)
    requires i < |levels|
    ensures |levels[i].queue| <= OrderCount(levels)
  {
    if i > 0 {
      QueueWithin(levels[1..], i - 1);
    }
  }
}
