/** Saving and loading a snapshot as functions on bytes, and that loading what was saved inserts
    back exactly the saved book. */
module SnapshotLaws {
  import opened Domain
  import opened Bytes
  import opened Crc32c
  import opened BookSpec
  import opened Wal
  import opened SnapshotFormat

  const TWO_32: int := 0x1_0000_0000

  // ----- saving

  function HeadOf(level: Level): LevelSnapshot {
    LevelSnapshot(level.price, Wrap64(QueueSum(level.queue)), |level.queue| % TWO_32)
  }

  function QueueBytes(queue: seq<Resting>): (r: seq<byte>)
    ensures |r| == ORDER_RECORD * |queue|
  {
    if queue == [] then [] else OrderBytes(queue[0]) + QueueBytes(queue[1..])
  }

  function LevelsBytes(levels: seq<Level>): seq<byte> {
    if levels == [] then [] else LevelBytes(HeadOf(levels[0])) + QueueBytes(levels[0].queue) + LevelsBytes(levels[1..])
  }

  function BodyBytes(book: Book): seq<byte> {
    LevelsBytes(book.bids) + LevelsBytes(book.asks)
  }

  /** The records of the body are chained one into the next, from an all-ones value. */
  function BodyCheck(body: seq<byte>): u32 {
    Word32(Complement(Crc(body, 0)))
  }

  function HeaderFor(book: Book, sequence: u64, timestamp: u64): SnapshotHeader {
    SnapshotHeader(SNAPSHOT_MAGIC, SNAPSHOT_VERSION, 0, sequence, timestamp, |book.bids| % TWO_32, |book.asks| % TWO_32,
                   BodyCheck(BodyBytes(book)))
  }

  function SnapshotBytes(book: Book, sequence: u64, timestamp: u64): seq<byte> {
    SnapshotHeaderBytes(HeaderFor(book, sequence, timestamp)) + BodyBytes(book)
  }

  lemma {:induction false} QueueBytesAppend(queue: seq<Resting>, r: Resting)
    ensures QueueBytes(queue + [r]) == QueueBytes(queue) + OrderBytes(r)
  {
    hide OrderBytes;
    if queue == [] {
      assert queue + [r] == [r] && [r][1..] == [];
      assert OrderBytes(r) + [] == OrderBytes(r);
    } else {
      QueueBytesAppend(queue[1..], r);
      assert (queue + [r])[1..] == queue[1..] + [r];
    }
  }

  lemma {:induction false} LevelsBytesAppend(levels: seq<Level>, level: Level)
    ensures LevelsBytes(levels + [level]) == LevelsBytes(levels) + (LevelBytes(HeadOf(level)) + QueueBytes(level.queue))
  {
    hide LevelBytes, QueueBytes, HeadOf;
    if levels == [] {
      assert levels + [level] == [level] && [level][1..] == [];
      assert LevelsBytes([]) == [];
    } else {
      LevelsBytesAppend(levels[1..], level);
      assert (levels + [level])[1..] == levels[1..] + [level];
    }
  }

  // ----- loading

  datatype Insert = Insert(order: Order, prioritySeq: u64)

  /** The order the reader makes up for a resting order record. */
  function Rebuilt(side: Side, price: Price, r: Resting): Insert {
    Insert(Order(r.orderId, price, r.qty, 0, r.symbolId, side, Limit), r.prioritySeq)
  }

  /** What reading some records inserts, whether they were all there, and how many bytes they took. */
  datatype Reading = Reading(inserts: seq<Insert>, complete: bool, used: nat)

  function ReadOrders(s: seq<byte>, count: nat, side: Side, price: Price): (r: Reading)
    ensures r.used <= |s|
    decreases count
  {
    if count == 0 then Reading([], true, 0)
    else if |s| < ORDER_RECORD then Reading([], false, 0)
    else
      var rest := ReadOrders(s[ORDER_RECORD..], count - 1, side, price);
      Reading([Rebuilt(side, price, OrderOfBytes(s[..ORDER_RECORD]))] + rest.inserts, rest.complete,
              ORDER_RECORD + rest.used)
  }

  function ReadLevels(s: seq<byte>, count: nat, side: Side): (r: Reading)
    ensures r.used <= |s|
    decreases count
  {
    if count == 0 then Reading([], true, 0)
    else if |s| < LEVEL_RECORD then Reading([], false, 0)
    else
      var head := LevelOfBytes(s[..LEVEL_RECORD]);
      var orders := ReadOrders(s[LEVEL_RECORD..], head.orderCount, side, head.price);
      var used := LEVEL_RECORD + orders.used;
      if !orders.complete then Reading(orders.inserts, false, used)
      else
        var rest := ReadLevels(s[used..], count - 1, side);
        Reading(orders.inserts + rest.inserts, rest.complete, used + rest.used)
  }

  predicate GoodSnapshot(file: seq<byte>) {
    && |file| >= SNAPSHOT_HEADER
    && var h := SnapshotHeaderOf(file[..SNAPSHOT_HEADER]);
    && h.magic == SNAPSHOT_MAGIC && h.version == SNAPSHOT_VERSION
  }

  /** Bids, then, if they were complete, asks. */
  function ReadBody(h: SnapshotHeader, body: seq<byte>): (r: Reading)
    ensures r.used <= |body|
  {
    var bids := ReadLevels(body, h.bidLevels, Buy);
    if !bids.complete then bids
    else
      var asks := ReadLevels(body[bids.used..], h.askLevels, Sell);
      Reading(bids.inserts + asks.inserts, asks.complete, bids.used + asks.used)
  }

  /** The load succeeds: every record is there and the checksum is theirs. */
  predicate Loads(file: seq<byte>)
    requires GoodSnapshot(file)
  {
    var h, body := SnapshotHeaderOf(file[..SNAPSHOT_HEADER]), file[SNAPSHOT_HEADER..];
    var r := ReadBody(h, body);
    r.complete && h.checksum == BodyCheck(body[..r.used])
  }

  function InsertsOf(file: seq<byte>): seq<Insert>
    requires GoodSnapshot(file)
  {
    ReadBody(SnapshotHeaderOf(file[..SNAPSHOT_HEADER]), file[SNAPSHOT_HEADER..]).inserts
  }

  // ----- reading back what was saved

  function RebuiltQueue(side: Side, price: Price, queue: seq<Resting>): (r: seq<Insert>)
    ensures |r| == |queue|
  {
    if queue == [] then [] else [Rebuilt(side, price, queue[0])] + RebuiltQueue(side, price, queue[1..])
  }

  function RebuiltSide(side: Side, levels: seq<Level>): seq<Insert> {
    if levels == [] then [] else RebuiltQueue(side, levels[0].price, levels[0].queue) + RebuiltSide(side, levels[1..])
  }

  ghost predicate Countable(levels: seq<Level>) {
    |levels| < TWO_32 && forall i :: 0 <= i < |levels| ==> |levels[i].queue| < TWO_32
  }

  lemma {:induction false} OrdersBack(queue: seq<Resting>, tail: seq<byte>, side: Side, price: Price)
    ensures ReadOrders(QueueBytes(queue) + tail, |queue|, side, price)
            == Reading(RebuiltQueue(side, price, queue), true, ORDER_RECORD * |queue|)
    decreases |queue|
  {
    hide OrderBytes, OrderOfBytes;
    if queue != [] {
      var head, rest := OrderBytes(queue[0]), QueueBytes(queue[1..]);
      var s := QueueBytes(queue) + tail;
      OrderLength(queue[0]);
      OrderBack(queue[0]);
      OrdersBack(queue[1..], tail, side, price);
      assert s[..ORDER_RECORD] == head && s[ORDER_RECORD..] == rest + tail;
    }
  }

  lemma OrderLength(r: Resting)
    ensures |OrderBytes(r)| == ORDER_RECORD
  {
  }

  lemma LevelLength(l: LevelSnapshot)
    ensures |LevelBytes(l)| == LEVEL_RECORD
  {
  }

  lemma {:induction false} LevelsBack(levels: seq<Level>, tail: seq<byte>, side: Side)
    requires Countable(levels)
    ensures ReadLevels(LevelsBytes(levels) + tail, |levels|, side) ==
            Reading(RebuiltSide(side, levels), true, |LevelsBytes(levels)|)
    decreases |levels|
  {
    hide LevelBytes, LevelOfBytes, QueueBytes, ReadOrders, ReadLevels, HeadOf, RebuiltQueue, Countable;
    if levels == [] {
      NoLevels(LevelsBytes(levels) + tail, side);
    } else {
      var head, queue, rest := LevelBytes(HeadOf(levels[0])), QueueBytes(levels[0].queue), LevelsBytes(levels[1..]);
      CountableTail(levels);
      LevelLength(HeadOf(levels[0]));
      LevelBack(HeadOf(levels[0]));
      HeadFacts(levels[0]);
      QueueLength(levels[0].queue);
      OrdersBack(levels[0].queue, rest + tail, side, levels[0].price);
      LevelsBack(levels[1..], tail, side);
      Reassociated(head, queue, rest, tail);
      OneLevel(head, queue, rest + tail, |levels|, side, HeadOf(levels[0]));
    }
  }

  lemma CountableTail(levels: seq<Level>)
    requires Countable(levels) && levels != []
    ensures Countable(levels[1..]) && |levels[0].queue| < TWO_32
  {
  }

  lemma Reassociated(a: seq<byte>, b: seq<byte>, c: seq<byte>, d: seq<byte>)
    ensures a + b + c + d == a + (b + (c + d))
  {
  }

  lemma NoLevels(s: seq<byte>, side: Side)
    ensures ReadLevels(s, 0, side) == Reading([], true, 0)
  {
  }

  lemma HeadFacts(level: Level)
    requires |level.queue| < TWO_32
    ensures HeadOf(level).price == level.price && HeadOf(level).orderCount == |level.queue|
  {
  }

  /** A level record, its whole queue, and whatever follows. */
  lemma OneLevel(head: seq<byte>, queue: seq<byte>, tail: seq<byte>, count: nat, side: Side, level: LevelSnapshot)
    requires count > 0 && |head| == LEVEL_RECORD && LevelOfBytes(head) == level
    requires var orders := ReadOrders(queue + tail, level.orderCount, side, level.price);
             orders.complete && orders.used == |queue|
    ensures var orders, rest := ReadOrders(queue + tail, level.orderCount, side, level.price),
            ReadLevels(tail, count - 1, side);
            ReadLevels(head + (queue + tail), count, side)
            == Reading(orders.inserts + rest.inserts, rest.complete, LEVEL_RECORD + |queue| + rest.used)
  {
    hide LevelOfBytes, ReadOrders;
    var s := head + (queue + tail);
    assert s[..LEVEL_RECORD] == head && s[LEVEL_RECORD..] == queue + tail;
    assert s[LEVEL_RECORD + |queue|..] == tail;
  }

  lemma QueueLength(queue: seq<Resting>)
    ensures |QueueBytes(queue)| == ORDER_RECORD * |queue|
  {
  }

  /** A saved snapshot passes every check of the loader and makes it insert the resting orders of the
      book, best level first and in queue order. */
  lemma SavedLoads(book: Book, sequence: u64, timestamp: u64)
    requires Countable(book.bids) && Countable(book.asks)
    ensures var file := SnapshotBytes(book, sequence, timestamp);
            && GoodSnapshot(file) && Loads(file)
            && InsertsOf(file) == RebuiltSide(Buy, book.bids) + RebuiltSide(Sell, book.asks)
            && ReadBody(SnapshotHeaderOf(file[..SNAPSHOT_HEADER]), file[SNAPSHOT_HEADER..]).used ==
               |file| - SNAPSHOT_HEADER
  {
    hide SnapshotHeaderBytes, SnapshotHeaderOf, LevelsBytes, ReadLevels, RebuiltSide, BodyCheck;
    var h := HeaderFor(book, sequence, timestamp);
    var file := SnapshotBytes(book, sequence, timestamp);
    HeaderLength(h);
    SnapshotHeaderBack(h);
    assert file[..SNAPSHOT_HEADER] == SnapshotHeaderBytes(h) && file[SNAPSHOT_HEADER..] == BodyBytes(book);
    var bids, asks := LevelsBytes(book.bids), LevelsBytes(book.asks);
    LevelsBack(book.bids, asks, Buy);
    LevelsBack(book.asks, [], Sell);
    assert (bids + asks)[|bids|..] == asks + [];
    assert BodyBytes(book)[..|bids| + |asks|] == BodyBytes(book);
  }

  lemma HeaderLength(h: SnapshotHeader)
    ensures |SnapshotHeaderBytes(h)| == SNAPSHOT_HEADER
  {
  }
}
