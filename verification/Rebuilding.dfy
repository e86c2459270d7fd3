/** Inserting a saved book's resting orders, best level first and in queue order, into an empty
    book gives the saved book, and each of those inserts is possible. */
module Rebuilding {
  import opened Domain
  import opened BookSpec
  import opened EngineSpec
  import opened SnapshotLaws

  ghost function Inserted(book: Book, inserts: seq<Insert>): Book
    decreases |inserts|
  {
    if inserts == [] then book else Inserted(InsertSpec(book, inserts[0].order, inserts[0].prioritySeq), inserts[1..])
  }

  /** Every insert meets a new id and free slots. */
  ghost predicate Fillable(book: Book, inserts: seq<Insert>)
    decreases |inserts|
  {
    inserts != [] ==>
      Insertable(book, inserts[0].order) &&
      Fillable(InsertSpec(book, inserts[0].order, inserts[0].prioritySeq), inserts[1..])
  }

  lemma {:induction false} InsertedConcat(book: Book, a: seq<Insert>, b: seq<Insert>)
    ensures Inserted(book, a + b) == Inserted(Inserted(book, a), b)
    decreases |a|
  {
    hide InsertSpec;
    if a == [] {
      assert a + b == b;
    } else {
      InsertedConcat(InsertSpec(book, a[0].order, a[0].prioritySeq), a[1..], b);
      assert (a + b)[1..] == a[1..] + b;
    }
  }

  // ----- the book that comes out

  ghost function Tail(price: Price, queue: seq<Resting>): seq<Level> {
    if queue == [] then [] else [Level(price, queue)]
  }

  ghost predicate AllBetter(side: Side, levels: seq<Level>, price: Price) {
    forall i :: 0 <= i < |levels| ==> Better(side, levels[i].price, price)
  }

  lemma {:induction false} AddLast(side: Side, done: seq<Level>, price: Price, queue: seq<Resting>, r: Resting)
    requires AllBetter(side, done, price)
    ensures AddOrder(side, done + Tail(price, queue), price, r) == done + Tail(price, queue + [r])
    decreases |done|
  {
    var all := done + Tail(price, queue);
    if done == [] {
      assert all == Tail(price, queue) && done + Tail(price, queue + [r]) == Tail(price, queue + [r]);
      if queue == [] {
        assert queue + [r] == [r];
      } else {
        assert all[1..] == [];
      }
    } else {
      AddLast(side, done[1..], price, queue, r);
      assert all[0] == done[0] && all[1..] == done[1..] + Tail(price, queue);
      assert [done[0]] + (done[1..] + Tail(price, queue + [r])) == done + Tail(price, queue + [r]);
    }
  }

  lemma {:induction false} RebuildsQueue(book: Book, side: Side, done: seq<Level>, price: Price, before: seq<Resting>,
                                         queue: seq<Resting>)
    requires book.Of(side) == done + Tail(price, before) && AllBetter(side, done, price)
    ensures Inserted(book, RebuiltQueue(side, price, queue)) == book.With(side, done + Tail(price, before + queue))
    decreases |queue|
  {
    hide AllBetter, AddOrder, Tail;
    if queue == [] {
      assert before + queue == before;
    } else {
      var next := Rebuilt(side, price, queue[0]);
      AddLast(side, done, price, before, queue[0]);
      var after := InsertSpec(book, next.order, next.prioritySeq);
      assert after == book.With(side, done + Tail(price, before + [queue[0]]));
      RebuildsQueue(after, side, done, price, before + [queue[0]], queue[1..]);
      assert before + [queue[0]] + queue[1..] == before + queue;
      assert RebuiltQueue(side, price, queue)[1..] == RebuiltQueue(side, price, queue[1..]);
    }
  }

  lemma {:induction false} RebuildsSide(book: Book, side: Side, done: seq<Level>, levels: seq<Level>)
    requires book.Of(side) == done && Sorted(side, done + levels) && NonEmptyQueues(levels)
    ensures Inserted(book, RebuiltSide(side, levels)) == book.With(side, done + levels)
    decreases |levels|
  {
    hide Sorted, NonEmptyQueues, RebuiltQueue, Inserted, AllBetter;
    if levels == [] {
      assert done + levels == done;
      NothingToInsert(book);
    } else {
      var level, rest := levels[0], levels[1..];
      SortedSplit(side, done, levels);
      NonEmptySplit(levels);
      RebuildsLevel(book, side, done, level);
      RebuildsSide(book.With(side, done + [level]), side, done + [level], rest);
      InsertedConcat(book, RebuiltQueue(side, level.price, level.queue), RebuiltSide(side, rest));
    }
  }

  lemma NothingToInsert(book: Book)
    ensures Inserted(book, []) == book
  {
  }

  lemma RebuildsLevel(book: Book, side: Side, done: seq<Level>, level: Level)
    requires book.Of(side) == done && AllBetter(side, done, level.price) && level.queue != []
    ensures Inserted(book, RebuiltQueue(side, level.price, level.queue)) == book.With(side, done + [level])
  {
    hide AllBetter, Inserted, RebuiltQueue;
    assert done + Tail(level.price, []) == done;
    assert [] + level.queue == level.queue;
    RebuildsQueue(book, side, done, level.price, [], level.queue);
  }

  lemma SortedSplit(side: Side, done: seq<Level>, levels: seq<Level>)
    requires Sorted(side, done + levels) && levels != []
    ensures AllBetter(side, done, levels[0].price) && Sorted(side, done + [levels[0]] + levels[1..])
    ensures done + [levels[0]] + levels[1..] == done + levels
  {
    var all := done + levels;
    forall i | 0 <= i < |done|
      ensures Better(side, done[i].price, levels[0].price)
    {
      assert all[i] == done[i] && all[|done|] == levels[0];
    }
    assert done + [levels[0]] + levels[1..] == all;
  }

  lemma NonEmptySplit(levels: seq<Level>)
    requires NonEmptyQueues(levels) && levels != []
    ensures NonEmptyQueues(levels[1..]) && levels[0].queue != []
  {
  }

  // ----- every insert is possible

  lemma {:induction false} OnSideAdded(side: Side, levels: seq<Level>, price: Price, r: Resting, id: u64)
    ensures OnSide(AddOrder(side, levels, price, r), id) <==> OnSide(levels, id) || id == r.orderId
    decreases |levels|
  {
    hide InQueue;
    var after := AddOrder(side, levels, price, r);
    InQueueAlone(r, id);
    if levels == [] {
      assert OnSide(after, id) <==> InQueue(after[0].queue, id);
    } else {
      OnSideSplit(after, id);
      OnSideSplit(levels, id);
      if levels[0].price == price {
        InQueueAppended(levels[0].queue, r, id);
        assert after[1..] == levels[1..];
      } else if Better(side, price, levels[0].price) {
        assert after[1..] == levels;
      } else {
        OnSideAdded(side, levels[1..], price, r, id);
        assert after[1..] == AddOrder(side, levels[1..], price, r);
      }
    }
  }

  lemma InQueueAlone(r: Resting, id: u64)
    ensures InQueue([r], id) <==> id == r.orderId
  {
    assert [r][0] == r;
  }

  lemma InQueueAppended(queue: seq<Resting>, r: Resting, id: u64)
    ensures InQueue(queue + [r], id) <==> InQueue(queue, id) || id == r.orderId
  {
    var after := queue + [r];
    assert after[|queue|] == r;
    if InQueue(queue, id) {
      var k :| 0 <= k < |queue| && queue[k].orderId == id;
      assert after[k].orderId == id;
    }
  }

  lemma OnSideSplit(levels: seq<Level>, id: u64)
    requires levels != []
    ensures OnSide(levels, id) <==> InQueue(levels[0].queue, id) || OnSide(levels[1..], id)
  {
    if !InQueue(levels[0].queue, id) {
      OnSideTail(levels, id);
    }
  }

  lemma {:induction false} AddedSizes(side: Side, levels: seq<Level>, price: Price, r: Resting)
    ensures var after := AddOrder(side, levels, price, r);
            && OrderCount(after) == OrderCount(levels) + 1
            && |levels| <= |after| <= |levels| + 1
            && (|after| == |levels| ==> PriceOn(levels, price))
    decreases |levels|
  {
    var after := AddOrder(side, levels, price, r);
    if levels == [] {
      assert after[1..] == [];
    } else if levels[0].price == price {
      assert after[1..] == levels[1..];
    } else if Better(side, price, levels[0].price) {
      assert after[1..] == levels;
    } else {
      AddedSizes(side, levels[1..], price, r);
      assert after[1..] == AddOrder(side, levels[1..], price, r);
      if PriceOn(levels[1..], price) {
        var i :| 0 <= i < |levels[1..]| && levels[1..][i].price == price;
        assert levels[i + 1].price == price;
      }
    }
  }

  ghost predicate Unique(inserts: seq<Insert>) {
    forall i, j :: 0 <= i < j < |inserts| ==> inserts[i].order.orderId != inserts[j].order.orderId
  }

  ghost predicate FreshIn(book: Book, inserts: seq<Insert>) {
    forall i :: 0 <= i < |inserts| ==> !Known(book, inserts[i].order.orderId)
  }

  ghost predicate Known(book: Book, id: u64) {
    OnSide(book.bids, id) || OnSide(book.asks, id)
  }

  ghost function Orders(book: Book): nat {
    OrderCount(book.bids) + OrderCount(book.asks)
  }

  ghost function Levels(book: Book): nat {
    |book.bids| + |book.asks|
  }

  lemma InsertCounts(book: Book, order: Order, prioritySeq: u64)
    ensures var after := InsertSpec(book, order, prioritySeq);
            && Orders(after) == Orders(book) + 1 && Levels(book) <= Levels(after)
            && (Levels(after) == Levels(book) ==> PriceOn(book.Of(order.side), order.price))
  {
    hide AddOrder, OrderCount, PriceOn;
    AddedSizes(order.side, book.Of(order.side), order.price,
               Resting(order.symbolId, order.orderId, order.qty, prioritySeq));
  }

  lemma InsertKnows(book: Book, order: Order, prioritySeq: u64, id: u64)
    ensures Known(InsertSpec(book, order, prioritySeq), id) <==> Known(book, id) || id == order.orderId
  {
    hide AddOrder, OnSide;
    OnSideAdded(order.side, book.Of(order.side), order.price,
                Resting(order.symbolId, order.orderId, order.qty, prioritySeq), id);
  }

  lemma {:induction false} FillGrows(book: Book, inserts: seq<Insert>)
    ensures Levels(book) <= Levels(Inserted(book, inserts))
    decreases |inserts|
  {
    hide InsertSpec, Levels;
    if inserts != [] {
      InsertCounts(book, inserts[0].order, inserts[0].prioritySeq);
      FillGrows(InsertSpec(book, inserts[0].order, inserts[0].prioritySeq), inserts[1..]);
    }
  }

  /** New and mutually different ids, and room for the outcome, are enough at every step. */
  lemma {:induction false} FillableWhen(book: Book, inserts: seq<Insert>)
    requires Unique(inserts) && FreshIn(book, inserts)
    requires Orders(book) + |inserts| <= ORDER_CAPACITY && Levels(Inserted(book, inserts)) <= LEVEL_CAPACITY
    ensures Fillable(book, inserts)
    decreases |inserts|
  {
    if inserts != [] {
      hide InsertSpec, OnSide, PriceOn, OrderCount, Inserted, Known;
      var first, rest := inserts[0], inserts[1..];
      var after := InsertSpec(book, first.order, first.prioritySeq);
      InsertCounts(book, first.order, first.prioritySeq);
      InsertedStep(book, inserts);
      FillGrows(after, rest);
      forall i | 0 <= i < |rest|
        ensures !Known(after, rest[i].order.orderId)
      {
        assert rest[i] == inserts[i + 1];
        InsertKnows(book, first.order, first.prioritySeq, rest[i].order.orderId);
      }
      FillableWhen(after, rest);
      KnownNot(book, first.order.orderId);
    }
  }

  lemma KnownNot(book: Book, id: u64)
    requires !Known(book, id)
    ensures !OnSide(book.bids, id) && !OnSide(book.asks, id)
  {
  }

  lemma InsertedStep(book: Book, inserts: seq<Insert>)
    requires inserts != []
    ensures Inserted(book, inserts) ==
            Inserted(InsertSpec(book, inserts[0].order, inserts[0].prioritySeq), inserts[1..])
  {
  }

  ghost function Contents(book: Book): seq<Insert> {
    RebuiltSide(Buy, book.bids) + RebuiltSide(Sell, book.asks)
  }

  lemma {:induction false} RebuiltCount(side: Side, levels: seq<Level>)
    ensures |RebuiltSide(side, levels)| == OrderCount(levels)
  {
    if levels != [] {
      RebuiltCount(side, levels[1..]);
    }
  }

  /** The contents of a sorted book with no empty level, in capacity and without a repeated id, can
      be inserted one by one into an empty book, and give back that book: same levels in order,
      same queues, ids, quantities and priorities. */
  lemma ContentsRebuild(book: Book)
    requires Sorted(Buy, book.bids) && Sorted(Sell, book.asks) && NonEmptyQueues(book.bids) && NonEmptyQueues(book.asks)
    requires Unique(Contents(book)) && Orders(book) <= ORDER_CAPACITY && Levels(book) <= LEVEL_CAPACITY
    ensures Inserted(EMPTY, Contents(book)) == book && Fillable(EMPTY, Contents(book))
  {
    hide Sorted, NonEmptyQueues, RebuiltSide, Inserted, Unique;
    assert [] + book.bids == book.bids && [] + book.asks == book.asks;
    RebuildsSide(EMPTY, Buy, [], book.bids);
    RebuildsSide(Book(book.bids, []), Sell, [], book.asks);
    InsertedConcat(EMPTY, RebuiltSide(Buy, book.bids), RebuiltSide(Sell, book.asks));
    RebuiltCount(Buy, book.bids);
    RebuiltCount(Sell, book.asks);
    FillableWhen(EMPTY, Contents(book));
  }
}
