/** The matching engine on abstract books: what one command does, and what every run keeps. */
module EngineSpec {
  import opened Domain
  import opened Seqs
  import opened BookSpec
  import opened Matching
  import opened EngineLog

  /** The best bid is strictly below the best ask. */
  ghost predicate Uncrossed(book: Book) {
    forall i, j :: 0 <= i < |book.bids| && 0 <= j < |book.asks| ==> book.bids[i].price < book.asks[j].price
  }

  ghost predicate WellFormed(book: Book) {
    && Sorted(Buy, book.bids) && Sorted(Sell, book.asks)
    && NonEmptyQueues(book.bids) && NonEmptyQueues(book.asks)
    && Uncrossed(book)
  }

  function Sweep(book: Book, order: Order): Outcome {
    Match(order, book.Of(order.side.Opposite()), order.qty)
  }

  predicate Rests(book: Book, order: Order) {
    order.orderType == Limit && Sweep(book, order).left > 0
  }

  /** The book after the sweep, before the remainder is dealt with. */
  function Matched(book: Book, order: Order): Book {
    book.With(order.side.Opposite(), Sweep(book, order).levels)
  }

  /** Submitting an order. The code rests the order it was given, at its full original quantity. */
  ghost function SubmitSpec(book: Book, order: Order): Book {
    if Rests(book, order) then InsertSpec(Matched(book, order), order, order.seqNum) else Matched(book, order)
  }

  lemma UncrossedWithin(book: Book, side: Side, levels: seq<Level>)
    requires Uncrossed(book) && PricesWithin(levels, book.Of(side))
    ensures Uncrossed(book.With(side, levels))
  {
    var after := book.With(side, levels);
    forall i, j | 0 <= i < |after.bids| && 0 <= j < |after.asks|
      ensures after.bids[i].price < after.asks[j].price
    {
      if side == Buy {
        var a :| 0 <= a < |book.bids| && book.bids[a].price == levels[i].price;
        assert book.bids[a].price < book.asks[j].price;
      } else {
        var a :| 0 <= a < |book.asks| && book.asks[a].price == levels[j].price;
        assert book.bids[i].price < book.asks[a].price;
      }
    }
  }

  // ----- what the book operations keep

  lemma SortedCons(side: Side, level: Level, rest: seq<Level>)
    requires Sorted(side, rest) && forall i :: 0 <= i < |rest| ==> Better(side, level.price, rest[i].price)
    ensures Sorted(side, [level] + rest)
  {
    var all := [level] + rest;
    forall i, j | 0 <= i < j < |all|
      ensures Better(side, all[i].price, all[j].price)
    {
      assert all[j] == rest[j - 1];
      if i > 0 {
        assert all[i] == rest[i - 1];
      }
    }
  }

  lemma SortedTail(side: Side, levels: seq<Level>)
    requires Sorted(side, levels) && NonEmptyQueues(levels) && levels != []
    ensures Sorted(side, levels[1..]) && NonEmptyQueues(levels[1..])
    ensures forall i :: 0 <= i < |levels[1..]| ==> Better(side, levels[0].price, levels[1..][i].price)
    ensures levels == [levels[0]] + levels[1..] && |levels[0].queue| > 0
  {
  }

  lemma {:induction false} AddKeeps(side: Side, levels: seq<Level>, price: Price, r: Resting)
    requires Sorted(side, levels) && NonEmptyQueues(levels)
    ensures var after := AddOrder(side, levels, price, r);
            && Sorted(side, after) && NonEmptyQueues(after)
            && (forall i :: 0 <= i < |after| ==> after[i].price == price || PriceOn(levels, after[i].price))
  {
    if levels != [] {
      SortedTail(side, levels);
      if levels[0].price == price {
        SortedCons(side, Level(price, levels[0].queue + [r]), levels[1..]);
        assert forall i :: 1 <= i < |levels| ==> levels[i] == levels[1..][i - 1];
      } else if Better(side, price, levels[0].price) {
        SortedCons(side, Level(price, [r]), levels);
      } else {
        AddKeeps(side, levels[1..], price, r);
        AddKeepsTail(side, levels, price, r);
      }
    }
  }

  lemma AddKeepsTail(side: Side, levels: seq<Level>, price: Price, r: Resting)
    requires Sorted(side, levels) && NonEmptyQueues(levels) && levels != []
    requires levels[0].price != price && !Better(side, price, levels[0].price)
    requires var rest := AddOrder(side, levels[1..], price, r);
             && Sorted(side, rest) && NonEmptyQueues(rest)
             && (forall i :: 0 <= i < |rest| ==> rest[i].price == price || PriceOn(levels[1..], rest[i].price))
    ensures var after := [levels[0]] + AddOrder(side, levels[1..], price, r);
            && Sorted(side, after) && NonEmptyQueues(after)
            && (forall i :: 0 <= i < |after| ==> after[i].price == price || PriceOn(levels, after[i].price))
  {
    hide AddOrder;
    var rest := AddOrder(side, levels[1..], price, r);
    forall i | 0 <= i < |rest|
      ensures Better(side, levels[0].price, rest[i].price) && (rest[i].price == price || PriceOn(levels, rest[i].price))
    {
      if rest[i].price != price {
        var j :| 0 <= j < |levels[1..]| && levels[1..][j].price == rest[i].price;
        assert levels[j + 1].price == rest[i].price;
      }
    }
    SortedCons(side, levels[0], rest);
    assert PriceOn(levels, levels[0].price);
  }

  /** Replacing one level's queue, or dropping the level, keeps order and prices. */
  lemma ReplaceKeeps(side: Side, levels: seq<Level>, i: nat, queue: seq<Resting>)
    requires Sorted(side, levels) && NonEmptyQueues(levels) && i < |levels|
    ensures var after := Replaced(levels, i, queue);
            Sorted(side, after) && NonEmptyQueues(after) && PricesWithin(after, levels)
  {
    var after := Replaced(levels, i, queue);
    assert forall k :: 0 <= k < |after| ==> after[k].price == levels[if queue == [] && k >= i then k + 1 else k].price;
  }

  /** The level in position `i` with its queue replaced, or gone when the queue is empty. */
  ghost function Replaced(levels: seq<Level>, i: nat, queue: seq<Resting>): seq<Level>
    requires i < |levels|
  {
    if queue == [] then DeletedAt(levels, i) else levels[i := levels[i].(queue := queue)]
  }

  lemma ReplacedTail(levels: seq<Level>, i: nat, queue: seq<Resting>)
    requires 0 < i < |levels|
    ensures Replaced(levels, i, queue) == [levels[0]] + Replaced(levels[1..], i - 1, queue)
  {
    DeletedTail(levels, i);
  }

  lemma ReplacedHead(levels: seq<Level>, queue: seq<Resting>)
    requires levels != []
    ensures Replaced(levels, 0, queue) ==
            if queue == [] then levels[1..] else [levels[0].(queue := queue)] + levels[1..]
  {
    assert DeletedAt(levels, 0) == levels[1..];
  }

  /** Dropping an order changes the queue of one level, or nothing when the order is not there. */
  lemma {:induction false} DropShape(levels: seq<Level>, id: u64) returns (i: nat, queue: seq<Resting>)
    ensures if OnSide(levels, id) then
              i < |levels| && queue == Without(levels[i].queue, id) &&
              DropOrder(levels, id) == Replaced(levels, i, queue)
            else DropOrder(levels, id) == levels
  {
    hide Replaced;
    i, queue := 0, [];
    if levels != [] {
      if InQueue(levels[0].queue, id) {
        queue := Without(levels[0].queue, id);
        ReplacedHead(levels, queue);
      } else {
        OnSideTail(levels, id);
        i, queue := DropShape(levels[1..], id);
        i := i + 1;
        if OnSide(levels, id) {
          ReplacedTail(levels, i, queue);
        }
      }
    }
  }

  lemma OnSideTail(levels: seq<Level>, id: u64)
    requires levels != [] && !InQueue(levels[0].queue, id)
    ensures OnSide(levels, id) <==> OnSide(levels[1..], id)
  {
    if OnSide(levels, id) {
      var i :| 0 <= i < |levels| && InQueue(levels[i].queue, id);
      assert levels[1..][i - 1] == levels[i];
    }
    if OnSide(levels[1..], id) {
      var i :| 0 <= i < |levels[1..]| && InQueue(levels[1..][i].queue, id);
      assert levels[1..][i] == levels[i + 1];
    }
  }

  lemma {:induction false} ResizeShape(levels: seq<Level>, id: u64, qty: u64, prioritySeq: u64)
    returns (i: nat, queue: seq<Resting>)
    ensures if OnSide(levels, id) then
              && i < |levels| && |queue| == |levels[i].queue| > 0 &&
                 queue == Requeue(levels[i].queue, id, qty, prioritySeq)
              && ResizeOrder(levels, id, qty, prioritySeq) == Replaced(levels, i, queue)
            else ResizeOrder(levels, id, qty, prioritySeq) == levels
  {
    hide Replaced, Requeue;
    i, queue := 0, [];
    if levels != [] {
      if InQueue(levels[0].queue, id) {
        queue := Requeue(levels[0].queue, id, qty, prioritySeq);
        RequeueSize(levels[0].queue, id, qty, prioritySeq);
        ReplacedHead(levels, queue);
      } else {
        OnSideTail(levels, id);
        i, queue := ResizeShape(levels[1..], id, qty, prioritySeq);
        i := i + 1;
        if OnSide(levels, id) {
          ReplacedTail(levels, i, queue);
        }
      }
    }
  }

  lemma {:induction false} RequeueSize(queue: seq<Resting>, id: u64, qty: u64, prioritySeq: u64)
    ensures |Requeue(queue, id, qty, prioritySeq)| == |queue|
  {
    if queue != [] && queue[0].orderId != id {
      RequeueSize(queue[1..], id, qty, prioritySeq);
    }
  }

  lemma SideKeeps(book: Book, side: Side, levels: seq<Level>)
    requires WellFormed(book) && Sorted(side, levels) && NonEmptyQueues(levels) && PricesWithin(levels, book.Of(side))
    ensures WellFormed(book.With(side, levels))
  {
    hide Sorted, NonEmptyQueues, PricesWithin, Uncrossed;
    UncrossedWithin(book, side, levels);
  }

  lemma CancelKeeps(book: Book, id: u64)
    requires WellFormed(book)
    ensures WellFormed(CancelSpec(book, id))
  {
    hide WellFormed, DropOrder, PricesWithin;
    var side := if OnSide(book.bids, id) then Buy else Sell;
    if OnSide(book.Of(side), id) {
      var i, queue := DropShape(book.Of(side), id);
      FormOf(book, side);
      ReplaceKeeps(side, book.Of(side), i, queue);
      SideKeeps(book, side, DropOrder(book.Of(side), id));
    }
  }

  lemma ModifyKeeps(book: Book, id: u64, qty: u64, prioritySeq: u64)
    requires WellFormed(book)
    ensures WellFormed(ModifySpec(book, id, qty, prioritySeq))
  {
    hide WellFormed, ResizeOrder, PricesWithin;
    var side := if OnSide(book.bids, id) then Buy else Sell;
    if OnSide(book.Of(side), id) {
      var i, queue := ResizeShape(book.Of(side), id, qty, prioritySeq);
      FormOf(book, side);
      ReplaceKeeps(side, book.Of(side), i, queue);
      SideKeeps(book, side, ResizeOrder(book.Of(side), id, qty, prioritySeq));
    }
  }

  lemma FormOf(book: Book, side: Side)
    requires WellFormed(book)
    ensures Sorted(side, book.Of(side)) && NonEmptyQueues(book.Of(side)) && Uncrossed(book)
  {
  }

  /** A price that does not cross may join its own side. */
  lemma InsertKeeps(book: Book, order: Order, prioritySeq: u64)
    requires WellFormed(book) && !FrontCrosses(order.(orderType := Limit), book)
    ensures WellFormed(InsertSpec(book, order, prioritySeq))
  {
    var r := Resting(order.symbolId, order.orderId, order.qty, prioritySeq);
    AddKeeps(order.side, book.Of(order.side), order.price, r);
    InsertUncrossed(book, order, AddOrder(order.side, book.Of(order.side), order.price, r));
  }

  lemma InsertUncrossed(book: Book, order: Order, levels: seq<Level>)
    requires WellFormed(book) && !FrontCrosses(order.(orderType := Limit), book)
    requires forall i :: 0 <= i < |levels| ==>
             levels[i].price == order.price || PriceOn(book.Of(order.side), levels[i].price)
    ensures Uncrossed(book.With(order.side, levels))
  {
    var after, others := book.With(order.side, levels), book.Of(order.side.Opposite());
    assert forall k :: 0 < k < |others| ==> Better(order.side.Opposite(), others[0].price, others[k].price);
    forall i, j | 0 <= i < |after.bids| && 0 <= j < |after.asks|
      ensures after.bids[i].price < after.asks[j].price
    {
      var mine := if order.side == Buy then after.bids[i].price else after.asks[j].price;
      if mine != order.price {
        var k :| 0 <= k < |book.Of(order.side)| && book.Of(order.side)[k].price == mine;
        assert book.Of(order.side)[k].price == mine;
      }
    }
  }

  /** A submitted order leaves the book sorted, without empty levels and uncrossed. */
  lemma SubmitKeeps(book: Book, order: Order)
    requires WellFormed(book)
    ensures WellFormed(SubmitSpec(book, order))
  {
    hide WellFormed, InsertSpec;
    var side := order.side.Opposite();
    FormOf(book, side);
    MatchKeepsShape(order, side, book.Of(side), order.qty);
    var matched := Matched(book, order);
    SideKeeps(book, side, matched.Of(side));
    if Rests(book, order) {
      assert order.(orderType := Limit) == order;
      InsertKeeps(matched, order, order.seqNum);
    }
  }

  // ----- every run

  datatype Command = Submit(order: Order) | Cancel(id: u64) | Modify(id: u64, qty: u64, prioritySeq: u64)

  ghost function Step(book: Book, cmd: Command): Book {
    match cmd
    case Submit(order) => SubmitSpec(book, order)
    case Cancel(id) => CancelSpec(book, id)
    case Modify(id, qty, prioritySeq) => ModifySpec(book, id, qty, prioritySeq)
  }

  ghost function Run(book: Book, cmds: seq<Command>): Book {
    if cmds == [] then book else Step(Run(book, cmds[..|cmds| - 1]), cmds[|cmds| - 1])
  }

  /** From an empty book, after any commands whatever, the best bid is strictly below the best ask,
      levels are sorted and none is empty; so no price is ever on both sides, which is what the
      bids-first level search of cancel, modify and fill rests on. */
  lemma {:induction false} NeverCrossed(cmds: seq<Command>)
    ensures WellFormed(Run(EMPTY, cmds)) && NoSharedPrice(Run(EMPTY, cmds))
  {
    if cmds != [] {
      hide WellFormed, SubmitSpec, CancelSpec, ModifySpec;
      var before, cmd := Run(EMPTY, cmds[..|cmds| - 1]), cmds[|cmds| - 1];
      NeverCrossed(cmds[..|cmds| - 1]);
      match cmd {
        case Submit(order) => SubmitKeeps(before, order);
        case Cancel(id) => CancelKeeps(before, id);
        case Modify(id, qty, prioritySeq) => ModifyKeeps(before, id, qty, prioritySeq);
      }
      FormOf(Run(EMPTY, cmds), Buy);
      UncrossedUnshared(Run(EMPTY, cmds));
    }
  }

  // ----- one match as a step of the sweep

  /** The front of the opposite side trades with the incoming order. */
  ghost predicate OneFill(order: Order, before: Book, log: Log, left: u64, after: Book, log': Log, left': u64) {
    var side := order.side.Opposite();
    var levels := before.Of(side);
    && levels != [] && levels[0].queue != []
    && var f := FillOf(levels[0].price, levels[0].queue[0], left);
    && left' == f.takerLeft
    && log' == ApplyFill(log, order, f)
    && after == before.With(side, if f.makerLeft > 0 then ShrinkHead(levels, f.makerLeft) else WithoutHead(levels))
  }

  /** Sweeping on from the second state ends where sweeping from the first ends. */
  ghost predicate SameSweep(order: Order, before: Book, log: Log, left: u64, after: Book, log': Log, left': u64) {
    var side := order.side.Opposite();
    var m, m' := Match(order, before.Of(side), left), Match(order, after.Of(side), left');
    && m.levels == m'.levels && m.left == m'.left
    && ApplyFills(log, order, m.fills) == ApplyFills(log', order, m'.fills)
    && after == before.With(side, after.Of(side))
  }

  lemma SameSweepTrans(order: Order, b0: Book, l0: Log, q0: u64, b1: Book, l1: Log, q1: u64, b2: Book, l2: Log, q2: u64)
    requires SameSweep(order, b0, l0, q0, b1, l1, q1) && SameSweep(order, b1, l1, q1, b2, l2, q2)
    ensures SameSweep(order, b0, l0, q0, b2, l2, q2)
  {
  }

  lemma OneFillSweeps(order: Order, before: Book, log: Log, left: u64, after: Book, log': Log, left': u64)
    requires OneFill(order, before, log, left, after, log', left') && left > 0
    requires Crosses(order, before.Of(order.side.Opposite())[0].price)
    ensures SameSweep(order, before, log, left, after, log', left')
    ensures var c, c' := OrderCount(before.Of(order.side.Opposite())), OrderCount(after.Of(order.side.Opposite()));
            c' < c || (c' == c && left' < left)
  {
    hide ApplyFill;
    var levels := before.Of(order.side.Opposite());
    var f := FillOf(levels[0].price, levels[0].queue[0], left);
    if f.makerLeft > 0 {
      CountShrinkHead(levels, f.makerLeft);
      assert [f][1..] == [];
      assert ApplyFills(log, order, [f]) == ApplyFills(log', order, []);
    } else {
      CountWithoutHead(levels);
      var rest := Match(order, WithoutHead(levels), f.takerLeft);
      assert ([f] + rest.fills)[1..] == rest.fills;
    }
  }

  lemma {:induction false} CountShrinkHead(levels: seq<Level>, qty: u64)
    requires levels != [] && levels[0].queue != []
    ensures OrderCount(ShrinkHead(levels, qty)) == OrderCount(levels)
  {
    assert ShrinkHead(levels, qty)[1..] == levels[1..];
  }

  lemma OneFillKeeps(order: Order, before: Book, log: Log, left: u64, after: Book, log': Log, left': u64)
    requires OneFill(order, before, log, left, after, log', left') && Uncrossed(before)
    requires var side := order.side.Opposite(); Sorted(side, before.Of(side)) && NonEmptyQueues(before.Of(side))
    ensures Uncrossed(after)
  {
    hide Uncrossed, ApplyFill, PricesWithin;
    var side := order.side.Opposite();
    var levels := before.Of(side);
    var f := FillOf(levels[0].price, levels[0].queue[0], left);
    HeadKeepsShape(side, levels, f.makerLeft);
    UncrossedWithin(before, side, if f.makerLeft > 0 then ShrinkHead(levels, f.makerLeft) else WithoutHead(levels));
  }

  lemma UncrossedUnshared(book: Book)
    requires Uncrossed(book)
    ensures NoSharedPrice(book)
  {
  }

  /** The front of the opposite side is there and crosses. */
  ghost predicate FrontCrosses(order: Order, book: Book) {
    var levels := book.Of(order.side.Opposite());
    levels != [] && Crosses(order, levels[0].price)
  }

  ghost function Work(order: Order, book: Book): nat {
    OrderCount(book.Of(order.side.Opposite()))
  }

  lemma SameSweepRefl(order: Order, book: Book, log: Log, left: u64)
    ensures SameSweep(order, book, log, left, book, log, left)
  {
  }

  /** A sweep that can go no further has done all of it. */
  lemma SweepDone(order: Order, before: Book, log: Log, after: Book, log': Log, left: u64)
    requires SameSweep(order, before, log, order.qty, after, log', left)
    requires left == 0 || !FrontCrosses(order, after)
    ensures var m := Sweep(before, order);
            && left == m.left && after == before.With(order.side.Opposite(), m.levels)
            && log' == ApplyFills(log, order, m.fills)
  {
  }

  // ----- the whole of a submission

  /** What inserting demands: a new id and a free slot in each pool that it needs. */
  ghost predicate Insertable(book: Book, order: Order) {
    && !OnSide(book.bids, order.orderId) && !OnSide(book.asks, order.orderId)
    && OrderCount(book.bids) + OrderCount(book.asks) < ORDER_CAPACITY
    && (PriceOn(book.Of(order.side), order.price) || |book.bids| + |book.asks| < LEVEL_CAPACITY)
  }

  function Acked(log: Log, order: Order): Log {
    log.(reports := Kept(MAX_REPORTS, log.reports +
                         [Report(log.execSeq, order.orderId, order.symbolId, order.price, 0, order.qty, New)]),
         execSeq := Wrap64(log.execSeq + 1),
         stats := log.stats.(ordersReceived := Wrap64(log.stats.ordersReceived + 1)))
  }

  function Expired(log: Log, order: Order): Log {
    log.(reports := Kept(MAX_REPORTS, log.reports +
                         [Report(log.execSeq, order.orderId, order.symbolId, order.price, 0, 0, Cancelled)]),
         execSeq := Wrap64(log.execSeq + 1))
  }

  /** Acknowledge, record every fill, then expire the rest of a market order or count a filled one. */
  function SubmitLog(book: Book, log: Log, order: Order): Log {
    var m := Sweep(book, order);
    var after := ApplyFills(Acked(log, order), order, m.fills);
    if m.left > 0 then if order.orderType == Market then Expired(after, order) else after
    else after.(stats := after.stats.(ordersMatched := Wrap64(after.stats.ordersMatched + 1)))
  }

  datatype MatchingStatus = Success | PartiallyFilled | Filled | ExpiredRest

  function SubmitStatus(book: Book, order: Order): MatchingStatus {
    var left := Sweep(book, order).left;
    if left == 0 then Filled
    else if order.orderType == Market then ExpiredRest
    else if order.orderType == Limit && left != order.qty then PartiallyFilled
    else MatchingStatus.Success
  }
}
