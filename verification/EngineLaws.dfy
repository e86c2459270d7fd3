/** Quantity conservation and time priority of the matching engine. */
module EngineLaws {
  import opened Domain
  import opened Seqs
  import opened BookSpec
  import opened Matching
  import opened EngineSpec

  lemma {:induction false} SumAdded(side: Side, levels: seq<Level>, price: Price, r: Resting)
    ensures LevelsSum(AddOrder(side, levels, price, r)) == LevelsSum(levels) + r.qty
  {
    var after := AddOrder(side, levels, price, r);
    if levels == [] || (levels[0].price != price && Better(side, price, levels[0].price)) {
      assert after[0].queue == [r] && after[1..] == levels;
      assert QueueSum([r]) == r.qty + QueueSum([r][1..]);
    } else if levels[0].price == price {
      assert after[1..] == levels[1..];
      QueueSumAppend(levels[0].queue, [r]);
      assert QueueSum([r]) == r.qty + QueueSum([r][1..]);
    } else {
      SumAdded(side, levels[1..], price, r);
      assert after[1..] == AddOrder(side, levels[1..], price, r);
    }
  }

  /** Where a submitted quantity goes, in the code as written: the sweep splits it into trades and a
      remainder and takes the traded part off the opposite side, but a remainder rests at the
      order's full original quantity. */
  lemma SubmitFlow(book: Book, order: Order)
    ensures var m, after := Sweep(book, order), SubmitSpec(book, order); var side := order.side;
            && order.qty == Traded(m.fills) + m.left
            && LevelsSum(after.Of(side.Opposite())) == LevelsSum(book.Of(side.Opposite())) - Traded(m.fills)
            && LevelsSum(after.Of(side)) == LevelsSum(book.Of(side)) + if Rests(book, order) then order.qty else 0
  {
    MatchConserves(order, book.Of(order.side.Opposite()), order.qty);
    SumAdded(order.side, book.Of(order.side), order.price,
             Resting(order.symbolId, order.orderId, order.qty, order.seqNum));
  }

  /** A limit order leaves resting exactly what it did not trade. */
  ghost predicate RestsItsRemainder(book: Book, order: Order) {
    LevelsSum(SubmitSpec(book, order).Of(order.side)) == LevelsSum(book.Of(order.side)) + Sweep(book, order).left
  }

  /** The code meets that for a limit order exactly when the order crosses nothing or is filled in
      full: the volume it could trade is zero, or at least its quantity. */
  lemma RestsItsRemainderIff(book: Book, order: Order)
    requires WellFormed(book) && order.orderType == Limit
    ensures var volume := CrossingVolume(order, Quotes(book.Of(order.side.Opposite())));
            RestsItsRemainder(book, order) <==> volume == 0 || volume >= order.qty
  {
    SubmitFlow(book, order);
    TradedVolume(order, book.Of(order.side.Opposite()), order.qty);
  }

  /** Ten lots offered, a bid for fifteen: ten trade and fifteen, not five, stay on the bid side. */
  lemma OverRestExample()
    ensures var ask := Level(100, [Resting(1, 1, 10, 1)]);
            var book, bid := Book([], [ask]), Order(2, 100, 15, 2, 1, Buy, Limit);
            && WellFormed(book) && Sweep(book, bid).left == 5
            && LevelsSum(SubmitSpec(book, bid).bids) == 15 && !RestsItsRemainder(book, bid)
  {
    var ask := Level(100, [Resting(1, 1, 10, 1)]);
    var book, bid := Book([], [ask]), Order(2, 100, 15, 2, 1, Buy, Limit);
    var f := FillOf(100, Resting(1, 1, 10, 1), 15);
    assert f.makerLeft == 0 && f.takerLeft == 5;
    assert WithoutHead([ask]) == [];
    assert Match(bid, [], 5) == Outcome([], [], 5);
    SubmitFlow(book, bid);
  }

  /** The stated intent, as a variant of the code: rest the remainder. */
  ghost function SubmitRemainder(book: Book, order: Order): Book {
    if Rests(book, order) then InsertSpec(Matched(book, order), order.(qty := Sweep(book, order).left), order.seqNum)
    else Matched(book, order)
  }

  /** With that variant every limit order is conserved end to end. */
  lemma RemainderConserved(book: Book, order: Order)
    ensures var m, after := Sweep(book, order), SubmitRemainder(book, order); var side := order.side;
            && LevelsSum(after.Of(side.Opposite())) == LevelsSum(book.Of(side.Opposite())) - Traded(m.fills)
            && (order.orderType == Limit ==>
                order.qty == Traded(m.fills) + (LevelsSum(after.Of(side)) - LevelsSum(book.Of(side))))
  {
    MatchConserves(order, book.Of(order.side.Opposite()), order.qty);
    SumAdded(order.side, book.Of(order.side), order.price,
             Resting(order.symbolId, order.orderId, Sweep(book, order).left, order.seqNum));
  }

  // ----- time priority

  /** A queue in strict priority order, with every priority below `bound`. */
  ghost predicate Ranked(queue: seq<Resting>, bound: nat) {
    && (forall i :: 0 <= i < |queue| ==> queue[i].prioritySeq < bound)
    && (forall i, j :: 0 <= i < j < |queue| ==> queue[i].prioritySeq < queue[j].prioritySeq)
  }

  ghost predicate RankedLevels(levels: seq<Level>, bound: nat) {
    forall i :: 0 <= i < |levels| ==> Ranked(levels[i].queue, bound)
  }

  ghost predicate RankedBook(book: Book, bound: nat) {
    RankedLevels(book.bids, bound) && RankedLevels(book.asks, bound)
  }

  lemma RankedUp(queue: seq<Resting>, r: Resting, bound: nat)
    requires Ranked(queue, bound) && r.prioritySeq >= bound
    ensures Ranked(queue + [r], r.prioritySeq + 1)
  {
  }

  lemma {:induction false} RankedAdd(side: Side, levels: seq<Level>, price: Price, r: Resting, bound: nat)
    requires RankedLevels(levels, bound) && r.prioritySeq >= bound
    ensures RankedLevels(AddOrder(side, levels, price, r), r.prioritySeq + 1)
  {
    assert Ranked([r], r.prioritySeq + 1);
    forall i | 0 <= i < |levels|
      ensures Ranked(levels[i].queue, r.prioritySeq + 1)
    {
      assert Ranked(levels[i].queue, bound);
    }
    if levels != [] && levels[0].price == price {
      RankedUp(levels[0].queue, r, bound);
    } else if levels != [] && !Better(side, price, levels[0].price) {
      RankedAdd(side, levels[1..], price, r, bound);
    }
  }

  lemma RankedDelete(queue: seq<Resting>, k: nat, bound: nat)
    requires Ranked(queue, bound) && k < |queue|
    ensures Ranked(DeletedAt(queue, k), bound)
  {
  }

  lemma {:induction false} WithoutIs(queue: seq<Resting>, id: u64) returns (k: nat)
    ensures Without(queue, id) == queue || (k < |queue| && Without(queue, id) == DeletedAt(queue, k))
  {
    k := 0;
    if queue != [] {
      if queue[0].orderId == id {
        assert DeletedAt(queue, 0) == queue[1..];
      } else {
        k := WithoutIs(queue[1..], id);
        k := k + 1;
        if k < |queue| {
          DeletedTail(queue, k);
        }
      }
    }
  }

  lemma {:induction false} RequeueIs(queue: seq<Resting>, id: u64, qty: u64, prioritySeq: u64) returns (k: nat)
    ensures var after := Requeue(queue, id, qty, prioritySeq);
            || after == queue
            || (k < |queue| && after == queue[k := queue[k].(qty := qty)])
            || (k < |queue| && after == DeletedAt(queue, k) + [queue[k].(qty := qty, prioritySeq := prioritySeq)])
  {
    k := 0;
    if queue != [] {
      if queue[0].orderId == id {
        assert DeletedAt(queue, 0) == queue[1..];
        assert queue[0 := queue[0].(qty := qty)] == [queue[0].(qty := qty)] + queue[1..];
      } else {
        k := RequeueIs(queue[1..], id, qty, prioritySeq);
        RequeueTail(queue, Requeue(queue[1..], id, qty, prioritySeq), k, qty, prioritySeq);
        k := k + 1;
      }
    }
  }

  lemma RequeueTail(queue: seq<Resting>, rest: seq<Resting>, k: nat, qty: u64, prioritySeq: u64)
    requires queue != []
    requires || rest == queue[1..]
             || (k < |queue[1..]| && rest == queue[1..][k := queue[1..][k].(qty := qty)])
             || (k < |queue[1..]| && rest == DeletedAt(queue[1..], k) +
                 [queue[1..][k].(qty := qty, prioritySeq := prioritySeq)])
    ensures || [queue[0]] + rest == queue
            || (k + 1 < |queue| && [queue[0]] + rest == queue[k + 1 := queue[k + 1].(qty := qty)])
            || (k + 1 < |queue| && [queue[0]] + rest ==
                DeletedAt(queue, k + 1) + [queue[k + 1].(qty := qty, prioritySeq := prioritySeq)])
  {
    if k < |queue[1..]| {
      DeletedTail(queue, k + 1);
    }
  }

  lemma RankedReplaced(levels: seq<Level>, i: nat, queue: seq<Resting>, bound: nat)
    requires RankedLevels(levels, bound) && i < |levels| && Ranked(queue, bound)
    ensures RankedLevels(Replaced(levels, i, queue), bound)
  {
    hide Ranked;
  }

  lemma RankedMore(levels: seq<Level>, bound: nat, more: nat)
    requires RankedLevels(levels, bound) && bound <= more
    ensures RankedLevels(levels, more)
  {
    forall i | 0 <= i < |levels|
      ensures Ranked(levels[i].queue, more)
    {
      assert Ranked(levels[i].queue, bound);
    }
  }

  lemma RankedDrop(levels: seq<Level>, id: u64, bound: nat)
    requires RankedLevels(levels, bound)
    ensures RankedLevels(DropOrder(levels, id), bound)
  {
    hide DropOrder, Ranked, Replaced;
    var i, queue := DropShape(levels, id);
    if OnSide(levels, id) {
      var k := WithoutIs(levels[i].queue, id);
      if queue != levels[i].queue {
        RankedDelete(levels[i].queue, k, bound);
      }
      RankedReplaced(levels, i, queue, bound);
    }
  }

  lemma RankedRequeue(queue: seq<Resting>, id: u64, qty: u64, prioritySeq: u64, bound: nat)
    requires Ranked(queue, bound) && prioritySeq >= bound
    ensures Ranked(Requeue(queue, id, qty, prioritySeq), prioritySeq + 1)
  {
    hide Requeue;
    var k := RequeueIs(queue, id, qty, prioritySeq);
    if k < |queue| {
      RankedDelete(queue, k, bound);
      RankedUp(DeletedAt(queue, k), queue[k].(qty := qty, prioritySeq := prioritySeq), bound);
    }
  }

  lemma RankedResize(levels: seq<Level>, id: u64, qty: u64, prioritySeq: u64, bound: nat)
    requires RankedLevels(levels, bound) && prioritySeq >= bound
    ensures RankedLevels(ResizeOrder(levels, id, qty, prioritySeq), prioritySeq + 1)
  {
    hide ResizeOrder, Ranked, Replaced;
    var i, queue := ResizeShape(levels, id, qty, prioritySeq);
    RankedMore(levels, bound, prioritySeq + 1);
    if OnSide(levels, id) {
      RankedRequeue(levels[i].queue, id, qty, prioritySeq, bound);
      RankedReplaced(levels, i, queue, prioritySeq + 1);
    }
  }

  lemma RankedHead(levels: seq<Level>, qty: u64, bound: nat)
    requires RankedLevels(levels, bound) && levels != [] && levels[0].queue != []
    ensures RankedLevels(WithoutHead(levels), bound) && RankedLevels(ShrinkHead(levels, qty), bound)
  {
    assert Ranked(levels[0].queue, bound);
  }

  lemma {:induction false} RankedMatch(order: Order, levels: seq<Level>, left: u64, bound: nat)
    requires RankedLevels(levels, bound)
    ensures RankedLevels(Match(order, levels, left).levels, bound)
    decreases OrderCount(levels)
  {
    hide RankedLevels;
    if !Stops(order, levels, left) {
      var f := FillOf(levels[0].price, levels[0].queue[0], left);
      RankedHead(levels, f.makerLeft, bound);
      if f.makerLeft == 0 {
        CountWithoutHead(levels);
        RankedMatch(order, WithoutHead(levels), f.takerLeft, bound);
      }
    }
  }

  /** One more than the last priority a run handed to the book. */
  ghost function Bound(cmds: seq<Command>): nat {
    if cmds == [] then 0
    else
      match cmds[|cmds| - 1]
      case Submit(order) => order.seqNum + 1
      case Modify(_, _, prioritySeq) => prioritySeq + 1
      case Cancel(_) => Bound(cmds[..|cmds| - 1])
  }

  /** Callers hand the book growing priorities. */
  ghost predicate Growing(cmds: seq<Command>) {
    cmds != [] ==>
      var rest := cmds[..|cmds| - 1];
      && Growing(rest)
      && match cmds[|cmds| - 1]
         case Submit(order) => order.seqNum >= Bound(rest)
         case Modify(_, _, prioritySeq) => prioritySeq >= Bound(rest)
         case Cancel(_) => true
  }

  lemma RankedStep(book: Book, cmd: Command, bound: nat)
    requires RankedBook(book, bound)
    ensures match cmd
            case Submit(order) => order.seqNum >= bound ==> RankedBook(Step(book, cmd), order.seqNum + 1)
            case Modify(_, _, prioritySeq) => prioritySeq >= bound ==> RankedBook(Step(book, cmd), prioritySeq + 1)
            case Cancel(_) => RankedBook(Step(book, cmd), bound)
  {
    hide RankedLevels, AddOrder, DropOrder, ResizeOrder, Match, OnSide;
    match cmd {
      case Submit(order) =>
        if order.seqNum >= bound {
          var m := Sweep(book, order);
          RankedMatch(order, book.Of(order.side.Opposite()), order.qty, bound);
          RankedMore(m.levels, bound, order.seqNum + 1);
          RankedMore(book.Of(order.side), bound, order.seqNum + 1);
          RankedAdd(order.side, book.Of(order.side), order.price,
                    Resting(order.symbolId, order.orderId, order.qty, order.seqNum), bound);
        }
      case Modify(id, qty, prioritySeq) =>
        if prioritySeq >= bound {
          RankedMore(book.bids, bound, prioritySeq + 1);
          RankedMore(book.asks, bound, prioritySeq + 1);
          RankedResize(book.bids, id, qty, prioritySeq, bound);
          RankedResize(book.asks, id, qty, prioritySeq, bound);
        }
      case Cancel(id) =>
        RankedDrop(book.bids, id, bound);
        RankedDrop(book.asks, id, bound);
    }
  }

  /** Over every run with growing priorities, each queue is in strict priority order, so the FIFO
      service of a level is service by time. */
  lemma {:induction false} QueuesRanked(cmds: seq<Command>)
    requires Growing(cmds)
    ensures RankedBook(Run(EMPTY, cmds), Bound(cmds))
  {
    if cmds != [] {
      hide RankedBook, Step;
      QueuesRanked(cmds[..|cmds| - 1]);
      RankedStep(Run(EMPTY, cmds[..|cmds| - 1]), cmds[|cmds| - 1], Bound(cmds[..|cmds| - 1]));
    }
  }
}
