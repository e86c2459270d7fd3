/** Resting quantities and level totals over every run: when they stay above zero. */
module Quantities {
  import opened Domain
  import opened BookSpec
  import opened Matching
  import opened EngineSpec

  ghost predicate PositiveQueue(queue: seq<Resting>) {
    forall k :: 0 <= k < |queue| ==> queue[k].qty > 0
  }

  ghost predicate PositiveLevels(levels: seq<Level>) {
    forall i :: 0 <= i < |levels| ==> PositiveQueue(levels[i].queue)
  }

  /** Every resting order has something to trade. */
  ghost predicate PositiveBook(book: Book) {
    PositiveLevels(book.bids) && PositiveLevels(book.asks)
  }

  ghost predicate OnBook(book: Book, id: u64) {
    OnSide(book.bids, id) || OnSide(book.asks, id)
  }

  /** The command sets the quantity of a resting order to zero. */
  ghost predicate Zeroes(book: Book, cmd: Command) {
    cmd.Modify? && cmd.qty == 0 && OnBook(book, cmd.id)
  }

  // ----- one command

  lemma {:induction false} PositiveAdd(side: Side, levels: seq<Level>, price: Price, r: Resting)
    requires PositiveLevels(levels) && r.qty > 0
    ensures PositiveLevels(AddOrder(side, levels, price, r))
  {
    if levels != [] {
      assert PositiveQueue(levels[0].queue);
      PositiveAdd(side, levels[1..], price, r);
    }
  }

  lemma {:induction false} PositiveWithout(queue: seq<Resting>, id: u64)
    requires PositiveQueue(queue)
    ensures PositiveQueue(Without(queue, id))
  {
    if queue != [] {
      PositiveWithout(queue[1..], id);
    }
  }

  lemma {:induction false} PositiveRequeue(queue: seq<Resting>, id: u64, qty: u64, prioritySeq: u64)
    requires PositiveQueue(queue)
    ensures qty > 0 ==> PositiveQueue(Requeue(queue, id, qty, prioritySeq))
  {
    if queue != [] {
      PositiveRequeue(queue[1..], id, qty, prioritySeq);
    }
  }

  lemma PositiveReplaced(levels: seq<Level>, i: nat, queue: seq<Resting>)
    requires PositiveLevels(levels) && i < |levels| && PositiveQueue(queue)
    ensures PositiveLevels(Replaced(levels, i, queue))
  {
    hide PositiveQueue;
  }

  lemma PositiveDrop(levels: seq<Level>, id: u64)
    requires PositiveLevels(levels)
    ensures PositiveLevels(DropOrder(levels, id))
  {
    hide DropOrder, PositiveQueue, Replaced;
    var i, queue := DropShape(levels, id);
    if OnSide(levels, id) {
      PositiveWithout(levels[i].queue, id);
      PositiveReplaced(levels, i, queue);
    }
  }

  lemma PositiveResize(levels: seq<Level>, id: u64, qty: u64, prioritySeq: u64)
    requires PositiveLevels(levels) && qty > 0
    ensures PositiveLevels(ResizeOrder(levels, id, qty, prioritySeq))
  {
    hide ResizeOrder, PositiveQueue, Replaced, Requeue;
    var i, queue := ResizeShape(levels, id, qty, prioritySeq);
    if OnSide(levels, id) {
      PositiveRequeue(levels[i].queue, id, qty, prioritySeq);
      PositiveReplaced(levels, i, queue);
    }
  }

  lemma {:induction false} RequeuedZero(queue: seq<Resting>, id: u64, prioritySeq: u64) returns (k: nat)
    requires InQueue(queue, id)
    ensures var after := Requeue(queue, id, 0, prioritySeq); k < |after| && after[k].qty == 0
  {
    k := 0;
    if queue[0].orderId != id {
      var j :| 0 <= j < |queue| && queue[j].orderId == id;
      assert queue[1..][j - 1].orderId == id;
      k := RequeuedZero(queue[1..], id, prioritySeq);
      k := k + 1;
    }
  }

  /** A resting order set to zero rests on, with nothing to trade. */
  lemma {:induction false} ResizedZero(levels: seq<Level>, id: u64, prioritySeq: u64) returns (i: nat, k: nat)
    requires OnSide(levels, id)
    ensures var after := ResizeOrder(levels, id, 0, prioritySeq);
            i < |after| && k < |after[i].queue| && after[i].queue[k].qty == 0
  {
    hide Requeue;
    i, k := 0, 0;
    if InQueue(levels[0].queue, id) {
      k := RequeuedZero(levels[0].queue, id, prioritySeq);
    } else {
      OnSideTail(levels, id);
      i, k := ResizedZero(levels[1..], id, prioritySeq);
      i := i + 1;
    }
  }

  lemma PositiveHead(levels: seq<Level>, qty: u64)
    requires PositiveLevels(levels) && levels != [] && levels[0].queue != []
    ensures PositiveLevels(WithoutHead(levels)) && (qty > 0 ==> PositiveLevels(ShrinkHead(levels, qty)))
    ensures levels[0].queue[0].qty > 0
  {
    assert PositiveQueue(levels[0].queue);
  }

  /** A sweep of positive quotes trades positive quantities and leaves positive quotes. */
  lemma {:induction false} MatchPositive(order: Order, levels: seq<Level>, left: u64)
    requires PositiveLevels(levels)
    ensures var m := Match(order, levels, left);
            PositiveLevels(m.levels) && forall i :: 0 <= i < |m.fills| ==> m.fills[i].qty > 0
    decreases OrderCount(levels)
  {
    hide PositiveLevels, WithoutHead, ShrinkHead;
    if !Stops(order, levels, left) {
      var f := FillOf(levels[0].price, levels[0].queue[0], left);
      PositiveHead(levels, f.makerLeft);
      if f.makerLeft == 0 {
        CountWithoutHead(levels);
        MatchPositive(order, WithoutHead(levels), f.takerLeft);
      }
    }
  }

  /** A command keeps every resting quantity above zero exactly when it does not set one to zero. */
  lemma StepIff(book: Book, cmd: Command)
    requires PositiveBook(book)
    ensures PositiveBook(Step(book, cmd)) <==> !Zeroes(book, cmd)
  {
    hide PositiveLevels, AddOrder, DropOrder, ResizeOrder, Match, OnSide;
    match cmd {
      case Submit(order) =>
        MatchPositive(order, book.Of(order.side.Opposite()), order.qty);
        if Rests(book, order) {
          MatchConserves(order, book.Of(order.side.Opposite()), order.qty);
          PositiveAdd(order.side, book.Of(order.side), order.price,
                      Resting(order.symbolId, order.orderId, order.qty, order.seqNum));
        }
      case Cancel(id) =>
        PositiveDrop(book.bids, id);
        PositiveDrop(book.asks, id);
      case Modify(id, qty, prioritySeq) =>
        if qty > 0 {
          PositiveResize(book.bids, id, qty, prioritySeq);
          PositiveResize(book.asks, id, qty, prioritySeq);
        } else if OnBook(book, id) {
          var side, i, k := ZeroedRests(book, id, prioritySeq);
          ZeroNotPositive(Step(book, cmd), side, i, k);
        }
    }
  }

  /** An order with nothing to trade rests here. */
  ghost predicate ZeroAt(book: Book, side: Side, i: nat, k: nat) {
    i < |book.Of(side)| && k < |book.Of(side)[i].queue| && book.Of(side)[i].queue[k].qty == 0
  }

  lemma ZeroedRests(book: Book, id: u64, prioritySeq: u64) returns (side: Side, i: nat, k: nat)
    requires OnBook(book, id)
    ensures ZeroAt(ModifySpec(book, id, 0, prioritySeq), side, i, k)
  {
    hide ResizeOrder, OnSide;
    side := if OnSide(book.bids, id) then Buy else Sell;
    i, k := ResizedZero(book.Of(side), id, prioritySeq);
  }

  lemma ZeroNotPositive(book: Book, side: Side, i: nat, k: nat)
    requires ZeroAt(book, side, i, k)
    ensures !PositiveBook(book)
  {
    assert !PositiveQueue(book.Of(side)[i].queue);
  }

  // ----- every run

  ghost predicate AlwaysPositive(cmds: seq<Command>) {
    forall n: nat :: n <= |cmds| ==> PositiveBook(Run(EMPTY, cmds[..n]))
  }

  ghost predicate NeverZeroed(cmds: seq<Command>) {
    forall n: nat :: n < |cmds| ==> !Zeroes(Run(EMPTY, cmds[..n]), cmds[n])
  }

  lemma RunNext(book: Book, cmds: seq<Command>, n: nat)
    requires n < |cmds|
    ensures Run(book, cmds[..n + 1]) == Step(Run(book, cmds[..n]), cmds[n])
  {
    assert cmds[..n + 1][..n] == cmds[..n];
  }

  lemma {:induction false} PositiveAt(cmds: seq<Command>, n: nat)
    requires NeverZeroed(cmds) && n <= |cmds|
    ensures PositiveBook(Run(EMPTY, cmds[..n]))
  {
    if n > 0 {
      hide PositiveBook, Step, Zeroes;
      PositiveAt(cmds, n - 1);
      RunNext(EMPTY, cmds, n - 1);
      StepIff(Run(EMPTY, cmds[..n - 1]), cmds[n - 1]);
    }
  }

  /** Over every run, all resting quantities are above zero at every point exactly when no command sets
      the quantity of an order to zero while it rests. */
  lemma PositiveIff(cmds: seq<Command>)
    ensures AlwaysPositive(cmds) <==> NeverZeroed(cmds)
  {
    hide PositiveBook, Step, Zeroes, Run;
    if NeverZeroed(cmds) {
      forall n: nat | n <= |cmds|
        ensures PositiveBook(Run(EMPTY, cmds[..n]))
      {
        PositiveAt(cmds, n);
      }
    }
    if AlwaysPositive(cmds) {
      forall n: nat | n < |cmds|
        ensures !Zeroes(Run(EMPTY, cmds[..n]), cmds[n])
      {
        RunNext(EMPTY, cmds, n);
        StepIff(Run(EMPTY, cmds[..n]), cmds[n]);
        assert PositiveBook(Run(EMPTY, cmds[..n + 1]));
      }
    }
  }

  /** Then no trade of the run is for nothing. */
  lemma TradesPositive(cmds: seq<Command>, n: nat)
    requires NeverZeroed(cmds) && n < |cmds| && cmds[n].Submit?
    ensures var m := Sweep(Run(EMPTY, cmds[..n]), cmds[n].order);
            forall i :: 0 <= i < |m.fills| ==> m.fills[i].qty > 0
  {
    hide Match, Run, PositiveLevels;
    var order := cmds[n].order;
    PositiveAt(cmds, n);
    MatchPositive(order, Run(EMPTY, cmds[..n]).Of(order.side.Opposite()), order.qty);
  }
}
