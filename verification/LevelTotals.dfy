/** The stored level totals over every run: when each stays above zero, as the book's documentation asks. */
module LevelTotals {
  import opened Domain
  import opened BookSpec
  import opened Matching
  import opened EngineSpec
  import opened Quantities

  /** `total_qty` of a level, a 64-bit sum. */
  function Total(level: Level): u64 {
    Wrap64(QueueSum(level.queue))
  }

  ghost predicate TotalsOn(levels: seq<Level>) {
    forall i :: 0 <= i < |levels| ==> Total(levels[i]) > 0
  }

  ghost predicate TotalsPositive(book: Book) {
    TotalsOn(book.bids) && TotalsOn(book.asks)
  }

  ghost predicate FitsOn(levels: seq<Level>) {
    forall i :: 0 <= i < |levels| ==> QueueSum(levels[i].queue) < TWO_64
  }

  /** No level holds as much as 64 bits can count. */
  ghost predicate SumsFit(book: Book) {
    FitsOn(book.bids) && FitsOn(book.asks)
  }

  // ----- how often an id rests

  function CountQueue(queue: seq<Resting>, id: u64): nat {
    if queue == [] then 0 else (if queue[0].orderId == id then 1 else 0) + CountQueue(queue[1..], id)
  }

  function CountLevels(levels: seq<Level>, id: u64): nat {
    if levels == [] then 0 else CountQueue(levels[0].queue, id) + CountLevels(levels[1..], id)
  }

  function Count(book: Book, id: u64): nat {
    CountLevels(book.bids, id) + CountLevels(book.asks, id)
  }

  ghost predicate Once(book: Book) {
    forall id: u64 :: Count(book, id) <= 1
  }

  lemma {:induction false} CountAppended(queue: seq<Resting>, r: Resting, id: u64)
    ensures CountQueue(queue + [r], id) == CountQueue(queue, id) + if r.orderId == id then 1 else 0
  {
    if queue == [] {
      assert queue + [r] == [r];
    } else {
      assert (queue + [r])[1..] == queue[1..] + [r];
      CountAppended(queue[1..], r, id);
    }
  }

  lemma CountCons(level: Level, rest: seq<Level>, id: u64)
    ensures CountLevels([level] + rest, id) == CountQueue(level.queue, id) + CountLevels(rest, id)
  {
    assert ([level] + rest)[1..] == rest;
  }

  lemma QueueCons(r: Resting, rest: seq<Resting>, id: u64)
    ensures CountQueue([r] + rest, id) == (if r.orderId == id then 1 else 0) + CountQueue(rest, id)
  {
    assert ([r] + rest)[1..] == rest;
  }

  lemma {:induction false} CountAdd(side: Side, levels: seq<Level>, price: Price, r: Resting, id: u64)
    ensures CountLevels(AddOrder(side, levels, price, r), id) ==
            CountLevels(levels, id) + if r.orderId == id then 1 else 0
  {
    CountAppended([], r, id);
    assert [] + [r] == [r];
    if levels == [] {
      CountCons(Level(price, [r]), [], id);
      assert [Level(price, [r])] + [] == [Level(price, [r])];
    } else if levels[0].price == price {
      CountAppended(levels[0].queue, r, id);
      CountCons(Level(price, levels[0].queue + [r]), levels[1..], id);
    } else if Better(side, price, levels[0].price) {
      CountCons(Level(price, [r]), levels, id);
    } else {
      CountAdd(side, levels[1..], price, r, id);
      CountCons(levels[0], AddOrder(side, levels[1..], price, r), id);
    }
  }

  lemma {:induction false} CountWithout(queue: seq<Resting>, out: u64, id: u64)
    ensures CountQueue(Without(queue, out), id) <= CountQueue(queue, id)
    ensures InQueue(queue, out) ==> |Without(queue, out)| == |queue| - 1
    ensures QueueSum(Without(queue, out)) <= QueueSum(queue)
  {
    if queue != [] && queue[0].orderId != out {
      var rest := Without(queue[1..], out);
      CountWithout(queue[1..], out, id);
      QueueCons(queue[0], rest, id);
      assert ([queue[0]] + rest)[1..] == rest;
      if InQueue(queue, out) {
        var k :| 0 <= k < |queue| && queue[k].orderId == out;
        assert queue[1..][k - 1].orderId == out;
      }
    }
  }

  /** Dropping an order takes one off the count of orders, and puts no id in more often. */
  lemma {:induction false} CountDrop(levels: seq<Level>, out: u64, id: u64)
    ensures CountLevels(DropOrder(levels, out), id) <= CountLevels(levels, id)
    ensures OnSide(levels, out) ==> OrderCount(DropOrder(levels, out)) == OrderCount(levels) - 1
  {
    hide Without, CountQueue, InQueue;
    if levels != [] {
      var head, rest := levels[0], levels[1..];
      if InQueue(head.queue, out) {
        var less := Without(head.queue, out);
        CountWithout(head.queue, out, id);
        CountCons(head.(queue := less), rest, id);
        assert ([head.(queue := less)] + rest)[1..] == rest;
        if less == [] {
          NoneCounted(id);
        }
      } else {
        CountDrop(rest, out, id);
        OnSideTail(levels, out);
        CountCons(head, DropOrder(rest, out), id);
        assert ([head] + DropOrder(rest, out))[1..] == DropOrder(rest, out);
      }
    }
  }

  lemma NoneCounted(id: u64)
    ensures CountQueue([], id) == 0
  {
  }

  lemma {:induction false} CountRequeue(queue: seq<Resting>, at: u64, qty: u64, prioritySeq: u64, id: u64)
    ensures CountQueue(Requeue(queue, at, qty, prioritySeq), id) == CountQueue(queue, id)
  {
    if queue != [] {
      if queue[0].orderId == at {
        CountAppended(queue[1..], queue[0].(qty := qty, prioritySeq := prioritySeq), id);
        QueueCons(queue[0].(qty := qty), queue[1..], id);
      } else {
        CountRequeue(queue[1..], at, qty, prioritySeq, id);
        QueueCons(queue[0], Requeue(queue[1..], at, qty, prioritySeq), id);
      }
    }
  }

  lemma {:induction false} CountResize(levels: seq<Level>, at: u64, qty: u64, prioritySeq: u64, id: u64)
    ensures CountLevels(ResizeOrder(levels, at, qty, prioritySeq), id) == CountLevels(levels, id)
  {
    hide Requeue, CountQueue, InQueue;
    if levels != [] {
      var head, rest := levels[0], levels[1..];
      CountRequeue(head.queue, at, qty, prioritySeq, id);
      CountCons(head.(queue := Requeue(head.queue, at, qty, prioritySeq)), rest, id);
      CountResize(rest, at, qty, prioritySeq, id);
      CountCons(head, ResizeOrder(rest, at, qty, prioritySeq), id);
    }
  }

  lemma CountHead(levels: seq<Level>, qty: u64, id: u64)
    requires levels != [] && levels[0].queue != []
    ensures CountLevels(WithoutHead(levels), id) <= CountLevels(levels, id)
    ensures CountLevels(ShrinkHead(levels, qty), id) == CountLevels(levels, id)
  {
    var head, rest := levels[0], levels[1..];
    var shrunk := head.queue[0].(qty := qty);
    CountCons(head.(queue := head.queue[1..]), rest, id);
    assert head.queue[0 := shrunk] == [shrunk] + head.queue[1..];
    assert ShrinkHead(levels, qty) == [head.(queue := [shrunk] + head.queue[1..])] + rest;
    CountCons(head.(queue := [shrunk] + head.queue[1..]), rest, id);
    QueueCons(shrunk, head.queue[1..], id);
  }

  lemma {:induction false} CountMatch(order: Order, levels: seq<Level>, left: u64, id: u64)
    ensures CountLevels(Match(order, levels, left).levels, id) <= CountLevels(levels, id)
    decreases OrderCount(levels)
  {
    hide CountLevels, WithoutHead, ShrinkHead;
    if !Stops(order, levels, left) {
      var f := FillOf(levels[0].price, levels[0].queue[0], left);
      CountHead(levels, f.makerLeft, id);
      if f.makerLeft == 0 {
        CountWithoutHead(levels);
        CountMatch(order, WithoutHead(levels), f.takerLeft, id);
      }
    }
  }

  lemma {:induction false} CountedInQueue(queue: seq<Resting>, id: u64)
    ensures CountQueue(queue, id) > 0 <==> InQueue(queue, id)
  {
    if queue != [] {
      CountedInQueue(queue[1..], id);
      if InQueue(queue, id) && queue[0].orderId != id {
        var k :| 0 <= k < |queue| && queue[k].orderId == id;
        assert queue[1..][k - 1].orderId == id;
      }
      if InQueue(queue[1..], id) {
        var k :| 0 <= k < |queue[1..]| && queue[1..][k].orderId == id;
        assert queue[k + 1].orderId == id;
      }
    }
  }

  lemma {:induction false} CountedOnSide(levels: seq<Level>, id: u64)
    ensures CountLevels(levels, id) > 0 <==> OnSide(levels, id)
  {
    hide CountQueue, InQueue;
    if levels != [] {
      CountedInQueue(levels[0].queue, id);
      CountedOnSide(levels[1..], id);
      if !InQueue(levels[0].queue, id) {
        OnSideTail(levels, id);
      }
    }
  }

  // ----- orders submitted under ids that do not rest

  /** What resting an order asks of its id. */
  ghost predicate NewId(book: Book, cmd: Command) {
    cmd.Submit? && Rests(book, cmd.order) ==> !OnBook(Matched(book, cmd.order), cmd.order.orderId)
  }

  ghost predicate Fresh(cmds: seq<Command>) {
    forall n: nat :: n < |cmds| ==> NewId(Run(EMPTY, cmds[..n]), cmds[n])
  }

  lemma StepCounts(book: Book, cmd: Command, id: u64)
    requires NewId(book, cmd)
    ensures Count(Step(book, cmd), id) <= Count(book, id) || Count(Step(book, cmd), id) == 1
  {
    hide CountLevels, AddOrder, DropOrder, ResizeOrder, Match, OnSide;
    match cmd {
      case Submit(order) =>
        CountMatch(order, book.Of(order.side.Opposite()), order.qty, id);
        var matched := Matched(book, order);
        CountAdd(order.side, matched.Of(order.side), order.price,
                 Resting(order.symbolId, order.orderId, order.qty, order.seqNum), id);
        CountedOnSide(matched.bids, id);
        CountedOnSide(matched.asks, id);
      case Cancel(out) =>
        CountDrop(book.bids, out, id);
        CountDrop(book.asks, out, id);
      case Modify(at, qty, prioritySeq) =>
        CountResize(book.bids, at, qty, prioritySeq, id);
        CountResize(book.asks, at, qty, prioritySeq, id);
    }
  }

  lemma StepOnce(book: Book, cmd: Command)
    requires Once(book) && NewId(book, cmd)
    ensures Once(Step(book, cmd))
  {
    hide Count, Step, NewId;
    forall id: u64
      ensures Count(Step(book, cmd), id) <= 1
    {
      StepCounts(book, cmd, id);
    }
  }

  /** When orders only rest under ids that do not rest yet, no id ever rests twice. */
  lemma {:induction false} FreshOnce(cmds: seq<Command>, n: nat)
    requires Fresh(cmds) && n <= |cmds|
    ensures Once(Run(EMPTY, cmds[..n]))
  {
    if n > 0 {
      hide Once, Step, NewId;
      FreshOnce(cmds, n - 1);
      RunNext(EMPTY, cmds, n - 1);
      StepOnce(Run(EMPTY, cmds[..n - 1]), cmds[n - 1]);
    }
  }

  // ----- an order at zero shows in a total once everything else is cancelled

  /** Order `id` rests with nothing to trade. */
  ghost predicate ZeroIn(queue: seq<Resting>, id: u64) {
    exists k :: 0 <= k < |queue| && queue[k].orderId == id && queue[k].qty == 0
  }

  ghost predicate ZeroOn(levels: seq<Level>, id: u64) {
    exists i :: 0 <= i < |levels| && ZeroIn(levels[i].queue, id)
  }

  ghost predicate ZeroBook(book: Book, id: u64) {
    ZeroOn(book.bids, id) || ZeroOn(book.asks, id)
  }

  lemma {:induction false} ZeroStays(queue: seq<Resting>, out: u64, id: u64)
    requires ZeroIn(queue, id) && out != id
    ensures ZeroIn(Without(queue, out), id)
  {
    var k :| 0 <= k < |queue| && queue[k].orderId == id && queue[k].qty == 0;
    var after := Without(queue, out);
    if queue[0].orderId == out {
      assert after[k - 1] == queue[k];
    } else if k == 0 {
      assert after[0] == queue[0];
    } else {
      assert queue[1..][k - 1] == queue[k];
      ZeroStays(queue[1..], out, id);
      var j :| 0 <= j < |after| - 1 && after[1..][j].orderId == id && after[1..][j].qty == 0;
      assert after[j + 1] == after[1..][j];
    }
  }

  lemma ZeroLeft(levels: seq<Level>, out: u64, id: u64)
    requires ZeroOn(levels, id) && out != id
    ensures ZeroOn(DropOrder(levels, out), id)
  {
    hide DropOrder, Without, ZeroIn;
    var at :| 0 <= at < |levels| && ZeroIn(levels[at].queue, id);
    var i, queue := DropShape(levels, out);
    if OnSide(levels, out) {
      if i == at {
        ZeroStays(levels[at].queue, out, id);
        ZeroSome(queue, id);
        assert DropOrder(levels, out)[at].queue == queue;
      } else {
        assert DropOrder(levels, out)[if queue == [] && i < at then at - 1 else at] == levels[at];
      }
    }
  }

  lemma ZeroSome(queue: seq<Resting>, id: u64)
    requires ZeroIn(queue, id)
    ensures queue != []
  {
  }

  lemma {:induction false} OtherInQueue(queue: seq<Resting>, id: u64) returns (other: u64)
    requires CountQueue(queue, id) < |queue|
    ensures other != id && InQueue(queue, other)
  {
    if queue[0].orderId != id {
      other := queue[0].orderId;
    } else {
      other := OtherInQueue(queue[1..], id);
      var k :| 0 <= k < |queue[1..]| && queue[1..][k].orderId == other;
      assert queue[k + 1].orderId == other;
    }
  }

  lemma {:induction false} OtherOnSide(levels: seq<Level>, id: u64) returns (other: u64)
    requires CountLevels(levels, id) < OrderCount(levels)
    ensures other != id && OnSide(levels, other)
  {
    hide CountQueue, InQueue;
    if CountQueue(levels[0].queue, id) < |levels[0].queue| {
      other := OtherInQueue(levels[0].queue, id);
    } else {
      other := OtherOnSide(levels[1..], id);
      var i :| 0 <= i < |levels[1..]| && InQueue(levels[1..][i].queue, other);
      assert levels[i + 1] == levels[1..][i];
    }
  }

  ghost function Size(book: Book): nat {
    OrderCount(book.bids) + OrderCount(book.asks)
  }

  lemma {:induction false} QueueWithin(levels: seq<Level>, i: nat)
    requires i < |levels|
    ensures |levels[i].queue| <= OrderCount(levels)
  {
    if i > 0 {
      QueueWithin(levels[1..], i - 1);
    }
  }

  lemma LoneTotal(levels: seq<Level>, id: u64)
    requires ZeroOn(levels, id) && OrderCount(levels) <= 1
    ensures !TotalsOn(levels)
  {
    var i :| 0 <= i < |levels| && ZeroIn(levels[i].queue, id);
    QueueWithin(levels, i);
    assert QueueSum(levels[i].queue) == 0 + QueueSum(levels[i].queue[1..]);
    assert Total(levels[i]) == 0;
  }

  ghost function Cancels(ids: seq<u64>): seq<Command> {
    seq(|ids|, i requires 0 <= i < |ids| => Cancel(ids[i]))
  }

  lemma {:induction false} RunCons(book: Book, cmd: Command, cmds: seq<Command>)
    ensures Run(book, [cmd] + cmds) == Run(Step(book, cmd), cmds)
    decreases |cmds|
  {
    hide Step;
    var all := [cmd] + cmds;
    if cmds == [] {
      assert all[..0] == [] && all[0] == cmd;
    } else {
      assert all[..|all| - 1] == [cmd] + cmds[..|cmds| - 1];
      RunCons(book, cmd, cmds[..|cmds| - 1]);
    }
  }

  lemma CancelOther(book: Book, out: u64, id: u64)
    requires OnBook(book, out) && ZeroBook(book, id) && out != id
    ensures Size(CancelSpec(book, out)) == Size(book) - 1 && ZeroBook(CancelSpec(book, out), id)
  {
    hide DropOrder, OnSide, ZeroOn, OrderCount, CountLevels;
    CountDrop(book.bids, out, id);
    CountDrop(book.asks, out, id);
    if ZeroOn(book.bids, id) {
      ZeroLeft(book.bids, out, id);
    }
    if ZeroOn(book.asks, id) {
      ZeroLeft(book.asks, out, id);
    }
  }

  lemma {:induction false} Isolated(book: Book, id: u64) returns (ids: seq<u64>)
    requires Once(book) && ZeroBook(book, id)
    ensures !TotalsPositive(Run(book, Cancels(ids)))
    decreases Size(book)
  {
    hide TotalsOn, ZeroOn, OnSide, OrderCount, CountLevels, CancelSpec;
    assert Count(book, id) <= 1;
    if Size(book) <= 1 {
      ids := [];
      if ZeroOn(book.bids, id) {
        LoneTotal(book.bids, id);
      } else {
        LoneTotal(book.asks, id);
      }
    } else {
      var out;
      if CountLevels(book.bids, id) < OrderCount(book.bids) {
        out := OtherOnSide(book.bids, id);
      } else {
        out := OtherOnSide(book.asks, id);
      }
      CancelOther(book, out, id);
      StepOnce(book, Cancel(out));
      ids := Isolated(CancelSpec(book, out), id);
      RunCons(book, Cancel(out), Cancels(ids));
      assert Cancels([out] + ids) == [Cancel(out)] + Cancels(ids);
      ids := [out] + ids;
    }
  }

  // ----- positive quantities within 64 bits have positive totals

  lemma FitsDrop(levels: seq<Level>, out: u64)
    requires FitsOn(levels)
    ensures FitsOn(DropOrder(levels, out))
  {
    hide DropOrder, QueueSum, Without;
    var i, queue := DropShape(levels, out);
    if OnSide(levels, out) {
      CountWithout(levels[i].queue, out, 0);
    }
  }

  ghost predicate Healthy(book: Book) {
    WellFormed(book) && PositiveBook(book) && SumsFit(book)
  }

  lemma {:induction false} CancelsHealthy(book: Book, ids: seq<u64>)
    requires Healthy(book)
    ensures Healthy(Run(book, Cancels(ids)))
    decreases |ids|
  {
    hide WellFormed, PositiveBook, FitsOn, DropOrder, OnSide;
    if ids != [] {
      var rest, out := ids[..|ids| - 1], ids[|ids| - 1];
      CancelsHealthy(book, rest);
      assert Cancels(ids)[..|ids| - 1] == Cancels(rest);
      var before := Run(book, Cancels(rest));
      CancelKeeps(before, out);
      StepIff(before, Cancel(out));
      FitsDrop(before.bids, out);
      FitsDrop(before.asks, out);
    }
  }

  lemma TotalsOfSide(levels: seq<Level>)
    requires NonEmptyQueues(levels) && PositiveLevels(levels) && FitsOn(levels)
    ensures TotalsOn(levels)
  {
    forall i | 0 <= i < |levels|
      ensures Total(levels[i]) > 0
    {
      assert PositiveQueue(levels[i].queue);
      assert QueueSum(levels[i].queue) == levels[i].queue[0].qty + QueueSum(levels[i].queue[1..]);
    }
  }

  lemma HealthyTotals(book: Book)
    requires Healthy(book)
    ensures TotalsPositive(book)
  {
    hide TotalsOn;
    FormOf(book, Buy);
    FormOf(book, Sell);
    TotalsOfSide(book.bids);
    TotalsOfSide(book.asks);
  }

  // ----- every run

  /** Every stored total is above zero at every point of the run, and stays so whatever is cancelled
      from there. */
  ghost predicate AlwaysTotals(cmds: seq<Command>) {
    forall n: nat, ids: seq<u64> :: n <= |cmds| ==> TotalsPositive(Run(Run(EMPTY, cmds[..n]), Cancels(ids)))
  }

  ghost predicate AlwaysFits(cmds: seq<Command>) {
    forall n: nat :: n <= |cmds| ==> SumsFit(Run(EMPTY, cmds[..n]))
  }

  lemma TotalsAt(cmds: seq<Command>, n: nat, ids: seq<u64>)
    requires AlwaysFits(cmds) && NeverZeroed(cmds) && n <= |cmds|
    ensures TotalsPositive(Run(Run(EMPTY, cmds[..n]), Cancels(ids)))
  {
    hide SumsFit, PositiveBook, WellFormed, TotalsPositive, Run, NeverZeroed;
    NeverCrossed(cmds[..n]);
    PositiveAt(cmds, n);
    CancelsHealthy(Run(EMPTY, cmds[..n]), ids);
    HealthyTotals(Run(Run(EMPTY, cmds[..n]), Cancels(ids)));
  }

  lemma ZeroedTotals(cmds: seq<Command>, n: nat)
    requires Fresh(cmds) && n < |cmds| && Zeroes(Run(EMPTY, cmds[..n]), cmds[n])
    ensures !AlwaysTotals(cmds)
  {
    hide Step, Run, TotalsPositive, Once, Fresh;
    var book := Run(EMPTY, cmds[..n]);
    FreshOnce(cmds, n + 1);
    RunNext(EMPTY, cmds, n);
    StepIs(book, cmds[n]);
    var side, i, k := ZeroedRests(book, cmds[n].id, cmds[n].prioritySeq);
    var after := Run(EMPTY, cmds[..n + 1]);
    var id := after.Of(side)[i].queue[k].orderId;
    assert ZeroIn(after.Of(side)[i].queue, id);
    var ids := Isolated(after, id);
  }

  lemma StepIs(book: Book, cmd: Command)
    requires cmd.Modify?
    ensures Step(book, cmd) == ModifySpec(book, cmd.id, cmd.qty, cmd.prioritySeq)
  {
  }

  /** Over every run that rests orders under new ids and overfills no level: every stored total is above
      zero at every point and after any cancels exactly when no command sets the quantity of an
      order to zero while it rests. */
  lemma TotalsIff(cmds: seq<Command>)
    requires Fresh(cmds) && AlwaysFits(cmds)
    ensures AlwaysTotals(cmds) <==> NeverZeroed(cmds)
  {
    hide TotalsPositive, Zeroes, Fresh, AlwaysFits, Run;
    if NeverZeroed(cmds) {
      forall n: nat, ids: seq<u64> | n <= |cmds|
        ensures TotalsPositive(Run(Run(EMPTY, cmds[..n]), Cancels(ids)))
      {
        TotalsAt(cmds, n, ids);
      }
    } else {
      var n: nat :| n < |cmds| && Zeroes(Run(EMPTY, cmds[..n]), cmds[n]);
      ZeroedTotals(cmds, n);
    }
  }

  // ----- the two ways to a total of zero

  function Bid(id: u64, qty: u64): Order {
    Order(id, 100, qty, id, 1, Buy, Limit)
  }

  lemma FirstBid(qty: u64)
    requires qty > 0
    ensures Step(EMPTY, Submit(Bid(1, qty))) == Book([Level(100, [Resting(1, 1, qty, 1)])], [])
  {
  }

  /** An order for ten lots, set to zero: its level stays, with a total of zero. */
  lemma ZeroExample()
    ensures var book := Run(EMPTY, [Submit(Bid(1, 10)), Modify(1, 0, 2)]);
            book == Book([Level(100, [Resting(1, 1, 0, 1)])], []) && !PositiveBook(book) && !TotalsPositive(book)
  {
    var cmds := [Submit(Bid(1, 10)), Modify(1, 0, 2)];
    RunTwo(cmds[0], cmds[1]);
    FirstBid(10);
    var r := Resting(1, 1, 10, 1);
    assert InQueue([r], 1) by { assert [r][0].orderId == 1; }
    var book := Book([Level(100, [r])], []);
    assert OnSide(book.bids, 1) by { assert InQueue(book.bids[0].queue, 1); }
    assert Requeue([r], 1, 0, 2) == [r.(qty := 0)];
    var after := Run(EMPTY, cmds);
    assert ZeroAt(after, Buy, 0, 0);
    ZeroNotPositive(after, Buy, 0, 0);
    assert QueueSum(after.bids[0].queue) == 0 + QueueSum(after.bids[0].queue[1..]);
    assert Total(after.bids[0]) == 0;
  }

  lemma RunTwo(a: Command, b: Command)
    ensures Run(EMPTY, [a, b]) == Step(Step(EMPTY, a), b)
  {
    hide Step;
    assert [a, b][..1] == [a] && [a][..0] == [];
    assert Run(EMPTY, [a]) == Step(Run(EMPTY, []), a);
  }

  /** Two orders of 2^63 lots at one price: nothing is zero but the total, which has wrapped. */
  lemma WrapExample()
    ensures var cmds := [Submit(Bid(1, 0x8000_0000_0000_0000)), Submit(Bid(2, 0x8000_0000_0000_0000))];
            Fresh(cmds) && NeverZeroed(cmds) && !TotalsPositive(Run(EMPTY, cmds))
  {
    var half: u64 := 0x8000_0000_0000_0000;
    var a, b := Submit(Bid(1, half)), Submit(Bid(2, half));
    RunTwo(a, b);
    FirstBid(half);
    var x, y := Resting(1, 1, half, 1), Resting(1, 2, half, 2);
    var book := Step(EMPTY, a);
    assert !OnSide(book.bids, 2) by {
      assert !InQueue([x], 2);
    }
    var after := Step(book, b);
    assert after.bids[0].queue == [x] + [y];
    QueueSumAppend([x], [y]);
    assert QueueSum([x]) == half + QueueSum([x][1..]) && QueueSum([y]) == half + QueueSum([y][1..]);
    assert Total(after.bids[0]) == 0;
    assert [a, b][..0] == [] && [a, b][..1] == [a];
    assert Run(EMPTY, [a]) == Step(Run(EMPTY, [a][..0]), a) && [a][..0] == [];
  }
}
