/** Price-time priority matching of one incoming order against the opposite side, as a value:
    one resting order at a time from the head of the best level. */
module Matching {
  import opened Domain
  import opened Seqs
  import opened BookSpec
  import opened BookOps

  datatype Fill = Fill(makerId: u64, makerSymbol: u32, price: Price, qty: u64, takerLeft: u64, makerLeft: u64)

  datatype Outcome = Outcome(levels: seq<Level>, fills: seq<Fill>, left: u64)

  /** A limit order trades at its limit or better; other kinds trade at any price. */
  predicate Crosses(order: Order, price: Price) {
    order.orderType == Limit ==> if order.side == Buy then order.price >= price else order.price <= price
  }

  function FillOf(price: Price, maker: Resting, left: u64): Fill {
    var q := Min(left, maker.qty);
    Fill(maker.orderId, maker.symbolId, price, q, left - q, maker.qty - q)
  }

  function WithoutHead(levels: seq<Level>): seq<Level>
    requires levels != [] && levels[0].queue != []
  {
    if |levels[0].queue| == 1 then levels[1..] else [levels[0].(queue := levels[0].queue[1..])] + levels[1..]
  }

  function ShrinkHead(levels: seq<Level>, qty: u64): seq<Level>
    requires levels != [] && levels[0].queue != []
  {
    levels[0 := levels[0].(queue := levels[0].queue[0 := levels[0].queue[0].(qty := qty)])]
  }

  predicate Stops(order: Order, levels: seq<Level>, left: u64) {
    left == 0 || levels == [] || levels[0].queue == [] || !Crosses(order, levels[0].price)
  }

  lemma CountWithoutHead(levels: seq<Level>)
    requires levels != [] && levels[0].queue != []
    ensures OrderCount(WithoutHead(levels)) == OrderCount(levels) - 1
  {
    var after := WithoutHead(levels);
    if |levels[0].queue| > 1 {
      assert after[1..] == levels[1..];
    }
  }

  /** The greedy sweep of the opposite side. */
  function Match(order: Order, levels: seq<Level>, left: u64): Outcome
    decreases OrderCount(levels)
  {
    if Stops(order, levels, left) then Outcome(levels, [], left)
    else
      var f := FillOf(levels[0].price, levels[0].queue[0], left);
      if f.makerLeft > 0 then Outcome(ShrinkHead(levels, f.makerLeft), [f], f.takerLeft)
      else
        CountWithoutHead(levels);
        var rest := Match(order, WithoutHead(levels), f.takerLeft);
        rest.(fills := [f] + rest.fills)
  }

  function Traded(fills: seq<Fill>): nat {
    if fills == [] then 0 else fills[0].qty + Traded(fills[1..])
  }

  function Volume(fills: seq<Fill>): int {
    if fills == [] then 0 else fills[0].qty * fills[0].price + Volume(fills[1..])
  }

  // ----- what the sweep conserves

  lemma SumWithoutHead(levels: seq<Level>)
    requires levels != [] && levels[0].queue != []
    ensures LevelsSum(WithoutHead(levels)) == LevelsSum(levels) - levels[0].queue[0].qty
  {
    var after := WithoutHead(levels);
    if |levels[0].queue| > 1 {
      assert after[1..] == levels[1..];
    } else {
      assert QueueSum(levels[0].queue) == levels[0].queue[0].qty + QueueSum(levels[0].queue[1..]);
    }
  }

  lemma SumShrinkHead(levels: seq<Level>, qty: u64)
    requires levels != [] && levels[0].queue != []
    ensures LevelsSum(ShrinkHead(levels, qty)) == LevelsSum(levels) - levels[0].queue[0].qty + qty
  {
    var after := ShrinkHead(levels, qty);
    assert after[1..] == levels[1..];
    assert after[0].queue[1..] == levels[0].queue[1..];
  }

  /** The incoming quantity is split between trades and the remainder, and the opposite side
      loses exactly what was traded. */
  lemma {:induction false} MatchConserves(order: Order, levels: seq<Level>, left: u64)
    ensures var m := Match(order, levels, left);
            && left == Traded(m.fills) + m.left
            && LevelsSum(levels) == Traded(m.fills) + LevelsSum(m.levels)
    decreases OrderCount(levels)
  {
    if !Stops(order, levels, left) {
      var f := FillOf(levels[0].price, levels[0].queue[0], left);
      if f.makerLeft > 0 {
        SumShrinkHead(levels, f.makerLeft);
        assert [f][1..] == [];
      } else {
        CountWithoutHead(levels);
        SumWithoutHead(levels);
        MatchConserves(order, WithoutHead(levels), f.takerLeft);
        assert Match(order, levels, left).fills[1..] == Match(order, WithoutHead(levels), f.takerLeft).fills;
      }
    }
  }

  // ----- the sweep is the greedy prefix of the side in price-time order

  datatype Quote = Quote(price: Price, order: Resting)

  function LevelQuotes(level: Level): (r: seq<Quote>)
    ensures |r| == |level.queue|
    ensures forall i :: 0 <= i < |r| ==> r[i] == Quote(level.price, level.queue[i])
  {
    seq(|level.queue|, i requires 0 <= i < |level.queue| => Quote(level.price, level.queue[i]))
  }

  /** The side as one list: best price first, and in queue order at each price. */
  function Quotes(levels: seq<Level>): seq<Quote> {
    if levels == [] then [] else LevelQuotes(levels[0]) + Quotes(levels[1..])
  }

  lemma QuotesCons(level: Level, rest: seq<Level>)
    ensures Quotes([level] + rest) == LevelQuotes(level) + Quotes(rest)
  {
    assert ([level] + rest)[1..] == rest;
  }

  lemma {:induction false} QuotesWithoutHead(levels: seq<Level>)
    requires levels != [] && levels[0].queue != []
    ensures Quotes(levels) == [Quote(levels[0].price, levels[0].queue[0])] + Quotes(WithoutHead(levels))
  {
    hide Quotes, LevelQuotes;
    var head, rest := levels[0], levels[1..];
    var next := head.(queue := head.queue[1..]);
    assert levels == [head] + rest;
    QuotesCons(head, rest);
    QuotesCons(next, rest);
    LevelQuotesTail(head);
    NoQuotes(next);
    Regrouped(Quote(head.price, head.queue[0]), LevelQuotes(next), Quotes(rest));
  }

  lemma NoQuotes(level: Level)
    ensures level.queue == [] ==> LevelQuotes(level) == []
  {
  }

  lemma Regrouped(q: Quote, a: seq<Quote>, b: seq<Quote>)
    ensures [q] + a + b == [q] + (a + b) && [] + b == b
  {
  }

  lemma LevelQuotesTail(level: Level)
    requires level.queue != []
    ensures LevelQuotes(level) == [Quote(level.price, level.queue[0])] + LevelQuotes(level.(queue := level.queue[1..]))
  {
  }

  lemma {:induction false} QuotesShrinkHead(levels: seq<Level>, qty: u64)
    requires levels != [] && levels[0].queue != []
    ensures |Quotes(levels)| > 0
    ensures Quotes(ShrinkHead(levels, qty)) ==
            Quotes(levels)[0 := Quote(levels[0].price, levels[0].queue[0].(qty := qty))]
  {
    hide Quotes, LevelQuotes;
    var head, rest := levels[0], levels[1..];
    var shrunk := head.(queue := head.queue[0 := head.queue[0].(qty := qty)]);
    assert levels == [head] + rest && ShrinkHead(levels, qty) == [shrunk] + rest;
    QuotesCons(head, rest);
    QuotesCons(shrunk, rest);
    LevelQuotesShrunk(head, qty);
  }

  lemma LevelQuotesShrunk(level: Level, qty: u64)
    requires level.queue != []
    ensures |LevelQuotes(level)| > 0
    ensures LevelQuotes(level.(queue := level.queue[0 := level.queue[0].(qty := qty)]))
         == LevelQuotes(level)[0 := Quote(level.price, level.queue[0].(qty := qty))]
  {
  }

  lemma NonEmptyWithoutHead(levels: seq<Level>)
    requires NonEmptyQueues(levels) && levels != []
    ensures NonEmptyQueues(WithoutHead(levels))
  {
  }

  /** The fill takes this quote at its resting price. */
  ghost predicate FillsQuote(order: Order, f: Fill, q: Quote) {
    && f.makerId == q.order.orderId && f.makerSymbol == q.order.symbolId && f.price == q.price
    && f.qty + f.makerLeft == q.order.qty && Crosses(order, q.price)
  }

  /** The quotes that remain after the first `n` fills. */
  function Remaining(quotes: seq<Quote>, fills: seq<Fill>): seq<Quote>
    requires |fills| <= |quotes|
  {
    var n := |fills|;
    if n > 0 && fills[n - 1].makerLeft > 0 then
      [Quote(quotes[n - 1].price, quotes[n - 1].order.(qty := fills[n - 1].makerLeft))] + quotes[n..]
    else quotes[n..]
  }

  /** After each fill the taker is left with what the fills so far did not take. */
  ghost predicate Leaves(left: u64, fills: seq<Fill>) {
    forall i :: 0 <= i < |fills| ==> fills[i].takerLeft == left - Traded(fills[..i + 1])
  }

  lemma LeavesStep(left: u64, f: Fill, fills: seq<Fill>)
    requires left == f.qty + f.takerLeft && Leaves(f.takerLeft, fills)
    ensures Leaves(left, [f] + fills)
  {
    var all := [f] + fills;
    forall i | 0 <= i < |all|
      ensures all[i].takerLeft == left - Traded(all[..i + 1])
    {
      assert all[..i + 1][1..] == fills[..i];
      if i > 0 {
        assert all[i] == fills[i - 1];
        assert fills[i - 1].takerLeft == f.takerLeft - Traded(fills[..i]);
      }
    }
  }

  ghost predicate Greedy(order: Order, quotes: seq<Quote>, left: u64, fills: seq<Fill>, after: seq<Quote>, rest: u64) {
    var n := |fills|;
    && n <= |quotes|
    && (forall i :: 0 <= i < n ==> FillsQuote(order, fills[i], quotes[i]))
    && Leaves(left, fills)
    && (forall i :: 0 <= i < n - 1 ==> fills[i].makerLeft == 0)
    && (n > 0 && fills[n - 1].makerLeft > 0 ==> rest == 0)
    && after == Remaining(quotes, fills)
    && left == Traded(fills) + rest
    && (rest > 0 ==> n == |quotes| || !Crosses(order, quotes[n].price))
  }

  lemma FillsStep(order: Order, quotes: seq<Quote>, f: Fill, fills: seq<Fill>)
    requires quotes != [] && FillsQuote(order, f, quotes[0]) && f.makerLeft == 0 && |fills| < |quotes|
    requires forall i :: 0 <= i < |fills| ==> FillsQuote(order, fills[i], quotes[1..][i])
    requires forall i :: 0 <= i < |fills| - 1 ==> fills[i].makerLeft == 0
    ensures forall i :: 0 <= i <= |fills| ==> FillsQuote(order, ([f] + fills)[i], quotes[i])
    ensures forall i :: 0 <= i < |fills| ==> ([f] + fills)[i].makerLeft == 0
  {
    forall i | 0 <= i <= |fills|
      ensures FillsQuote(order, ([f] + fills)[i], quotes[i])
    {
      if i > 0 {
        assert FillsQuote(order, fills[i - 1], quotes[1..][i - 1]);
      }
    }
    assert forall i :: 0 < i < |fills| ==> ([f] + fills)[i] == fills[i - 1];
  }

  lemma RemainingStep(quotes: seq<Quote>, f: Fill, fills: seq<Fill>)
    requires quotes != [] && f.makerLeft == 0 && |fills| < |quotes|
    ensures Remaining(quotes, [f] + fills) == Remaining(quotes[1..], fills)
  {
    var all := [f] + fills;
    assert quotes[1..][|fills|..] == quotes[|all|..];
    if fills != [] {
      assert all[|all| - 1] == fills[|fills| - 1];
      assert quotes[1..][|fills| - 1] == quotes[|all| - 1];
    }
  }

  lemma GreedyStep(order: Order, quotes: seq<Quote>, left: u64, f: Fill, fills: seq<Fill>, after: seq<Quote>, rest: u64)
    requires quotes != [] && FillsQuote(order, f, quotes[0]) && f.makerLeft == 0 && left == f.qty + f.takerLeft
    requires Greedy(order, quotes[1..], f.takerLeft, fills, after, rest)
    ensures Greedy(order, quotes, left, [f] + fills, after, rest)
  {
    hide FillsQuote, Remaining, Crosses, Leaves;
    LeavesStep(left, f, fills);
    FillsStep(order, quotes, f, fills);
    RemainingStep(quotes, f, fills);
    assert ([f] + fills)[1..] == fills;
    assert fills != [] ==> ([f] + fills)[|fills|] == fills[|fills| - 1];
    assert |fills| < |quotes[1..]| ==> quotes[1..][|fills|] == quotes[|fills| + 1];
  }

  /** The sweep trades the front of the price-time list, one resting order after another, each in
      full except possibly the last, and stops only when the order is filled, the list ends, or the
      next price does not cross. */
  lemma {:induction false} MatchIsGreedy(order: Order, levels: seq<Level>, left: u64)
    requires NonEmptyQueues(levels)
    ensures var m := Match(order, levels, left); Greedy(order, Quotes(levels), left, m.fills, Quotes(m.levels), m.left)
    decreases OrderCount(levels)
  {
    hide Quotes, Greedy, WithoutHead, ShrinkHead;
    if Stops(order, levels, left) {
      GreedyStops(order, levels, left);
    } else {
      var f := FillOf(levels[0].price, levels[0].queue[0], left);
      QuotesWithoutHead(levels);
      if f.makerLeft > 0 {
        GreedyLast(order, levels, left, f);
      } else {
        CountWithoutHead(levels);
        NonEmptyWithoutHead(levels);
        var rest := Match(order, WithoutHead(levels), f.takerLeft);
        MatchIsGreedy(order, WithoutHead(levels), f.takerLeft);
        assert Quotes(levels)[1..] == Quotes(WithoutHead(levels));
        GreedyStep(order, Quotes(levels), left, f, rest.fills, Quotes(rest.levels), rest.left);
      }
    }
  }

  lemma {:induction false} GreedyStops(order: Order, levels: seq<Level>, left: u64)
    requires NonEmptyQueues(levels) && Stops(order, levels, left)
    ensures Greedy(order, Quotes(levels), left, [], Quotes(levels), left)
  {
    if levels != [] {
      hide Quotes;
      QuotesWithoutHead(levels);
    }
    assert Quotes(levels)[0..] == Quotes(levels);
  }

  lemma {:induction false} GreedyLast(order: Order, levels: seq<Level>, left: u64, f: Fill)
    requires levels != [] && levels[0].queue != [] && Crosses(order, levels[0].price)
    requires f == FillOf(levels[0].price, levels[0].queue[0], left) && f.makerLeft > 0
    ensures Greedy(order, Quotes(levels), left, [f], Quotes(ShrinkHead(levels, f.makerLeft)), f.takerLeft)
  {
    hide Quotes, ShrinkHead;
    QuotesWithoutHead(levels);
    QuotesShrinkHead(levels, f.makerLeft);
    assert [f][1..] == [];
    var quotes, shrunk := Quotes(levels), Quote(levels[0].price, levels[0].queue[0].(qty := f.makerLeft));
    assert quotes[0 := shrunk] == [shrunk] + quotes[1..];
    assert Traded([f]) == f.qty + Traded([f][1..]);
    assert [f][..1] == [f];
  }

  /** The volume a limit could reach: the quantities of the longest crossing prefix. */
  function CrossingVolume(order: Order, quotes: seq<Quote>): nat {
    if quotes == [] || !Crosses(order, quotes[0].price) then 0
    else quotes[0].order.qty + CrossingVolume(order, quotes[1..])
  }

  /** In closed form: the sweep trades all it may, the smaller of the order and the crossing volume. */
  lemma {:induction false} TradedVolume(order: Order, levels: seq<Level>, left: u64)
    requires NonEmptyQueues(levels)
    ensures Traded(Match(order, levels, left).fills) == Min(left, CrossingVolume(order, Quotes(levels)))
    decreases OrderCount(levels)
  {
    if Stops(order, levels, left) {
      if levels != [] {
        QuotesWithoutHead(levels);
      }
    } else {
      var f := FillOf(levels[0].price, levels[0].queue[0], left);
      QuotesWithoutHead(levels);
      assert Quotes(levels)[1..] == Quotes(WithoutHead(levels));
      if f.makerLeft > 0 {
        assert [f][1..] == [];
      } else {
        CountWithoutHead(levels);
        NonEmptyWithoutHead(levels);
        TradedVolume(order, WithoutHead(levels), f.takerLeft);
        assert Match(order, levels, left).fills[1..] == Match(order, WithoutHead(levels), f.takerLeft).fills;
      }
    }
  }

  // ----- the prices an order trades at

  /** `price` is no worse than `limit` for an order on this side. */
  predicate NoWorse(side: Side, price: Price, limit: Price) {
    match side
    case Buy => price <= limit
    case Sell => limit <= price
  }

  /** A limit order never trades at a price worse than its limit: a buy not above it, a sell not below. */
  lemma {:induction false} TradesWithinLimit(order: Order, levels: seq<Level>, left: u64, i: nat)
    requires order.orderType == Limit && i < |Match(order, levels, left).fills|
    ensures order.side == Buy ==> Match(order, levels, left).fills[i].price <= order.price
    ensures order.side == Sell ==> Match(order, levels, left).fills[i].price >= order.price
    decreases i
  {
    var f := FillOf(levels[0].price, levels[0].queue[0], left);
    if i > 0 {
      CountWithoutHead(levels);
      var rest := Match(order, WithoutHead(levels), f.takerLeft).fills;
      assert Match(order, levels, left).fills[i] == rest[i - 1];
      TradesWithinLimit(order, WithoutHead(levels), f.takerLeft, i - 1);
    }
  }

  /** What is left of an order after the sweep either meets no quotes at all, or is left of a limit order
      that faces a front price strictly beyond its limit. */
  lemma {:induction false} StopsBeyondLimit(order: Order, levels: seq<Level>, left: u64)
    requires NonEmptyQueues(levels)
    ensures var m := Match(order, levels, left);
            m.left > 0 && m.levels != [] ==>
              && order.orderType == Limit
              && (order.side == Buy ==> m.levels[0].price > order.price)
              && (order.side == Sell ==> m.levels[0].price < order.price)
    decreases OrderCount(levels)
  {
    if !Stops(order, levels, left) {
      var f := FillOf(levels[0].price, levels[0].queue[0], left);
      if f.makerLeft == 0 {
        CountWithoutHead(levels);
        NonEmptyWithoutHead(levels);
        StopsBeyondLimit(order, WithoutHead(levels), f.takerLeft);
      }
    }
  }

  /** An order without a limit trades as much as there is. */
  lemma {:induction false} UnlimitedTakesAll(order: Order, levels: seq<Level>, left: u64)
    requires NonEmptyQueues(levels) && order.orderType != Limit
    ensures Traded(Match(order, levels, left).fills) == Min(left, LevelsSum(levels))
    decreases OrderCount(levels)
  {
    if Stops(order, levels, left) {
      assert left > 0 ==> levels == [];
    } else {
      var f := FillOf(levels[0].price, levels[0].queue[0], left);
      SumWithoutHead(levels);
      if f.makerLeft > 0 {
        assert [f][1..] == [];
      } else {
        CountWithoutHead(levels);
        NonEmptyWithoutHead(levels);
        UnlimitedTakesAll(order, WithoutHead(levels), f.takerLeft);
        assert Match(order, levels, left).fills[1..] == Match(order, WithoutHead(levels), f.takerLeft).fills;
      }
    }
  }

  /** The quantity offered at prices no worse than a limit, level by level. */
  function Offered(side: Side, limit: Price, levels: seq<Level>): nat {
    if levels == [] then 0
    else (if NoWorse(side, levels[0].price, limit) then QueueSum(levels[0].queue)
          else 0) + Offered(side, limit, levels[1..])
  }

  lemma {:induction false} NoneOffered(side: Side, limit: Price, levels: seq<Level>)
    requires Sorted(side.Opposite(), levels) && levels != [] && !NoWorse(side, levels[0].price, limit)
    ensures Offered(side, limit, levels) == 0
    decreases |levels|
  {
    if |levels| > 1 {
      assert Better(side.Opposite(), levels[0].price, levels[1].price);
      NoneOffered(side, limit, levels[1..]);
    }
  }

  lemma OfferedWithoutHead(side: Side, limit: Price, levels: seq<Level>)
    requires levels != [] && levels[0].queue != [] && NoWorse(side, levels[0].price, limit)
    ensures Offered(side, limit, WithoutHead(levels)) == Offered(side, limit, levels) - levels[0].queue[0].qty
    ensures Offered(side, limit, levels) >= levels[0].queue[0].qty
  {
    var after := WithoutHead(levels);
    assert QueueSum(levels[0].queue) == levels[0].queue[0].qty + QueueSum(levels[0].queue[1..]);
    if |levels[0].queue| > 1 {
      assert after[1..] == levels[1..];
    }
  }

  /** A limit order trades exactly the smaller of its quantity and what is offered within its limit. */
  lemma {:induction false} LimitTakesOffered(order: Order, levels: seq<Level>, left: u64)
    requires Sorted(order.side.Opposite(), levels) && NonEmptyQueues(levels) && order.orderType == Limit
    ensures Traded(Match(order, levels, left).fills) == Min(left, Offered(order.side, order.price, levels))
    decreases OrderCount(levels)
  {
    if Stops(order, levels, left) {
      if left > 0 && levels != [] {
        NoneOffered(order.side, order.price, levels);
      }
    } else {
      var f := FillOf(levels[0].price, levels[0].queue[0], left);
      OfferedWithoutHead(order.side, order.price, levels);
      if f.makerLeft > 0 {
        assert [f][1..] == [];
      } else {
        CountWithoutHead(levels);
        HeadKeepsShape(order.side.Opposite(), levels, 0);
        hide Sorted, NonEmptyQueues, PricesWithin, Offered;
        LimitTakesOffered(order, WithoutHead(levels), f.takerLeft);
        assert Match(order, levels, left).fills[1..] == Match(order, WithoutHead(levels), f.takerLeft).fills;
      }
    }
  }

  // ----- what the sweep keeps

  ghost predicate PricesWithin(levels: seq<Level>, original: seq<Level>) {
    forall i :: 0 <= i < |levels| ==> PriceOn(original, levels[i].price)
  }

  lemma WithinTrans(a: seq<Level>, b: seq<Level>, c: seq<Level>)
    requires PricesWithin(a, b) && PricesWithin(b, c)
    ensures PricesWithin(a, c)
  {
    forall i | 0 <= i < |a|
      ensures PriceOn(c, a[i].price)
    {
      var j :| 0 <= j < |b| && b[j].price == a[i].price;
      assert PriceOn(c, b[j].price);
    }
  }

  /** `after` is `levels` without its first `k`, each at its old price and with a non-empty queue. */
  lemma SuffixKeepsShape(side: Side, levels: seq<Level>, after: seq<Level>, k: nat)
    requires Sorted(side, levels) && k <= |levels| && |after| == |levels| - k && NonEmptyQueues(after)
    requires forall i :: 0 <= i < |after| ==> after[i].price == levels[i + k].price
    ensures Sorted(side, after) && PricesWithin(after, levels)
  {
  }

  lemma HeadKeepsShape(side: Side, levels: seq<Level>, qty: u64)
    requires Sorted(side, levels) && NonEmptyQueues(levels) && levels != []
    ensures Sorted(side, WithoutHead(levels)) && NonEmptyQueues(WithoutHead(levels)) &&
            PricesWithin(WithoutHead(levels), levels)
    ensures Sorted(side, ShrinkHead(levels, qty)) && NonEmptyQueues(ShrinkHead(levels, qty)) &&
            PricesWithin(ShrinkHead(levels, qty), levels)
  {
    hide Sorted, PricesWithin;
    var a, b := WithoutHead(levels), ShrinkHead(levels, qty);
    NonEmptyWithoutHead(levels);
    SuffixKeepsShape(side, levels, a, |levels| - |a|);
    SuffixKeepsShape(side, levels, b, 0);
  }

  /** The sweep keeps a sorted side of non-empty queues and quotes no new price; a remainder means
      the best remaining price does not cross. */
  lemma {:induction false} MatchKeepsShape(order: Order, side: Side, levels: seq<Level>, left: u64)
    requires Sorted(side, levels) && NonEmptyQueues(levels)
    ensures var m := Match(order, levels, left);
            && Sorted(side, m.levels) && NonEmptyQueues(m.levels) && PricesWithin(m.levels, levels)
            && (m.left > 0 && m.levels != [] ==> !Crosses(order, m.levels[0].price))
    decreases OrderCount(levels)
  {
    if !Stops(order, levels, left) {
      var f := FillOf(levels[0].price, levels[0].queue[0], left);
      HeadKeepsShape(side, levels, f.makerLeft);
      hide Sorted, NonEmptyQueues, PricesWithin;
      if f.makerLeft == 0 {
        CountWithoutHead(levels);
        MatchKeepsShape(order, side, WithoutHead(levels), f.takerLeft);
        WithinTrans(Match(order, WithoutHead(levels), f.takerLeft).levels, WithoutHead(levels), levels);
      }
    } else {
      assert PricesWithin(levels, levels);
    }
  }

  /** The head of a side after a fill of its front order. */
  lemma FillHead(levels: seq<Level>, left: u64)
    requires levels != [] && levels[0].queue != [] && RestsAt(levels, 0, 0, levels[0].queue[0].orderId)
    requires left <= levels[0].queue[0].qty
    ensures FillLevels(levels, levels[0].queue[0].orderId, left) ==
            if left == 0 then WithoutHead(levels) else ShrinkHead(levels, left)
  {
    var id := levels[0].queue[0].orderId;
    DropAt(levels, 0, 0, id);
    ResizeAt(levels, 0, 0, id, left, 0);
    hide DropOrder, ResizeOrder;
    assert DeletedAt(levels, 0) == levels[1..];
    assert DeletedAt(levels[0].queue, 0) == levels[0].queue[1..];
    if |levels[0].queue| > 1 {
      assert levels[0 := levels[0].(queue := levels[0].queue[1..])] ==
             [levels[0].(queue := levels[0].queue[1..])] + levels[1..];
    }
  }
}
