/** What a submission records and reports, in terms of the order, the quotes it met and what was traded. */
module SubmitLaws {
  import opened Domain
  import opened BookSpec
  import opened Matching
  import opened EngineLog
  import opened EngineSpec

  // ----- the book

  /** The side of the order changes only when a limit order has something left, and then as inserting the
      order changes it. */
  lemma SubmitRests(book: Book, order: Order)
    ensures var traded, after := Matching.Traded(Sweep(book, order).fills), SubmitSpec(book, order);
            after.Of(order.side) ==
            if order.orderType == Limit && traded < order.qty then InsertSpec(book, order, order.seqNum).Of(order.side)
            else book.Of(order.side)
  {
    MatchConserves(order, book.Of(order.side.Opposite()), order.qty);
  }

  /** The status, from what was traded and the kind of order. */
  lemma StatusMeans(book: Book, order: Order)
    ensures var traded, status := Matching.Traded(Sweep(book, order).fills), SubmitStatus(book, order);
            && (status == Filled <==> traded == order.qty)
            && (status == ExpiredRest <==> traded < order.qty && order.orderType == Market)
            && (status == PartiallyFilled <==> 0 < traded < order.qty && order.orderType == Limit)
            && (status == MatchingStatus.Success <==>
                  traded < order.qty && (order.orderType == Stop || (order.orderType == Limit && traded == 0)))
  {
    MatchConserves(order, book.Of(order.side.Opposite()), order.qty);
  }

  // ----- trades

  lemma {:induction false} TradeAt(order: Order, fills: seq<Fill>, seqNo: u64, i: nat)
    requires i < |fills|
    ensures TradesOf(order, fills, seqNo)[i] == TradeOf(order, fills[i], Wrap64(seqNo + i))
    decreases i
  {
    hide TradeOf;
    if i == 0 {
      WrapSame(seqNo);
    } else {
      TradeAt(order, fills[1..], Wrap64(seqNo + 1), i - 1);
      WrapAdd(seqNo + 1, i - 1);
      assert TradesOf(order, fills, seqNo)[i] == TradesOf(order, fills[1..], Wrap64(seqNo + 1))[i - 1];
    }
  }

  lemma WrapSame(x: u64)
    ensures Wrap64(x + 0) == x
  {
  }

  lemma GreedyAt(order: Order, quotes: seq<Quote>, left: u64, fills: seq<Fill>, after: seq<Quote>, rest: u64, i: nat)
    requires Greedy(order, quotes, left, fills, after, rest) && i < |fills|
    ensures i < |quotes| && fills[i].makerId == quotes[i].order.orderId && fills[i].price == quotes[i].price
    ensures fills[i].makerSymbol == quotes[i].order.symbolId && fills[i].qty + fills[i].makerLeft == quotes[i].order.qty
    ensures fills[i].takerLeft == left - Matching.Traded(fills[..i + 1])
  {
    assert FillsQuote(order, fills[i], quotes[i]);
  }

  /** Trade number `i` of a sweep is with the `i`-th quote of the opposite side, at its price, between the
      buyer and the seller as they are, whichever of them came last. */
  lemma TradeMeans(book: Book, order: Order, seqNo: u64, i: nat)
    requires NonEmptyQueues(book.Of(order.side.Opposite())) && i < |Sweep(book, order).fills|
    ensures var fills, quotes := Sweep(book, order).fills, Quotes(book.Of(order.side.Opposite()));
            var t := TradesOf(order, fills, seqNo)[i];
            && i < |quotes| && t.tradeId == Wrap64(seqNo + i) && t.price == quotes[i].price && t.qty == fills[i].qty
            && t.symbolId == order.symbolId
            && (order.side == Buy ==> t.buyOrderId == order.orderId && t.sellOrderId == quotes[i].order.orderId)
            && (order.side == Sell ==> t.sellOrderId == order.orderId && t.buyOrderId == quotes[i].order.orderId)
  {
    var levels, m := book.Of(order.side.Opposite()), Sweep(book, order);
    hide Quotes, Greedy, Match, TradesOf;
    MatchIsGreedy(order, levels, order.qty);
    GreedyAt(order, Quotes(levels), order.qty, m.fills, Quotes(m.levels), m.left, i);
    TradeAt(order, m.fills, seqNo, i);
  }

  // ----- reports

  lemma {:induction false} ReportAt(order: Order, fills: seq<Fill>, seqNo: u64, i: nat)
    requires i < |fills|
    ensures ReportsOf(order, fills, seqNo)[2 * i] == TakerReport(order, fills[i], Wrap64(seqNo + 2 * i))
    ensures ReportsOf(order, fills, seqNo)[2 * i + 1] == MakerReport(fills[i], Wrap64(seqNo + 2 * i + 1))
    decreases i
  {
    hide TakerReport, MakerReport;
    if i == 0 {
      WrapSame(seqNo);
    } else {
      var rest := ReportsOf(order, fills[1..], Wrap64(seqNo + 2));
      ReportAt(order, fills[1..], Wrap64(seqNo + 2), i - 1);
      WrapAdd(seqNo + 2, 2 * (i - 1));
      WrapAdd(seqNo + 2, 2 * (i - 1) + 1);
      assert ReportsOf(order, fills, seqNo)[2 * i] == rest[2 * i - 2];
      assert ReportsOf(order, fills, seqNo)[2 * i + 1] == rest[2 * i - 1];
    }
  }

  /** Each trade is reported to the incoming order, with what the trades so far left of it, and then to the
      resting one, with what this trade left of that. */
  lemma ReportsMean(book: Book, order: Order, seqNo: u64, i: nat)
    requires NonEmptyQueues(book.Of(order.side.Opposite())) && i < |Sweep(book, order).fills|
    ensures var fills, quotes := Sweep(book, order).fills, Quotes(book.Of(order.side.Opposite()));
            var taker, maker := ReportsOf(order, fills, seqNo)[2 * i], ReportsOf(order, fills, seqNo)[2 * i + 1];
            && i < |quotes| && taker.execType == maker.execType == ExecType.Traded
            && taker.execId == Wrap64(seqNo + 2 * i) && maker.execId == Wrap64(seqNo + 2 * i + 1)
            && taker.orderId == order.orderId && taker.symbolId == order.symbolId
            && maker.orderId == quotes[i].order.orderId && maker.symbolId == quotes[i].order.symbolId
            && taker.price == maker.price == quotes[i].price && taker.lastQty == maker.lastQty == fills[i].qty
            && taker.remainingQty == order.qty - Matching.Traded(fills[..i + 1])
            && maker.remainingQty == quotes[i].order.qty - fills[i].qty
  {
    var levels, m := book.Of(order.side.Opposite()), Sweep(book, order);
    hide Quotes, Greedy, Match, ReportsOf;
    MatchIsGreedy(order, levels, order.qty);
    GreedyAt(order, Quotes(levels), order.qty, m.fills, Quotes(m.levels), m.left, i);
    ReportAt(order, m.fills, seqNo, i);
  }

  /** The whole record of a submission: the first 128 of the trades; the first 256 of the reports, an
      acknowledgement with the full quantity first and for a market order with something left an
      expiration last; and the counters. */
  lemma LogMeans(book: Book, log: Log, order: Order)
    requires |log.trades| <= MAX_TRADES && |log.reports| <= MAX_REPORTS
    ensures var fills, after := Sweep(book, order).fills, SubmitLog(book, log, order);
            var traded, n := Matching.Traded(fills), |fills|;
            var ack := Report(log.execSeq, order.orderId, order.symbolId, order.price, 0, order.qty, New);
            var gone := Report(Wrap64(log.execSeq + 1 + 2 * n), order.orderId, order.symbolId, order.price, 0, 0,
                               Cancelled);
            var expires := order.orderType == Market && traded < order.qty;
            && after.trades == Kept(128, log.trades + TradesOf(order, fills, log.tradeSeq))
            && after.reports == Kept(256, log.reports + ([ack] + ReportsOf(order, fills, Wrap64(log.execSeq + 1)) +
                                                         (if expires then [gone] else [])))
            && after.tradeSeq == Wrap64(log.tradeSeq + n)
            && after.execSeq == Wrap64(log.execSeq + 1 + 2 * n + if expires then 1 else 0)
            && after.stats.ordersReceived == Wrap64(log.stats.ordersReceived + 1)
            && after.stats.ordersMatched ==
               (if traded == order.qty then Wrap64(log.stats.ordersMatched + 1) else log.stats.ordersMatched)
            && after.stats.tradesExecuted == Wrap64(log.stats.tradesExecuted + n)
            && after.stats.sharesExecuted == Wrap64(log.stats.sharesExecuted + traded)
            && after.stats.totalTradedVolume == Wrap64(log.stats.totalTradedVolume + Volume(fills))
            && after.stats.ordersCancelled == log.stats.ordersCancelled
            && after.stats.ordersRejected == log.stats.ordersRejected
  {
    hide Match, TradesOf, ReportsOf, ApplyFills, Wrap64, Kept, Volume, Matching.Traded;
    var m, acked := Sweep(book, order), Acked(log, order);
    var ack := Report(log.execSeq, order.orderId, order.symbolId, order.price, 0, order.qty, New);
    MatchConserves(order, book.Of(order.side.Opposite()), order.qty);
    KeptWithin(MAX_REPORTS, log.reports + [ack]);
    TradesKept(acked, order, m.fills);
    ReportsKept(acked, order, m.fills);
    StatsOfFills(acked, order, m.fills);
    WrapAdd(log.execSeq + 1, 2 * |m.fills|);
    WrapAdd(log.execSeq + 1 + 2 * |m.fills|, 1);
    var gone := Report(Wrap64(log.execSeq + 1 + 2 * |m.fills|), order.orderId, order.symbolId, order.price, 0, 0,
                       Cancelled);
    StreamKept(log.reports, ack, ReportsOf(order, m.fills, acked.execSeq), gone);
  }

  /** The traded value: fills at one price are worth that price for each share, and parts add up. */
  lemma {:induction false} VolumeMeans(fills: seq<Fill>, more: seq<Fill>, price: Price)
    requires forall i :: 0 <= i < |fills| ==> fills[i].price == price
    ensures Volume(fills) == price * Matching.Traded(fills) && Volume(fills + more) == Volume(fills) + Volume(more)
    decreases |fills|
  {
    if fills == [] {
      assert fills + more == more;
    } else {
      assert (fills + more)[1..] == fills[1..] + more;
      VolumeMeans(fills[1..], more, price);
      Distributes(price, fills[0].qty, Matching.Traded(fills[1..]));
    }
  }

  lemma Distributes(p: int, x: int, y: int)
    ensures p * (x + y) == x * p + p * y
  {
  }

  lemma KeptWithin<T>(n: nat, xs: seq<T>)
    ensures |Kept(n, xs)| <= n
  {
  }

  lemma StreamKept(before: seq<Report>, ack: Report, mid: seq<Report>, gone: Report)
    ensures var part := Kept(MAX_REPORTS, Kept(MAX_REPORTS, before + [ack]) + mid);
            && part == Kept(MAX_REPORTS, before + ([ack] + mid + []))
            && Kept(MAX_REPORTS, part + [gone]) == Kept(MAX_REPORTS, before + ([ack] + mid + [gone]))
  {
    hide Kept;
    KeptStep(MAX_REPORTS, before, [ack], mid);
    assert [ack] + mid + [] == [ack] + mid;
    KeptStep(MAX_REPORTS, before, [ack] + mid, [gone]);
  }
}
