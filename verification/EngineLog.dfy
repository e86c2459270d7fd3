/** What the matching engine records: trades, execution reports, sequence counters, statistics. */
module EngineLog {
  import opened Domain
  import opened Matching

  const MAX_TRADES: nat := 128
  const MAX_REPORTS: nat := 256

  datatype Trade = Trade(tradeId: u64, buyOrderId: u64, sellOrderId: u64, price: Price, qty: u64, symbolId: u32)

  datatype ExecType = New | Traded | Cancelled

  datatype Report = Report(execId: u64, orderId: u64, symbolId: u32, price: Price, lastQty: u64, remainingQty: u64,
                           execType: ExecType)

  datatype Stats = Stats(ordersReceived: u64, ordersMatched: u64, ordersCancelled: u64, ordersRejected: u64,
                         tradesExecuted: u64, sharesExecuted: u64, totalTradedVolume: u64)

  const NO_STATS: Stats := Stats(0, 0, 0, 0, 0, 0, 0)

  datatype Log = Log(trades: seq<Trade>, reports: seq<Report>, tradeSeq: u64, execSeq: u64, stats: Stats)

  /** A preallocated buffer keeps the first `n` records and drops the rest. */
  function Kept<T>(n: nat, xs: seq<T>): seq<T> {
    if |xs| <= n then xs else xs[..n]
  }

  lemma KeptAgain<T>(n: nat, xs: seq<T>, ys: seq<T>)
    ensures Kept(n, Kept(n, xs) + ys) == Kept(n, xs + ys)
  {
  }

  function TradeOf(order: Order, f: Fill, tradeId: u64): Trade {
    Trade(tradeId, if order.side == Buy then order.orderId else f.makerId,
          if order.side == Buy then f.makerId else order.orderId, f.price, f.qty, order.symbolId)
  }

  function TakerReport(order: Order, f: Fill, execId: u64): Report {
    Report(execId, order.orderId, order.symbolId, f.price, f.qty, f.takerLeft, Traded)
  }

  function MakerReport(f: Fill, execId: u64): Report {
    Report(execId, f.makerId, f.makerSymbol, f.price, f.qty, f.makerLeft, Traded)
  }

  function Counted(stats: Stats, f: Fill): Stats {
    stats.(tradesExecuted := Wrap64(stats.tradesExecuted + 1),
           sharesExecuted := Wrap64(stats.sharesExecuted + f.qty),
           totalTradedVolume := Wrap64(stats.totalTradedVolume + f.qty * f.price))
  }

  /** One match: a trade, the taker's and the maker's report, the counters. */
  function ApplyFill(log: Log, order: Order, f: Fill): Log {
    Log(Kept(MAX_TRADES, log.trades + [TradeOf(order, f, log.tradeSeq)]),
        Kept(MAX_REPORTS, Kept(MAX_REPORTS, log.reports + [TakerReport(order, f, log.execSeq)])
                          + [MakerReport(f, Wrap64(log.execSeq + 1))]),
        Wrap64(log.tradeSeq + 1), Wrap64(log.execSeq + 2), Counted(log.stats, f))
  }

  function ApplyFills(log: Log, order: Order, fills: seq<Fill>): Log
    decreases |fills|
  {
    if fills == [] then log else ApplyFills(ApplyFill(log, order, fills[0]), order, fills[1..])
  }

  // ----- the records in closed form

  function TradesOf(order: Order, fills: seq<Fill>, tradeSeq: u64): (r: seq<Trade>)
    ensures |r| == |fills|
  {
    if fills == [] then [] else [TradeOf(order, fills[0], tradeSeq)] + TradesOf(order, fills[1..], Wrap64(tradeSeq + 1))
  }

  function ReportsOf(order: Order, fills: seq<Fill>, execSeq: u64): (r: seq<Report>)
    ensures |r| == 2 * |fills|
  {
    if fills == [] then []
    else [TakerReport(order, fills[0], execSeq), MakerReport(fills[0], Wrap64(execSeq + 1))]
         + ReportsOf(order, fills[1..], Wrap64(execSeq + 2))
  }

  lemma KeptStep<T>(n: nat, xs: seq<T>, ys: seq<T>, zs: seq<T>)
    ensures Kept(n, Kept(n, xs + ys) + zs) == Kept(n, xs + (ys + zs))
  {
    KeptAgain(n, xs + ys, zs);
    assert xs + ys + zs == xs + (ys + zs);
  }

  /** The context ends with the first records of the full trade and report streams, in order. */
  lemma {:induction false} TradesKept(log: Log, order: Order, fills: seq<Fill>)
    requires |log.trades| <= MAX_TRADES
    ensures ApplyFills(log, order, fills).trades == Kept(MAX_TRADES, log.trades + TradesOf(order, fills, log.tradeSeq))
    decreases |fills|
  {
    if fills == [] {
      assert log.trades + [] == log.trades;
    } else {
      hide Wrap64, Counted, TradeOf, TakerReport, MakerReport;
      var next := ApplyFill(log, order, fills[0]);
      TradesKept(next, order, fills[1..]);
      KeptStep(MAX_TRADES, log.trades, [TradeOf(order, fills[0], log.tradeSeq)],
               TradesOf(order, fills[1..], next.tradeSeq));
    }
  }

  lemma {:induction false} ReportsKept(log: Log, order: Order, fills: seq<Fill>)
    requires |log.reports| <= MAX_REPORTS
    ensures ApplyFills(log, order, fills).reports ==
            Kept(MAX_REPORTS, log.reports + ReportsOf(order, fills, log.execSeq))
    decreases |fills|
  {
    if fills == [] {
      assert log.reports + [] == log.reports;
    } else {
      hide Wrap64, Counted, TradeOf, TakerReport, MakerReport, Kept;
      var next := ApplyFill(log, order, fills[0]);
      var r1, r2, rest := TakerReport(order, fills[0], log.execSeq), MakerReport(fills[0], Wrap64(log.execSeq + 1)),
                          ReportsOf(order, fills[1..], next.execSeq);
      TwoKept(log.reports, r1, r2);
      ReportsKept(next, order, fills[1..]);
      KeptStep(MAX_REPORTS, log.reports, [r1, r2], rest);
    }
  }

  lemma TwoKept(xs: seq<Report>, a: Report, b: Report)
    ensures Kept(MAX_REPORTS, Kept(MAX_REPORTS, xs + [a]) + [b]) == Kept(MAX_REPORTS, xs + [a, b])
    ensures |Kept(MAX_REPORTS, xs + [a, b])| <= MAX_REPORTS
  {
    KeptStep(MAX_REPORTS, xs, [a], [b]);
    assert [a] + [b] == [a, b];
  }

  /** Shares executed grow by exactly the traded quantity, and so on for the other counters. */
  lemma {:induction false} StatsOfFills(log: Log, order: Order, fills: seq<Fill>)
    ensures var after := ApplyFills(log, order, fills);
            && after.tradeSeq == Wrap64(log.tradeSeq + |fills|) && after.execSeq == Wrap64(log.execSeq + 2 * |fills|)
            && after.stats == log.stats.(tradesExecuted := Wrap64(log.stats.tradesExecuted + |fills|),
                                         sharesExecuted := Wrap64(log.stats.sharesExecuted + Matching.Traded(fills)),
                                         totalTradedVolume := Wrap64(log.stats.totalTradedVolume + Volume(fills)))
    decreases |fills|
  {
    hide Wrap64, Kept, TradeOf, TakerReport, MakerReport;
    if fills == [] {
      WrapNone(log);
    } else {
      var next := ApplyFill(log, order, fills[0]);
      StatsOfFills(next, order, fills[1..]);
      WrapAdd(log.stats.sharesExecuted + fills[0].qty, Matching.Traded(fills[1..]));
      WrapAdd(log.stats.totalTradedVolume + fills[0].qty * fills[0].price, Volume(fills[1..]));
      WrapAdd(log.stats.tradesExecuted + 1, |fills| - 1);
      WrapAdd(log.tradeSeq + 1, |fills| - 1);
      WrapAdd(log.execSeq + 2, 2 * (|fills| - 1));
    }
  }

  lemma WrapNone(log: Log)
    ensures Wrap64(log.tradeSeq) == log.tradeSeq && Wrap64(log.execSeq) == log.execSeq
    ensures Wrap64(log.stats.tradesExecuted) == log.stats.tradesExecuted
    ensures Wrap64(log.stats.sharesExecuted) == log.stats.sharesExecuted
    ensures Wrap64(log.stats.totalTradedVolume) == log.stats.totalTradedVolume
  {
  }
}
