/** The matching engine over the linked book. */
module MatchingEngines {
  import opened Domain
  import opened BookSpec
  import opened BookOps
  import opened Links
  import opened BookRep
  import opened SideRep
  import opened BookSides
  import opened OrderBooks
  import opened Matching
  import opened EngineLog
  import opened EngineSpec

  class ExecutionContext {
    var trades: seq<Trade>
    var reports: seq<Report>

    constructor ()
      ensures trades == [] && reports == []
    {
      trades, reports := [], [];
    }

    method AddTrade(t: Trade)
      requires |trades| <= MAX_TRADES
      modifies `trades
      ensures trades == Kept(MAX_TRADES, old(trades) + [t])
    {
      if |trades| >= MAX_TRADES {
        return;
      }
      trades := trades + [t];
    }

    method AddReport(r: Report)
      requires |reports| <= MAX_REPORTS
      modifies `reports
      ensures reports == Kept(MAX_REPORTS, old(reports) + [r])
    {
      if |reports| >= MAX_REPORTS {
        return;
      }
      reports := reports + [r];
    }
  }

  class MatchingEngine {
    const book: LimitOrderBook
    var tradeSeq: u64
    var execSeq: u64
    var stats: Stats

    constructor ()
      ensures book.Valid() && book.Abs() == EMPTY && tradeSeq == 1 && execSeq == 1 && stats == NO_STATS
    {
      book := new LimitOrderBook();
      tradeSeq, execSeq, stats := 1, 1, NO_STATS;
    }

    ghost predicate Ready(ctx: ExecutionContext)
      reads this, ctx, book, book.bids, book.asks, book.levelPool, book.orderPool
    {
      && book.Valid() && Uncrossed(book.Abs())
      && |ctx.trades| <= MAX_TRADES && |ctx.reports| <= MAX_REPORTS
    }

    ghost function LogWith(ctx: ExecutionContext): Log
      reads this, ctx
    {
      Log(ctx.trades, ctx.reports, tradeSeq, execSeq, stats)
    }

    /** `TradeBuilder::build_match` and the counters of one match. */
    method RecordFill(order: Order, f: Fill, ctx: ExecutionContext)
      requires |ctx.trades| <= MAX_TRADES && |ctx.reports| <= MAX_REPORTS
      modifies this, ctx
      ensures LogWith(ctx) == ApplyFill(old(LogWith(ctx)), order, f)
      ensures |ctx.trades| <= MAX_TRADES && |ctx.reports| <= MAX_REPORTS
    {
      hide Wrap64, Counted, TradeOf, TakerReport, MakerReport;
      WrapAdd(execSeq + 1, 1);
      var takerSeq := execSeq;
      execSeq := Wrap64(execSeq + 1);
      var makerSeq := execSeq;
      execSeq := Wrap64(execSeq + 1);
      ctx.AddTrade(TradeOf(order, f, tradeSeq));
      ctx.AddReport(TakerReport(order, f, takerSeq));
      ctx.AddReport(MakerReport(f, makerSeq));
      tradeSeq := Wrap64(tradeSeq + 1);
      stats := Counted(stats, f);
    }

    /** One pass of the inner loop: match the head of the best opposite level. `next` is read off the
        resting node before the fill, and is the new head whenever the loop goes round again. */
    method MatchOne(order: Order, s: BookSide, level: nat, resting: nat, left: u64, ctx: ExecutionContext)
      returns (left': u64, next: int)
      requires Ready(ctx) && left > 0 && s == OppositeSide(order.side)
      requires book.HeadAt(s, level, resting)
      modifies this, ctx, book, book.bids, book.asks, book.levelPool, book.orderPool
      ensures Ready(ctx)
      ensures OneFill(order, old(book.Abs()), old(LogWith(ctx)), left, book.Abs(), LogWith(ctx), left')
      ensures left' > 0 && next != NULL ==> next >= 0 && book.HeadAt(s, level, next)
      ensures left' > 0 && next != NULL && old(FrontCrosses(order, book.Abs())) ==> FrontCrosses(order, book.Abs())
    {
      hide Sides, PoolOk, LookupOk, NoEmptyQueue, Uncrossed, ApplyFill, RestsAt, OnSide, NoSharedPrice, FrontIs,
        Sorted, NonEmptyQueues, RestingOf,
        LimitOrderBook.SideAbs;
      book.Front(s);
      UncrossedUnshared(book.Abs());
      ghost var before, log := book.Abs(), LogWith(ctx);
      FrontFacts(book.orderPool.storage, book.levelPool.storage, s.best, book.home, book.lookup, book.SideAbs(s));
      next := book.orderPool.storage[resting].next;
      var maker := book.orderPool.storage[resting].item;
      FrontItem(maker, RestingOf(maker));
      var f := FillOf(book.levelPool.storage[level].item.price, RestingOf(maker), left);
      RecordFill(order, f, ctx);
      book.FillFront(s, level, resting, f.qty, next);
      left' := f.takerLeft;
      OneFillKeeps(order, before, log, left, book.Abs(), LogWith(ctx), left');
    }

    function OppositeSide(side: Side): BookSide {
      if side == Buy then book.asks else book.bids
    }

    /** The inner loop: match the queue of the best level from its head. */
    method MatchLevel(order: Order, s: BookSide, level: nat, left: u64, ctx: ExecutionContext) returns (left': u64)
      requires Ready(ctx) && left > 0 && s == OppositeSide(order.side) && level == s.best &&
               FrontCrosses(order, book.Abs())
      modifies this, ctx, book, book.bids, book.asks, book.levelPool, book.orderPool
      ensures Ready(ctx)
      ensures SameSweep(order, old(book.Abs()), old(LogWith(ctx)), left, book.Abs(), LogWith(ctx), left')
      ensures Work(order, book.Abs()) < old(Work(order, book.Abs())) ||
              (Work(order, book.Abs()) == old(Work(order, book.Abs())) && left' < left)
    {
      hide Sides, PoolOk, LookupOk, NoEmptyQueue, Uncrossed, SameSweep, OneFill, FrontIs, RestsAt, OnSide, Sorted,
        NonEmptyQueues, RestingOf;
      book.Front(s);
      FrontFacts(book.orderPool.storage, book.levelPool.storage, s.best, book.home, book.lookup, book.SideAbs(s));
      ghost var before, log := book.Abs(), LogWith(ctx);
      SameSweepRefl(order, before, log, left);
      var resting := book.levelPool.storage[level].item.head;
      left' := left;
      ghost var begun := false;
      while resting != NULL && left' > 0
        invariant Ready(ctx)
        invariant SameSweep(order, before, log, left, book.Abs(), LogWith(ctx), left')
        invariant resting != NULL && left' > 0 ==>
                  resting >= 0 && book.HeadAt(s, level, resting) && FrontCrosses(order, book.Abs())
        invariant !begun ==> left' == left && Work(order, book.Abs()) == Work(order, before) && resting != NULL
        invariant begun ==>
                    || Work(order, book.Abs()) < Work(order, before)
                    || (Work(order, book.Abs()) == Work(order, before) && left' < left)
        decreases Work(order, book.Abs()), left'
      {
        ghost var mid, midLog, midLeft := book.Abs(), LogWith(ctx), left';
        left', resting := MatchOne(order, s, level, resting, left', ctx);
        OneFillSweeps(order, mid, midLog, midLeft, book.Abs(), LogWith(ctx), left');
        SameSweepTrans(order, before, log, left, mid, midLog, midLeft, book.Abs(), LogWith(ctx), left');
        begun := true;
      }
    }

    /** The sweep: while the order has quantity left, match the best opposite level if it crosses. */
    method SweepSide(order: Order, ctx: ExecutionContext) returns (left: u64)
      requires Ready(ctx)
      modifies this, ctx, book, book.bids, book.asks, book.levelPool, book.orderPool
      ensures Ready(ctx)
      ensures left == Sweep(old(book.Abs()), order).left
      ensures book.Abs() == old(book.Abs()).With(order.side.Opposite(), Sweep(old(book.Abs()), order).levels)
      ensures LogWith(ctx) == ApplyFills(old(LogWith(ctx)), order, Sweep(old(book.Abs()), order).fills)
    {
      hide Sides, PoolOk, LookupOk, NoEmptyQueue, Uncrossed, SameSweep, OneFill, FrontIs, RestsAt, OnSide, Sorted,
        NonEmptyQueues, RestingOf;
      ghost var before, log := book.Abs(), LogWith(ctx);
      var s := OppositeSide(order.side);
      left := order.qty;
      SameSweepRefl(order, before, log, left);
      while left > 0 && s.best != NULL
        invariant Ready(ctx)
        invariant SameSweep(order, before, log, order.qty, book.Abs(), LogWith(ctx), left)
        decreases Work(order, book.Abs()), left
      {
        var level := s.best;
        book.Front(s);
        FrontFacts(book.orderPool.storage, book.levelPool.storage, s.best, book.home, book.lookup, book.SideAbs(s));
        var price := book.levelPool.storage[level].item.price;
        if order.orderType == Limit && (if order.side == Buy then order.price < price else order.price > price) {
          break;
        }
        ghost var mid, midLog, midLeft := book.Abs(), LogWith(ctx), left;
        left := MatchLevel(order, s, level, left, ctx);
        SameSweepTrans(order, before, log, order.qty, mid, midLog, midLeft, book.Abs(), LogWith(ctx), left);
      }
      book.Front(s);
      if s.best != NULL {
        FrontFacts(book.orderPool.storage, book.levelPool.storage, s.best, book.home, book.lookup, book.SideAbs(s));
      }
      SweepDone(order, before, log, book.Abs(), LogWith(ctx), left);
    }

    lemma BookFormed(ctx: ExecutionContext)
      requires Ready(ctx)
      ensures WellFormed(book.Abs())
    {
      hide Sides, PoolOk, LookupOk, NoEmptyQueue, Uncrossed, FrontIs, RestsAt, OnSide, Sorted, NonEmptyQueues;
      book.Front(book.bids);
      book.Front(book.asks);
    }

    /** Rest `order` as given, at its original quantity. */
    method RestOrder(order: Order, ctx: ExecutionContext)
      requires Ready(ctx) && Insertable(book.Abs(), order) && WellFormed(InsertSpec(book.Abs(), order, order.seqNum))
      modifies book, book.bids, book.asks, book.levelPool, book.orderPool
      ensures Ready(ctx) && book.Abs() == InsertSpec(old(book.Abs()), order, order.seqNum)
    {
      hide Sides, LookupOk, NoEmptyQueue, Uncrossed, OnSide, PriceOn, Sorted, NonEmptyQueues, InsertSpec;
      book.Accounts();
      var p := book.Insert(order, order.seqNum);
    }

    /** Submit an order: acknowledge, sweep, then rest or expire what is left. */
    method SubmitOrder(order: Order, ctx: ExecutionContext) returns (status: MatchingStatus)
      requires Ready(ctx)
      requires Rests(book.Abs(), order) ==> Insertable(Matched(book.Abs(), order), order)
      modifies this, ctx, book, book.bids, book.asks, book.levelPool, book.orderPool
      ensures Ready(ctx)
      ensures book.Abs() == SubmitSpec(old(book.Abs()), order)
      ensures LogWith(ctx) == SubmitLog(old(book.Abs()), old(LogWith(ctx)), order)
      ensures status == SubmitStatus(old(book.Abs()), order)
    {
      hide Sides, PoolOk, LookupOk, NoEmptyQueue, Uncrossed, WellFormed, Insertable, InsertSpec, Match, ApplyFills,
        Wrap64;
      ghost var before := book.Abs();
      BookFormed(ctx);
      SubmitKeeps(before, order);
      stats := stats.(ordersReceived := Wrap64(stats.ordersReceived + 1));
      status := MatchingStatus.Success;
      ctx.AddReport(Report(execSeq, order.orderId, order.symbolId, order.price, 0, order.qty, New));
      execSeq := Wrap64(execSeq + 1);
      var left := SweepSide(order, ctx);
      if left > 0 {
        if order.orderType == Limit {
          RestOrder(order, ctx);
          status := if left == order.qty then MatchingStatus.Success else PartiallyFilled;
        } else if order.orderType == Market {
          ctx.AddReport(Report(execSeq, order.orderId, order.symbolId, order.price, 0, 0, Cancelled));
          execSeq := Wrap64(execSeq + 1);
          status := ExpiredRest;
        }
      } else {
        status := Filled;
        stats := stats.(ordersMatched := Wrap64(stats.ordersMatched + 1));
      }
    }

    /** Cancel a resting order by id. */
    method CancelOrder(id: u64, symbolId: u32, ctx: ExecutionContext) returns (found: bool)
      requires Ready(ctx)
      modifies this, ctx, book, book.bids, book.asks, book.levelPool, book.orderPool
      ensures Ready(ctx)
      ensures found == (OnSide(old(book.Abs()).bids, id) || OnSide(old(book.Abs()).asks, id))
      ensures book.Abs() == CancelSpec(old(book.Abs()), id)
      ensures LogWith(ctx).stats ==
              old(stats).(ordersRejected := if found then old(stats).ordersRejected
                          else Wrap64(old(stats).ordersRejected + 1),
                                                ordersCancelled := if found then Wrap64(old(stats).ordersCancelled + 1)
                                                else old(stats).ordersCancelled)
      ensures !found ==> ctx.reports == old(ctx.reports) && execSeq == old(execSeq)
      ensures found ==> execSeq == Wrap64(old(execSeq) + 1)
      ensures found ==> exists price ::
                && RestsAtPrice(old(book.Abs()), id, price)
                && ctx.reports == Kept(MAX_REPORTS, old(ctx.reports) +
                                       [Report(old(execSeq), id, symbolId, price, 0, 0, Cancelled)])
      ensures ctx.trades == old(ctx.trades) && tradeSeq == old(tradeSeq)
    {
      hide Sides, PoolOk, NoEmptyQueue, Uncrossed, WellFormed, CancelSpec, OnSide, QuotedAt, Wrap64, LookupOk,
        NoSharedPrice;
      BookFormed(ctx);
      book.Known(id);
      CancelKeeps(book.Abs(), id);
      UncrossedUnshared(book.Abs());
      if id !in book.lookup {
        Absent(book.Abs(), id);
        stats := stats.(ordersRejected := Wrap64(stats.ordersRejected + 1));
        return false;
      }
      book.KnownPrice(id);
      var price := book.orderPool.storage[book.lookup[id]].item.price;
      ctx.AddReport(Report(execSeq, id, symbolId, price, 0, 0, Cancelled));
      execSeq := Wrap64(execSeq + 1);
      found := book.Cancel(id);
      FormOf(book.Abs(), Buy);
      stats := stats.(ordersCancelled := Wrap64(stats.ordersCancelled + 1));
    }

    /** Change a resting order's quantity; `clock` is the priority the engine reads off its clock. */
    method ModifyOrder(id: u64, qty: u64, clock: u64, ctx: ExecutionContext) returns (found: bool)
      requires Ready(ctx)
      modifies book, book.bids, book.asks, book.levelPool, book.orderPool
      ensures Ready(ctx)
      ensures found == (OnSide(old(book.Abs()).bids, id) || OnSide(old(book.Abs()).asks, id))
      ensures book.Abs() == ModifySpec(old(book.Abs()), id, qty, clock)
    {
      hide Sides, PoolOk, LookupOk, NoEmptyQueue, Uncrossed, WellFormed, ModifySpec, OnSide, NoSharedPrice;
      BookFormed(ctx);
      book.Known(id);
      ModifyKeeps(book.Abs(), id, qty, clock);
      UncrossedUnshared(book.Abs());
      found := book.ModifyQty(id, qty, clock);
      FormOf(book.Abs(), Buy);
    }

    /** Back to an empty book and fresh counters. */
    method Reset()
      requires book.Valid()
      modifies this, book, book.bids, book.asks, book.levelPool, book.orderPool
      ensures book.Valid() && book.Abs() == EMPTY && tradeSeq == 1 && execSeq == 1 && stats == NO_STATS
    {
      tradeSeq, execSeq := 1, 1;
      book.Clear();
      stats := NO_STATS;
    }
  }

  lemma Absent(book: Book, id: u64)
    requires !OnSide(book.bids, id) && !OnSide(book.asks, id)
    ensures CancelSpec(book, id) == book
  {
  }
}
