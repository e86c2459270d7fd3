/** Which orders the risk checks refuse, in the plain terms of the order, the limits and the balances. */
module RiskLaws {
  import opened Domain
  import opened Bytes
  import opened RiskPipeline
  import Rates = RateLimits
  import Credits
  import CM = CreditManagers

  // ----- cost and credit

  /** The cost of an order is its value in whole units of a million. */
  lemma CostMeans(price: Price, qty: u64)
    requires 0 <= price * qty < TWO_64
    ensures var cost := Credits.Cost(price, qty); cost * 1000000 <= price * qty < (cost + 1) * 1000000
  {
  }

  /** No arithmetic of the credit check wraps: the value of the order and the day's exposure fit 64 bits. */
  ghost predicate CreditFits(a: Credits.Account, ctx: RiskContext) {
    0 <= ctx.price * ctx.qty < TWO_64 && a.daily + ctx.price * ctx.qty / 1000000 < TWO_64
  }

  /** The credit check passes exactly an order whose value is covered by the available power and keeps the
      day's exposure within its limit, if there is one. */
  lemma CreditMeans(s: RiskState, limits: RiskLimits, ctx: RiskContext)
    requires WellFormed(s) && CreditFits(s.accounts[ctx.accountId % 1024], ctx)
    ensures var a, cost := s.accounts[ctx.accountId % 1024], ctx.price * ctx.qty / 1000000;
            Passes(CreditLimit, s, limits, ctx) <==>
            cost <= a.available && (limits.maxDailyExposure == 0 || a.daily + cost <= limits.maxDailyExposure)
  {
    hide Rates.AllFormed;
    NoWrap(ctx.price * ctx.qty);
    NoWrap(s.accounts[ctx.accountId % 1024].daily + ctx.price * ctx.qty / 1000000);
  }

  lemma NoWrap(x: int)
    requires 0 <= x < TWO_64
    ensures Wrap64(x) == x
  {
  }

  /** An accepted order has the whole of its value, in units of a million, moved from available to reserved
      power of its account, and nobody else's money moves. */
  lemma ReservesValue(s: RiskState, limits: RiskLimits, ctx: RiskContext)
    requires WellFormed(s) && Checked(s, limits, ctx, 0).0 == 9 && 0 <= ctx.price * ctx.qty < TWO_64
    requires Credits.Total(s.accounts[ctx.accountId % 1024]) < TWO_64
    ensures var slot, cost, r := ctx.accountId % 1024, ctx.price * ctx.qty / 1000000, Validated(s, limits, ctx);
            var before, after := s.accounts[slot], r.accounts[slot];
            && after.available == before.available - cost && after.reserved == before.reserved + cost
            && after.used == before.used && after.daily == before.daily && r.positions == s.positions
            && (forall i :: 0 <= i < 1024 && i != slot ==> SameMoney(s.accounts[i], r.accounts[i]))
  {
    hide Checked, Rates.CheckRate, PositionAllows, Sized, Rates.AllFormed;
    NoWrap(ctx.price * ctx.qty);
    assert CM.Slot(ctx.accountId) == ctx.accountId % 1024;
    assert Credits.Cost(ctx.price, ctx.qty) == ctx.price * ctx.qty / 1000000;
    ChecksKeepBalances(s, limits, ctx, 0);
    hide Credits.Cost;
    AcceptedReserves(s, limits, ctx);
  }

  /** Accepting reserves what is available, or does nothing; cancelling releases what is reserved, or does
      nothing; filling uses the reservation first and then what is available, and counts as used and as
      the day's exposure. */
  lemma MoneyMeans(a: Credits.Account, cost: u64)
    requires a.available + a.reserved < TWO_64 && a.used + cost < TWO_64 && a.daily + cost < TWO_64
    ensures Credits.Accepted(a, cost) ==
            if cost <= a.available then a.(available := a.available - cost, reserved := a.reserved + cost) else a
    ensures Credits.Cancelled(a, cost) ==
            if cost <= a.reserved then a.(available := a.available + cost, reserved := a.reserved - cost) else a
    ensures var f := Credits.Filled(a, cost);
            && f.used == a.used + cost && f.daily == a.daily + cost && f.accountId == a.accountId
            && f.reserved == a.reserved - Min(cost, a.reserved)
            && (cost <= a.reserved + a.available ==> f.available == a.available - (cost - Min(cost, a.reserved)))
            && (cost > a.reserved + a.available ==> f.available == a.available)
  {
  }

  /** When the clock has gone back behind the oldest of the last acceptances, by less than 584 years, the rate
      check passes. */
  lemma ClockBack(t: Rates.Tracker, now: u64, limit: u32)
    requires Rates.WellFormed(t) && limit > 0 && t.count >= limit
    requires var oldest := t.timestamps[Rates.OldestSlot(t.index, limit)]; now < oldest <= now + TWO_64 - 1000000000
    ensures Rates.Check(t, now, limit).0
  {
  }

  // ----- positions

  /** The position the order would lead to fits 64 bits. */
  ghost predicate PositionFits(p: Position, ctx: RiskContext) {
    && ctx.qty < 0x8000_0000_0000_0000
    && -0x8000_0000_0000_0000 <= p.netQty - ctx.qty && p.netQty + ctx.qty < 0x8000_0000_0000_0000
  }

  lemma SignedIs(x: int)
    requires -0x8000_0000_0000_0000 <= x < 0x8000_0000_0000_0000
    ensures Signed(Wrap64(x)) == x
  {
    SignedWrap(x);
  }

  /** A position passes exactly when it is not long beyond the long limit nor short beyond the short limit,
      where a limit of zero is none. */
  ghost predicate Within(net: int, maxLong: u64, maxShort: u64) {
    (maxLong == 0 || net <= maxLong) && (maxShort == 0 || -net <= maxShort)
  }

  lemma PositionMeans(p: Position, ctx: RiskContext)
    requires PositionFits(p, ctx)
    ensures PositionAllows(p, ctx.side, ctx.qty) <==>
            Within(match ctx.side case Buy => p.netQty + ctx.qty case Sell => p.netQty - ctx.qty, p.maxLong, p.maxShort)
  {
    hide Signed, Wrap64;
    NoWrap(ctx.qty);
    SignedIs(ctx.qty);
    SignedIs(p.netQty + ctx.qty);
    SignedIs(p.netQty - ctx.qty);
  }

  // ----- slots

  /** Accounts below 1024 do not share a credit slot, and accounts below 128 with symbols below 32 no
      position. */
  lemma SlotsApart(a: u32, b: u32)
    requires a < b < 1024
    ensures CM.Slot(a) != CM.Slot(b)
  {
  }

  lemma PositionsApart(x: RiskContext, y: RiskContext)
    requires x.accountId < 128 && y.accountId < 128 && x.symbolId < 32 && y.symbolId < 32
    requires x.accountId != y.accountId || x.symbolId != y.symbolId
    ensures PositionSlot(x) != PositionSlot(y)
  {
    assert x.accountId % 128 == x.accountId && y.accountId % 128 == y.accountId;
    assert x.symbolId % 32 == x.symbolId && y.symbolId % 32 == y.symbolId;
  }

  // ----- the whole decision

  /** How many checks an order passes before one refuses it, told check by check. */
  ghost function FirstRefusal(s: RiskState, limits: RiskLimits, ctx: RiskContext): nat
    requires WellFormed(s)
  {
    var p, a := s.positions[PositionSlot(ctx)], s.accounts[ctx.accountId % 1024];
    var net := if ctx.side == Buy then p.netQty + ctx.qty else p.netQty - ctx.qty;
    var cost := ctx.price * ctx.qty / 1000000;
    if !ctx.killSwitchPasses then 0
    else if !ctx.circuitBreakerPasses then 1
    else if ctx.clientOrderId != 0 && s.seen[ctx.clientOrderId % 4096] == ctx.clientOrderId then 2
    else if !Rates.CheckRate(s.trackers, Rates.Call(ctx.accountId, ctx.timestamp, limits.maxOrdersPerSec)).0 then 3
    else if 0 < limits.maxOrderQty < ctx.qty || 0 < limits.maxOrderPrice < ctx.price then 4
    else if !ctx.priceBandPasses then 5
    else if !ctx.selfTradePasses then 6
    else if (0 < p.maxLong && net > p.maxLong) || (0 < p.maxShort && -net > p.maxShort) then 7
    else if cost > a.available || 0 < limits.maxDailyExposure < a.daily + cost then 8
    else 9
  }

  lemma StageMeans(s: RiskState, limits: RiskLimits, ctx: RiskContext)
    requires WellFormed(s) && PositionFits(s.positions[PositionSlot(ctx)], ctx)
    requires CreditFits(s.accounts[ctx.accountId % 1024], ctx)
    ensures var k := FirstRefusal(s, limits, ctx);
            && (forall j :: 0 <= j < k ==> Passes(STAGES[j], s, limits, ctx))
            && (k < 9 ==> !Passes(STAGES[k], s, limits, ctx))
  {
    hide Rates.CheckRate, Rates.AllFormed, PositionAllows, Credits.Cost, Credits.Affordable;
    PositionMeans(s.positions[PositionSlot(ctx)], ctx);
    CreditMeans(s, limits, ctx);
  }

  /** The pipeline passes exactly the checks before the first that refuses, in this order, and gives the
      reason that belongs to it. */
  lemma DecisionMeans(s: RiskState, limits: RiskLimits, ctx: RiskContext)
    requires WellFormed(s) && PositionFits(s.positions[PositionSlot(ctx)], ctx)
    requires CreditFits(s.accounts[ctx.accountId % 1024], ctx)
    ensures var k := Checked(s, limits, ctx, 0).0;
            && k == FirstRefusal(s, limits, ctx)
            && (k < 9 ==> ReasonOf(STAGES[k]) ==
                          if k == 2 then DuplicateOrder else if k == 4 then InvalidQuantity
                          else if k == 5 then InvalidPrice else RiskLimitExceeded)
  {
    hide Passes, Checked, FirstRefusal;
    StageMeans(s, limits, ctx);
    FirstFailing(s, limits, ctx, 0);
    CheckedBound(s, limits, ctx);
    RefusalBound(s, limits, ctx);
  }

  lemma RefusalBound(s: RiskState, limits: RiskLimits, ctx: RiskContext)
    requires WellFormed(s)
    ensures FirstRefusal(s, limits, ctx) <= 9
  {
  }

  // ----- what the checks leave behind

  lemma {:induction false} TrackersStay(s: RiskState, limits: RiskLimits, ctx: RiskContext, i: nat)
    requires WellFormed(s) && 4 <= i <= 9
    ensures Checked(s, limits, ctx, i).1.trackers == s.trackers && Checked(s, limits, ctx, i).1.seen == s.seen
    decreases 9 - i
  {
    hide Passes, Rates.CheckRate;
    if i < 9 {
      StagesDistinct(2, i);
      StagesDistinct(3, i);
      TrackersStay(Ran(STAGES[i], s, limits, ctx), limits, ctx, i + 1);
    }
  }

  /** A validation leaves the client order id remembered if the duplicate check was reached, and the message
      recorded as the rate check does if that was; positions do not move. */
  lemma StateMeans(s: RiskState, limits: RiskLimits, ctx: RiskContext)
    requires WellFormed(s)
    ensures var k, r := Checked(s, limits, ctx, 0).0, Validated(s, limits, ctx);
            && r.seen == (if k >= 2 && ctx.clientOrderId != 0 then s.seen[ctx.clientOrderId % 4096 := ctx.clientOrderId]
                          else s.seen)
            && r.trackers == (if k >= 3
                              then Rates.CheckRate(s.trackers,
                                                   Rates.Call(ctx.accountId, ctx.timestamp, limits.maxOrdersPerSec)).1
                              else s.trackers)
            && r.positions == s.positions
  {
    hide Passes, Rates.CheckRate, Credits.Cost, Credits.Accepted;
    var s1 := Ran(DuplicateCheck, s, limits, ctx);
    var s2 := Ran(RateLimit, s1, limits, ctx);
    TrackersStay(s2, limits, ctx, 4);
    assert Ran(KillSwitch, s, limits, ctx) == s && Ran(CircuitBreaker, s, limits, ctx) == s;
    if Passes(KillSwitch, s, limits, ctx) {
      assert Checked(s, limits, ctx, 0) == Checked(s, limits, ctx, 1);
      if Passes(CircuitBreaker, s, limits, ctx) {
        assert Checked(s, limits, ctx, 1) == Checked(s, limits, ctx, 2);
        if Passes(DuplicateCheck, s, limits, ctx) {
          assert Checked(s, limits, ctx, 2) == Checked(s1, limits, ctx, 3);
          if Passes(RateLimit, s1, limits, ctx) {
            assert Checked(s1, limits, ctx, 3) == Checked(s2, limits, ctx, 4);
          }
        }
      }
    }
    ChecksKeepBalances(s, limits, ctx, 0);
  }

  /** A named account slot keeps its name; an unnamed one takes the name of the account that asks. */
  lemma LabelMeans(a: Credits.Account, accountId: u32)
    ensures var b := CM.Labelled(a, accountId);
            && b.accountId == (if a.accountId != 0 then a.accountId else accountId) && SameMoney(a, b)
  {
  }
}
