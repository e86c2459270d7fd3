/** The pre-trade pipeline: nine checks in order, stopping at the first that fails. */
module RiskPipeline {
  import opened Domain
  import opened Bytes
  import Rates = RateLimits
  import Credits
  import CM = CreditManagers

  datatype Stage =
    KillSwitch | CircuitBreaker | DuplicateCheck | RateLimit | FatFinger | PriceBand | SelfTrade | PositionLimit
    | CreditLimit

  const STAGES: seq<Stage> :=
    [KillSwitch, CircuitBreaker, DuplicateCheck, RateLimit, FatFinger, PriceBand, SelfTrade, PositionLimit, CreditLimit]

  datatype RejectReason = RiskLimitExceeded | DuplicateOrder | InvalidQuantity | InvalidPrice

  function ReasonOf(stage: Stage): RejectReason {
    match stage
    case DuplicateCheck => DuplicateOrder
    case FatFinger => InvalidQuantity
    case PriceBand => InvalidPrice
    case _ => RiskLimitExceeded
  }

  const SEEN_SLOTS: nat := 4096
  const POSITION_ACCOUNTS: nat := 128
  const POSITION_SYMBOLS: nat := 32

  /** An order up for validation, with the outcome of the checks that read only global switches, the
      price band or nothing at all. */
  datatype RiskContext = RiskContext(price: Price, qty: u64, timestamp: u64, clientOrderId: u64, symbolId: u32,
                                     accountId: u32, side: Side,
                                     killSwitchPasses: bool, circuitBreakerPasses: bool, priceBandPasses: bool,
                                       selfTradePasses: bool)

  datatype RiskLimits = RiskLimits(maxDailyExposure: u64, maxOrderQty: u64, maxOrderPrice: i64, maxOrdersPerSec: u32)

  datatype Position = Position(netQty: i64, maxLong: u64, maxShort: u64)

  /** What the checks read and change. */
  datatype RiskState = RiskState(seen: seq<u64>, trackers: seq<Rates.Tracker>, positions: seq<Position>,
                                 accounts: seq<Credits.Account>)

  ghost predicate WellFormed(s: RiskState) {
    && |s.seen| == SEEN_SLOTS && Rates.AllFormed(s.trackers)
    && |s.positions| == POSITION_ACCOUNTS * POSITION_SYMBOLS && |s.accounts| == Credits.MAX_ACCOUNTS
  }

  function PositionSlot(ctx: RiskContext): (r: nat)
    ensures r < POSITION_ACCOUNTS * POSITION_SYMBOLS
  {
    (ctx.accountId % POSITION_ACCOUNTS) * POSITION_SYMBOLS + ctx.symbolId % POSITION_SYMBOLS
  }

  /** The position the order would lead to, from the filled quantity alone. */
  function NextNet(p: Position, side: Side, qty: u64): i64 {
    var trade := Signed(qty);
    Signed(Wrap64(if side == Buy then p.netQty + trade else p.netQty - trade))
  }

  predicate PositionAllows(p: Position, side: Side, qty: u64) {
    var next: int := NextNet(p, side, qty);
    && !(next > 0 && p.maxLong > 0 && next > p.maxLong)
    && !(next < 0 && p.maxShort > 0 && -next > p.maxShort)
  }

  predicate Sized(limits: RiskLimits, ctx: RiskContext) {
    && !(limits.maxOrderQty > 0 && ctx.qty > limits.maxOrderQty)
    && !(limits.maxOrderPrice > 0 && ctx.price > limits.maxOrderPrice)
  }

  function CallOf(limits: RiskLimits, ctx: RiskContext): Rates.Call {
    Rates.Call(ctx.accountId, ctx.timestamp, limits.maxOrdersPerSec)
  }

  /** Whether the order passes one check. */
  predicate Passes(stage: Stage, s: RiskState, limits: RiskLimits, ctx: RiskContext)
    requires WellFormed(s)
  {
    match stage
    case KillSwitch => ctx.killSwitchPasses
    case CircuitBreaker => ctx.circuitBreakerPasses
    case DuplicateCheck => ctx.clientOrderId == 0 || s.seen[ctx.clientOrderId % SEEN_SLOTS] != ctx.clientOrderId
    case RateLimit => Rates.CheckRate(s.trackers, CallOf(limits, ctx)).0
    case FatFinger => Sized(limits, ctx)
    case PriceBand => ctx.priceBandPasses
    case SelfTrade => ctx.selfTradePasses
    case PositionLimit => PositionAllows(s.positions[PositionSlot(ctx)], ctx.side, ctx.qty)
    case CreditLimit => Credits.Affordable(Credits.Cost(ctx.price, ctx.qty), limits.maxDailyExposure,
                                           s.accounts[CM.Slot(ctx.accountId)])
  }

  /** What running one check changes: the duplicate check remembers the id, the rate check records the
      message, and the credit check may name an unnamed account slot. */
  function Ran(stage: Stage, s: RiskState, limits: RiskLimits, ctx: RiskContext): (r: RiskState)
    requires WellFormed(s)
    ensures WellFormed(r)
  {
    match stage
    case DuplicateCheck =>
      if ctx.clientOrderId == 0 then s else s.(seen := s.seen[ctx.clientOrderId % SEEN_SLOTS := ctx.clientOrderId])
    case RateLimit => s.(trackers := Rates.CheckRate(s.trackers, CallOf(limits, ctx)).1)
    case CreditLimit =>
      var slot := CM.Slot(ctx.accountId);
      s.(accounts := s.accounts[slot := CM.Labelled(s.accounts[slot], ctx.accountId)])
    case _ => s
  }

  /** The checks from stage `i` on: how many stages passed in all, and the state they leave. */
  function Checked(s: RiskState, limits: RiskLimits, ctx: RiskContext, i: nat): (r: (nat, RiskState))
    requires WellFormed(s) && i <= |STAGES|
    ensures i <= r.0 <= |STAGES| && WellFormed(r.1)
    decreases |STAGES| - i
  {
    if i == |STAGES| then (i, s)
    else
      var after := Ran(STAGES[i], s, limits, ctx);
      if Passes(STAGES[i], s, limits, ctx) then Checked(after, limits, ctx, i + 1) else (i, after)
  }

  /** The pipeline and, after it, the reservation. */
  function Validated(s: RiskState, limits: RiskLimits, ctx: RiskContext): (r: RiskState)
    requires WellFormed(s)
    ensures WellFormed(r)
  {
    var checked := Checked(s, limits, ctx, 0);
    if checked.0 < |STAGES| then checked.1
    else
      var slot := CM.Slot(ctx.accountId);
      var account := CM.Labelled(checked.1.accounts[slot], ctx.accountId);
      checked.1.(accounts := checked.1.accounts[slot := Credits.Accepted(account, Credits.Cost(ctx.price, ctx.qty))])
  }

  // ----- what the pipeline decides

  lemma Independent(stage: Stage, other: Stage, s: RiskState, limits: RiskLimits, ctx: RiskContext)
    requires WellFormed(s) && stage != other
    ensures Passes(other, Ran(stage, s, limits, ctx), limits, ctx) == Passes(other, s, limits, ctx)
  {
    hide Rates.CheckRate, PositionAllows, Sized;
  }

  lemma StagesDistinct(i: nat, j: nat)
    requires i < j < |STAGES|
    ensures STAGES[i] != STAGES[j]
  {
  }

  /** The first failing check is the first that fails on the state as it was. */
  lemma {:induction false} FirstFailing(s: RiskState, limits: RiskLimits, ctx: RiskContext, i: nat)
    requires WellFormed(s) && i <= |STAGES|
    ensures var k := Checked(s, limits, ctx, i).0;
            && (forall j :: i <= j < k ==> Passes(STAGES[j], s, limits, ctx))
            && (k < |STAGES| ==> !Passes(STAGES[k], s, limits, ctx))
    decreases |STAGES| - i
  {
    hide Passes, Ran, WellFormed;
    if i < |STAGES| && Passes(STAGES[i], s, limits, ctx) {
      var after := Ran(STAGES[i], s, limits, ctx);
      RanFormed(STAGES[i], s, limits, ctx);
      FirstFailing(after, limits, ctx, i + 1);
      forall j | i < j < |STAGES|
        ensures Passes(STAGES[j], after, limits, ctx) == Passes(STAGES[j], s, limits, ctx)
      {
        StagesDistinct(i, j);
        Independent(STAGES[i], STAGES[j], s, limits, ctx);
      }
    }
  }

  lemma RanFormed(stage: Stage, s: RiskState, limits: RiskLimits, ctx: RiskContext)
    requires WellFormed(s)
    ensures WellFormed(Ran(stage, s, limits, ctx))
  {
  }

  /** An order is accepted exactly when it passes all nine checks as things stood before it. */
  lemma AcceptedIff(s: RiskState, limits: RiskLimits, ctx: RiskContext)
    requires WellFormed(s)
    ensures Checked(s, limits, ctx, 0).0 == |STAGES| <==> forall j :: 0 <= j < |STAGES| ==>
            Passes(STAGES[j], s, limits, ctx)
  {
    hide Passes, Checked;
    CheckedBound(s, limits, ctx);
    FirstFailing(s, limits, ctx, 0);
  }

  lemma CheckedBound(s: RiskState, limits: RiskLimits, ctx: RiskContext)
    requires WellFormed(s)
    ensures 0 <= Checked(s, limits, ctx, 0).0 <= |STAGES|
  {
  }

  ghost predicate SameMoney(a: Credits.Account, b: Credits.Account) {
    a.available == b.available && a.used == b.used && a.reserved == b.reserved && a.daily == b.daily
  }

  ghost predicate SameBalances(s: RiskState, r: RiskState) {
    && |s.accounts| == |r.accounts| && s.positions == r.positions
    && (forall i :: 0 <= i < |s.accounts| ==> SameMoney(s.accounts[i], r.accounts[i]))
  }

  lemma {:induction false} ChecksKeepBalances(s: RiskState, limits: RiskLimits, ctx: RiskContext, i: nat)
    requires WellFormed(s) && i <= |STAGES|
    ensures SameBalances(s, Checked(s, limits, ctx, i).1)
    decreases |STAGES| - i
  {
    hide Passes, Rates.CheckRate;
    if i < |STAGES| {
      var after := Ran(STAGES[i], s, limits, ctx);
      ChecksKeepBalances(after, limits, ctx, i + 1);
    }
  }

  /** A rejected order leaves every account's money and every position as they were. */
  lemma RejectedKeeps(s: RiskState, limits: RiskLimits, ctx: RiskContext)
    requires WellFormed(s) && Checked(s, limits, ctx, 0).0 < |STAGES|
    ensures SameBalances(s, Validated(s, limits, ctx))
  {
    hide Checked, SameBalances;
    ChecksKeepBalances(s, limits, ctx, 0);
  }

  lemma CostIs(ctx: RiskContext)
    ensures Credits.Cost(ctx.price, ctx.qty) == Wrap64(ctx.price * ctx.qty) / 1000000
  {
  }

  /** An accepted order gets its full cost reserved out of what was available, and the account's total
      and everyone else's money and all positions stay as they were. */
  lemma AcceptedReserves(s: RiskState, limits: RiskLimits, ctx: RiskContext)
    requires WellFormed(s) && Checked(s, limits, ctx, 0).0 == |STAGES|
    requires Credits.Total(s.accounts[CM.Slot(ctx.accountId)]) < TWO_64
    ensures var slot, cost, r := ctx.accountId % 1024, Wrap64(ctx.price * ctx.qty) / 1000000, Validated(s, limits, ctx);
            var before, after := s.accounts[slot], r.accounts[slot];
            && after.available == before.available - cost && after.reserved == before.reserved + cost
            && after.used == before.used && Credits.Total(after) == Credits.Total(before)
            && r.positions == s.positions
            && (forall i :: 0 <= i < |s.accounts| && i != slot ==> SameMoney(s.accounts[i], r.accounts[i]))
  {
    hide Checked, Rates.CheckRate, PositionAllows, Sized, Credits.Cost;
    CostIs(ctx);
    ChecksKeepBalances(s, limits, ctx, 0);
    FirstFailing(s, limits, ctx, 0);
    assert Passes(STAGES[8], s, limits, ctx);
  }

  /** A rejected order is not forgotten: once past the duplicate check, the same client order id is a
      duplicate from then on. */
  lemma {:induction false} RejectedIsSeen(s: RiskState, limits: RiskLimits, ctx: RiskContext)
    requires WellFormed(s) && ctx.clientOrderId != 0 && 2 < Checked(s, limits, ctx, 0).0 < |STAGES|
    ensures !Passes(DuplicateCheck, Validated(s, limits, ctx), limits, ctx)
  {
    hide Rates.CheckRate, PositionAllows, Sized, Credits.Cost;
    SeenStays(Ran(DuplicateCheck, s, limits, ctx), limits, ctx, 3);
    assert Ran(KillSwitch, s, limits, ctx) == s && Ran(CircuitBreaker, s, limits, ctx) == s;
    assert Checked(s, limits, ctx, 1) == Checked(s, limits, ctx, 0);
    assert Checked(s, limits, ctx, 2) == Checked(s, limits, ctx, 1);
    assert Checked(s, limits, ctx, 2) == Checked(Ran(DuplicateCheck, s, limits, ctx), limits, ctx, 3);
  }

  lemma {:induction false} SeenStays(s: RiskState, limits: RiskLimits, ctx: RiskContext, i: nat)
    requires WellFormed(s) && 3 <= i <= |STAGES|
    ensures Checked(s, limits, ctx, i).1.seen == s.seen
    decreases |STAGES| - i
  {
    hide Passes, Rates.CheckRate;
    if i < |STAGES| {
      StagesDistinct(2, i);
      SeenStays(Ran(STAGES[i], s, limits, ctx), limits, ctx, i + 1);
    }
  }
}
