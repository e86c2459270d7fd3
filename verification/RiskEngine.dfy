/** The risk engine: the pipeline run on the managers it owns, the trace, the reservation and the
    statistics. */
module RiskEngines {
  import opened Domain
  import opened RiskPipeline
  import Rates = RateLimits
  import RV = RateLimitValidators
  import Credits
  import CM = CreditManagers

  datatype Entry = Entry(stage: Stage, passed: bool)

  /** The trace of a run that passed `k` stages. */
  ghost function TraceOf(k: nat): seq<Entry>
    requires k <= |STAGES|
  {
    seq(if k < |STAGES| then k + 1 else k, i requires 0 <= i < |STAGES| => Entry(STAGES[i], i < k))
  }

  datatype Statistics = Statistics(accepted: nat, rejected: nat, rejects: map<Stage, nat>)

  function RejectsAt(st: Statistics, stage: Stage): nat {
    if stage in st.rejects then st.rejects[stage] else 0
  }

  function CountReject(st: Statistics, stage: Stage): Statistics {
    st.(rejected := st.rejected + 1, rejects := st.rejects[stage := RejectsAt(st, stage) + 1])
  }

  class RiskEngine {
    const credit: CM.CreditManager
    const rates: RV.RateLimitValidator
    const seen: array<u64>
    var positions: seq<Position>
    var limits: RiskLimits
    var stats: Statistics

    ghost function Repr(): set<object> {
      {this, credit.accounts, rates.trackers, seen}
    }

    ghost predicate Valid()
      reads Repr()
    {
      credit.Valid() && RiskPipeline.WellFormed(State()) && SumRejects(stats, 0) == stats.rejected
    }

    ghost function State(): RiskState
      reads Repr()
    {
      RiskState(seen[..], rates.trackers[..], positions, credit.accounts[..])
    }

    constructor ()
      ensures Valid() && fresh(credit.accounts) && fresh(rates.trackers) && fresh(seen)
      ensures stats == Statistics(0, 0, map[])
      ensures limits == RiskLimits(2000000000000000, 10000000000, 500000000000, 100)
      ensures forall i :: 0 <= i < |positions| ==> positions[i] == Position(0, 1000000000, 1000000000)
    {
      credit := new CM.CreditManager();
      rates := new RV.RateLimitValidator();
      seen := new u64[SEEN_SLOTS](_ => 0);
      positions := seq(POSITION_ACCOUNTS * POSITION_SYMBOLS, _ => Position(0, 1000000000, 1000000000));
      limits := RiskLimits(2000000000000000, 10000000000, 500000000000, 100);
      stats := Statistics(0, 0, map[]);
      new;
      NoRejects(0);
    }

    /** Run one check. */
    method RunStage(stage: Stage, ctx: RiskContext) returns (ok: bool)
      requires Valid()
      modifies credit.accounts, rates.trackers, seen
      ensures Valid() && ok == Passes(stage, old(State()), limits, ctx) &&
              State() == Ran(stage, old(State()), limits, ctx)
    {
      hide Rates.CheckRate, PositionAllows, Sized, Rates.AllFormed, SumRejects;
      match stage
      case KillSwitch => ok := ctx.killSwitchPasses;
      case CircuitBreaker => ok := ctx.circuitBreakerPasses;
      case DuplicateCheck => ok := CheckDuplicate(ctx.clientOrderId);
      case RateLimit => ok := rates.Check(ctx.accountId, ctx.timestamp, limits.maxOrdersPerSec);
      case FatFinger => ok := Sized(limits, ctx);
      case PriceBand => ok := ctx.priceBandPasses;
      case SelfTrade => ok := ctx.selfTradePasses;
      case PositionLimit => ok := PositionAllows(positions[PositionSlot(ctx)], ctx.side, ctx.qty);
      case CreditLimit =>
        var account := credit.AccountState(ctx.accountId);
        ok := Credits.Affordable(Credits.Cost(ctx.price, ctx.qty), limits.maxDailyExposure, account);
    }

    method CheckDuplicate(clientOrderId: u64) returns (ok: bool)
      requires seen.Length == SEEN_SLOTS
      modifies seen
      ensures ok == (clientOrderId == 0 || old(seen[clientOrderId % SEEN_SLOTS]) != clientOrderId)
      ensures seen[..] == if clientOrderId == 0 then old(seen[..])
              else old(seen[..])[clientOrderId % SEEN_SLOTS := clientOrderId]
    {
      if clientOrderId == 0 {
        return true;
      }
      var slot := clientOrderId % SEEN_SLOTS;
      if seen[slot] == clientOrderId {
        assert seen[..] == seen[..][slot := clientOrderId];
        return false;
      }
      seen[slot] := clientOrderId;
      return true;
    }

    /** The whole validation: the pipeline in order up to the first failing check, all of it traced,
        then the reservation of an accepted order or the count against the check that failed. */
    method Validate(ctx: RiskContext) returns (r: Result<(), RejectReason>, trace: seq<Entry>)
      requires Valid()
      modifies this`stats, credit.accounts, rates.trackers, seen
      ensures Valid() && State() == Validated(old(State()), limits, ctx)
      ensures var k := Checked(old(State()), limits, ctx, 0).0;
              && trace == TraceOf(k)
              && r == (if k == |STAGES| then Success(()) else Failure(ReasonOf(STAGES[k])))
              && stats == if k == |STAGES| then old(stats).(accepted := old(stats).accepted + 1)
                 else CountReject(old(stats), STAGES[k])
    {
      hide Passes, Ran, RiskPipeline.WellFormed, ReasonOf, SumRejects;
      trace := [];
      ghost var first := State();
      for i := 0 to |STAGES|
        invariant Valid() && stats == old(stats)
        invariant Checked(State(), limits, ctx, i) == Checked(first, limits, ctx, 0)
        invariant |trace| == i && forall j :: 0 <= j < i ==> trace[j] == Entry(STAGES[j], true)
      {
        var ok := RunStage(STAGES[i], ctx);
        trace := trace + [Entry(STAGES[i], ok)];
        if !ok {
          assert trace == TraceOf(i);
          var reason := ReasonOf(STAGES[i]);
          var failed := Attribute(reason, trace, i);
          RejectsAddUp(stats, i);
          stats := CountReject(stats, failed);
          return Failure(reason), trace;
        }
      }
      assert trace == TraceOf(|STAGES|);
      AcceptAddsUp(stats, 0);
      stats := stats.(accepted := stats.accepted + 1);
      Reserve(ctx);
      r := Success(());
    }

    method Reserve(ctx: RiskContext)
      requires Valid()
      modifies credit.accounts
      ensures Valid()
      ensures var slot, s := CM.Slot(ctx.accountId), old(State());
              State() == s.(accounts :=
                            s.accounts[slot := Credits.Accepted(CM.Labelled(s.accounts[slot], ctx.accountId),
                                                                Credits.Cost(ctx.price, ctx.qty))])
    {
      credit.UpdateOnAccept(ctx.accountId, Credits.Cost(ctx.price, ctx.qty));
    }

    /** The counter a reject goes to: three reasons name their check, the fourth is looked up as the
        first failed stage of the trace. */
    method Attribute(reason: RejectReason, trace: seq<Entry>, ghost k: nat) returns (stage: Stage)
      requires k < |STAGES| && reason == ReasonOf(STAGES[k]) && trace == TraceOf(k)
      ensures stage == STAGES[k]
    {
      match reason
      case DuplicateOrder => stage := DuplicateCheck;
      case InvalidPrice => stage := PriceBand;
      case InvalidQuantity => stage := FatFinger;
      case RiskLimitExceeded =>
        stage := KillSwitch;
        for i := 0 to |trace|
          invariant i <= k
        {
          if !trace[i].passed {
            return trace[i].stage;
          }
        }
    }
  }

  // ----- the counters add up

  function SumRejects(st: Statistics, i: nat): nat
    requires i <= |STAGES|
    decreases |STAGES| - i
  {
    if i == |STAGES| then 0 else RejectsAt(st, STAGES[i]) + SumRejects(st, i + 1)
  }

  lemma {:induction false} SumCounted(st: Statistics, k: nat, i: nat)
    requires k < |STAGES| && i <= |STAGES|
    ensures SumRejects(CountReject(st, STAGES[k]), i) == SumRejects(st, i) + if i <= k then 1 else 0
    decreases |STAGES| - i
  {
    if i < |STAGES| {
      SumCounted(st, k, i + 1);
      if i < k {
        StagesDistinct(i, k);
      } else if k < i {
        StagesDistinct(k, i);
      }
    }
  }

  lemma {:induction false} NoRejects(i: nat)
    requires i <= |STAGES|
    ensures SumRejects(Statistics(0, 0, map[]), i) == 0
    decreases |STAGES| - i
  {
    if i < |STAGES| {
      NoRejects(i + 1);
    }
  }

  lemma {:induction false} AcceptAddsUp(st: Statistics, i: nat)
    requires i <= |STAGES|
    ensures SumRejects(st.(accepted := st.accepted + 1), i) == SumRejects(st, i)
    decreases |STAGES| - i
  {
    if i < |STAGES| {
      AcceptAddsUp(st, i + 1);
    }
  }

  /** Every reject is counted against exactly one check, so the nine counters always add up to the
      number of rejects. */
  lemma RejectsAddUp(st: Statistics, k: nat)
    requires k < |STAGES| && SumRejects(st, 0) == st.rejected
    ensures SumRejects(CountReject(st, STAGES[k]), 0) == CountReject(st, STAGES[k]).rejected
  {
    SumCounted(st, k, 0);
  }
}
