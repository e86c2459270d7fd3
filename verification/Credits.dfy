/** Buying power: what accepting, filling and cancelling do to an account, and what they conserve. */
module Credits {
  import opened Domain

  const MAX_ACCOUNTS: nat := 1024
  const INITIAL_POWER: u64 := 1000000000000000

  datatype Account = Account(accountId: u64, available: u64, used: u64, reserved: u64, daily: u64)

  /** The cost of an order, in 64-bit arithmetic. */
  function Cost(price: Price, qty: u64): u64 {
    Wrap64(price * qty) / 1000000
  }

  /** The static credit check. */
  predicate Affordable(cost: u64, maxDailyExposure: u64, a: Account) {
    cost <= a.available && (maxDailyExposure > 0 ==> Wrap64(a.daily + cost) <= maxDailyExposure)
  }

  function Accepted(a: Account, cost: u64): Account {
    if a.available >= cost then a.(available := a.available - cost, reserved := Wrap64(a.reserved + cost)) else a
  }

  function Filled(a: Account, cost: u64): Account {
    var paid :=
      if a.reserved >= cost then a.(reserved := a.reserved - cost)
      else
        var rest := cost - a.reserved;
        a.(reserved := 0, available := if a.available >= rest then a.available - rest else a.available);
    paid.(used := Wrap64(a.used + cost), daily := Wrap64(a.daily + cost))
  }

  function Cancelled(a: Account, cost: u64): Account {
    if a.reserved >= cost then a.(reserved := a.reserved - cost, available := Wrap64(a.available + cost)) else a
  }

  /** Everything the account has or has spent. */
  function Total(a: Account): nat {
    a.available + a.reserved + a.used
  }

  lemma AcceptConserves(a: Account, cost: u64)
    requires Total(a) < TWO_64
    ensures Total(Accepted(a, cost)) == Total(a)
  {
  }

  lemma CancelConserves(a: Account, cost: u64)
    requires Total(a) < TWO_64
    ensures Total(Cancelled(a, cost)) == Total(a)
  {
  }

  /** A fill conserves the total exactly when it is covered by what is available and reserved. */
  lemma FillConservesIff(a: Account, cost: u64)
    requires Total(a) < TWO_64
    ensures Total(Filled(a, cost)) == Total(a) <==> cost <= a.available + a.reserved
  {
    assert Wrap64(a.used + cost) == a.used + cost || Wrap64(a.used + cost) == a.used + cost - TWO_64;
  }

  datatype Event = Accept(cost: u64) | Fill(cost: u64) | Cancel(cost: u64)

  function After(a: Account, e: Event): Account {
    match e
    case Accept(cost) => Accepted(a, cost)
    case Fill(cost) => Filled(a, cost)
    case Cancel(cost) => Cancelled(a, cost)
  }

  function AfterAll(a: Account, events: seq<Event>): Account
    decreases |events|
  {
    if events == [] then a else AfterAll(After(a, events[0]), events[1..])
  }

  /** Every fill is covered when it comes. */
  predicate Covered(a: Account, events: seq<Event>)
    decreases |events|
  {
    events != [] ==>
      && (events[0].Fill? ==> events[0].cost <= a.available + a.reserved)
      && Covered(After(a, events[0]), events[1..])
  }

  /** Over every run of accepts, cancels and covered fills, available, reserved and used power add up
      to what the account started with. */
  lemma {:induction false} RunConserves(a: Account, events: seq<Event>)
    requires Total(a) < TWO_64 && Covered(a, events)
    ensures Total(AfterAll(a, events)) == Total(a)
    decreases |events|
  {
    if events != [] {
      hide Accepted, Filled, Cancelled, Total;
      match events[0] {
        case Accept(cost) => AcceptConserves(a, cost);
        case Fill(cost) => FillConservesIff(a, cost);
        case Cancel(cost) => CancelConserves(a, cost);
      }
      RunConserves(After(a, events[0]), events[1..]);
    }
  }

  /** An uncovered fill makes up all of its cost that was not reserved. */
  lemma UncoveredGrows(a: Account, cost: u64)
    requires cost > a.available + a.reserved && a.used + cost < TWO_64
    ensures Total(Filled(a, cost)) == Total(a) + (cost - a.reserved)
  {
  }

  /** One tick filled on an empty account is one tick out of nothing. */
  lemma UncoveredExample()
    ensures var a, cost: u64 := Account(1, 0, 0, 0, 0), 1; Total(Filled(a, cost)) == Total(a) + 1
  {
    hide Filled;
    UncoveredGrows(Account(1, 0, 0, 0, 0), 1);
  }

  /** What was reserved for an order is what its cancellation gives back. */
  lemma AcceptThenCancel(a: Account, cost: u64)
    requires Total(a) < TWO_64 && cost <= a.available
    ensures Cancelled(Accepted(a, cost), cost) == a
  {
  }

  /** Filling an order at the cost reserved for it turns exactly the reservation into used power. */
  lemma AcceptThenFill(a: Account, cost: u64)
    requires Total(a) < TWO_64 && cost <= a.available
    ensures var b := Filled(Accepted(a, cost), cost);
            b.available == a.available - cost && b.reserved == a.reserved && b.used == a.used + cost
  {
  }
}
