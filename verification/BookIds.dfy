/** No order id occurs twice in the abstract book of a sound linked structure. */
module BookIds {
  import opened Domain
  import opened Seqs
  import opened BookSpec
  import opened BookRep
  import opened SideRep
  import opened SnapshotLaws
  import opened Rebuilding

  /** The order slots of these levels, in book order. */
  ghost function Slots(levels: seq<nat>, queues: map<nat, seq<nat>>): seq<nat>
    requires forall i :: 0 <= i < |levels| ==> levels[i] in queues
  {
    if levels == [] then [] else queues[levels[0]] + Slots(levels[1..], queues)
  }

  ghost predicate Queued(levels: seq<nat>, queues: map<nat, seq<nat>>) {
    forall i :: 0 <= i < |levels| ==> levels[i] in queues && Distinct(queues[levels[i]])
  }

  lemma {:induction false} SlotHome(levels: seq<nat>, queues: map<nat, seq<nat>>, home: map<nat, nat>, k: nat)
    requires Queued(levels, queues) && HomesOk(queues, home) && k < |Slots(levels, queues)|
    ensures Slots(levels, queues)[k] in home && home[Slots(levels, queues)[k]] in levels
    decreases |levels|
  {
    var head := queues[levels[0]];
    if k < |head| {
      assert Slots(levels, queues)[k] == head[k];
    } else {
      SlotHome(levels[1..], queues, home, k - |head|);
    }
  }

  lemma {:induction false} SlotsDistinct(levels: seq<nat>, queues: map<nat, seq<nat>>, home: map<nat, nat>)
    requires Queued(levels, queues) && HomesOk(queues, home) && Distinct(levels)
    ensures Distinct(Slots(levels, queues))
    decreases |levels|
  {
    if levels != [] {
      var head, rest := queues[levels[0]], levels[1..];
      SlotsDistinct(rest, queues, home);
      var slots, tail := Slots(levels, queues), Slots(rest, queues);
      forall i, j | 0 <= i < j < |slots|
        ensures slots[i] != slots[j]
      {
        if j >= |head| {
          SlotHome(rest, queues, home, j - |head|);
          assert slots[j] == tail[j - |head|];
          if i < |head| {
            assert home[head[i]] == levels[0];
          } else {
            assert slots[i] == tail[i - |head|];
          }
        }
      }
    }
  }

  lemma {:induction false} SlotsConcat(a: seq<nat>, b: seq<nat>, queues: map<nat, seq<nat>>)
    requires Queued(a, queues) && Queued(b, queues)
    ensures Queued(a + b, queues) && Slots(a + b, queues) == Slots(a, queues) + Slots(b, queues)
    decreases |a|
  {
    if a == [] {
      assert a + b == b;
    } else {
      SlotsConcat(a[1..], b, queues);
      assert (a + b)[1..] == a[1..] + b;
    }
  }

  lemma {:induction false} RebuiltAt(side: Side, price: Price, queue: seq<Resting>, i: nat)
    requires i < |queue|
    ensures RebuiltQueue(side, price, queue)[i] == Rebuilt(side, price, queue[i])
    decreases |queue|
  {
    if i > 0 {
      RebuiltAt(side, price, queue[1..], i - 1);
    }
  }

  /** Book order and slot order name the same ids. */
  lemma {:induction false} SlotIds(os: seq<LiveOrder>, ls: seq<PriceLevelNode>, levels: seq<nat>,
                                   queues: map<nat, seq<nat>>, side: Side)
    requires Viewable(os, ls, levels, queues)
    ensures var inserts, slots := RebuiltSide(side, AbsSide(os, ls, levels, queues)), Slots(levels, queues);
            Named(os, slots, inserts)
    decreases |levels|
  {
    if levels != [] {
      var abs, rest := AbsSide(os, ls, levels, queues), levels[1..];
      SlotIds(os, ls, rest, queues, side);
      assert abs[1..] == AbsSide(os, ls, rest, queues);
      var head := queues[levels[0]];
      assert abs[0].queue == View(os, head);
      forall i | 0 <= i < |head|
        ensures RebuiltQueue(side, abs[0].price, abs[0].queue)[i].order.orderId == os[head[i]].item.orderId
      {
        RebuiltAt(side, abs[0].price, abs[0].queue, i);
      }
    }
  }

  ghost predicate Named(os: seq<LiveOrder>, slots: seq<nat>, inserts: seq<Insert>) {
    && |inserts| == |slots|
    && (forall i :: 0 <= i < |slots| ==> slots[i] < |os| && inserts[i].order.orderId == os[slots[i]].item.orderId)
  }

  lemma NamedConcat(os: seq<LiveOrder>, a: seq<nat>, x: seq<Insert>, b: seq<nat>, y: seq<Insert>)
    requires Named(os, a, x) && Named(os, b, y)
    ensures Named(os, a + b, x + y)
  {
  }

  /** Different slots hold different ids, because the lookup leads from an id to one slot. */
  lemma NamedUnique(os: seq<LiveOrder>, home: map<nat, nat>, lookup: map<u64, nat>, slots: seq<nat>,
                    inserts: seq<Insert>)
    requires Named(os, slots, inserts) && LookupOk(os, home, lookup) && Distinct(slots)
    requires forall i :: 0 <= i < |slots| ==> slots[i] in home
    ensures Unique(inserts)
  {
    forall i, j | 0 <= i < j < |slots|
      ensures inserts[i].order.orderId != inserts[j].order.orderId
    {
      LookupAt(os, home, lookup, slots[i]);
      LookupAt(os, home, lookup, slots[j]);
    }
  }

  lemma IdsUnique(os: seq<LiveOrder>, ls: seq<PriceLevelNode>, queues: map<nat, seq<nat>>, home: map<nat, nat>,
                  lookup: map<u64, nat>,
                  bids: SideState, asks: SideState)
    requires Sides(os, ls, queues, home, bids, asks) && LookupOk(os, home, lookup)
    requires Viewable(os, ls, bids.levels, queues) && Viewable(os, ls, asks.levels, queues)
    ensures Unique(Contents(Book(AbsSide(os, ls, bids.levels, queues), AbsSide(os, ls, asks.levels, queues))))
  {
    hide Sides, LookupOk, HomesOk, Named, Unique, RebuiltSide, Distinct, Slots, Queued;
    SideQueued(os, ls, queues, home, bids, asks);
    FlipSides(os, ls, queues, home, bids, asks);
    SideQueued(os, ls, queues, home, asks, bids);
    DistinctConcat(bids.levels, asks.levels);
    var all := bids.levels + asks.levels;
    SlotsConcat(bids.levels, asks.levels, queues);
    SlotsDistinct(all, queues, home);
    SlotIds(os, ls, bids.levels, queues, Buy);
    SlotIds(os, ls, asks.levels, queues, Sell);
    var x, y := RebuiltSide(Buy, AbsSide(os, ls, bids.levels, queues)),
      RebuiltSide(Sell, AbsSide(os, ls, asks.levels, queues));
    NamedConcat(os, Slots(bids.levels, queues), x, Slots(asks.levels, queues), y);
    forall i | 0 <= i < |Slots(all, queues)|
      ensures Slots(all, queues)[i] in home
    {
      SlotHome(all, queues, home, i);
    }
    NamedUnique(os, home, lookup, Slots(all, queues), x + y);
  }

  lemma DistinctConcat(a: seq<nat>, b: seq<nat>)
    requires Distinct(a) && Distinct(b) && forall l :: l in a ==> l !in b
    ensures Distinct(a + b)
  {
    var all := a + b;
    forall i, j | 0 <= i < j < |all|
      ensures all[i] != all[j]
    {
      if i < |a| <= j {
        assert all[i] in a && all[j] == b[j - |a|] && b[j - |a|] in b;
      }
    }
  }

  lemma SideQueued(os: seq<LiveOrder>, ls: seq<PriceLevelNode>, queues: map<nat, seq<nat>>, home: map<nat, nat>,
                   mine: SideState, other: SideState)
    requires Sides(os, ls, queues, home, mine, other)
    ensures Queued(mine.levels, queues) && HomesOk(queues, home) && Distinct(mine.levels)
    ensures forall l :: l in mine.levels ==> l !in other.levels
  {
    hide Sides, HomesOk, QueueOk, Distinct;
    SidesHomes(os, ls, queues, home, mine, other);
    forall k | 0 <= k < |mine.levels|
      ensures mine.levels[k] in queues && Distinct(queues[mine.levels[k]])
    {
      SidesAt(os, ls, queues, home, mine, other, k);
      QueueDistinct(os, ls[mine.levels[k]].item, queues[mine.levels[k]]);
    }
  }

  lemma SidesHomes(os: seq<LiveOrder>, ls: seq<PriceLevelNode>, queues: map<nat, seq<nat>>, home: map<nat, nat>,
                   mine: SideState, other: SideState)
    requires Sides(os, ls, queues, home, mine, other)
    ensures HomesOk(queues, home) && Distinct(mine.levels) && forall l :: l in mine.levels ==> l !in other.levels
  {
    hide HomesOk, QueueOk, Distinct, SideOk, Viewable;
  }
}
