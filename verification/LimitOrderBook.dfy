/** The limit order book: two sides of linked levels, the id lookup and the two pools. */
module OrderBooks {
  import opened Domain
  import opened Seqs
  import opened BookSpec
  import opened BookOps
  import opened Links
  import opened BookRep
  import opened SideRep
  import opened ObjectPools
  import opened BookSides
  import opened Matching

  class LimitOrderBook {
    const bids: BookSide
    const asks: BookSide
    const levelPool: ObjectPool<PriceLevelNode>
    const orderPool: ObjectPool<LiveOrder>
    var lookup: map<u64, nat>
    /** The order slots queued at each linked level, and the level of each linked order. */
    ghost var queues: map<nat, seq<nat>>
    ghost var home: map<nat, nat>

    /** Queues and level lists are well linked and agree with each other. */
    ghost predicate Linked()
      reads this, bids, asks, levelPool, orderPool
    {
      && bids != asks && bids.side == Buy && asks.side == Sell
      && Sides(orderPool.storage, levelPool.storage, queues, home, bids.State(), asks.State())
      && |levelPool.storage| == LEVEL_CAPACITY && |orderPool.storage| == ORDER_CAPACITY
      && PoolOk(levelPool.freeList, LEVEL_CAPACITY, queues.Keys)
    }

    ghost predicate Valid()
      reads this, bids, asks, levelPool, orderPool
    {
      && Linked()
      && NoEmptyQueue(queues)
      && LookupOk(orderPool.storage, home, lookup)
      && PoolOk(orderPool.freeList, ORDER_CAPACITY, home.Keys)
    }

    ghost function SideAbs(s: BookSide): seq<Level>
      requires Linked() && (s == bids || s == asks)
      reads this, bids, asks, levelPool, orderPool
    {
      AbsSide(orderPool.storage, levelPool.storage, s.levels, queues)
    }

    /** The abstract book this structure stands for. */
    ghost function Abs(): Book
      requires Linked()
      reads this, bids, asks, levelPool, orderPool
    {
      Book(SideAbs(bids), SideAbs(asks))
    }

    constructor ()
      ensures Valid() && Abs() == EMPTY && |levelPool.freeList| == 1024 && |orderPool.freeList| == 10240
      ensures fresh(bids) && fresh(asks) && fresh(levelPool) && fresh(orderPool)
    {
      bids := new BookSide(Buy);
      asks := new BookSide(Sell);
      levelPool := new ObjectPool<PriceLevelNode>(LEVEL_CAPACITY, Node(EMPTY_LEVEL, NULL, NULL));
      orderPool := new ObjectPool<LiveOrder>(ORDER_CAPACITY, Node(OrderData(0, 0, 0, 0, 0), NULL, NULL));
      lookup, queues, home := map[], map[], map[];
      new;
      assert queues.Keys == {} && home.Keys == {};
    }

    /** Take a slot for `order` and fill it in; it is not linked yet. */
    method NewOrder(order: Order, prioritySeq: u64) returns (p: nat)
      requires Valid() && orderPool.freeList != []
      modifies orderPool
      ensures p !in home && p < ORDER_CAPACITY && Linked() && Abs() == old(Abs())
      ensures orderPool.storage == old(orderPool.storage)[p := Node(ItemOf(order, prioritySeq), NULL, NULL)]
      ensures PoolOk(orderPool.freeList, ORDER_CAPACITY, home.Keys + {p})
    {
      hide Sides, PoolOk, LookupOk;
      ghost var os := orderPool.storage;
      PoolTake(orderPool.freeList, ORDER_CAPACITY, home.Keys);
      var slot := orderPool.Allocate(Node(OrderData(0, 0, 0, 0, 0), NULL, NULL));
      p := slot.value;
      orderPool.storage := orderPool.storage[p := Node(ItemOf(order, prioritySeq), NULL, NULL)];
      assert orderPool.storage == os[p := Node(ItemOf(order, prioritySeq), NULL, NULL)];
      LooseSides(os, levelPool.storage, queues, home, bids.State(), asks.State(), p, orderPool.storage);
    }

    ghost function Other(s: BookSide): BookSide {
      if s == bids then asks else bids
    }

    /** `Linked` seen from one side. */
    lemma Oriented(s: BookSide)
      requires Linked() && (s == bids || s == asks)
      ensures Sides(orderPool.storage, levelPool.storage, queues, home, s.State(), Other(s).State())
    {
      hide Sides;
      FlipSides(orderPool.storage, levelPool.storage, queues, home, bids.State(), asks.State());
    }

    /** Put `Linked` back together after a step on side `s`. */
    lemma Reassemble(s: BookSide)
      requires s == bids || s == asks
      requires bids != asks && bids.side == Buy && asks.side == Sell
      requires Sides(orderPool.storage, levelPool.storage, queues, home, s.State(), Other(s).State())
      requires |levelPool.storage| == LEVEL_CAPACITY && |orderPool.storage| == ORDER_CAPACITY
      requires PoolOk(levelPool.freeList, LEVEL_CAPACITY, queues.Keys)
      ensures Linked()
    {
      hide Sides;
      FlipSides(orderPool.storage, levelPool.storage, queues, home, s.State(), Other(s).State());
    }

    /** `IntrusiveOrderList::append` on the queue of level `l`. */
    method ListAppend(l: nat, p: nat, ghost nodes: seq<nat>)
      requires l < |levelPool.storage| && p < |orderPool.storage| && p !in nodes && Chain(orderPool.storage, nodes)
      requires levelPool.storage[l].item.head == First(nodes) && levelPool.storage[l].item.tail == Last(nodes)
      modifies orderPool`storage, levelPool`storage
      ensures |orderPool.storage| == old(|orderPool.storage|)
      ensures LinkedIn(old(orderPool.storage), nodes, |nodes|, p, old(orderPool.storage[p].item), orderPool.storage)
      ensures levelPool.storage ==
              old(levelPool.storage)[l := old(levelPool.storage[l]).(item := old(levelPool.storage[l].item).(
                head := if nodes == [] then p else First(nodes), tail := p))]
    {
      var tail := levelPool.storage[l].item.tail;
      orderPool.storage := orderPool.storage[p := orderPool.storage[p].(next := NULL, prev := tail)];
      if tail != NULL {
        orderPool.storage := orderPool.storage[tail := orderPool.storage[tail].(next := p)];
      } else {
        levelPool.storage :=
          levelPool.storage[l := levelPool.storage[l].(item := levelPool.storage[l].item.(head := p))];
      }
      levelPool.storage := levelPool.storage[l := levelPool.storage[l].(item := levelPool.storage[l].item.(tail := p))];
    }

    /** `IntrusiveOrderList::remove` on the queue of level `l`. */
    method ListRemove(l: nat, p: nat, ghost nodes: seq<nat>, ghost j: nat)
      requires l < |levelPool.storage| && Chain(orderPool.storage, nodes) && j < |nodes| && nodes[j] == p &&
               p < |orderPool.storage|
      modifies orderPool`storage, levelPool`storage
      ensures |orderPool.storage| == old(|orderPool.storage|)
      ensures LinkedOutLoose(old(orderPool.storage), nodes, j, orderPool.storage)
      ensures levelPool.storage ==
              old(levelPool.storage)[l := old(levelPool.storage[l]).(item := old(levelPool.storage[l].item).(
                head := if old(orderPool.storage[p]).prev == NULL then old(orderPool.storage[p]).next
                else old(levelPool.storage[l].item.head),
                tail := if old(orderPool.storage[p]).next == NULL then old(orderPool.storage[p]).prev
                else old(levelPool.storage[l].item.tail)))]
    {
      hide Chain;
      LinksAt(orderPool.storage, nodes, j);
      var next, prev := orderPool.storage[p].next, orderPool.storage[p].prev;
      if prev != NULL {
        orderPool.storage := orderPool.storage[prev := orderPool.storage[prev].(next := next)];
      } else {
        levelPool.storage :=
          levelPool.storage[l := levelPool.storage[l].(item := levelPool.storage[l].item.(head := next))];
      }
      if next != NULL {
        orderPool.storage := orderPool.storage[next := orderPool.storage[next].(prev := prev)];
      } else {
        levelPool.storage :=
          levelPool.storage[l := levelPool.storage[l].(item := levelPool.storage[l].item.(tail := prev))];
      }
      orderPool.storage := orderPool.storage[p := orderPool.storage[p].(next := NULL, prev := NULL)];
    }

    /** Append and count: the level record follows its queue. */
    method AppendAndCount(l: nat, p: nat, ghost nodes: seq<nat>)
      requires l < |levelPool.storage| && p < |orderPool.storage| && p !in nodes &&
               QueueOk(orderPool.storage, levelPool.storage[l].item, nodes)
      modifies orderPool`storage, levelPool`storage
      ensures |orderPool.storage| == old(|orderPool.storage|)
      ensures LinkedIn(old(orderPool.storage), nodes, |nodes|, p, old(orderPool.storage[p].item), orderPool.storage)
      ensures levelPool.storage == old(levelPool.storage)[l := old(levelPool.storage[l]).(item :=
                Appended(old(levelPool.storage[l].item), p, old(orderPool.storage[p].item.remainingQty)))]
    {
      hide QueueOk, Chain, LinkedIn, Wrap64;
      QueueEnds(orderPool.storage, levelPool.storage[l].item, nodes);
      var qty := orderPool.storage[p].item.remainingQty;
      ListAppend(l, p, nodes);
      var lv := levelPool.storage[l].item;
      levelPool.storage := levelPool.storage[l := levelPool.storage[l].(item :=
        lv.(totalQty := Wrap64(lv.totalQty + qty), orderCount := lv.orderCount + 1))];
    }

    /** Remove and count; `total` is the level's volume without the order. */
    method RemoveAndCount(l: nat, p: nat, total: u64, ghost nodes: seq<nat>, ghost j: nat)
      requires l < |levelPool.storage| && QueueOk(orderPool.storage, levelPool.storage[l].item, nodes)
      requires j < |nodes| && nodes[j] == p && p < |orderPool.storage|
      modifies orderPool`storage, levelPool`storage
      ensures |orderPool.storage| == old(|orderPool.storage|) && old(levelPool.storage[l].item.orderCount) > 0
      ensures LinkedOutLoose(old(orderPool.storage), nodes, j, orderPool.storage)
      ensures levelPool.storage == old(levelPool.storage)[l := old(levelPool.storage[l]).(item :=
                Shortened(old(levelPool.storage[l].item), old(orderPool.storage[p]), total))]
    {
      hide QueueOk, Chain, LinkedOutLoose;
      QueueEnds(orderPool.storage, levelPool.storage[l].item, nodes);
      ListRemove(l, p, nodes, j);
      var lv := levelPool.storage[l].item;
      levelPool.storage :=
        levelPool.storage[l := levelPool.storage[l].(item := lv.(totalQty := total, orderCount := lv.orderCount - 1))];
    }

    /** Queue a loose order at the level in position `k` of side `s`, with the level's counters. */
    method AppendOrder(l: nat, p: nat, ghost s: BookSide, ghost k: nat)
      requires Linked() && (s == bids || s == asks) && k < |s.levels| && s.levels[k] == l && l < LEVEL_CAPACITY
      requires p !in home && p < ORDER_CAPACITY
      requires orderPool.storage[p].item.price == levelPool.storage[l].item.price
      modifies orderPool`storage, levelPool`storage, `queues, `home
      ensures Linked() && l in old(queues)
      ensures queues == old(queues)[l := old(queues[l]) + [p]] && home == old(home)[p := l]
      ensures Untouched(old(orderPool.storage), orderPool.storage, old(queues[l]), p)
      ensures orderPool.storage[p].item == old(orderPool.storage[p].item)
      ensures |SideAbs(s)| == old(|SideAbs(s)|) == |s.levels|
      ensures SideAbs(s) == var abs := old(SideAbs(s));
              abs[k := abs[k].(queue := abs[k].queue + [RestingOf(orderPool.storage[p].item)])]
      ensures SideAbs(Other(s)) == old(SideAbs(Other(s)))
    {
      hide Sides, PoolOk, Wrap64, QueueOk, LinkedIn, Chain, Untouched, RestingOf;
      ghost var os, ls := orderPool.storage, levelPool.storage;
      Oriented(s);
      SidesAt(os, ls, queues, home, s.State(), Other(s).State(), k);
      AppendAndCount(l, p, queues[l]);
      AppendSides(os, ls, orderPool.storage, levelPool.storage, queues, home, p, os[p].item, s.State(), k,
                  Other(s).State());
      queues, home := queues[l := queues[l] + [p]], home[p := l];
      Reassemble(s);
    }

    /** Unqueue the order in position `j` of the level in position `k` of side `s`; `total` is the
        level's volume without it. The level may be left empty. */
    method UnqueueOrder(l: nat, p: nat, total: u64, ghost s: BookSide, ghost k: nat, ghost j: nat)
      requires Linked() && (s == bids || s == asks) && k < |s.levels| && s.levels[k] == l && l < LEVEL_CAPACITY
      requires l in queues && j < |queues[l]| && queues[l][j] == p && p < ORDER_CAPACITY
      requires total == Wrap64(levelPool.storage[l].item.totalQty - orderPool.storage[p].item.remainingQty)
      modifies orderPool`storage, levelPool`storage, `queues, `home
      ensures Linked()
      ensures queues == old(queues)[l := DeletedAt(old(queues[l]), j)] && home == old(home) - {p}
      ensures SameItems(old(orderPool.storage), orderPool.storage)
      ensures SameLevels(old(levelPool.storage), levelPool.storage, s.levels)
      ensures levelPool.storage[l].item.head == First(queues[l])
      ensures |SideAbs(s)| == old(|SideAbs(s)|) == |s.levels| && old(|SideAbs(s)[k].queue|) == |old(queues[l])|
      ensures SideAbs(s) == var abs := old(SideAbs(s)); abs[k := abs[k].(queue := DeletedAt(abs[k].queue, j))]
      ensures SideAbs(Other(s)) == old(SideAbs(Other(s)))
    {
      hide Sides, PoolOk, Wrap64, QueueOk, LinkedOutLoose, Chain, RestingOf, SameItems, SameLevels;
      ghost var os, ls, t := orderPool.storage, levelPool.storage, Other(s);
      Oriented(s);
      SidesAt(os, ls, queues, home, s.State(), t.State(), k);
      RemoveAndCount(l, p, total, queues[l], j);
      RemoveSides(os, ls, orderPool.storage, levelPool.storage, queues, home, j, total, s.State(), k, t.State());
      queues, home := queues[l := DeletedAt(queues[l], j)], home - {p};
      Reassemble(s);
      SidesAt(orderPool.storage, levelPool.storage, queues, home, s.State(), t.State(), k);
      QueueEnds(orderPool.storage, levelPool.storage[l].item, queues[l]);
    }

    /** Open a level at `price` on side `s`; an order `r` queued there makes it the abstract insertion. */
    method OpenAt(s: BookSide, price: Price, ghost r: Resting) returns (l: nat, ghost k: nat)
      requires Linked() && (s == bids || s == asks) && price !in s.index && levelPool.freeList != []
      modifies s, levelPool, `queues
      ensures Linked() && k < |s.levels| && s.levels[k] == l && l < LEVEL_CAPACITY &&
              levelPool.storage[l].item.price == price
      ensures l !in old(queues) && queues == old(queues)[l := []]
      ensures |SideAbs(s)| == |s.levels|
      ensures AddedAt(SideAbs(s), k, r) == AddOrder(s.side, old(SideAbs(s)), price, r)
      ensures SideAbs(Other(s)) == old(SideAbs(Other(s)))
    {
      hide Sides, PoolOk, LinkedIn, SideOk, AddOrder, Chain;
      ghost var ls, t, was := levelPool.storage, Other(s), s.State();
      Oriented(s);
      SidesUsed(orderPool.storage, ls, queues, home, s.State(), t.State());
      PoolTake(levelPool.freeList, LEVEL_CAPACITY, queues.Keys);
      l, k := s.CreateLevel(price, levelPool, queues.Keys);
      LinkAtNew(ls, was.levels, k, l, LevelData(price, 0, 0, NULL, NULL), levelPool.storage);
      OpenSides(orderPool.storage, ls, levelPool.storage, queues, home, was, k, t.State(), l, price, s.State());
      AddOpened(s.side, orderPool.storage, ls, was.levels, queues, k, price, r);
      queues := queues[l := []];
      assert queues.Keys == old(queues.Keys) + {l};
      Reassemble(s);
    }

    /** Find the level at `price` on side `s`, or open it. */
    method LocateLevel(s: BookSide, price: Price, ghost r: Resting) returns (l: nat, ghost k: nat)
      requires Linked() && (s == bids || s == asks) && (price in s.index || levelPool.freeList != [])
      modifies s, levelPool, `queues
      ensures Linked() && k < |s.levels| && s.levels[k] == l && l < LEVEL_CAPACITY &&
              levelPool.storage[l].item.price == price
      ensures queues == if l in old(queues) then old(queues) else old(queues)[l := []]
      ensures |SideAbs(s)| == |s.levels|
      ensures AddedAt(SideAbs(s), k, r) == AddOrder(s.side, old(SideAbs(s)), price, r)
      ensures SideAbs(Other(s)) == old(SideAbs(Other(s)))
    {
      hide Sides, PoolOk, LinkedIn, SideOk, AddOrder, Chain;
      if price in s.index {
        l := s.index[price];
        Oriented(s);
        k := IndexedAt(orderPool.storage, levelPool.storage, queues, home, s.State(), Other(s).State(), price, r);
      } else {
        l, k := OpenAt(s, price, r);
      }
    }

    /** Rest `order` in the book at the tail of its level. The id must be new to the book and
        both pools must have room, as the source's callers must ensure. */
    method Insert(order: Order, prioritySeq: u64) returns (p: nat)
      requires Valid() && order.orderId !in lookup
      requires orderPool.freeList != []
      requires order.price in (if order.side == Buy then bids else asks).index || levelPool.freeList != []
      modifies this, bids, asks, levelPool, orderPool
      ensures Valid()
      ensures Abs() == InsertSpec(old(Abs()), order, prioritySeq)
      ensures lookup == old(lookup)[order.orderId := p]
    {
      hide Sides, PoolOk, AddOrder, Untouched, NoEmptyQueue, LookupOk;
      ghost var os, homes := orderPool.storage, home;
      p := NewOrder(order, prioritySeq);
      lookup := lookup[order.orderId := p];
      var s := if order.side == Buy then bids else asks;
      ghost var r := RestingOf(ItemOf(order, prioritySeq));
      var l, k := LocateLevel(s, order.price, r);
      ghost var mid := queues;
      AppendOrder(l, p, s, k);
      InsertedLookup(os, orderPool.storage, homes, old(lookup), mid[l], l, p, ItemOf(order, prioritySeq));
      InsertedQueues(old(queues), mid, l, p);
      assert home.Keys == old(home).Keys + {p};
    }

    /** Unlink the level in position `k` of side `s` when its queue has run empty. */
    method CloseIfEmpty(l: nat, s: BookSide, ghost k: nat)
      requires Linked() && (s == bids || s == asks) && k < |s.levels| && s.levels[k] == l && l < LEVEL_CAPACITY &&
               l in queues
      modifies s, levelPool, `queues
      ensures Linked() && queues == if old(queues[l]) == [] then old(queues) - {l} else old(queues)
      ensures old(|SideAbs(s)|) == |old(s.levels)|
      ensures SideAbs(s) == if old(queues[l]) == [] then DeletedAt(old(SideAbs(s)), k) else old(SideAbs(s))
      ensures SideAbs(Other(s)) == old(SideAbs(Other(s)))
    {
      hide Sides, PoolOk, LinkedOut, SideOk, Chain, QueueOk;
      ghost var ls, t, was := levelPool.storage, Other(s), s.State();
      Oriented(s);
      SidesAt(orderPool.storage, ls, queues, home, was, t.State(), k);
      QueueEnds(orderPool.storage, ls[l].item, queues[l]);
      if levelPool.storage[l].item.head == NULL {
        SidesUsed(orderPool.storage, ls, queues, home, was, t.State());
        s.RemoveLevel(l, levelPool, k);
        UnlinkSize(ls, was.levels, k, levelPool.storage);
        CloseSides(orderPool.storage, ls, levelPool.storage, queues, home, was, k, t.State(), s.State());
        PoolGive(old(levelPool.freeList), LEVEL_CAPACITY, queues.Keys, l);
        queues := queues - {l};
        assert queues.Keys == old(queues.Keys) - {l};
        Reassemble(s);
      }
    }

    ghost predicate SitsAt(p: nat, l: nat, s: BookSide, k: nat, j: nat)
      reads this, bids, asks, levelPool, orderPool
    {
      && (s == bids || s == asks)
      && PlacedAt(orderPool.storage, levelPool.storage, queues, s.State(), Other(s).State(), p, l, k, j)
    }

    /** The bids-first search for an order's level. It finds the right one because no price is on both sides. */
    method FindLevelOf(p: nat) returns (l: nat, s: BookSide, ghost k: nat, ghost j: nat)
      requires Valid() && p in home && NoSharedPrice(Abs())
      ensures SitsAt(p, l, s, k, j)
    {
      hide Sides, PoolOk, LookupOk, Viewable, NoEmptyQueue, RestsAt, OnSide;
      ghost var os, ls := orderPool.storage, levelPool.storage;
      LevelOf(os, ls, queues, home, bids.State(), asks.State(), p);
      FlipSides(os, ls, queues, home, bids.State(), asks.State());
      SidesUsed(os, ls, queues, home, bids.State(), asks.State());
      SidesUsed(os, ls, queues, home, asks.State(), bids.State());
      IndexedPrice(os, ls, queues, home, bids.State(), asks.State(), os[p].item.price);
      IndexedPrice(os, ls, queues, home, asks.State(), bids.State(), os[p].item.price);
      var price := orderPool.storage[p].item.price;
      if price in bids.index {
        l, s := bids.index[price], bids;
      } else {
        l, s := asks.index[price], asks;
      }
      Oriented(s);
      k, j := Place(os, ls, queues, home, lookup, s.State(), Other(s).State(), p);
    }

    lemma SideAbsIs(s: BookSide)
      requires Linked() && (s == bids || s == asks)
      ensures SideAbs(s) == AbsSide(orderPool.storage, levelPool.storage, s.State().levels, queues)
    {
    }

    /** Take a placed order off its queue, and its level off the side if that runs empty. */
    method Detach(p: nat, l: nat, total: u64, s: BookSide, ghost k: nat, ghost j: nat)
      requires Linked() && NoEmptyQueue(queues) && p in home && SitsAt(p, l, s, k, j)
      requires total == Wrap64(levelPool.storage[l].item.totalQty - orderPool.storage[p].item.remainingQty)
      modifies s, levelPool, orderPool`storage, `queues, `home
      ensures Linked() && NoEmptyQueue(queues) && home == old(home) - {p}
      ensures SameItems(old(orderPool.storage), orderPool.storage)
      ensures SideAbs(s) == DropOrder(old(SideAbs(s)), old(orderPool.storage[p].item.orderId))
      ensures SideAbs(Other(s)) == old(SideAbs(Other(s)))
    {
      hide Sides, PoolOk, NoEmptyQueue, RestsAt, OnSide, Wrap64, SameItems, SameLevels, DropOrder, PlacedAt,
        LimitOrderBook.SideAbs;
      ghost var abs, qs := SideAbs(s), queues;
      PlacedFacts(orderPool.storage, levelPool.storage, queues, s.State(), Other(s).State(), p, l, k, j);
      PlacedWhere(orderPool.storage, levelPool.storage, queues, s.State(), Other(s).State(), p, l, k, j);
      SideAbsIs(s);
      Detached(abs, k, j, orderPool.storage[p].item.orderId);
      UnqueueOrder(l, p, total, s, k, j);
      CloseIfEmpty(l, s, k);
      RetiredQueues(qs, queues, l, j);
    }

    /** Take a placed order out of the book: off its side, the lookup and the pool. `total` is the
        level's volume without it. */
    method Retire(p: nat, l: nat, total: u64, s: BookSide, ghost k: nat, ghost j: nat)
      requires Valid() && p in home && SitsAt(p, l, s, k, j)
      requires total == Wrap64(levelPool.storage[l].item.totalQty - orderPool.storage[p].item.remainingQty)
      modifies this, s, levelPool, orderPool
      ensures Valid() && lookup == old(lookup) - {old(orderPool.storage[p].item.orderId)} && home == old(home) - {p}
      ensures SideAbs(s) == DropOrder(old(SideAbs(s)), old(orderPool.storage[p].item.orderId))
      ensures SideAbs(Other(s)) == old(SideAbs(Other(s)))
    {
      hide Sides, PoolOk, LookupOk, NoEmptyQueue, PlacedAt, Wrap64, SameItems, DropOrder;
      ghost var os, homes := orderPool.storage, home;
      LookupAt(os, home, lookup, p);
      var id := orderPool.storage[p].item.orderId;
      Detach(p, l, total, s, k, j);
      RetiredLookup(os, orderPool.storage, homes, lookup, p);
      lookup := lookup - {id};
      orderPool.Deallocate(p);
      PoolGive(old(orderPool.freeList), ORDER_CAPACITY, homes.Keys, p);
      assert home.Keys == homes.Keys - {p};
    }

    /** Cancel an order by id; an unknown id changes nothing. */
    method Cancel(id: u64) returns (found: bool)
      requires Valid() && NoSharedPrice(Abs())
      modifies this, bids, asks, levelPool, orderPool
      ensures Valid() && found == (id in old(lookup)) && lookup == old(lookup) - {id}
      ensures Abs() == CancelSpec(old(Abs()), id)
    {
      hide Sides, PoolOk, LookupOk, NoEmptyQueue, Viewable, OnSide, RestsAt, Wrap64, DropOrder, NoSharedPrice, PlacedAt;
      if id !in lookup {
        Unknown(id);
        return false;
      }
      var p := lookup[id];
      LookupBack(orderPool.storage, home, lookup, id);
      var l, s, k, j := FindLevelOf(p);
      PlacedFacts(orderPool.storage, levelPool.storage, queues, s.State(), Other(s).State(), p, l, k, j);
      var total := Wrap64(levelPool.storage[l].item.totalQty - orderPool.storage[p].item.remainingQty);
      Retire(p, l, total, s, k, j);
      found := true;
    }

    lemma Unknown(id: u64)
      requires Valid() && id !in lookup
      ensures !OnSide(SideAbs(bids), id) && !OnSide(SideAbs(asks), id)
    {
      hide Sides, PoolOk, LookupOk, NoEmptyQueue, OnSide;
      FlipSides(orderPool.storage, levelPool.storage, queues, home, bids.State(), asks.State());
      SidesUsed(orderPool.storage, levelPool.storage, queues, home, bids.State(), asks.State());
      SidesUsed(orderPool.storage, levelPool.storage, queues, home, asks.State(), bids.State());
      NotOnOther(orderPool.storage, levelPool.storage, queues, home, lookup, bids.State(), asks.State(), id);
      NotOnOther(orderPool.storage, levelPool.storage, queues, home, lookup, asks.State(), bids.State(), id);
    }

    /** Rewrite a placed order's quantity or priority where it stands, and its level's volume with it. */
    method Rewrite(p: nat, l: nat, item: OrderData, total: u64, ghost s: BookSide, ghost k: nat, ghost j: nat)
      requires Valid() && p in home && SitsAt(p, l, s, k, j) && p < ORDER_CAPACITY && l < LEVEL_CAPACITY
      requires item == orderPool.storage[p].item.(remainingQty := item.remainingQty, prioritySeq := item.prioritySeq)
      requires total == Wrap64(levelPool.storage[l].item.totalQty - orderPool.storage[p].item.remainingQty +
                               item.remainingQty)
      modifies orderPool`storage, levelPool`storage
      ensures Valid() && SitsAt(p, l, s, k, j)
      ensures orderPool.storage == old(orderPool.storage)[p := old(orderPool.storage[p]).(item := item)]
      ensures levelPool.storage ==
              old(levelPool.storage)[l :=
                                     old(levelPool.storage[l]).(item :=
                                                                old(levelPool.storage[l].item).(totalQty := total))]
      ensures k < |old(SideAbs(s))| && j < |old(SideAbs(s))[k].queue|
      ensures SideAbs(s) == var abs := old(SideAbs(s)); abs[k := abs[k].(queue := abs[k].queue[j := RestingOf(item)])]
      ensures SideAbs(Other(s)) == old(SideAbs(Other(s)))
    {
      hide Sides, PoolOk, LookupOk, NoEmptyQueue, Viewable, RestsAt, OnSide, Wrap64;
      ghost var os, ls, t, abs := orderPool.storage, levelPool.storage, Other(s), SideAbs(s);
      Oriented(s);
      orderPool.storage := orderPool.storage[p := orderPool.storage[p].(item := item)];
      levelPool.storage :=
        levelPool.storage[l := levelPool.storage[l].(item := levelPool.storage[l].item.(totalQty := total))];
      UpdateSides(os, ls, orderPool.storage, levelPool.storage, queues, home, j, item, total, s.State(), k, t.State());
      RewrittenLookup(os, home, lookup, p, item);
      RewrittenRest(abs, k, j, os[p].item.orderId, RestingOf(item));
      Reassemble(s);
      SidesUsed(orderPool.storage, levelPool.storage, queues, home, s.State(), t.State());
      FlipSides(orderPool.storage, levelPool.storage, queues, home, s.State(), t.State());
      SidesUsed(orderPool.storage, levelPool.storage, queues, home, t.State(), s.State());
    }

    /** Record a fill against a linked order; a fully filled order leaves the book. */
    method FillOrder(p: nat, filled: u64)
      requires Valid() && p in home && p < ORDER_CAPACITY && filled <= orderPool.storage[p].item.remainingQty
      requires NoSharedPrice(Abs())
      modifies this, bids, asks, levelPool, orderPool
      ensures Valid()
      ensures Abs() == FillSpec(old(Abs()), old(orderPool.storage[p].item.orderId),
                                old(orderPool.storage[p].item.remainingQty) - filled)
      ensures if filled == old(orderPool.storage[p].item.remainingQty)
              then lookup == old(lookup) - {old(orderPool.storage[p].item.orderId)} && home == old(home) - {p}
              else lookup == old(lookup) && home == old(home)
    {
      hide Sides, PoolOk, LookupOk, NoEmptyQueue, Viewable, OnSide, RestsAt, Wrap64, DropOrder, ResizeOrder,
        NoSharedPrice, PlacedAt, RestingOf;
      var l, s, k, j := FindLevelOf(p);
      PlacedFacts(orderPool.storage, levelPool.storage, queues, s.State(), Other(s).State(), p, l, k, j);
      ghost var abs, was := SideAbs(s), orderPool.storage[p].item;
      var left := orderPool.storage[p].item.remainingQty - filled;
      var total := Wrap64(levelPool.storage[l].item.totalQty - filled);
      Rewrite(p, l, orderPool.storage[p].item.(remainingQty := left), total, s, k, j);
      FilledSide(abs, k, j, was, left);
      if orderPool.storage[p].item.remainingQty == 0 {
        WrapSame(total);
        Retire(p, l, total, s, k, j);
      }
    }

    /** `orders.remove(order); orders.append(order)`. */
    method RemoveAndAppend(l: nat, p: nat, ghost nodes: seq<nat>, ghost j: nat) returns (ghost mid: seq<LiveOrder>)
      requires l < |levelPool.storage| && QueueOk(orderPool.storage, levelPool.storage[l].item, nodes)
      requires j < |nodes| && nodes[j] == p && p < |orderPool.storage|
      modifies orderPool`storage, levelPool`storage
      ensures |orderPool.storage| == old(|orderPool.storage|) && LinkedOutLoose(old(orderPool.storage), nodes, j, mid)
      ensures var rest := DeletedAt(nodes, j);
              LinkedIn(mid, rest, |rest|, p, old(orderPool.storage[p].item), orderPool.storage)
      ensures var rest := DeletedAt(nodes, j);
              levelPool.storage == old(levelPool.storage)[l := old(levelPool.storage[l]).(item :=
                old(levelPool.storage[l].item).(head := if rest == [] then p else First(rest), tail := p))]
    {
      hide QueueOk, Chain, LinkedIn, LinkedOutLoose, SameItems;
      ghost var os := orderPool.storage;
      QueueEnds(os, levelPool.storage[l].item, nodes);
      RemoveEnds(os, levelPool.storage[l].item, nodes, j);
      ListRemove(l, p, nodes, j);
      mid := orderPool.storage;
      LooseChain(os, nodes, j, mid);
      ItemKept(os, mid, p);
      ListAppend(l, p, DeletedAt(nodes, j));
    }

    /** Send a placed order to the tail of its queue. */
    method MoveToTail(p: nat, l: nat, ghost s: BookSide, ghost k: nat, ghost j: nat)
      requires Valid() && p in home && SitsAt(p, l, s, k, j) && p < ORDER_CAPACITY && l < LEVEL_CAPACITY
      modifies orderPool`storage, levelPool`storage, `queues
      ensures Valid()
      ensures k < |old(SideAbs(s))| && j < |old(SideAbs(s))[k].queue|
      ensures SideAbs(s) == var abs := old(SideAbs(s));
              abs[k := abs[k].(queue := DeletedAt(abs[k].queue, j) + [abs[k].queue[j]])]
      ensures SideAbs(Other(s)) == old(SideAbs(Other(s)))
    {
      hide Sides, PoolOk, LookupOk, NoEmptyQueue, Viewable, RestsAt, OnSide, QueueOk, LinkedIn, LinkedOutLoose,
        RestingOf, SameItems;
      ghost var os, ls, t, nodes := orderPool.storage, levelPool.storage, Other(s), queues[l];
      Oriented(s);
      SidesAt(os, ls, queues, home, s.State(), t.State(), k);
      ghost var mid := RemoveAndAppend(l, p, nodes, j);
      MoveSides(os, ls, mid, orderPool.storage, levelPool.storage, queues, home, j, s.State(), k, t.State());
      MovedLookup(os, orderPool.storage, home, lookup);
      MovedQueues(queues, l, j);
      queues := queues[l := DeletedAt(nodes, j) + [p]];
      Reassemble(s);
    }

    /** Give a placed order a larger quantity and a new priority, at the tail of its queue. */
    method Enlarge(p: nat, l: nat, item: OrderData, total: u64, ghost s: BookSide, ghost k: nat, ghost j: nat)
      requires Valid() && p in home && SitsAt(p, l, s, k, j) && p < ORDER_CAPACITY && l < LEVEL_CAPACITY
      requires item == orderPool.storage[p].item.(remainingQty := item.remainingQty, prioritySeq := item.prioritySeq)
      requires total == Wrap64(levelPool.storage[l].item.totalQty - orderPool.storage[p].item.remainingQty +
                               item.remainingQty)
      modifies orderPool`storage, levelPool`storage, `queues
      ensures Valid()
      ensures k < |old(SideAbs(s))| && j < |old(SideAbs(s))[k].queue|
      ensures SideAbs(s) == var abs := old(SideAbs(s));
              abs[k := abs[k].(queue := DeletedAt(abs[k].queue, j) + [RestingOf(item)])]
      ensures SideAbs(Other(s)) == old(SideAbs(Other(s)))
    {
      hide Sides, PoolOk, LookupOk, NoEmptyQueue, PlacedAt, Wrap64, RestingOf;
      ghost var abs := SideAbs(s);
      Rewrite(p, l, item, total, s, k, j);
      DeletedUpdated(abs[k].queue, j, RestingOf(item));
      MoveToTail(p, l, s, k, j);
    }

    /** Change an order's quantity: a decrease keeps its place, an increase sends it to the tail with
        the new priority, the same quantity does nothing; an unknown id changes nothing. */
    method ModifyQty(id: u64, qty: u64, prioritySeq: u64) returns (found: bool)
      requires Valid() && NoSharedPrice(Abs())
      modifies this, bids, asks, levelPool, orderPool
      ensures Valid() && found == (id in old(lookup)) && lookup == old(lookup)
      ensures Abs() == ModifySpec(old(Abs()), id, qty, prioritySeq)
    {
      hide Sides, PoolOk, LookupOk, NoEmptyQueue, Viewable, OnSide, RestsAt, Wrap64, ResizeOrder, NoSharedPrice,
        PlacedAt, RestingOf;
      if id !in lookup {
        Unknown(id);
        return false;
      }
      var p := lookup[id];
      LookupBack(orderPool.storage, home, lookup, id);
      var l, s, k, j := FindLevelOf(p);
      PlacedFacts(orderPool.storage, levelPool.storage, queues, s.State(), Other(s).State(), p, l, k, j);
      ghost var abs := SideAbs(s);
      ResizeAt(abs, k, j, id, qty, prioritySeq);
      var order := orderPool.storage[p].item;
      ResizedViews(abs, k, j, order, qty, prioritySeq);
      found := true;
      if qty < order.remainingQty {
        var total := Wrap64(levelPool.storage[l].item.totalQty - (order.remainingQty - qty));
        Rewrite(p, l, order.(remainingQty := qty), total, s, k, j);
      } else if qty > order.remainingQty {
        var total := Wrap64(levelPool.storage[l].item.totalQty + (qty - order.remainingQty));
        Enlarge(p, l, order.(remainingQty := qty, prioritySeq := prioritySeq), total, s, k, j);
      }
    }

    /** Give back every order of one queue, walking its links. */
    method FreeQueue(head: int, ghost nodes: seq<nat>)
      requires Chain(orderPool.storage, nodes) && head == First(nodes)
      modifies orderPool`freeList
      ensures orderPool.freeList == old(orderPool.freeList) + nodes
    {
      var curr := head;
      ghost var i := 0;
      while curr != NULL
        invariant 0 <= i <= |nodes| && curr == At(nodes, i)
        invariant orderPool.freeList == old(orderPool.freeList) + nodes[..i]
        decreases |nodes| - i
      {
        LinksAt(orderPool.storage, nodes, i);
        var next := orderPool.storage[curr].next;
        orderPool.Deallocate(curr);
        curr, i := next, i + 1;
      }
    }

    /** Give back every level and order of side `s`, walking the links; the storages keep their contents.
        `orders` and `levels` are the slots in use before. */
    method ClearSide(s: BookSide, ghost orders: set<nat>, ghost levels: set<nat>, ghost mine: SideState,
                     ghost other: SideState)
      requires mine == s.State() && |levelPool.storage| == LEVEL_CAPACITY && |orderPool.storage| == ORDER_CAPACITY
      requires Sides(orderPool.storage, levelPool.storage, queues, home, mine, other)
      requires PoolOk(orderPool.freeList, ORDER_CAPACITY, orders) && PoolOk(levelPool.freeList, LEVEL_CAPACITY, levels)
      requires Lodged(home, s.levels) <= orders && Elements(s.levels) <= levels
      modifies s, levelPool`freeList, orderPool`freeList
      ensures s.best == NULL && s.index == map[] && s.levels == []
      ensures PoolOk(levelPool.freeList, LEVEL_CAPACITY, levels - Elements(mine.levels))
      ensures PoolOk(orderPool.freeList, ORDER_CAPACITY, orders - Lodged(home, mine.levels))
    {
      hide Sides, PoolOk, QueueOk, Chain, Lodged, Elements;
      ghost var os, ls, chain := orderPool.storage, levelPool.storage, s.levels;
      SidesUsed(os, ls, queues, home, mine, other);
      SideBest(mine.side, ls, mine.best, mine.index, chain);
      NoneLodged(home);
      assert chain[..0] == [];
      assert levels - Elements(chain[..0]) == levels && orders - Lodged(home, chain[..0]) == orders;
      var curr := s.best;
      ghost var i := 0;
      while curr != NULL
        invariant 0 <= i <= |chain| && curr == At(chain, i)
        invariant PoolOk(levelPool.freeList, LEVEL_CAPACITY, levels - Elements(chain[..i]))
        invariant PoolOk(orderPool.freeList, ORDER_CAPACITY, orders - Lodged(home, chain[..i]))
        decreases |chain| - i
      {
        var next := FreeLevel(curr, chain, i, orders, levels, mine, other);
        curr, i := next, i + 1;
      }
      assert chain[..i] == chain;
      s.best := NULL;
      s.index := map[];
      s.levels := [];
    }

    /** Give back the level in position `i` of the list `chain` and its orders. */
    method FreeLevel(curr: int, ghost chain: seq<nat>, ghost i: nat, ghost orders: set<nat>, ghost levels: set<nat>,
                     ghost mine: SideState, ghost other: SideState) returns (next: int)
      requires |levelPool.storage| == LEVEL_CAPACITY && |orderPool.storage| == ORDER_CAPACITY
      requires Sides(orderPool.storage, levelPool.storage, queues, home, mine, other) && mine.levels == chain
      requires i < |chain| && curr == chain[i] && Lodged(home, chain) <= orders && Elements(chain) <= levels
      requires PoolOk(levelPool.freeList, LEVEL_CAPACITY, levels - Elements(chain[..i]))
      requires PoolOk(orderPool.freeList, ORDER_CAPACITY, orders - Lodged(home, chain[..i]))
      modifies levelPool`freeList, orderPool`freeList
      ensures next == At(chain, i + 1)
      ensures PoolOk(levelPool.freeList, LEVEL_CAPACITY, levels - Elements(chain[..i + 1]))
      ensures PoolOk(orderPool.freeList, ORDER_CAPACITY, orders - Lodged(home, chain[..i + 1]))
    {
      hide Sides, PoolOk, QueueOk, Chain, Lodged, Elements;
      LevelMet(orderPool.storage, levelPool.storage, queues, home, mine, other, i);
      LevelFreed(orderPool.storage, levelPool.storage, queues, home, mine, other, i, orderPool.freeList,
                 levelPool.freeList, orders, levels);
      next := levelPool.storage[curr].next;
      FreeQueue(levelPool.storage[curr].item.head, queues[curr]);
      levelPool.Deallocate(curr);
    }

    /** Empty the book. */
    method Clear()
      requires Valid()
      modifies this, bids, asks, levelPool, orderPool
      ensures Valid() && Abs() == EMPTY && lookup == map[]
    {
      hide Sides, PoolOk, LookupOk, NoEmptyQueue, Lodged, Elements;
      ghost var os, ls, b, a := orderPool.storage, levelPool.storage, bids.State(), asks.State();
      SidesCovered(os, ls, queues, home, b, a);
      FlipSides(os, ls, queues, home, b, a);
      ClearSide(bids, home.Keys, queues.Keys, b, a);
      ClearSide(asks, home.Keys - Lodged(home, b.levels), queues.Keys - Elements(b.levels), a, b);
      lookup := map[];
      queues, home := map[], map[];
      assert home.Keys == {} && queues.Keys == {};
      EmptySides(os, ls);
    }

    /** Every pool slot is either free or accounted for by the abstract book, and the lookup knows
        exactly the resting ids. */
    lemma Accounts()
      requires Valid()
      ensures |orderPool.freeList| + OrderCount(Abs().bids) + OrderCount(Abs().asks) == ORDER_CAPACITY
      ensures |levelPool.freeList| + |Abs().bids| + |Abs().asks| == LEVEL_CAPACITY
      ensures forall id :: id in lookup <==> OnSide(Abs().bids, id) || OnSide(Abs().asks, id)
      ensures forall price :: price in bids.index <==> PriceOn(Abs().bids, price)
      ensures forall price :: price in asks.index <==> PriceOn(Abs().asks, price)
    {
      hide Sides, LookupOk, NoEmptyQueue, OnSide, PriceOn, QueueOk;
      var os, ls, b, a := orderPool.storage, levelPool.storage, bids.State(), asks.State();
      SidesCount(os, ls, queues, home, b, a);
      FlipSides(os, ls, queues, home, b, a);
      SidesUsed(os, ls, queues, home, b, a);
      SidesUsed(os, ls, queues, home, a, b);
      forall price: Price
        ensures price in bids.index <==> PriceOn(Abs().bids, price)
        ensures price in asks.index <==> PriceOn(Abs().asks, price)
      {
        IndexedPrice(os, ls, queues, home, b, a, price);
        IndexedPrice(os, ls, queues, home, a, b, price);
      }
      forall id: u64
        ensures id in lookup <==> OnSide(Abs().bids, id) || OnSide(Abs().asks, id)
      {
        Known(id);
      }
    }

    /** The price recorded with an order is the price it rests at. */
    lemma KnownPrice(id: u64)
      requires Valid() && id in lookup
      ensures lookup[id] < |orderPool.storage|
      ensures RestsAtPrice(Abs(), id, orderPool.storage[lookup[id]].item.price)
    {
      hide Sides, LookupOk, NoEmptyQueue, QuotedAt, PoolOk, PlacedAt;
      var os, ls, p := orderPool.storage, levelPool.storage, lookup[id];
      LookupBack(os, home, lookup, id);
      LevelOf(os, ls, queues, home, bids.State(), asks.State(), p);
      var s := if home[p] in bids.levels then bids else asks;
      Oriented(s);
      var k, j := Place(os, ls, queues, home, lookup, s.State(), Other(s).State(), p);
      PlacedPrice(os, ls, queues, s.State(), Other(s).State(), p, home[p], k, j);
    }

    lemma Known(id: u64)
      requires Valid()
      ensures id in lookup <==> OnSide(Abs().bids, id) || OnSide(Abs().asks, id)
    {
      hide Sides, LookupOk, NoEmptyQueue, OnSide, PoolOk, PlacedAt;
      if id in lookup {
        var os, ls, p := orderPool.storage, levelPool.storage, lookup[id];
        LookupBack(os, home, lookup, id);
        LevelOf(os, ls, queues, home, bids.State(), asks.State(), p);
        var s := if home[p] in bids.levels then bids else asks;
        Oriented(s);
        var k, j := Place(os, ls, queues, home, lookup, s.State(), Other(s).State(), p);
        PlacedFacts(os, ls, queues, s.State(), Other(s).State(), p, home[p], k, j);
      } else {
        Unknown(id);
      }
    }

    /** `level` is the best level of side `s` and `p` the head of its queue. */
    ghost predicate HeadAt(s: BookSide, level: nat, p: nat)
      reads s, levelPool
    {
      s.best == level && level < |levelPool.storage| && levelPool.storage[level].item.head == p
    }

    /** What the engine reads at the front of side `s`. */
    lemma Front(s: BookSide)
      requires Valid() && (s == bids || s == asks)
      ensures s.best == NULL <==> SideAbs(s) == []
      ensures s.best != NULL ==>
                && FrontIs(orderPool.storage, levelPool.storage, s.best, home, lookup, SideAbs(s))
                && RestsAt(SideAbs(s), 0, 0, SideAbs(s)[0].queue[0].orderId)
                && OnSide(SideAbs(s), SideAbs(s)[0].queue[0].orderId)
                && !OnSide(SideAbs(Other(s)), SideAbs(s)[0].queue[0].orderId)
      ensures Sorted(s.side, SideAbs(s)) && NonEmptyQueues(SideAbs(s))
    {
      hide Sides, LookupOk, PoolOk, RestsAt, OnSide, FrontIs, QueueOk;
      var os, ls, t := orderPool.storage, levelPool.storage, Other(s);
      Oriented(s);
      FlipSides(os, ls, queues, home, s.State(), t.State());
      SidesUsed(os, ls, queues, home, s.State(), t.State());
      SidesUsed(os, ls, queues, home, t.State(), s.State());
      FrontOf(os, ls, queues, home, lookup, s.State(), t.State());
      if s.best != NULL {
        FrontFacts(os, ls, s.best, home, lookup, SideAbs(s));
        FrontRests(os, ls, queues, home, lookup, s.State(), t.State());
      }
    }

    /** `FillOrder` on the front order of side `s`; `next` is the link read off it beforehand. */
    method FillFront(s: BookSide, level: nat, p: nat, filled: u64, ghost next: int)
      requires Valid() && NoSharedPrice(Abs()) && (s == bids || s == asks) && HeadAt(s, level, p)
      requires p < ORDER_CAPACITY && next == orderPool.storage[p].next &&
               filled <= orderPool.storage[p].item.remainingQty
      modifies this, bids, asks, levelPool, orderPool
      ensures Valid()
      ensures var levels, left := old(SideAbs(s)), old(orderPool.storage[p].item.remainingQty) - filled;
              && levels != [] && levels[0].queue != []
              && SideAbs(s) == (if left == 0 then WithoutHead(levels) else ShrinkHead(levels, left))
              && (left == 0 && next != NULL ==> next >= 0 && HeadAt(s, level, next) && |levels[0].queue| > 1)
      ensures SideAbs(Other(s)) == old(SideAbs(Other(s)))
    {
      hide Sides, PoolOk, LookupOk, NoEmptyQueue, RestsAt, OnSide, FillLevels, NoSharedPrice, FrontIs, Sorted,
        NonEmptyQueues, RestingOf,
        LimitOrderBook.SideAbs, ShrinkHead;
      Front(s);
      ghost var os, ls, homes, known, levels := orderPool.storage, levelPool.storage, home, lookup, SideAbs(s);
      ghost var left := orderPool.storage[p].item.remainingQty - filled;
      FrontFacts(os, ls, level, homes, known, levels);
      FrontItem(os[p].item, levels[0].queue[0]);
      FillOrder(p, filled);
      FillHead(levels, left);
      Front(s);
      if left == 0 && next != NULL {
        NextFront(os, ls, level, homes, known, levels, orderPool.storage, levelPool.storage, s.best, home, lookup,
                  SideAbs(s));
      }
    }
  }

  lemma FrontItem(item: OrderData, r: Resting)
    requires RestingOf(item) == r
    ensures item.orderId == r.orderId && item.remainingQty == r.qty
  {
  }

  lemma FrontFacts(os: seq<LiveOrder>, ls: seq<PriceLevelNode>, best: int, home: map<nat, nat>, lookup: map<u64, nat>,
                   abs: seq<Level>)
    requires FrontIs(os, ls, best, home, lookup, abs)
    ensures abs != [] && abs[0].queue != [] && abs[0].queue[0].orderId in lookup && 0 <= best < |ls| &&
            ls[best].item.price == abs[0].price
    ensures var p := lookup[abs[0].queue[0].orderId];
            p < |os| && p in home && ls[best].item.head == p && RestingOf(os[p].item) == abs[0].queue[0]
  {
  }

  lemma SidesCount(os: seq<LiveOrder>, ls: seq<PriceLevelNode>, queues: map<nat, seq<nat>>, home: map<nat, nat>,
                   b: SideState, a: SideState)
    requires Sides(os, ls, queues, home, b, a)
    ensures |home| == OrderCount(AbsSide(os, ls, b.levels, queues)) + OrderCount(AbsSide(os, ls, a.levels, queues))
    ensures |queues| == |b.levels| + |a.levels|
  {
    hide Lodged, Elements, OrderCount, TwoSides, SideOk, Sides;
    FlipSides(os, ls, queues, home, b, a);
    SideCount(os, ls, queues, home, b, a);
    SideCount(os, ls, queues, home, a, b);
    SidesCovered(os, ls, queues, home, b, a);
    CoverSize(home.Keys, Lodged(home, b.levels), Lodged(home, a.levels));
    CoverSize(queues.Keys, Elements(b.levels), Elements(a.levels));
  }

  lemma CoverSize(all: set<nat>, x: set<nat>, y: set<nat>)
    requires x <= all && y <= all - x && all - x - y == {}
    ensures |all| == |x| + |y|
  {
    assert all == x + y;
  }

  lemma SideCount(os: seq<LiveOrder>, ls: seq<PriceLevelNode>, queues: map<nat, seq<nat>>, home: map<nat, nat>,
                  mine: SideState, other: SideState)
    requires Sides(os, ls, queues, home, mine, other)
    ensures Viewable(os, ls, mine.levels, queues)
    ensures |Lodged(home, mine.levels)| == OrderCount(AbsSide(os, ls, mine.levels, queues))
    ensures |Elements(mine.levels)| == |mine.levels|
  {
    hide Lodged, Elements, OrderCount, SideOk, Sides;
    SidesUsed(os, ls, queues, home, mine, other);
    LodgedCount(os, ls, queues, home, mine, other, |mine.levels|);
    assert mine.levels[..|mine.levels|] == mine.levels;
    var abs := AbsSide(os, ls, mine.levels, queues);
    assert abs[..|mine.levels|] == abs;
    SideSorted(mine.side, ls, mine.best, mine.index, mine.levels);
    DistinctSize(mine.levels);
  }

  /** Every linked order and level is met from one side or the other. */
  lemma SidesCovered(os: seq<LiveOrder>, ls: seq<PriceLevelNode>, queues: map<nat, seq<nat>>, home: map<nat, nat>,
                     b: SideState, a: SideState)
    requires Sides(os, ls, queues, home, b, a)
    ensures Lodged(home, b.levels) <= home.Keys && Lodged(home, a.levels) <= home.Keys - Lodged(home, b.levels)
    ensures home.Keys - Lodged(home, b.levels) - Lodged(home, a.levels) == {}
    ensures Elements(b.levels) <= queues.Keys && Elements(a.levels) <= queues.Keys - Elements(b.levels)
    ensures queues.Keys - Elements(b.levels) - Elements(a.levels) == {}
  {
    hide SideOk, QueueOk;
  }

  lemma EmptySides(os: seq<LiveOrder>, ls: seq<PriceLevelNode>)
    ensures Sides(os, ls, map[], map[], SideState(Buy, NULL, map[], []), SideState(Sell, NULL, map[], []))
    ensures LookupOk(os, map[], map[]) && NoEmptyQueue(map[])
  {
  }

  lemma LevelMet(os: seq<LiveOrder>, ls: seq<PriceLevelNode>, queues: map<nat, seq<nat>>, home: map<nat, nat>,
                 mine: SideState, other: SideState, i: nat)
    requires Sides(os, ls, queues, home, mine, other) && i < |mine.levels|
    ensures var l := mine.levels[i];
            && l < |ls| && l in queues && ls[l].next == At(mine.levels, i + 1)
            && Chain(os, queues[l]) && ls[l].item.head == First(queues[l])
  {
    hide Sides, QueueOk, Chain;
    SidesUsed(os, ls, queues, home, mine, other);
    SideBest(mine.side, ls, mine.best, mine.index, mine.levels);
    LinksAt(ls, mine.levels, i);
    SidesAt(os, ls, queues, home, mine, other, i);
    QueueEnds(os, ls[mine.levels[i]].item, queues[mine.levels[i]]);
  }

  lemma LevelFreed(os: seq<LiveOrder>, ls: seq<PriceLevelNode>, queues: map<nat, seq<nat>>, home: map<nat, nat>,
                   mine: SideState, other: SideState, i: nat, ofree: seq<nat>, lfree: seq<nat>, orders: set<nat>,
                     levels: set<nat>)
    requires Sides(os, ls, queues, home, mine, other) && i < |mine.levels| && mine.levels[i] in queues
    requires Lodged(home, mine.levels) <= orders && Elements(mine.levels) <= levels && mine.levels[i] < |ls|
    requires PoolOk(ofree, |os|, orders - Lodged(home, mine.levels[..i]))
    requires PoolOk(lfree, |ls|, levels - Elements(mine.levels[..i]))
    ensures PoolOk(ofree + queues[mine.levels[i]], |os|, orders - Lodged(home, mine.levels[..i + 1]))
    ensures PoolOk(lfree + [mine.levels[i]], |ls|, levels - Elements(mine.levels[..i + 1]))
  {
    hide Sides, PoolOk, Lodged, Elements;
    var l := mine.levels[i];
    SidesDistinct(os, ls, queues, home, mine, other, i);
    LodgedNext(os, ls, queues, home, mine, other, i);
    PoolGiveAll(ofree, |os|, orders - Lodged(home, mine.levels[..i]), queues[l]);
    PoolGive(lfree, |ls|, levels - Elements(mine.levels[..i]), l);
    assert orders - Lodged(home, mine.levels[..i]) - Elements(queues[l]) == orders - Lodged(home, mine.levels[..i + 1]);
    assert levels - Elements(mine.levels[..i]) - {l} == levels - Elements(mine.levels[..i + 1]);
  }

  lemma ItemKept(os: seq<LiveOrder>, os': seq<LiveOrder>, p: nat)
    requires SameItems(os, os') && p < |os|
    ensures os'[p].item == os[p].item
  {
  }

  lemma MovedLookup(os: seq<LiveOrder>, os': seq<LiveOrder>, home: map<nat, nat>, lookup: map<u64, nat>)
    requires LookupOk(os, home, lookup) && SameItems(os, os')
    ensures LookupOk(os', home, lookup) && |os'| == |os|
  {
  }

  lemma MovedQueues(queues: map<nat, seq<nat>>, l: nat, j: nat)
    requires NoEmptyQueue(queues) && l in queues && j < |queues[l]|
    ensures NoEmptyQueue(queues[l := DeletedAt(queues[l], j) + [queues[l][j]]])
  {
  }

  /** The in-place and the move-to-tail results, as the abstract resize states them. */
  lemma ResizedViews(abs: seq<Level>, k: nat, j: nat, item: OrderData, qty: u64, prioritySeq: u64)
    requires k < |abs| && j < |abs[k].queue| && abs[k].queue[j] == RestingOf(item)
    ensures RestingOf(item.(remainingQty := qty)) == abs[k].queue[j].(qty := qty)
    ensures RestingOf(item.(remainingQty := qty, prioritySeq := prioritySeq)) ==
            abs[k].queue[j].(qty := qty, prioritySeq := prioritySeq)
    ensures abs[k].queue[j].qty == item.remainingQty
    ensures qty == item.remainingQty ==>
            abs[k := abs[k].(queue := abs[k].queue[j := abs[k].queue[j].(qty := qty)])] == abs
  {
    if qty == item.remainingQty {
      assert abs[k].queue[j := abs[k].queue[j].(qty := qty)] == abs[k].queue;
    }
  }

  lemma WrapSame(x: u64)
    ensures Wrap64(x - 0) == x
  {
  }

  lemma FilledSide(abs: seq<Level>, k: nat, j: nat, item: OrderData, left: u64)
    requires RestsAt(abs, k, j, item.orderId) && abs[k].queue[j] == RestingOf(item) && left <= item.remainingQty
    ensures var after := abs[k := abs[k].(queue := abs[k].queue[j := RestingOf(item.(remainingQty := left))])];
            && (left != 0 ==> after == FillLevels(abs, item.orderId, left))
            && DropOrder(after, item.orderId) == DropOrder(abs, item.orderId)
  {
    var after := abs[k := abs[k].(queue := abs[k].queue[j := RestingOf(item.(remainingQty := left))])];
    hide DropOrder, ResizeOrder;
    ResizeAt(abs, k, j, item.orderId, left, 0);
    RewrittenRest(abs, k, j, item.orderId, RestingOf(item.(remainingQty := left)));
    hide RestsAt;
    DropAt(abs, k, j, item.orderId);
    DropAt(after, k, j, item.orderId);
    DeletedUpdated(abs[k].queue, j, RestingOf(item.(remainingQty := left)));
    DeletedUpdated(abs, k, after[k]);
  }

  lemma RewrittenLookup(os: seq<LiveOrder>, home: map<nat, nat>, lookup: map<u64, nat>, p: nat, item: OrderData)
    requires LookupOk(os, home, lookup) && p < |os| && item.orderId == os[p].item.orderId
    ensures LookupOk(os[p := os[p].(item := item)], home, lookup)
  {
  }

  lemma RewrittenRest(abs: seq<Level>, k: nat, j: nat, id: u64, r: Resting)
    requires RestsAt(abs, k, j, id) && r.orderId == id
    ensures RestsAt(abs[k := abs[k].(queue := abs[k].queue[j := r])], k, j, id)
  {
  }

  lemma RetiredLookup(os: seq<LiveOrder>, os': seq<LiveOrder>, home: map<nat, nat>, lookup: map<u64, nat>, p: nat)
    requires LookupOk(os, home, lookup) && p in home && p < |os| && SameItems(os, os')
    ensures LookupOk(os', home - {p}, lookup - {os[p].item.orderId})
  {
  }

  /** Shortening the queue and then closing the level if it ran empty is dropping the order. */
  lemma Detached(abs: seq<Level>, k: nat, j: nat, id: u64)
    requires RestsAt(abs, k, j, id)
    ensures var mid := abs[k := abs[k].(queue := DeletedAt(abs[k].queue, j))];
            DropOrder(abs, id) == if |abs[k].queue| == 1 then DeletedAt(mid, k) else mid
  {
    hide DropOrder;
    DropAt(abs, k, j, id);
    DeletedUpdated(abs, k, abs[k].(queue := DeletedAt(abs[k].queue, j)));
  }

  lemma RetiredQueues(queues: map<nat, seq<nat>>, after: map<nat, seq<nat>>, l: nat, j: nat)
    requires NoEmptyQueue(queues) && l in queues && j < |queues[l]|
    requires after == var mid := queues[l := DeletedAt(queues[l], j)]; if mid[l] == [] then mid - {l} else mid
    ensures NoEmptyQueue(after)
  {
  }

  lemma InsertedLookup(os: seq<LiveOrder>, os': seq<LiveOrder>, home: map<nat, nat>, lookup: map<u64, nat>,
                       nodes: seq<nat>, l: nat, p: nat, item: OrderData)
    requires LookupOk(os, home, lookup) && p < |os| && p !in home && item.orderId !in lookup
    requires Untouched(os[p := Node(item, NULL, NULL)], os', nodes, p) && os'[p].item == item
    ensures LookupOk(os', home[p := l], lookup[item.orderId := p])
  {
  }

  lemma InsertedQueues(queues: map<nat, seq<nat>>, mid: map<nat, seq<nat>>, l: nat, p: nat)
    requires NoEmptyQueue(queues) && l in mid
    requires mid == if l in queues then queues else queues[l := []]
    ensures NoEmptyQueue(mid[l := mid[l] + [p]])
  {
  }

  function ItemOf(order: Order, prioritySeq: u64): OrderData {
    OrderData(order.symbolId, order.orderId, order.price, order.qty, prioritySeq)
  }
}
