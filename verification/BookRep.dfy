/** The linked representation of the book as a value: pool storages, level lists, price
    indexes and the id lookup, with the invariants that tie them to the abstract book. */
module BookRep {
  import opened Domain
  import opened BookSpec
  import opened Links
  import opened Seqs

  datatype OrderData = OrderData(symbolId: u32, orderId: u64, price: Price, remainingQty: u64, prioritySeq: u64)

  type LiveOrder = Node<OrderData>

  /** A price level and the two ends of its intrusive order queue. */
  datatype LevelData = LevelData(price: Price, totalQty: u64, orderCount: nat, head: int, tail: int)

  type PriceLevelNode = Node<LevelData>

  function RestingOf(d: OrderData): Resting {
    Resting(d.symbolId, d.orderId, d.remainingQty, d.prioritySeq)
  }

  ghost predicate InStore<T(!new)>(s: seq<T>, nodes: seq<nat>) {
    forall i :: 0 <= i < |nodes| ==> nodes[i] < |s|
  }

  /** The resting orders a queue of slots holds. */
  ghost function View(os: seq<LiveOrder>, nodes: seq<nat>): (r: seq<Resting>)
    requires InStore(os, nodes)
    ensures |r| == |nodes|
    ensures forall i :: 0 <= i < |r| ==> r[i] == RestingOf(os[nodes[i]].item)
  {
    seq(|nodes|, i requires 0 <= i < |nodes| => RestingOf(os[nodes[i]].item))
  }

  /** The level record agrees with the queue it heads. */
  ghost predicate QueueOk(os: seq<LiveOrder>, lv: LevelData, nodes: seq<nat>) {
    && Chain(os, nodes) && InStore(os, nodes)
    && lv.head == First(nodes) && lv.tail == Last(nodes)
    && lv.orderCount == |nodes|
    && lv.totalQty == Wrap64(QueueSum(View(os, nodes)))
    && (forall i {:trigger os[nodes[i]]} :: 0 <= i < |nodes| ==> os[nodes[i]].item.price == lv.price)
  }

  /** `home` says which level queues which order, so no slot is in two queues. */
  ghost predicate HomesOk(queues: map<nat, seq<nat>>, home: map<nat, nat>) {
    && (forall l, k :: l in queues && 0 <= k < |queues[l]| ==> queues[l][k] in home && home[queues[l][k]] == l)
    && (forall p :: p in home ==> home[p] in queues && p in queues[home[p]])
  }

  /** Every linked level has a sound queue. */
  ghost predicate QueuesOk(os: seq<LiveOrder>, ls: seq<PriceLevelNode>, queues: map<nat, seq<nat>>,
                           home: map<nat, nat>) {
    && (forall l :: l in queues ==> l < |ls| && InStore(os, queues[l]) && QueueOk(os, ls[l].item, queues[l]))
    && HomesOk(queues, home)
  }

  lemma HomesAppended(queues: map<nat, seq<nat>>, home: map<nat, nat>, l: nat, p: nat)
    requires HomesOk(queues, home) && l in queues && p !in home
    ensures HomesOk(queues[l := queues[l] + [p]], home[p := l]) && p !in queues[l]
  {
  }

  lemma HomesDeleted(queues: map<nat, seq<nat>>, home: map<nat, nat>, l: nat, k: nat)
    requires HomesOk(queues, home) && l in queues && Distinct(queues[l]) && k < |queues[l]|
    ensures HomesOk(queues[l := DeletedAt(queues[l], k)], home - {queues[l][k]})
  {
    MembersDeleted(queues[l], k);
    var after := queues[l := DeletedAt(queues[l], k)];
    forall m, i | m in after && 0 <= i < |after[m]|
      ensures after[m][i] in home && home[after[m][i]] == m && after[m][i] != queues[l][k]
    {
      if m == l {
        assert after[m][i] in after[m];
      }
    }
  }

  /** The id lookup holds exactly the linked orders. */
  ghost predicate LookupOk(os: seq<LiveOrder>, home: map<nat, nat>, lookup: map<u64, nat>) {
    && (forall p :: p in home ==> p < |os| && os[p].item.orderId in lookup && lookup[os[p].item.orderId] == p)
    && (forall id :: id in lookup ==> lookup[id] in home && os[lookup[id]].item.orderId == id)
  }

  ghost predicate SortedLevels(side: Side, ls: seq<PriceLevelNode>, levels: seq<nat>) {
    && InStore(ls, levels)
    && (forall i, j :: 0 <= i < j < |levels| ==> Better(side, ls[levels[i]].item.price, ls[levels[j]].item.price))
  }

  ghost predicate Indexed(ls: seq<PriceLevelNode>, index: map<Price, nat>, levels: seq<nat>) {
    && InStore(ls, levels)
    && (forall i {:trigger ls[levels[i]]} :: 0 <= i < |levels| ==>
          ls[levels[i]].item.price in index && index[ls[levels[i]].item.price] == levels[i])
    && (forall p :: p in index ==> index[p] in levels && ls[index[p]].item.price == p)
  }

  /** One side: a well-linked, strictly sorted level list, its best pointer and its price index. */
  ghost predicate SideOk(side: Side, ls: seq<PriceLevelNode>, best: int, index: map<Price, nat>, levels: seq<nat>) {
    && Chain(ls, levels) && best == First(levels)
    && SortedLevels(side, ls, levels)
    && Indexed(ls, index, levels)
  }

  ghost predicate NoEmptyQueue(queues: map<nat, seq<nat>>) {
    forall l :: l in queues ==> |queues[l]| > 0
  }

  /** A fixed-capacity pool: each slot is either on the free list, once, or in use. */
  ghost predicate PoolOk(free: seq<nat>, capacity: nat, used: set<nat>) {
    && Distinct(free)
    && (forall i :: 0 <= i < |free| ==> free[i] < capacity && free[i] !in used)
    && |free| + |used| == capacity
  }

  /** The abstract levels a side stands for. */
  ghost function AbsSide(os: seq<LiveOrder>, ls: seq<PriceLevelNode>, levels: seq<nat>,
                         queues: map<nat, seq<nat>>): (r: seq<Level>)
    requires InStore(ls, levels)
    requires forall i :: 0 <= i < |levels| ==> levels[i] in queues && InStore(os, queues[levels[i]])
    ensures |r| == |levels|
    ensures forall i :: 0 <= i < |r| ==> r[i] == Level(ls[levels[i]].item.price, View(os, queues[levels[i]]))
  {
    seq(|levels|, i requires 0 <= i < |levels| => Level(ls[levels[i]].item.price, View(os, queues[levels[i]])))
  }

  // ----- frames

  lemma QueueFrame(os: seq<LiveOrder>, os': seq<LiveOrder>, lv: LevelData, nodes: seq<nat>)
    requires QueueOk(os, lv, nodes) && |os'| == |os|
    requires forall i :: 0 <= i < |nodes| ==> os'[nodes[i]] == os[nodes[i]]
    ensures QueueOk(os', lv, nodes) && View(os', nodes) == View(os, nodes)
  {
    assert View(os', nodes) == View(os, nodes);
    ChainFrame(os, os', nodes);
  }

  lemma QueueDistinct(os: seq<LiveOrder>, lv: LevelData, nodes: seq<nat>)
    requires QueueOk(os, lv, nodes)
    ensures Distinct(nodes)
  {
  }

  lemma QueueEnds(os: seq<LiveOrder>, lv: LevelData, nodes: seq<nat>)
    requires QueueOk(os, lv, nodes)
    ensures Chain(os, nodes) && lv.head == First(nodes) && lv.tail == Last(nodes) && lv.orderCount == |nodes|
  {
  }

  // ----- linking and unlinking an order

  function Appended(lv: LevelData, p: nat, qty: u64): LevelData {
    lv.(totalQty := Wrap64(lv.totalQty + qty), orderCount := lv.orderCount + 1,
        head := if lv.tail == NULL then p else lv.head, tail := p)
  }

  lemma ViewAppended(os: seq<LiveOrder>, os': seq<LiveOrder>, nodes: seq<nat>, p: nat)
    requires InStore(os, nodes) && p < |os| && p !in nodes && Untouched(os, os', nodes, p)
    ensures InStore(os', nodes + [p])
    ensures View(os', nodes + [p]) == View(os, nodes) + [RestingOf(os'[p].item)]
  {
  }

  lemma AppendToQueue(os: seq<LiveOrder>, lv: LevelData, nodes: seq<nat>, p: nat, item: OrderData, os': seq<LiveOrder>)
    requires QueueOk(os, lv, nodes) && item.price == lv.price && p !in nodes && p < |os|
    requires LinkedIn(os, nodes, |nodes|, p, item, os')
    ensures QueueOk(os', Appended(lv, p, item.remainingQty), nodes + [p])
    ensures View(os', nodes + [p]) == View(os, nodes) + [RestingOf(item)]
  {
    hide LinkedIn, Chain, Wrap64, QueueSum;
    LinkFrame(os, nodes, |nodes|, p, item, os');
    LinkAtNew(os, nodes, |nodes|, p, item, os');
    LinkAt(os, nodes, |nodes|, p, item, os');
    assert InsertedAt(nodes, |nodes|, p) == nodes + [p];
    ViewAppended(os, os', nodes, p);
    TotalAppended(View(os, nodes), RestingOf(item));
  }

  /** The level record after its queue loses the slot `p`, and `total` becomes its volume. */
  function Shortened(lv: LevelData, node: LiveOrder, total: u64): LevelData
    requires lv.orderCount > 0
  {
    LevelData(lv.price, total, lv.orderCount - 1,
              if node.prev == NULL then node.next else lv.head,
              if node.next == NULL then node.prev else lv.tail)
  }

  lemma ViewDeleted(os: seq<LiveOrder>, os': seq<LiveOrder>, nodes: seq<nat>, k: nat)
    requires InStore(os, nodes) && k < |nodes| && Untouched(os, os', nodes, NULL)
    ensures InStore(os', DeletedAt(nodes, k))
    ensures View(os', DeletedAt(nodes, k)) == DeletedAt(View(os, nodes), k)
  {
  }

  lemma RemoveFromQueue(os: seq<LiveOrder>, lv: LevelData, nodes: seq<nat>, k: nat, os': seq<LiveOrder>, total: u64)
    requires QueueOk(os, lv, nodes) && k < |nodes| && LinkedOut(os, nodes, k, os')
    requires total == Wrap64(lv.totalQty - os[nodes[k]].item.remainingQty)
    ensures QueueOk(os', Shortened(lv, os[nodes[k]], total), DeletedAt(nodes, k)) && InStore(os', DeletedAt(nodes, k))
    ensures View(os', DeletedAt(nodes, k)) == DeletedAt(View(os, nodes), k)
  {
    hide LinkedOut, Chain, First, Last, Wrap64, QueueSum;
    UnlinkFrame(os, nodes, k, os');
    UnlinkAt(os, nodes, k, os');
    ViewDeleted(os, os', nodes, k);
    TotalDeleted(View(os, nodes), k);
    RemoveEnds(os, lv, nodes, k);
  }

  lemma RemoveEnds(os: seq<LiveOrder>, lv: LevelData, nodes: seq<nat>, k: nat)
    requires QueueOk(os, lv, nodes) && k < |nodes|
    ensures (if os[nodes[k]].prev == NULL then os[nodes[k]].next else lv.head) == First(DeletedAt(nodes, k))
    ensures (if os[nodes[k]].next == NULL then os[nodes[k]].prev else lv.tail) == Last(DeletedAt(nodes, k))
  {
    assert os[nodes[k]].next == At(nodes, k + 1) && os[nodes[k]].prev == At(nodes, k - 1);
  }

  /** Views of the queues other than `l` are the same in both storages. */
  ghost predicate OtherViews(os: seq<LiveOrder>, os': seq<LiveOrder>, queues: map<nat, seq<nat>>, l: nat) {
    forall m :: m in queues && m != l ==>
      InStore(os, queues[m]) && InStore(os', queues[m]) && View(os', queues[m]) == View(os, queues[m])
  }

  lemma OtherQueues(os: seq<LiveOrder>, os': seq<LiveOrder>, ls: seq<PriceLevelNode>, queues: map<nat, seq<nat>>,
                    home: map<nat, nat>, l: nat, p: int)
    requires QueuesOk(os, ls, queues, home) && l in queues && p !in home
    requires Untouched(os, os', queues[l], p)
    ensures forall m :: m in queues && m != l ==> QueueOk(os', ls[m].item, queues[m])
    ensures OtherViews(os, os', queues, l)
  {
    hide QueueOk;
    forall m | m in queues && m != l
      ensures QueueOk(os', ls[m].item, queues[m]) && View(os', queues[m]) == View(os, queues[m])
    {
      forall i | 0 <= i < |queues[m]|
        ensures os'[queues[m][i]] == os[queues[m][i]]
      {
        assert home[queues[m][i]] == m;
      }
      QueueFrame(os, os', ls[m].item, queues[m]);
    }
  }

  lemma LinkOrder(os: seq<LiveOrder>, ls: seq<PriceLevelNode>, queues: map<nat, seq<nat>>, home: map<nat, nat>,
                  l: nat, p: nat, item: OrderData, os': seq<LiveOrder>)
    requires QueuesOk(os, ls, queues, home) && l in queues && p !in home && p < |os|
    requires item.price == ls[l].item.price
    requires LinkedIn(os, queues[l], |queues[l]|, p, item, os')
    ensures QueuesOk(os', ls[l := ls[l].(item := Appended(ls[l].item, p, item.remainingQty))],
                     queues[l := queues[l] + [p]], home[p := l])
    ensures InStore(os', queues[l] + [p]) && View(os', queues[l] + [p]) == View(os, queues[l]) + [RestingOf(item)]
    ensures OtherViews(os, os', queues, l)
  {
    hide LinkedIn, QueueOk, Untouched, HomesOk;
    HomesAppended(queues, home, l, p);
    AppendToQueue(os, ls[l].item, queues[l], p, item, os');
    LinkFrame(os, queues[l], |queues[l]|, p, item, os');
    OtherQueues(os, os', ls, queues, home, l, p);
  }

  lemma UnlinkOrder(os: seq<LiveOrder>, ls: seq<PriceLevelNode>, queues: map<nat, seq<nat>>, home: map<nat, nat>,
                    l: nat, k: nat, os': seq<LiveOrder>, total: u64)
    requires QueuesOk(os, ls, queues, home) && l in queues && k < |queues[l]|
    requires LinkedOut(os, queues[l], k, os') && ls[l].item.orderCount > 0 && queues[l][k] < |os|
    requires total == Wrap64(ls[l].item.totalQty - os[queues[l][k]].item.remainingQty)
    ensures var p := queues[l][k];
            QueuesOk(os', ls[l := ls[l].(item := Shortened(ls[l].item, os[p], total))],
                     queues[l := DeletedAt(queues[l], k)], home - {p})
    ensures InStore(os', DeletedAt(queues[l], k)) && InStore(os, queues[l])
    ensures View(os', DeletedAt(queues[l], k)) == DeletedAt(View(os, queues[l]), k)
    ensures OtherViews(os, os', queues, l)
  {
    hide LinkedOut, QueueOk, Untouched, Shortened, HomesOk, DeletedAt;
    QueueDistinct(os, ls[l].item, queues[l]);
    HomesDeleted(queues, home, l, k);
    RemoveFromQueue(os, ls[l].item, queues[l], k, os', total);
    UnlinkFrame(os, queues[l], k, os');
    OtherQueues(os, os', ls, queues, home, l, NULL);
  }

  /** Changing an order's quantity or priority in place. */
  lemma ViewUpdated(os: seq<LiveOrder>, nodes: seq<nat>, k: nat, item: OrderData)
    requires InStore(os, nodes) && Distinct(nodes) && k < |nodes|
    ensures var os' := os[nodes[k] := os[nodes[k]].(item := item)];
            View(os', nodes) == View(os, nodes)[k := RestingOf(item)]
  {
  }

  lemma LinksUpdated(os: seq<LiveOrder>, nodes: seq<nat>, p: nat, item: OrderData)
    requires Chain(os, nodes) && p < |os|
    ensures Chain(os[p := os[p].(item := item)], nodes)
  {
    ChainFrame(os, os[p := os[p].(item := item)], nodes);
  }

  lemma UpdateInQueue(os: seq<LiveOrder>, lv: LevelData, nodes: seq<nat>, k: nat, item: OrderData, total: u64,
                      os': seq<LiveOrder>)
    requires QueueOk(os, lv, nodes) && k < |nodes| && item.price == lv.price
    requires total == Wrap64(lv.totalQty - os[nodes[k]].item.remainingQty + item.remainingQty)
    requires os' == os[nodes[k] := os[nodes[k]].(item := item)]
    ensures QueueOk(os', lv.(totalQty := total), nodes)
    ensures View(os', nodes) == View(os, nodes)[k := RestingOf(item)]
  {
    hide Chain, Wrap64, QueueSum;
    QueueDistinct(os, lv, nodes);
    LinksUpdated(os, nodes, nodes[k], item);
    ViewUpdated(os, nodes, k, item);
    TotalUpdated(View(os, nodes), k, RestingOf(item));
  }

  lemma UpdateOrder(os: seq<LiveOrder>, ls: seq<PriceLevelNode>, queues: map<nat, seq<nat>>, home: map<nat, nat>,
                    l: nat, k: nat, item: OrderData, total: u64, os': seq<LiveOrder>)
    requires QueuesOk(os, ls, queues, home) && l in queues && k < |queues[l]| && queues[l][k] < |os|
    requires item.price == ls[l].item.price
    requires total == Wrap64(ls[l].item.totalQty - os[queues[l][k]].item.remainingQty + item.remainingQty)
    requires os' == os[queues[l][k] := os[queues[l][k]].(item := item)]
    ensures QueuesOk(os', ls[l := ls[l].(item := ls[l].item.(totalQty := total))], queues, home)
    ensures InStore(os', queues[l]) && InStore(os, queues[l])
    ensures View(os', queues[l]) == View(os, queues[l])[k := RestingOf(item)]
    ensures OtherViews(os, os', queues, l)
  {
    hide QueueOk;
    UpdateInQueue(os, ls[l].item, queues[l], k, item, total, os');
    forall m | m in queues && m != l
      ensures QueueOk(os', ls[m].item, queues[m]) && View(os', queues[m]) == View(os, queues[m])
    {
      assert forall i :: 0 <= i < |queues[m]| ==> home[queues[m][i]] == m;
      QueueFrame(os, os', ls[m].item, queues[m]);
    }
  }
}
