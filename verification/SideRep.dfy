/** The price-sorted level list of one side: opening, closing and re-labelling levels, and
    what each does to the abstract side. */
module SideRep {
  import opened Domain
  import opened Seqs
  import opened BookSpec
  import opened BookOps
  import opened Links
  import opened BookRep

  /** `price` belongs at position `k` of the sorted side: after every better level, before the rest. */
  ghost predicate Slot(side: Side, ls: seq<PriceLevelNode>, levels: seq<nat>, k: nat, price: Price)
    requires InStore(ls, levels)
  {
    && k <= |levels|
    && (forall i :: 0 <= i < k ==> Better(side, ls[levels[i]].item.price, price))
    && (forall i :: k <= i < |levels| ==> Better(side, price, ls[levels[i]].item.price))
  }

  lemma LevelAt(side: Side, ls: seq<PriceLevelNode>, best: int, index: map<Price, nat>, levels: seq<nat>, k: nat)
    requires SideOk(side, ls, best, index, levels) && k < |levels|
    ensures levels[k] < |ls| && ls[levels[k]].next == At(levels, k + 1) && ls[levels[k]].item.price in index
    ensures k + 1 < |levels| ==> levels[k + 1] < |ls|
  {
    assert ls[levels[k]].item.price in index;
  }

  lemma SideSorted(side: Side, ls: seq<PriceLevelNode>, best: int, index: map<Price, nat>, levels: seq<nat>)
    requires SideOk(side, ls, best, index, levels)
    ensures SortedLevels(side, ls, levels) && InStore(ls, levels) && Distinct(levels)
  {
  }

  lemma SideBest(side: Side, ls: seq<PriceLevelNode>, best: int, index: map<Price, nat>, levels: seq<nat>)
    requires SideOk(side, ls, best, index, levels)
    ensures best == First(levels) && Chain(ls, levels) && InStore(ls, levels) && SortedLevels(side, ls, levels)
  {
  }

  lemma BestSlot(side: Side, ls: seq<PriceLevelNode>, levels: seq<nat>, price: Price)
    requires SortedLevels(side, ls, levels) && (levels != [] ==> Better(side, price, ls[levels[0]].item.price))
    ensures Slot(side, ls, levels, 0, price)
  {
  }

  /** Where the walk from the best level stops is where a new price belongs. */
  lemma SlotAfter(side: Side, ls: seq<PriceLevelNode>, levels: seq<nat>, k: nat, price: Price)
    requires SortedLevels(side, ls, levels) && k < |levels| && Better(side, ls[levels[k]].item.price, price)
    requires k + 1 < |levels| ==> Better(side, price, ls[levels[k + 1]].item.price)
    ensures Slot(side, ls, levels, k + 1, price)
  {
  }

  /** Same links and prices on the listed levels. */
  ghost predicate SameLevels(ls: seq<PriceLevelNode>, ls': seq<PriceLevelNode>, levels: seq<nat>) {
    && InStore(ls, levels) && InStore(ls', levels)
    && (forall i {:trigger ls'[levels[i]]} :: 0 <= i < |levels| ==>
          && ls'[levels[i]].next == ls[levels[i]].next && ls'[levels[i]].prev == ls[levels[i]].prev
          && ls'[levels[i]].item.price == ls[levels[i]].item.price)
  }

  lemma SideFrame(side: Side, ls: seq<PriceLevelNode>, ls': seq<PriceLevelNode>, best: int, index: map<Price, nat>,
                  levels: seq<nat>)
    requires SideOk(side, ls, best, index, levels) && SameLevels(ls, ls', levels)
    ensures SideOk(side, ls', best, index, levels)
  {
    hide Chain, SortedLevels, Indexed, SameLevels;
    LinksFrame(ls, ls', levels);
    SortedFrame(side, ls, ls', levels);
    IndexedFrame(ls, ls', index, levels);
  }

  lemma LinksFrame(ls: seq<PriceLevelNode>, ls': seq<PriceLevelNode>, levels: seq<nat>)
    requires Chain(ls, levels) && SameLevels(ls, ls', levels)
    ensures Chain(ls', levels)
  {
    hide Chain;
    ChainFrame(ls, ls', levels);
  }

  lemma SortedFrame(side: Side, ls: seq<PriceLevelNode>, ls': seq<PriceLevelNode>, levels: seq<nat>)
    requires SortedLevels(side, ls, levels) && SameLevels(ls, ls', levels)
    ensures SortedLevels(side, ls', levels)
  {
  }

  lemma IndexedFrame(ls: seq<PriceLevelNode>, ls': seq<PriceLevelNode>, index: map<Price, nat>, levels: seq<nat>)
    requires Indexed(ls, index, levels) && SameLevels(ls, ls', levels)
    ensures Indexed(ls', index, levels)
  {
    forall p | p in index
      ensures index[p] in levels && ls'[index[p]].item.price == p
    {
      var i :| 0 <= i < |levels| && levels[i] == index[p];
      assert ls'[levels[i]].item.price == ls[levels[i]].item.price;
    }
  }

  lemma OpenLevel(side: Side, ls: seq<PriceLevelNode>, best: int, index: map<Price, nat>, levels: seq<nat>,
                  k: nat, n: nat, item: LevelData, ls': seq<PriceLevelNode>)
    requires SideOk(side, ls, best, index, levels) && n !in levels && n < |ls|
    requires Slot(side, ls, levels, k, item.price)
    requires LinkedIn(ls, levels, k, n, item, ls')
    ensures SideOk(side, ls', First(InsertedAt(levels, k, n)), index[item.price := n], InsertedAt(levels, k, n))
  {
    hide Chain, LinkedIn;
    LinkAt(ls, levels, k, n, item, ls');
    LinkAtNew(ls, levels, k, n, item, ls');
    LinkFrame(ls, levels, k, n, item, ls');
    OpenSorted(side, ls, levels, k, n, item, ls');
    OpenIndexed(ls, index, levels, k, n, item, ls');
  }

  lemma OpenSorted(side: Side, ls: seq<PriceLevelNode>, levels: seq<nat>, k: nat, n: nat, item: LevelData,
                   ls': seq<PriceLevelNode>)
    requires SortedLevels(side, ls, levels) && Slot(side, ls, levels, k, item.price) && n !in levels && n < |ls|
    requires Untouched(ls, ls', levels, n) && ls'[n].item == item
    ensures SortedLevels(side, ls', InsertedAt(levels, k, n))
  {
    var after := InsertedAt(levels, k, n);
    assert InStore(ls', after);
    forall i, j | 0 <= i < j < |after|
      ensures Better(side, ls'[after[i]].item.price, ls'[after[j]].item.price)
    {
      OpenedAt(ls, levels, k, n, ls', i);
      OpenedAt(ls, levels, k, n, ls', j);
    }
  }

  lemma OpenedAt(ls: seq<PriceLevelNode>, levels: seq<nat>, k: nat, n: nat, ls': seq<PriceLevelNode>, i: nat)
    requires InStore(ls, levels) && k <= |levels| && n !in levels && Untouched(ls, ls', levels, n) && i <= |levels|
    ensures i != k ==> var p := if i < k then i else i - 1;
            InsertedAt(levels, k, n)[i] == levels[p] && ls'[levels[p]].item == ls[levels[p]].item
  {
  }

  lemma OpenIndexed(ls: seq<PriceLevelNode>, index: map<Price, nat>, levels: seq<nat>, k: nat, n: nat, item: LevelData,
                    ls': seq<PriceLevelNode>)
    requires Indexed(ls, index, levels) && k <= |levels| && n !in levels && n < |ls|
    requires Untouched(ls, ls', levels, n) && ls'[n].item == item
    requires forall i :: 0 <= i < |levels| ==> ls[levels[i]].item.price != item.price
    ensures Indexed(ls', index[item.price := n], InsertedAt(levels, k, n))
  {
    var after, index' := InsertedAt(levels, k, n), index[item.price := n];
    MembersInserted(levels, k, n);
    assert InStore(ls', after);
    forall i | 0 <= i < |after|
      ensures ls'[after[i]].item.price in index' && index'[ls'[after[i]].item.price] == after[i]
    {
      assert i != k ==> ls'[after[i]].item == ls[levels[if i < k then i else i - 1]].item;
    }
  }

  lemma CloseLevel(side: Side, ls: seq<PriceLevelNode>, best: int, index: map<Price, nat>, levels: seq<nat>, k: nat,
                   ls': seq<PriceLevelNode>)
    requires SideOk(side, ls, best, index, levels) && k < |levels| && LinkedOut(ls, levels, k, ls')
    ensures SideOk(side, ls', First(DeletedAt(levels, k)), index - {ls[levels[k]].item.price}, DeletedAt(levels, k))
  {
    hide Chain, LinkedOut;
    UnlinkAt(ls, levels, k, ls');
    UnlinkFrame(ls, levels, k, ls');
    CloseSorted(side, ls, levels, k, ls');
    CloseIndexed(side, ls, index, levels, k, ls');
  }

  lemma CloseSorted(side: Side, ls: seq<PriceLevelNode>, levels: seq<nat>, k: nat, ls': seq<PriceLevelNode>)
    requires SortedLevels(side, ls, levels) && k < |levels| && Untouched(ls, ls', levels, NULL)
    ensures SortedLevels(side, ls', DeletedAt(levels, k))
  {
    var after := DeletedAt(levels, k);
    forall i, j | 0 <= i < j < |after|
      ensures Better(side, ls'[after[i]].item.price, ls'[after[j]].item.price)
    {
      assert ls'[after[i]].item == ls[levels[if i < k then i else i + 1]].item;
      assert ls'[after[j]].item == ls[levels[if j < k then j else j + 1]].item;
    }
  }

  lemma CloseIndexed(side: Side, ls: seq<PriceLevelNode>, index: map<Price, nat>, levels: seq<nat>, k: nat,
                     ls': seq<PriceLevelNode>)
    requires Indexed(ls, index, levels) && k < |levels| && Untouched(ls, ls', levels, NULL)
    requires SortedLevels(side, ls, levels) && Distinct(levels)
    ensures Indexed(ls', index - {ls[levels[k]].item.price}, DeletedAt(levels, k))
  {
    var after := DeletedAt(levels, k);
    MembersDeleted(levels, k);
    assert InStore(ls', after);
    forall i | 0 <= i < |after|
      ensures ls'[after[i]].item.price in index && index[ls'[after[i]].item.price] == after[i]
      ensures ls'[after[i]].item.price != ls[levels[k]].item.price
    {
      assert ls'[after[i]].item == ls[levels[if i < k then i else i + 1]].item;
    }
  }

  // ----- queues and abstract levels

  /** Queues only read the level records, not the level links. */
  lemma HomesOpened(queues: map<nat, seq<nat>>, home: map<nat, nat>, n: nat)
    requires HomesOk(queues, home) && n !in queues
    ensures HomesOk(queues[n := []], home)
  {
  }

  lemma HomesClosed(queues: map<nat, seq<nat>>, home: map<nat, nat>, n: nat)
    requires HomesOk(queues, home) && n in queues && queues[n] == []
    ensures HomesOk(queues - {n}, home)
  {
  }

  lemma EmptyQueueOk(os: seq<LiveOrder>, price: Price)
    ensures QueueOk(os, LevelData(price, 0, 0, NULL, NULL), [])
  {
    assert View(os, []) == [];
  }

  lemma QueuesOpened(os: seq<LiveOrder>, ls: seq<PriceLevelNode>, ls': seq<PriceLevelNode>, queues: map<nat, seq<nat>>,
                     home: map<nat, nat>,
                     levels: seq<nat>, n: nat, price: Price)
    requires QueuesOk(os, ls, queues, home) && n !in queues && n < |ls|
    requires Untouched(ls, ls', levels, n) && ls'[n].item == LevelData(price, 0, 0, NULL, NULL)
    ensures QueuesOk(os, ls', queues[n := []], home)
  {
    hide QueueOk, HomesOk;
    HomesOpened(queues, home, n);
    EmptyQueueOk(os, price);
  }

  lemma QueuesClosed(os: seq<LiveOrder>, ls: seq<PriceLevelNode>, ls': seq<PriceLevelNode>, queues: map<nat, seq<nat>>,
                     home: map<nat, nat>,
                     levels: seq<nat>, n: nat)
    requires QueuesOk(os, ls, queues, home) && n in queues && queues[n] == []
    requires Untouched(ls, ls', levels, NULL)
    ensures QueuesOk(os, ls', queues - {n}, home)
  {
    hide QueueOk, HomesOk;
    HomesClosed(queues, home, n);
  }

  ghost predicate Viewable(os: seq<LiveOrder>, ls: seq<PriceLevelNode>, levels: seq<nat>, queues: map<nat, seq<nat>>) {
    && InStore(ls, levels)
    && (forall i :: 0 <= i < |levels| ==> levels[i] in queues && InStore(os, queues[levels[i]]))
  }

  /** The level at position `i` changes its queue; the others keep price and view. */
  lemma AbsChanged(os: seq<LiveOrder>, ls: seq<PriceLevelNode>, os': seq<LiveOrder>, ls': seq<PriceLevelNode>,
                   levels: seq<nat>, queues: map<nat, seq<nat>>, i: nat, nodes: seq<nat>)
    requires Viewable(os, ls, levels, queues) && i < |levels| && Distinct(levels)
    requires OtherViews(os, os', queues, levels[i]) && InStore(os', nodes)
    requires SameLevels(ls, ls', levels)
    ensures Viewable(os', ls', levels, queues[levels[i] := nodes])
    ensures AbsSide(os', ls', levels, queues[levels[i] := nodes])
         == AbsSide(os, ls, levels, queues)[i := Level(ls[levels[i]].item.price, View(os', nodes))]
  {
  }

  lemma AbsUnchanged(os: seq<LiveOrder>, ls: seq<PriceLevelNode>, os': seq<LiveOrder>, ls': seq<PriceLevelNode>,
                     levels: seq<nat>, queues: map<nat, seq<nat>>, queues': map<nat, seq<nat>>, l: nat)
    requires Viewable(os, ls, levels, queues) && l !in levels
    requires OtherViews(os, os', queues, l) && SameLevels(ls, ls', levels)
    requires forall m :: m in queues && m != l ==> m in queues' && queues'[m] == queues[m]
    ensures Viewable(os', ls', levels, queues')
    ensures AbsSide(os', ls', levels, queues') == AbsSide(os, ls, levels, queues)
  {
  }

  lemma AbsOpened(os: seq<LiveOrder>, ls: seq<PriceLevelNode>, ls': seq<PriceLevelNode>, levels: seq<nat>,
                  queues: map<nat, seq<nat>>,
                  k: nat, n: nat, price: Price)
    requires Viewable(os, ls, levels, queues) && n !in queues && n < |ls| && k <= |levels|
    requires Untouched(ls, ls', levels, n) && ls'[n].item.price == price
    ensures Viewable(os, ls', InsertedAt(levels, k, n), queues[n := []])
    ensures AbsSide(os, ls', InsertedAt(levels, k, n), queues[n := []])
         == InsertedAt(AbsSide(os, ls, levels, queues), k, Level(price, []))
  {
    ViewOpened(os, ls, ls', levels, queues, k, n);
    var after: seq<nat> := InsertedAt(levels, k, n);
    var x, y := AbsSide(os, ls', after, queues[n := []]),
      InsertedAt(AbsSide(os, ls, levels, queues), k, Level(price, []));
    AbsSize(os, ls', after, queues[n := []]);
    AbsSize(os, ls, levels, queues);
    hide AbsSide, Untouched, Viewable;
    forall i | 0 <= i < |after|
      ensures x[i] == y[i]
    {
      AbsOpenedAt(os, ls, ls', levels, queues, k, n, price, i);
    }
  }

  lemma AbsSize(os: seq<LiveOrder>, ls: seq<PriceLevelNode>, levels: seq<nat>, queues: map<nat, seq<nat>>)
    requires Viewable(os, ls, levels, queues)
    ensures |AbsSide(os, ls, levels, queues)| == |levels|
  {
  }

  lemma ViewOpened(os: seq<LiveOrder>, ls: seq<PriceLevelNode>, ls': seq<PriceLevelNode>, levels: seq<nat>,
                   queues: map<nat, seq<nat>>, k: nat, n: nat)
    requires Viewable(os, ls, levels, queues) && n !in queues && n < |ls| && k <= |levels| &&
             Untouched(ls, ls', levels, n)
    ensures Viewable(os, ls', InsertedAt(levels, k, n), queues[n := []])
  {
    hide Untouched;
    UntouchedSize(ls, ls', levels, n);
  }

  lemma AbsOpenedAt(os: seq<LiveOrder>, ls: seq<PriceLevelNode>, ls': seq<PriceLevelNode>, levels: seq<nat>,
                    queues: map<nat, seq<nat>>,
                    k: nat, n: nat, price: Price, i: nat)
    requires Viewable(os, ls, levels, queues) && n !in queues && n < |ls| && k <= |levels| && i <= |levels|
    requires Untouched(ls, ls', levels, n) && ls'[n].item.price == price
    requires Viewable(os, ls', InsertedAt(levels, k, n), queues[n := []])
    ensures AbsSide(os, ls', InsertedAt(levels, k, n), queues[n := []])[i] ==
            InsertedAt(AbsSide(os, ls, levels, queues), k, Level(price, []))[i]
  {
    hide View, Untouched;
    ViewNone(os);
    OpenedAt(ls, levels, k, n, ls', i);
  }

  lemma ViewNone(os: seq<LiveOrder>)
    ensures View(os, []) == []
  {
  }

  lemma UntouchedSize(ls: seq<PriceLevelNode>, ls': seq<PriceLevelNode>, levels: seq<nat>, n: int)
    requires Untouched(ls, ls', levels, n)
    ensures |ls'| == |ls|
  {
  }

  lemma AbsClosed(os: seq<LiveOrder>, ls: seq<PriceLevelNode>, ls': seq<PriceLevelNode>, levels: seq<nat>,
                  queues: map<nat, seq<nat>>, k: nat)
    requires Viewable(os, ls, levels, queues) && k < |levels| && Distinct(levels)
    requires Untouched(ls, ls', levels, NULL)
    ensures Viewable(os, ls', DeletedAt(levels, k), queues - {levels[k]})
    ensures AbsSide(os, ls', DeletedAt(levels, k), queues - {levels[k]})
         == DeletedAt(AbsSide(os, ls, levels, queues), k)
  {
  }

  /** Rewriting a level record without touching its price. */
  lemma SamePrices(ls: seq<PriceLevelNode>, l: nat, lv: LevelData, levels: seq<nat>)
    requires InStore(ls, levels) && l < |ls| && lv.price == ls[l].item.price
    ensures SameLevels(ls, ls[l := ls[l].(item := lv)], levels)
  {
  }

  /** Surgery on one side's level list does not reach the other side. */
  lemma OtherSide(ls: seq<PriceLevelNode>, ls': seq<PriceLevelNode>, levels: seq<nat>, n: int, others: seq<nat>)
    requires Untouched(ls, ls', levels, n) && InStore(ls, others) && n !in others
    requires forall l :: l in others ==> l !in levels
    ensures SameLevels(ls, ls', others)
  {
  }

  /** Writing a slot that no queue links. */
  lemma LooseWrite(os: seq<LiveOrder>, ls: seq<PriceLevelNode>, queues: map<nat, seq<nat>>, home: map<nat, nat>,
                   p: nat, x: LiveOrder, l: nat)
    requires QueuesOk(os, ls, queues, home) && p !in home && p < |os|
    ensures QueuesOk(os[p := x], ls, queues, home) && OtherViews(os, os[p := x], queues, l)
  {
    hide QueueOk;
    forall m | m in queues
      ensures QueueOk(os[p := x], ls[m].item, queues[m])
      ensures InStore(os[p := x], queues[m]) && View(os[p := x], queues[m]) == View(os, queues[m])
    {
      assert forall i :: 0 <= i < |queues[m]| ==> queues[m][i] in home;
      QueueFrame(os, os[p := x], ls[m].item, queues[m]);
    }
  }

  // ----- whole effects, on the side of the order and on the other side

  ghost predicate TwoSides(os: seq<LiveOrder>, ls: seq<PriceLevelNode>, queues: map<nat, seq<nat>>, home: map<nat, nat>,
                           levels: seq<nat>, others: seq<nat>) {
    && QueuesOk(os, ls, queues, home)
    && Viewable(os, ls, levels, queues) && Viewable(os, ls, others, queues)
    && Distinct(levels) && (forall l :: l in levels ==> l !in others)
  }

  lemma TwoSidesAt(os: seq<LiveOrder>, ls: seq<PriceLevelNode>, queues: map<nat, seq<nat>>, home: map<nat, nat>,
                   levels: seq<nat>, others: seq<nat>, k: nat)
    requires TwoSides(os, ls, queues, home, levels, others) && k < |levels|
    ensures levels[k] < |ls| && levels[k] in queues && levels[k] !in others
    ensures QueueOk(os, ls[levels[k]].item, queues[levels[k]]) && InStore(os, queues[levels[k]])
    ensures ls[levels[k]].item.orderCount == |queues[levels[k]]|
  {
  }

  /** Queueing slot `p` at the level in position `k`. */
  lemma AppendRep(os: seq<LiveOrder>, ls: seq<PriceLevelNode>, os': seq<LiveOrder>, ls': seq<PriceLevelNode>,
                  queues: map<nat, seq<nat>>, home: map<nat, nat>, p: nat, item: OrderData,
                  levels: seq<nat>, k: nat, others: seq<nat>)
    requires TwoSides(os, ls, queues, home, levels, others)
    requires k < |levels| && levels[k] in queues && levels[k] < |ls|
    requires p !in home && p < |os| && item.price == ls[levels[k]].item.price
    requires LinkedIn(os, queues[levels[k]], |queues[levels[k]]|, p, item, os')
    requires ls' == ls[levels[k] := ls[levels[k]].(item := Appended(ls[levels[k]].item, p, item.remainingQty))]
    ensures SameLevels(ls, ls', levels) && SameLevels(ls, ls', others)
    ensures TwoSides(os', ls', queues[levels[k] := queues[levels[k]] + [p]], home[p := levels[k]], levels, others)
    ensures AbsSide(os', ls', levels, queues[levels[k] := queues[levels[k]] + [p]])
         == var abs := AbsSide(os, ls, levels, queues); abs[k := abs[k].(queue := abs[k].queue + [RestingOf(item)])]
    ensures AbsSide(os', ls', others, queues[levels[k] := queues[levels[k]] + [p]]) == AbsSide(os, ls, others, queues)
  {
    hide QueuesOk, LinkedIn;
    var l := levels[k];
    LinkOrder(os, ls, queues, home, l, p, item, os');
    SamePrices(ls, l, Appended(ls[l].item, p, item.remainingQty), levels);
    SamePrices(ls, l, Appended(ls[l].item, p, item.remainingQty), others);
    AbsChanged(os, ls, os', ls', levels, queues, k, queues[l] + [p]);
    AbsUnchanged(os, ls, os', ls', others, queues, queues[l := queues[l] + [p]], l);
  }

  /** Unqueueing the slot in position `j` of that level. */
  lemma RemoveRep(os: seq<LiveOrder>, ls: seq<PriceLevelNode>, os': seq<LiveOrder>, ls': seq<PriceLevelNode>,
                  queues: map<nat, seq<nat>>, home: map<nat, nat>, j: nat, total: u64,
                  levels: seq<nat>, k: nat, others: seq<nat>)
    requires TwoSides(os, ls, queues, home, levels, others)
    requires k < |levels| && levels[k] in queues && levels[k] < |ls|
    requires j < |queues[levels[k]]| && queues[levels[k]][j] < |os| && ls[levels[k]].item.orderCount > 0
    requires LinkedOut(os, queues[levels[k]], j, os')
    requires total == Wrap64(ls[levels[k]].item.totalQty - os[queues[levels[k]][j]].item.remainingQty)
    requires ls' == ls[levels[k] :=
                       ls[levels[k]].(item := Shortened(ls[levels[k]].item, os[queues[levels[k]][j]], total))]
    ensures SameLevels(ls, ls', levels) && SameLevels(ls, ls', others)
    ensures TwoSides(os', ls', queues[levels[k] := DeletedAt(queues[levels[k]], j)], home - {queues[levels[k]][j]},
                     levels, others)
    ensures |AbsSide(os, ls, levels, queues)[k].queue| == |queues[levels[k]]|
    ensures AbsSide(os', ls', levels, queues[levels[k] := DeletedAt(queues[levels[k]], j)])
         == var abs := AbsSide(os, ls, levels, queues); abs[k := abs[k].(queue := DeletedAt(abs[k].queue, j))]
    ensures AbsSide(os', ls', others, queues[levels[k] := DeletedAt(queues[levels[k]], j)]) ==
            AbsSide(os, ls, others, queues)
  {
    hide QueuesOk, LinkedOut;
    var l := levels[k];
    UnlinkOrder(os, ls, queues, home, l, j, os', total);
    SamePrices(ls, l, Shortened(ls[l].item, os[queues[l][j]], total), levels);
    SamePrices(ls, l, Shortened(ls[l].item, os[queues[l][j]], total), others);
    AbsChanged(os, ls, os', ls', levels, queues, k, DeletedAt(queues[l], j));
    AbsUnchanged(os, ls, os', ls', others, queues, queues[l := DeletedAt(queues[l], j)], l);
  }

  /** Rewriting quantity or priority of the order in position `j` of that level. */
  lemma UpdateRep(os: seq<LiveOrder>, ls: seq<PriceLevelNode>, os': seq<LiveOrder>, ls': seq<PriceLevelNode>,
                  queues: map<nat, seq<nat>>, home: map<nat, nat>, j: nat, item: OrderData, total: u64,
                  levels: seq<nat>, k: nat, others: seq<nat>)
    requires TwoSides(os, ls, queues, home, levels, others)
    requires k < |levels| && levels[k] in queues && levels[k] < |ls|
    requires j < |queues[levels[k]]| && queues[levels[k]][j] < |os| && item.price == ls[levels[k]].item.price
    requires total == Wrap64(ls[levels[k]].item.totalQty - os[queues[levels[k]][j]].item.remainingQty +
                             item.remainingQty)
    requires os' == os[queues[levels[k]][j] := os[queues[levels[k]][j]].(item := item)]
    requires ls' == ls[levels[k] := ls[levels[k]].(item := ls[levels[k]].item.(totalQty := total))]
    ensures SameLevels(ls, ls', levels) && SameLevels(ls, ls', others)
    ensures TwoSides(os', ls', queues, home, levels, others)
    ensures |AbsSide(os, ls, levels, queues)[k].queue| == |queues[levels[k]]|
    ensures AbsSide(os', ls', levels, queues)
         == var abs := AbsSide(os, ls, levels, queues); abs[k := abs[k].(queue := abs[k].queue[j := RestingOf(item)])]
    ensures AbsSide(os', ls', others, queues) == AbsSide(os, ls, others, queues)
  {
    hide QueuesOk;
    var l := levels[k];
    UpdateOrder(os, ls, queues, home, l, j, item, total, os');
    SamePrices(ls, l, ls[l].item.(totalQty := total), levels);
    SamePrices(ls, l, ls[l].item.(totalQty := total), others);
    AbsChanged(os, ls, os', ls', levels, queues, k, queues[l]);
    assert queues[l := queues[l]] == queues;
    AbsUnchanged(os, ls, os', ls', others, queues, queues, l);
  }

  lemma SameViews(os: seq<LiveOrder>, ls: seq<PriceLevelNode>, queues: map<nat, seq<nat>>, home: map<nat, nat>, l: nat)
    requires QueuesOk(os, ls, queues, home)
    ensures OtherViews(os, os, queues, l)
  {
    hide QueueOk;
  }

  /** Opening an empty level `n` in position `k`. */
  lemma OpenRep(os: seq<LiveOrder>, ls: seq<PriceLevelNode>, ls': seq<PriceLevelNode>, queues: map<nat, seq<nat>>,
                home: map<nat, nat>,
                levels: seq<nat>, k: nat, others: seq<nat>, n: nat, price: Price)
    requires TwoSides(os, ls, queues, home, levels, others) && k <= |levels| && n !in queues && n < |ls|
    requires LinkedIn(ls, levels, k, n, LevelData(price, 0, 0, NULL, NULL), ls')
    ensures SameLevels(ls, ls', others)
    ensures TwoSides(os, ls', queues[n := []], home, InsertedAt(levels, k, n), others)
    ensures AbsSide(os, ls', InsertedAt(levels, k, n), queues[n := []]) ==
            InsertedAt(AbsSide(os, ls, levels, queues), k, Level(price, []))
    ensures AbsSide(os, ls', others, queues[n := []]) == AbsSide(os, ls, others, queues)
  {
    hide QueuesOk, LinkedIn;
    LinkFrame(ls, levels, k, n, LevelData(price, 0, 0, NULL, NULL), ls');
    LinkAtNew(ls, levels, k, n, LevelData(price, 0, 0, NULL, NULL), ls');
    QueuesOpened(os, ls, ls', queues, home, levels, n, price);
    AbsOpened(os, ls, ls', levels, queues, k, n, price);
    OtherSide(ls, ls', levels, n, others);
    hide Untouched;
    SameViews(os, ls, queues, home, n);
    AbsUnchanged(os, ls, os, ls', others, queues, queues[n := []], n);
    DistinctInserted(levels, k, n);
    MembersInserted(levels, k, n);
  }

  /** Closing the empty level in position `k`. */
  lemma CloseRep(os: seq<LiveOrder>, ls: seq<PriceLevelNode>, ls': seq<PriceLevelNode>, queues: map<nat, seq<nat>>,
                 home: map<nat, nat>,
                 levels: seq<nat>, k: nat, others: seq<nat>)
    requires TwoSides(os, ls, queues, home, levels, others) && k < |levels| && levels[k] in queues &&
             queues[levels[k]] == []
    requires LinkedOut(ls, levels, k, ls')
    ensures SameLevels(ls, ls', others)
    ensures TwoSides(os, ls', queues - {levels[k]}, home, DeletedAt(levels, k), others)
    ensures AbsSide(os, ls', DeletedAt(levels, k), queues - {levels[k]}) ==
            DeletedAt(AbsSide(os, ls, levels, queues), k)
    ensures AbsSide(os, ls', others, queues - {levels[k]}) == AbsSide(os, ls, others, queues)
  {
    hide QueuesOk, LinkedOut;
    UnlinkFrame(ls, levels, k, ls');
    QueuesClosed(os, ls, ls', queues, home, levels, levels[k]);
    AbsClosed(os, ls, ls', levels, queues, k);
    OtherSide(ls, ls', levels, NULL, others);
    hide Untouched;
    SameViews(os, ls, queues, home, levels[k]);
    AbsUnchanged(os, ls, os, ls', others, queues, queues - {levels[k]}, levels[k]);
    DistinctDeleted(levels, k);
    MembersDeleted(levels, k);
  }

  /** Writing a slot that no queue links, seen on both sides. */
  lemma LooseRep(os: seq<LiveOrder>, ls: seq<PriceLevelNode>, queues: map<nat, seq<nat>>, home: map<nat, nat>,
                 levels: seq<nat>, others: seq<nat>, p: nat, os': seq<LiveOrder>)
    requires TwoSides(os, ls, queues, home, levels, others) && p !in home && p < |os| && |os'| == |os|
    requires os' == os[p := os'[p]]
    ensures TwoSides(os', ls, queues, home, levels, others)
    ensures AbsSide(os', ls, levels, queues) == AbsSide(os, ls, levels, queues)
    ensures AbsSide(os', ls, others, queues) == AbsSide(os, ls, others, queues)
  {
    hide QueuesOk;
    LooseWrite(os, ls, queues, home, p, os'[p], |ls|);
    AbsUnchanged(os, ls, os', ls, levels, queues, queues, |ls|);
    AbsUnchanged(os, ls, os', ls, others, queues, queues, |ls|);
  }

  // ----- the same, with the soundness of both sides carried along

  datatype SideState = SideState(side: Side, best: int, index: map<Price, nat>, levels: seq<nat>)

  ghost predicate Sides(os: seq<LiveOrder>, ls: seq<PriceLevelNode>, queues: map<nat, seq<nat>>, home: map<nat, nat>,
                        mine: SideState, other: SideState) {
    && TwoSides(os, ls, queues, home, mine.levels, other.levels)
    && (forall l :: l in queues <==> l in mine.levels || l in other.levels)
    && SideOk(mine.side, ls, mine.best, mine.index, mine.levels)
    && SideOk(other.side, ls, other.best, other.index, other.levels)
  }

  lemma AppendSides(os: seq<LiveOrder>, ls: seq<PriceLevelNode>, os': seq<LiveOrder>, ls': seq<PriceLevelNode>,
                    queues: map<nat, seq<nat>>, home: map<nat, nat>, p: nat, item: OrderData,
                    mine: SideState, k: nat, other: SideState)
    requires Sides(os, ls, queues, home, mine, other)
    requires k < |mine.levels| && mine.levels[k] in queues && mine.levels[k] < |ls|
    requires p !in home && p < |os| && item.price == ls[mine.levels[k]].item.price
    requires LinkedIn(os, queues[mine.levels[k]], |queues[mine.levels[k]]|, p, item, os')
    requires ls' == ls[mine.levels[k] :=
                       ls[mine.levels[k]].(item := Appended(ls[mine.levels[k]].item, p, item.remainingQty))]
    ensures var l := mine.levels[k]; var queues' := queues[l := queues[l] + [p]];
            && queues'.Keys == queues.Keys
            && Sides(os', ls', queues', home[p := l], mine, other)
            && AbsSide(os', ls', mine.levels, queues')
               == (var abs := AbsSide(os, ls, mine.levels, queues);
                   abs[k := abs[k].(queue := abs[k].queue + [RestingOf(item)])])
            && AbsSide(os', ls', other.levels, queues') == AbsSide(os, ls, other.levels, queues)
    ensures Untouched(os, os', queues[mine.levels[k]], p) && os'[p].item == item
  {
    hide SideOk, LinkedIn, TwoSides, Untouched, SameLevels;
    AppendRep(os, ls, os', ls', queues, home, p, item, mine.levels, k, other.levels);
    SideFrame(mine.side, ls, ls', mine.best, mine.index, mine.levels);
    SideFrame(other.side, ls, ls', other.best, other.index, other.levels);
    LinkFrame(os, queues[mine.levels[k]], |queues[mine.levels[k]]|, p, item, os');
    LinkAtNew(os, queues[mine.levels[k]], |queues[mine.levels[k]]|, p, item, os');
  }

  lemma RemoveSides(os: seq<LiveOrder>, ls: seq<PriceLevelNode>, os': seq<LiveOrder>, ls': seq<PriceLevelNode>,
                    queues: map<nat, seq<nat>>, home: map<nat, nat>, j: nat, total: u64,
                    mine: SideState, k: nat, other: SideState)
    requires Sides(os, ls, queues, home, mine, other)
    requires k < |mine.levels| && mine.levels[k] in queues && mine.levels[k] < |ls|
    requires j < |queues[mine.levels[k]]| && queues[mine.levels[k]][j] < |os| && ls[mine.levels[k]].item.orderCount > 0
    requires LinkedOutLoose(os, queues[mine.levels[k]], j, os')
    requires total == Wrap64(ls[mine.levels[k]].item.totalQty - os[queues[mine.levels[k]][j]].item.remainingQty)
    requires ls' == ls[mine.levels[k] :=
                       ls[mine.levels[k]].(item :=
                                           Shortened(ls[mine.levels[k]].item, os[queues[mine.levels[k]][j]], total))]
    ensures var l := mine.levels[k]; var queues' := queues[l := DeletedAt(queues[l], j)];
            && queues'.Keys == queues.Keys
            && Sides(os', ls', queues', home - {queues[l][j]}, mine, other)
            && |AbsSide(os, ls, mine.levels, queues)[k].queue| == |queues[l]|
            && AbsSide(os', ls', mine.levels, queues')
               == (var abs := AbsSide(os, ls, mine.levels, queues);
                   abs[k := abs[k].(queue := DeletedAt(abs[k].queue, j))])
            && AbsSide(os', ls', other.levels, queues') == AbsSide(os, ls, other.levels, queues)
    ensures SameItems(os, os') && SameLevels(ls, ls', mine.levels) && SameLevels(ls, ls', other.levels)
  {
    hide SideOk, LinkedOut, LinkedOutLoose, TwoSides, SameLevels, Wrap64;
    var l := mine.levels[k];
    var mid := Loosened(os, queues[l], j, os');
    RemoveRep(os, ls, mid, ls', queues, home, j, total, mine.levels, k, other.levels);
    LooseRep(mid, ls', queues[l := DeletedAt(queues[l], j)], home - {queues[l][j]}, mine.levels, other.levels,
             queues[l][j], os');
    SideFrame(mine.side, ls, ls', mine.best, mine.index, mine.levels);
    SideFrame(other.side, ls, ls', other.best, other.index, other.levels);
  }

  lemma UpdateSides(os: seq<LiveOrder>, ls: seq<PriceLevelNode>, os': seq<LiveOrder>, ls': seq<PriceLevelNode>,
                    queues: map<nat, seq<nat>>, home: map<nat, nat>, j: nat, item: OrderData, total: u64,
                    mine: SideState, k: nat, other: SideState)
    requires Sides(os, ls, queues, home, mine, other)
    requires k < |mine.levels| && mine.levels[k] in queues && mine.levels[k] < |ls|
    requires j < |queues[mine.levels[k]]| && queues[mine.levels[k]][j] < |os| &&
             item.price == ls[mine.levels[k]].item.price
    requires total == Wrap64(ls[mine.levels[k]].item.totalQty - os[queues[mine.levels[k]][j]].item.remainingQty +
                             item.remainingQty)
    requires os' == os[queues[mine.levels[k]][j] := os[queues[mine.levels[k]][j]].(item := item)]
    requires ls' == ls[mine.levels[k] := ls[mine.levels[k]].(item := ls[mine.levels[k]].item.(totalQty := total))]
    ensures Sides(os', ls', queues, home, mine, other)
    ensures |AbsSide(os, ls, mine.levels, queues)[k].queue| == |queues[mine.levels[k]]|
    ensures AbsSide(os', ls', mine.levels, queues)
         == var abs := AbsSide(os, ls, mine.levels, queues);
         abs[k := abs[k].(queue := abs[k].queue[j := RestingOf(item)])]
    ensures AbsSide(os', ls', other.levels, queues) == AbsSide(os, ls, other.levels, queues)
    ensures SameLevels(ls, ls', mine.levels) && SameLevels(ls, ls', other.levels)
  {
    hide SideOk, TwoSides, SameLevels, Wrap64;
    UpdateRep(os, ls, os', ls', queues, home, j, item, total, mine.levels, k, other.levels);
    SideFrame(mine.side, ls, ls', mine.best, mine.index, mine.levels);
    SideFrame(other.side, ls, ls', other.best, other.index, other.levels);
  }

  lemma OpenSides(os: seq<LiveOrder>, ls: seq<PriceLevelNode>, ls': seq<PriceLevelNode>, queues: map<nat, seq<nat>>,
                  home: map<nat, nat>,
                  mine: SideState, k: nat, other: SideState, n: nat, price: Price, mine': SideState)
    requires Sides(os, ls, queues, home, mine, other) && k <= |mine.levels| && n !in queues && n < |ls|
    requires LinkedIn(ls, mine.levels, k, n, LevelData(price, 0, 0, NULL, NULL), ls')
    requires mine'.side == mine.side && mine'.levels == InsertedAt(mine.levels, k, n)
    requires SideOk(mine'.side, ls', mine'.best, mine'.index, mine'.levels)
    ensures Sides(os, ls', queues[n := []], home, mine', other)
    ensures AbsSide(os, ls', mine'.levels, queues[n := []]) ==
            InsertedAt(AbsSide(os, ls, mine.levels, queues), k, Level(price, []))
    ensures AbsSide(os, ls', other.levels, queues[n := []]) == AbsSide(os, ls, other.levels, queues)
  {
    hide SideOk, LinkedIn, TwoSides, SameLevels, QueuesOk;
    OpenRep(os, ls, ls', queues, home, mine.levels, k, other.levels, n, price);
    SideFrame(other.side, ls, ls', other.best, other.index, other.levels);
    MembersInserted(mine.levels, k, n);
  }

  lemma CloseSides(os: seq<LiveOrder>, ls: seq<PriceLevelNode>, ls': seq<PriceLevelNode>, queues: map<nat, seq<nat>>,
                   home: map<nat, nat>,
                   mine: SideState, k: nat, other: SideState, mine': SideState)
    requires Sides(os, ls, queues, home, mine, other) && k < |mine.levels| && mine.levels[k] in queues &&
             queues[mine.levels[k]] == []
    requires LinkedOut(ls, mine.levels, k, ls')
    requires mine'.side == mine.side && mine'.levels == DeletedAt(mine.levels, k)
    requires SideOk(mine'.side, ls', mine'.best, mine'.index, mine'.levels)
    ensures Sides(os, ls', queues - {mine.levels[k]}, home, mine', other)
    ensures AbsSide(os, ls', mine'.levels, queues - {mine.levels[k]}) ==
            DeletedAt(AbsSide(os, ls, mine.levels, queues), k)
    ensures AbsSide(os, ls', other.levels, queues - {mine.levels[k]}) == AbsSide(os, ls, other.levels, queues)
  {
    hide SideOk, LinkedOut, TwoSides, SameLevels, QueuesOk;
    TwoSidesAt(os, ls, queues, home, mine.levels, other.levels, k);
    CloseRep(os, ls, ls', queues, home, mine.levels, k, other.levels);
    SideFrame(other.side, ls, ls', other.best, other.index, other.levels);
    SideSorted(mine.side, ls, mine.best, mine.index, mine.levels);
    MembersDeleted(mine.levels, k);
  }

  lemma FlipSides(os: seq<LiveOrder>, ls: seq<PriceLevelNode>, queues: map<nat, seq<nat>>, home: map<nat, nat>,
                  a: SideState, b: SideState)
    requires Sides(os, ls, queues, home, a, b)
    ensures Sides(os, ls, queues, home, b, a)
  {
    hide QueuesOk, Viewable;
    SideSorted(b.side, ls, b.best, b.index, b.levels);
  }

  lemma LooseSides(os: seq<LiveOrder>, ls: seq<PriceLevelNode>, queues: map<nat, seq<nat>>, home: map<nat, nat>,
                   a: SideState, b: SideState, p: nat, os': seq<LiveOrder>)
    requires Sides(os, ls, queues, home, a, b) && p !in home && p < |os| && |os'| == |os|
    requires os' == os[p := os'[p]]
    ensures Sides(os', ls, queues, home, a, b)
    ensures AbsSide(os', ls, a.levels, queues) == AbsSide(os, ls, a.levels, queues)
    ensures AbsSide(os', ls, b.levels, queues) == AbsSide(os, ls, b.levels, queues)
  {
    hide SideOk, TwoSides;
    LooseRep(os, ls, queues, home, a.levels, b.levels, p, os');
  }

  /** What is known of the level in position `k` and of its queue. */
  lemma SidesAt(os: seq<LiveOrder>, ls: seq<PriceLevelNode>, queues: map<nat, seq<nat>>, home: map<nat, nat>,
                mine: SideState, other: SideState, k: nat)
    requires Sides(os, ls, queues, home, mine, other) && k < |mine.levels|
    ensures var l := mine.levels[k];
            && l < |ls| && l in queues && l !in other.levels
            && QueueOk(os, ls[l].item, queues[l]) && InStore(os, queues[l])
            && (forall p :: p in queues[l] ==> p in home && home[p] == l)
            && InStore(ls, mine.levels) &&
               (forall i :: 0 <= i < |mine.levels| ==> mine.levels[i] in queues && InStore(os, queues[mine.levels[i]]))
            && AbsSide(os, ls, mine.levels, queues)[k] == Level(ls[l].item.price, View(os, queues[l]))
  {
    hide SideOk, QueueOk;
    TwoSidesAt(os, ls, queues, home, mine.levels, other.levels, k);
  }

  // ----- the abstract operations on the levels of a sound side

  /** `r` queued at the tail of the level in position `k`. */
  ghost function AddedAt(abs: seq<Level>, k: nat, r: Resting): seq<Level>
    requires k < |abs|
  {
    abs[k := abs[k].(queue := abs[k].queue + [r])]
  }

  lemma SidesUsed(os: seq<LiveOrder>, ls: seq<PriceLevelNode>, queues: map<nat, seq<nat>>, home: map<nat, nat>,
                  mine: SideState, other: SideState)
    requires Sides(os, ls, queues, home, mine, other)
    ensures SideOk(mine.side, ls, mine.best, mine.index, mine.levels) && forall l :: l in mine.levels ==> l in queues
    ensures Viewable(os, ls, mine.levels, queues)
    ensures Sorted(mine.side, AbsSide(os, ls, mine.levels, queues))
  {
    hide QueuesOk, Chain, Indexed;
  }

  /** A level opened in its slot and given `r` is what the abstract insertion makes. */
  lemma AddOpened(side: Side, os: seq<LiveOrder>, ls: seq<PriceLevelNode>, levels: seq<nat>,
                  queues: map<nat, seq<nat>>, k: nat, price: Price, r: Resting)
    requires Viewable(os, ls, levels, queues) && Slot(side, ls, levels, k, price)
    ensures AddedAt(InsertedAt(AbsSide(os, ls, levels, queues), k, Level(price, [])), k, r)
         == AddOrder(side, AbsSide(os, ls, levels, queues), price, r)
  {
    var abs := AbsSide(os, ls, levels, queues);
    AddNewLevel(side, abs, k, price, r);
    hide AddOrder;
    assert [] + [r] == [r];
    InsertedUpdated(abs, k, Level(price, []), Level(price, [r]));
  }

  /** The price index finds the level whose queue the abstract insertion extends. */
  lemma IndexedAt(os: seq<LiveOrder>, ls: seq<PriceLevelNode>, queues: map<nat, seq<nat>>, home: map<nat, nat>,
                  mine: SideState, other: SideState, price: Price, r: Resting) returns (k: nat)
    requires Sides(os, ls, queues, home, mine, other) && price in mine.index
    ensures k < |mine.levels| && mine.levels[k] == mine.index[price] && mine.levels[k] < |ls| &&
            ls[mine.levels[k]].item.price == price
    ensures mine.levels[k] in queues && Viewable(os, ls, mine.levels, queues)
    ensures AddedAt(AbsSide(os, ls, mine.levels, queues), k, r) ==
            AddOrder(mine.side, AbsSide(os, ls, mine.levels, queues), price, r)
  {
    hide QueuesOk, Chain, AddOrder, QueueOk;
    SidesUsed(os, ls, queues, home, mine, other);
    assert mine.index[price] in mine.levels;
    k :| 0 <= k < |mine.levels| && mine.levels[k] == mine.index[price];
    AddToLevel(mine.side, AbsSide(os, ls, mine.levels, queues), k, r);
  }

  /** Each queue position holds the order whose id it shows, and the id lookup leads back to its slot. */
  lemma ViewedAt(os: seq<LiveOrder>, ls: seq<PriceLevelNode>, queues: map<nat, seq<nat>>, home: map<nat, nat>,
                 lookup: map<u64, nat>,
                 mine: SideState, other: SideState, a: nat, b: nat)
    requires Sides(os, ls, queues, home, mine, other) && LookupOk(os, home, lookup) && a < |mine.levels|
    requires Viewable(os, ls, mine.levels, queues) && b < |AbsSide(os, ls, mine.levels, queues)[a].queue|
    ensures b < |queues[mine.levels[a]]|
    ensures var p := queues[mine.levels[a]][b]; var id := AbsSide(os, ls, mine.levels, queues)[a].queue[b].orderId;
            p in home && home[p] == mine.levels[a] && id in lookup && lookup[id] == p
  {
    hide SideOk, QueueOk;
    SidesAt(os, ls, queues, home, mine, other, a);
    assert queues[mine.levels[a]][b] in queues[mine.levels[a]];
  }

  /** A linked order rests at exactly one position of the side that links its level. */
  lemma RestsOnce(os: seq<LiveOrder>, ls: seq<PriceLevelNode>, queues: map<nat, seq<nat>>, home: map<nat, nat>,
                  lookup: map<u64, nat>,
                  mine: SideState, other: SideState, k: nat, j: nat)
    requires Sides(os, ls, queues, home, mine, other) && LookupOk(os, home, lookup) &&
             Viewable(os, ls, mine.levels, queues)
    requires k < |mine.levels| && mine.levels[k] in queues && j < |queues[mine.levels[k]]| &&
             queues[mine.levels[k]][j] < |os|
    ensures RestsAt(AbsSide(os, ls, mine.levels, queues), k, j, os[queues[mine.levels[k]][j]].item.orderId)
  {
    hide Sides, LookupOk, QueueOk;
    var abs := AbsSide(os, ls, mine.levels, queues);
    var id := abs[k].queue[j].orderId;
    ViewedAt(os, ls, queues, home, lookup, mine, other, k, j);
    SidesDistinct(os, ls, queues, home, mine, other, k);
    forall a, b | 0 <= a < |abs| && 0 <= b < |abs[a].queue| && abs[a].queue[b].orderId == id
      ensures a == k && b == j
    {
      ViewedAt(os, ls, queues, home, lookup, mine, other, a, b);
    }
  }

  lemma SidesDistinct(os: seq<LiveOrder>, ls: seq<PriceLevelNode>, queues: map<nat, seq<nat>>, home: map<nat, nat>,
                      mine: SideState, other: SideState, k: nat)
    requires Sides(os, ls, queues, home, mine, other) && k < |mine.levels|
    ensures mine.levels[k] in queues && Distinct(mine.levels) && Distinct(queues[mine.levels[k]])
  {
    hide SideOk, QueueOk;
    TwoSidesAt(os, ls, queues, home, mine.levels, other.levels, k);
    QueueDistinct(os, ls[mine.levels[k]].item, queues[mine.levels[k]]);
  }

  /** ... and nowhere on the other side. */
  lemma NotOnOther(os: seq<LiveOrder>, ls: seq<PriceLevelNode>, queues: map<nat, seq<nat>>, home: map<nat, nat>,
                   lookup: map<u64, nat>,
                   mine: SideState, other: SideState, id: u64)
    requires Sides(os, ls, queues, home, mine, other) && LookupOk(os, home, lookup) &&
             Viewable(os, ls, other.levels, queues)
    requires id !in lookup || (lookup[id] in home && home[lookup[id]] in mine.levels)
    ensures !OnSide(AbsSide(os, ls, other.levels, queues), id)
  {
    hide LookupOk, QueueOk, SideOk, QueuesOk;
    FlipSides(os, ls, queues, home, mine, other);
    var abs := AbsSide(os, ls, other.levels, queues);
    forall a, b | 0 <= a < |abs| && 0 <= b < |abs[a].queue|
      ensures abs[a].queue[b].orderId != id
    {
      ViewedAt(os, ls, queues, home, lookup, other, mine, a, b);
    }
  }

  /** The level of a linked order is on one of the two sides, indexed there under the order's price. */
  lemma LevelOf(os: seq<LiveOrder>, ls: seq<PriceLevelNode>, queues: map<nat, seq<nat>>, home: map<nat, nat>,
                a: SideState, b: SideState, p: nat)
    requires Sides(os, ls, queues, home, a, b) && p in home
    ensures p < |os| && home[p] in queues && p in queues[home[p]] && home[p] < |ls|
    ensures ls[home[p]].item.price == os[p].item.price
    ensures home[p] in a.levels || home[p] in b.levels
    ensures home[p] in a.levels ==> os[p].item.price in a.index && a.index[os[p].item.price] == home[p]
    ensures home[p] in b.levels ==> os[p].item.price in b.index && b.index[os[p].item.price] == home[p]
  {
    var l := home[p];
    var i :| 0 <= i < |queues[l]| && queues[l][i] == p;
    assert os[queues[l][i]].item.price == ls[l].item.price;
    hide QueueOk, Chain, SortedLevels;
    LevelIndexed(ls, a.index, a.levels, l);
    LevelIndexed(ls, b.index, b.levels, l);
  }

  lemma LevelIndexed(ls: seq<PriceLevelNode>, index: map<Price, nat>, levels: seq<nat>, l: nat)
    requires Indexed(ls, index, levels) && l < |ls|
    ensures l in levels ==> ls[l].item.price in index && index[ls[l].item.price] == l
  {
    if l in levels {
      var i :| 0 <= i < |levels| && levels[i] == l;
      assert ls[levels[i]].item.price in index;
    }
  }

  /** A price indexed on a side is the price of one of its abstract levels. */
  lemma IndexedPrice(os: seq<LiveOrder>, ls: seq<PriceLevelNode>, queues: map<nat, seq<nat>>, home: map<nat, nat>,
                     mine: SideState, other: SideState, price: Price)
    requires Sides(os, ls, queues, home, mine, other) && Viewable(os, ls, mine.levels, queues)
    ensures price in mine.index <==> PriceOn(AbsSide(os, ls, mine.levels, queues), price)
  {
    hide QueuesOk, Chain;
    var abs := AbsSide(os, ls, mine.levels, queues);
    if price in mine.index {
      var i :| 0 <= i < |mine.levels| && mine.levels[i] == mine.index[price];
      assert abs[i].price == price;
    }
    if i :| 0 <= i < |abs| && abs[i].price == price {
      assert ls[mine.levels[i]].item.price in mine.index;
    }
  }

  /** Where a linked order sits: its level `l` in position `k` of its side, itself in position `j`
      of the queue, and nowhere else on either side. */
  ghost predicate PlacedAt(os: seq<LiveOrder>, ls: seq<PriceLevelNode>, queues: map<nat, seq<nat>>, mine: SideState,
                           other: SideState,
                           p: nat, l: nat, k: nat, j: nat) {
    && k < |mine.levels| && mine.levels[k] == l && l < |ls|
    && l in queues && j < |queues[l]| && queues[l][j] == p && p < |os|
    && os[p].item.price == ls[l].item.price
    && Viewable(os, ls, mine.levels, queues) && Viewable(os, ls, other.levels, queues)
    && var abs := AbsSide(os, ls, mine.levels, queues);
    && RestsAt(abs, k, j, os[p].item.orderId)
    && abs[k].queue[j] == RestingOf(os[p].item) && |abs[k].queue| == |queues[l]|
    && !OnSide(AbsSide(os, ls, other.levels, queues), os[p].item.orderId)
  }

  lemma LookupAt(os: seq<LiveOrder>, home: map<nat, nat>, lookup: map<u64, nat>, p: nat)
    requires LookupOk(os, home, lookup) && p in home
    ensures p < |os| && os[p].item.orderId in lookup && lookup[os[p].item.orderId] == p
  {
  }

  lemma Place(os: seq<LiveOrder>, ls: seq<PriceLevelNode>, queues: map<nat, seq<nat>>, home: map<nat, nat>,
              lookup: map<u64, nat>,
              mine: SideState, other: SideState, p: nat) returns (k: nat, j: nat)
    requires Sides(os, ls, queues, home, mine, other) && LookupOk(os, home, lookup)
    requires p in home && home[p] in mine.levels
    ensures PlacedAt(os, ls, queues, mine, other, p, home[p], k, j)
  {
    hide Sides, LookupOk, Viewable, RestsAt, OnSide, QueueOk;
    LevelOf(os, ls, queues, home, mine, other, p);
    SidesUsed(os, ls, queues, home, mine, other);
    k :| 0 <= k < |mine.levels| && mine.levels[k] == home[p];
    j :| 0 <= j < |queues[home[p]]| && queues[home[p]][j] == p;
    SidesAt(os, ls, queues, home, mine, other, k);
    RestsOnce(os, ls, queues, home, lookup, mine, other, k, j);
    FlipSides(os, ls, queues, home, mine, other);
    SidesUsed(os, ls, queues, home, other, mine);
    LookupAt(os, home, lookup, p);
    NotOnOther(os, ls, queues, home, lookup, mine, other, os[p].item.orderId);
  }

  lemma PlacedFacts(os: seq<LiveOrder>, ls: seq<PriceLevelNode>, queues: map<nat, seq<nat>>, mine: SideState,
                    other: SideState,
                    p: nat, l: nat, k: nat, j: nat)
    requires PlacedAt(os, ls, queues, mine, other, p, l, k, j)
    ensures p < |os| && l < |ls| && os[p].item.price == ls[l].item.price
    ensures Viewable(os, ls, mine.levels, queues) && k < |mine.levels| &&
            |AbsSide(os, ls, mine.levels, queues)| == |mine.levels|
    ensures RestsAt(AbsSide(os, ls, mine.levels, queues), k, j, os[p].item.orderId)
    ensures k < |AbsSide(os, ls, mine.levels, queues)| && j < |AbsSide(os, ls, mine.levels, queues)[k].queue|
    ensures AbsSide(os, ls, mine.levels, queues)[k].queue[j] == RestingOf(os[p].item)
    ensures OnSide(AbsSide(os, ls, mine.levels, queues), os[p].item.orderId)
    ensures Viewable(os, ls, other.levels, queues) && !OnSide(AbsSide(os, ls, other.levels, queues), os[p].item.orderId)
  {
    DropAt(AbsSide(os, ls, mine.levels, queues), k, j, os[p].item.orderId);
  }

  lemma PlacedWhere(os: seq<LiveOrder>, ls: seq<PriceLevelNode>, queues: map<nat, seq<nat>>, mine: SideState,
                    other: SideState,
                    p: nat, l: nat, k: nat, j: nat)
    requires PlacedAt(os, ls, queues, mine, other, p, l, k, j)
    ensures k < |mine.levels| && mine.levels[k] == l && l in queues && j < |queues[l]| && queues[l][j] == p
  {
    hide Viewable, RestsAt, OnSide;
  }

  lemma PlacedPrice(os: seq<LiveOrder>, ls: seq<PriceLevelNode>, queues: map<nat, seq<nat>>, mine: SideState,
                    other: SideState,
                    p: nat, l: nat, k: nat, j: nat)
    requires PlacedAt(os, ls, queues, mine, other, p, l, k, j)
    ensures Viewable(os, ls, mine.levels, queues) && p < |os|
    ensures QuotedAt(AbsSide(os, ls, mine.levels, queues), os[p].item.orderId, os[p].item.price)
  {
    hide RestsAt, OnSide;
    var abs := AbsSide(os, ls, mine.levels, queues);
    assert abs[k].price == os[p].item.price && abs[k].queue[j].orderId == os[p].item.orderId;
  }

  lemma LookupBack(os: seq<LiveOrder>, home: map<nat, nat>, lookup: map<u64, nat>, id: u64)
    requires LookupOk(os, home, lookup) && id in lookup
    ensures lookup[id] in home && lookup[id] < |os| && os[lookup[id]].item.orderId == id
  {
  }

  /** Taking an order off its queue and appending it again leaves the level's counters as they were. */
  lemma MovedRecord(os: seq<LiveOrder>, lv: LevelData, nodes: seq<nat>, j: nat)
    requires QueueOk(os, lv, nodes) && j < |nodes|
    ensures var p, q := nodes[j], os[nodes[j]].item.remainingQty; var rest := DeletedAt(nodes, j);
            && lv.orderCount > 0
            && Appended(Shortened(lv, os[p], Wrap64(lv.totalQty - q)), p, q)
               == lv.(head := if rest == [] then p else First(rest), tail := p)
  {
    hide Chain, View, QueueSum;
    QueueEnds(os, lv, nodes);
    RemoveEnds(os, lv, nodes, j);
    WrapSub(lv.totalQty, os[nodes[j]].item.remainingQty);
    WrapAdd(lv.totalQty - os[nodes[j]].item.remainingQty, os[nodes[j]].item.remainingQty);
  }

  lemma MoveSides(os: seq<LiveOrder>, ls: seq<PriceLevelNode>, mid: seq<LiveOrder>, os': seq<LiveOrder>,
                  ls': seq<PriceLevelNode>,
                  queues: map<nat, seq<nat>>, home: map<nat, nat>, j: nat, mine: SideState, k: nat, other: SideState)
    requires Sides(os, ls, queues, home, mine, other)
    requires k < |mine.levels| && mine.levels[k] in queues && mine.levels[k] < |ls|
    requires j < |queues[mine.levels[k]]| && queues[mine.levels[k]][j] < |os|
    requires LinkedOutLoose(os, queues[mine.levels[k]], j, mid)
    requires var rest := DeletedAt(queues[mine.levels[k]], j);
             LinkedIn(mid, rest, |rest|, queues[mine.levels[k]][j], os[queues[mine.levels[k]][j]].item, os')
    requires var l, p, rest := mine.levels[k], queues[mine.levels[k]][j], DeletedAt(queues[mine.levels[k]], j);
             ls' == ls[l := ls[l].(item := ls[l].item.(head := if rest == [] then p else First(rest), tail := p))]
    ensures var l, p := mine.levels[k], queues[mine.levels[k]][j];
            var queues' := queues[l := DeletedAt(queues[l], j) + [p]];
            && queues'.Keys == queues.Keys
            && Sides(os', ls', queues', home, mine, other)
            && |AbsSide(os, ls, mine.levels, queues)[k].queue| == |queues[l]|
            && AbsSide(os', ls', mine.levels, queues')
               == (var abs := AbsSide(os, ls, mine.levels, queues);
                   abs[k := abs[k].(queue := DeletedAt(abs[k].queue, j) + [RestingOf(os[p].item)])])
            && AbsSide(os', ls', other.levels, queues') == AbsSide(os, ls, other.levels, queues)
    ensures SameItems(os, os')
  {
    hide Sides, LinkedIn, LinkedOutLoose, QueueOk, Wrap64, Appended, Shortened, RestingOf, SameLevels;
    var l, p := mine.levels[k], queues[mine.levels[k]][j];
    var rest, q := DeletedAt(queues[l], j), os[queues[mine.levels[k]][j]].item.remainingQty;
    SidesAt(os, ls, queues, home, mine, other, k);
    MovedRecord(os, ls[l].item, queues[l], j);
    var between := ls[l := ls[l].(item := Shortened(ls[l].item, os[p], Wrap64(ls[l].item.totalQty - q)))];
    RemoveSides(os, ls, mid, between, queues, home, j, Wrap64(ls[l].item.totalQty - q), mine, k, other);
    var queues1 := queues[l := rest];
    ShortenedPrice(ls[l].item, os[p], Wrap64(ls[l].item.totalQty - q));
    MovedPrice(os, ls[l].item, queues[l], j);
    assert ls' == between[l := between[l].(item := Appended(between[l].item, p, q))];
    AppendSides(mid, between, os', ls', queues1, home - {p}, p, os[p].item, mine, k, other);
    assert queues1[l := queues1[l] + [p]] == queues[l := rest + [p]];
    assert p in queues[l];
    assert (home - {p})[p := l] == home;
  }

  lemma ShortenedPrice(lv: LevelData, node: LiveOrder, total: u64)
    requires lv.orderCount > 0
    ensures Shortened(lv, node, total).price == lv.price
  {
  }

  lemma MovedPrice(os: seq<LiveOrder>, lv: LevelData, nodes: seq<nat>, j: nat)
    requires QueueOk(os, lv, nodes) && j < |nodes|
    ensures os[nodes[j]].item.price == lv.price
  {
  }

  // ----- what a walk over a side meets

  /** The orders queued at the listed levels. */
  ghost function Lodged(home: map<nat, nat>, levels: seq<nat>): set<nat> {
    set p | p in home && home[p] in levels
  }

  lemma NoneLodged(home: map<nat, nat>)
    ensures Lodged(home, []) == {} && Elements([]) == {}
  {
  }

  /** The next level on the walk adds its own queue, and its slot, to what was met before. */
  lemma LodgedNext(os: seq<LiveOrder>, ls: seq<PriceLevelNode>, queues: map<nat, seq<nat>>, home: map<nat, nat>,
                   mine: SideState, other: SideState, i: nat)
    requires Sides(os, ls, queues, home, mine, other) && i < |mine.levels| && mine.levels[i] in queues
    ensures Lodged(home, mine.levels[..i + 1]) == Lodged(home, mine.levels[..i]) + Elements(queues[mine.levels[i]])
    ensures Lodged(home, mine.levels[..i]) !! Elements(queues[mine.levels[i]])
    ensures Elements(queues[mine.levels[i]]) <= Lodged(home, mine.levels)
    ensures Elements(mine.levels[..i + 1]) == Elements(mine.levels[..i]) + {mine.levels[i]}
    ensures mine.levels[i] !in Elements(mine.levels[..i]) && mine.levels[i] in Elements(mine.levels)
    ensures forall k :: 0 <= k < |queues[mine.levels[i]]| ==> queues[mine.levels[i]][k] < |os|
  {
    hide SideOk, QueueOk;
    SidesAt(os, ls, queues, home, mine, other, i);
    SidesDistinct(os, ls, queues, home, mine, other, i);
    var l := mine.levels[i];
    assert mine.levels[..i + 1] == mine.levels[..i] + [l];
    assert forall p :: p in home && home[p] == l ==> p in queues[l];
    assert l !in mine.levels[..i];
  }

  /** The linked orders of a side are as many as its abstract levels queue. */
  lemma {:induction false} LodgedCount(os: seq<LiveOrder>, ls: seq<PriceLevelNode>, queues: map<nat, seq<nat>>,
                                       home: map<nat, nat>,
                                       mine: SideState, other: SideState, i: nat)
    requires Sides(os, ls, queues, home, mine, other) && Viewable(os, ls, mine.levels, queues) && i <= |mine.levels|
    ensures |Lodged(home, mine.levels[..i])| == OrderCount(AbsSide(os, ls, mine.levels, queues)[..i])
  {
    hide Sides, Lodged, Elements, QueueOk;
    var abs := AbsSide(os, ls, mine.levels, queues);
    if i == 0 {
      NoneLodged(home);
      assert mine.levels[..0] == [];
    } else {
      LodgedCount(os, ls, queues, home, mine, other, i - 1);
      SidesAt(os, ls, queues, home, mine, other, i - 1);
      SidesDistinct(os, ls, queues, home, mine, other, i - 1);
      LodgedNext(os, ls, queues, home, mine, other, i - 1);
      DistinctSize(queues[mine.levels[i - 1]]);
      assert abs[..i] == abs[..i - 1] + [abs[i - 1]];
      OrderCountAppend(abs[..i - 1], [abs[i - 1]]);
    }
  }

  /** The best pointer and the head of its queue, read off the abstract side through the id lookup. */
  ghost predicate FrontIs(os: seq<LiveOrder>, ls: seq<PriceLevelNode>, best: int, home: map<nat, nat>,
                          lookup: map<u64, nat>, abs: seq<Level>) {
    && abs != [] && abs[0].queue != []
    && 0 <= best < |ls| && ls[best].item.price == abs[0].price
    && var id := abs[0].queue[0].orderId;
    && id in lookup && lookup[id] < |os| && ls[best].item.head == lookup[id]
    && lookup[id] in home && home[lookup[id]] == best
    && RestingOf(os[lookup[id]].item) == abs[0].queue[0]
    && (if |abs[0].queue| == 1 then os[lookup[id]].next == NULL
        else abs[0].queue[1].orderId in lookup && os[lookup[id]].next == lookup[abs[0].queue[1].orderId]
             && lookup[abs[0].queue[1].orderId] in home && home[lookup[abs[0].queue[1].orderId]] == best)
  }

  lemma FrontOf(os: seq<LiveOrder>, ls: seq<PriceLevelNode>, queues: map<nat, seq<nat>>, home: map<nat, nat>,
                lookup: map<u64, nat>,
                mine: SideState, other: SideState)
    requires Sides(os, ls, queues, home, mine, other) && LookupOk(os, home, lookup) && NoEmptyQueue(queues)
    ensures Viewable(os, ls, mine.levels, queues)
    ensures mine.best == NULL <==> AbsSide(os, ls, mine.levels, queues) == []
    ensures mine.best != NULL ==>
              FrontIs(os, ls, mine.best, home, lookup, AbsSide(os, ls, mine.levels, queues))
  {
    hide Sides, LookupOk, QueueOk, Chain, SortedLevels;
    SidesUsed(os, ls, queues, home, mine, other);
    SideBest(mine.side, ls, mine.best, mine.index, mine.levels);
    if mine.levels != [] {
      var abs, nodes := AbsSide(os, ls, mine.levels, queues), queues[mine.levels[0]];
      SidesAt(os, ls, queues, home, mine, other, 0);
      QueueEnds(os, ls[mine.levels[0]].item, nodes);
      LinksAt(os, nodes, 0);
      ViewedAt(os, ls, queues, home, lookup, mine, other, 0, 0);
      if |nodes| > 1 {
        ViewedAt(os, ls, queues, home, lookup, mine, other, 0, 1);
      }
    }
  }

  /** All ids of both sides are different, so an order found at the head of a side is nowhere else. */
  lemma FrontRests(os: seq<LiveOrder>, ls: seq<PriceLevelNode>, queues: map<nat, seq<nat>>, home: map<nat, nat>,
                   lookup: map<u64, nat>,
                   mine: SideState, other: SideState)
    requires Sides(os, ls, queues, home, mine, other) && LookupOk(os, home, lookup)
    requires Viewable(os, ls, mine.levels, queues) && Viewable(os, ls, other.levels, queues)
    requires mine.levels != [] && AbsSide(os, ls, mine.levels, queues)[0].queue != []
    ensures RestsAt(AbsSide(os, ls, mine.levels, queues), 0, 0,
                    AbsSide(os, ls, mine.levels, queues)[0].queue[0].orderId)
    ensures OnSide(AbsSide(os, ls, mine.levels, queues), AbsSide(os, ls, mine.levels, queues)[0].queue[0].orderId)
    ensures !OnSide(AbsSide(os, ls, other.levels, queues), AbsSide(os, ls, mine.levels, queues)[0].queue[0].orderId)
  {
    hide Sides, LookupOk, QueueOk, RestsAt, OnSide;
    var abs := AbsSide(os, ls, mine.levels, queues);
    SidesAt(os, ls, queues, home, mine, other, 0);
    ViewedAt(os, ls, queues, home, lookup, mine, other, 0, 0);
    RestsOnce(os, ls, queues, home, lookup, mine, other, 0, 0);
    DropAt(abs, 0, 0, abs[0].queue[0].orderId);
    NotOnOther(os, ls, queues, home, lookup, mine, other, abs[0].queue[0].orderId);
  }

  /** The next node, read before the front order left, is the new front of the same level. */
  lemma NextFront(os: seq<LiveOrder>, ls: seq<PriceLevelNode>, best: int, home: map<nat, nat>, lookup: map<u64, nat>,
                  abs: seq<Level>,
                  os': seq<LiveOrder>, ls': seq<PriceLevelNode>, best': int, home': map<nat, nat>,
                    lookup': map<u64, nat>, abs': seq<Level>)
    requires FrontIs(os, ls, best, home, lookup, abs) && RestsAt(abs, 0, 0, abs[0].queue[0].orderId)
    requires os[lookup[abs[0].queue[0].orderId]].next != NULL
    requires lookup' == lookup - {abs[0].queue[0].orderId} && home' == home - {lookup[abs[0].queue[0].orderId]}
    requires abs' == if |abs[0].queue| == 1 then abs[1..] else [abs[0].(queue := abs[0].queue[1..])] + abs[1..]
    requires abs' != [] ==> FrontIs(os', ls', best', home', lookup', abs')
    ensures best' == best && 0 <= best < |ls'| && ls'[best].item.head == os[lookup[abs[0].queue[0].orderId]].next
    ensures os[lookup[abs[0].queue[0].orderId]].next >= 0 && |abs[0].queue| > 1
  {
    assert |abs[0].queue| > 1;
    assert abs[0].queue[1].orderId != abs[0].queue[0].orderId;
  }
}
