/** One side of the book (`BidBook` and `AskBook`, which mirror each other): the sorted level
    list behind `best` and the price index. */
module BookSides {
  import opened Domain
  import opened Seqs
  import opened BookSpec
  import opened Links
  import opened BookRep
  import opened SideRep
  import opened ObjectPools

  const EMPTY_LEVEL: LevelData := LevelData(0, 0, 0, NULL, NULL)

  class BookSide {
    const side: Side
    var best: int
    var index: map<Price, nat>
    ghost var levels: seq<nat>

    constructor (side: Side)
      ensures this.side == side && best == NULL && index == map[] && levels == []
    {
      this.side := side;
      best, index, levels := NULL, map[], [];
    }

    ghost function State(): SideState
      reads this
    {
      SideState(side, best, index, levels)
    }

    ghost predicate Sound(ls: seq<PriceLevelNode>)
      reads this
    {
      SideOk(side, ls, best, index, levels)
    }

    /** The level list position after which a new level at `price` goes: walk from the best
        level while the next one is still better than `price`. */
    method FindSlot(ls: seq<PriceLevelNode>, price: Price, ghost was: map<Price, nat>) returns (curr: int, ghost k: nat)
      requires SideOk(side, ls, best, was, levels) && price !in was && levels != [] && best == levels[0] && best < |ls|
      requires !Better(side, price, ls[best].item.price)
      ensures k < |levels| && curr == levels[k] && InStore(ls, levels) && Slot(side, ls, levels, k + 1, price)
      ensures 0 <= curr < |ls| && Better(side, ls[curr].item.price, price)
    {
      hide SideOk, Chain, SortedLevels, Indexed;
      curr, k := best, 0;
      LevelAt(side, ls, best, was, levels, 0);
      while ls[curr].next != NULL && Better(side, ls[ls[curr].next].item.price, price)
        invariant k < |levels| && curr == levels[k] && curr < |ls|
        invariant ls[curr].next == At(levels, k + 1) && (k + 1 < |levels| ==> levels[k + 1] < |ls|)
        invariant Better(side, ls[curr].item.price, price)
        decreases |levels| - k
      {
        curr, k := ls[curr].next, k + 1;
        LevelAt(side, ls, best, was, levels, k);
      }
      if k + 1 < |levels| {
        LevelAt(side, ls, best, was, levels, k + 1);
      }
      SideSorted(side, ls, best, was, levels);
      SlotAfter(side, ls, levels, k, price);
    }

    /** Link the loose level `n` into the sorted list. */
    method LinkLevel(n: nat, price: Price, pool: ObjectPool<PriceLevelNode>, ghost was: map<Price, nat>)
      returns (ghost k: nat)
      requires SideOk(side, pool.storage, best, was, levels) && price !in was
      requires n < |pool.storage| && n !in levels && pool.storage[n].next == NULL && pool.storage[n].prev == NULL
      modifies `best, pool`storage
      ensures InStore(old(pool.storage), levels) && Slot(side, old(pool.storage), levels, k, price)
      ensures LinkedIn(old(pool.storage), levels, k, n, old(pool.storage[n].item), pool.storage)
      ensures best == First(InsertedAt(levels, k, n))
    {
      hide SideOk, Chain, SortedLevels, Indexed;
      ghost var ls := pool.storage;
      SideBest(side, ls, best, was, levels);
      if best == NULL {
        best, k := n, 0;
        assert pool.storage == ls[n := Node(ls[n].item, NULL, NULL)];
      } else if Better(side, price, pool.storage[best].item.price) {
        BestSlot(side, ls, levels, price);
        pool.storage := pool.storage[n := pool.storage[n].(next := best)];
        pool.storage := pool.storage[best := pool.storage[best].(prev := n)];
        best, k := n, 0;
      } else {
        var curr;
        curr, k := FindSlot(pool.storage, price, was);
        LevelAt(side, ls, best, was, levels, k);
        pool.storage := pool.storage[n := pool.storage[n].(next := pool.storage[curr].next, prev := curr)];
        if pool.storage[curr].next != NULL {
          var next := pool.storage[curr].next;
          pool.storage := pool.storage[next := pool.storage[next].(prev := n)];
        }
        pool.storage := pool.storage[curr := pool.storage[curr].(next := n)];
        k := k + 1;
      }
    }

    /** Open an empty level at `price` and link it where the side stays sorted. */
    method CreateLevel(price: Price, pool: ObjectPool<PriceLevelNode>, ghost used: set<nat>)
      returns (n: nat, ghost k: nat)
      requires Sound(pool.storage) && price !in index
      requires pool.freeList != [] && PoolOk(pool.freeList, |pool.storage|, used)
      requires forall l :: l in levels ==> l in used
      modifies this, pool
      ensures n == old(pool.freeList[|pool.freeList| - 1]) && pool.freeList == old(pool.freeList[..|pool.freeList| - 1])
      ensures InStore(old(pool.storage), old(levels)) && Slot(side, old(pool.storage), old(levels), k, price)
      ensures LinkedIn(old(pool.storage), old(levels), k, n, LevelData(price, 0, 0, NULL, NULL), pool.storage)
      ensures levels == InsertedAt(old(levels), k, n) && index == old(index)[price := n]
      ensures Sound(pool.storage)
    {
      hide SideOk, Chain, SortedLevels, Indexed, LinkedIn;
      ghost var ls, was := pool.storage, index;
      SideBest(side, ls, best, index, levels);
      PoolTake(pool.freeList, |ls|, used);
      var slot := pool.Allocate(Node(EMPTY_LEVEL, NULL, NULL));
      n := slot.value;
      pool.storage := pool.storage[n := Node(LevelData(price, 0, 0, NULL, NULL), NULL, NULL)];
      SideFrame(side, ls, pool.storage, best, index, levels);
      index := index[price := n];
      assert pool.storage == ls[n := Node(LevelData(price, 0, 0, NULL, NULL), NULL, NULL)];
      k := LinkLevel(n, price, pool, was);
      LinkedInOver(ls, Node(LevelData(price, 0, 0, NULL, NULL), NULL, NULL), levels, k, n,
                   LevelData(price, 0, 0, NULL, NULL), pool.storage);
      OpenLevel(side, ls, old(best), was, levels, k, n, LevelData(price, 0, 0, NULL, NULL), pool.storage);
      levels := InsertedAt(levels, k, n);
    }

    /** Unlink a level and give its slot back. */
    method RemoveLevel(node: int, pool: ObjectPool<PriceLevelNode>, ghost k: nat)
      requires Sound(pool.storage) && k < |levels| && node == levels[k]
      modifies this, pool
      ensures InStore(old(pool.storage), old(levels))
      ensures LinkedOut(old(pool.storage), old(levels), k, pool.storage)
      ensures levels == DeletedAt(old(levels), k) && index == old(index) - {old(pool.storage[node].item.price)}
      ensures pool.freeList == old(pool.freeList) + [node]
      ensures Sound(pool.storage)
    {
      hide SideOk, Chain, SortedLevels, Indexed;
      ghost var ls, was, first := pool.storage, index, best;
      SideBest(side, ls, best, index, levels);
      LinksAt(ls, levels, k);
      if node == NULL {
        return;
      }
      index := index - {pool.storage[node].item.price};
      if node == best {
        best := pool.storage[node].next;
        if best != NULL {
          pool.storage := pool.storage[best := pool.storage[best].(prev := NULL)];
        }
      } else {
        var prev, next := pool.storage[node].prev, pool.storage[node].next;
        if prev != NULL {
          pool.storage := pool.storage[prev := pool.storage[prev].(next := next)];
        }
        if next != NULL {
          pool.storage := pool.storage[next := pool.storage[next].(prev := prev)];
        }
      }
      pool.Deallocate(node);
      CloseLevel(side, ls, first, was, levels, k, pool.storage);
      levels := DeletedAt(levels, k);
    }
  }
}
