/** The fixed-capacity object pool: storage slots and a free list of their indexes. */
module ObjectPools {
  import opened Domain
  import opened Seqs
  import opened Links
  import opened BookRep

  class ObjectPool<T> {
    var storage: seq<T>
    var freeList: seq<nat>

    constructor (capacity: nat, blank: T)
      ensures |storage| == capacity && PoolOk(freeList, capacity, {})
    {
      storage := seq(capacity, _ => blank);
      freeList := [];
      new;
      for i := 0 to capacity
        invariant |storage| == capacity && |freeList| == i
        invariant forall j :: 0 <= j < i ==> freeList[j] == j
      {
        freeList := freeList + [i];
      }
    }

    /** Take the last free slot and construct `blank` in it; nothing when the pool is exhausted. */
    method Allocate(blank: T) returns (slot: Option<nat>)
      requires forall i :: 0 <= i < |freeList| ==> freeList[i] < |storage|
      modifies this
      ensures old(freeList) == [] ==> slot == None && storage == old(storage) && freeList == []
      ensures old(freeList) != [] ==>
                && slot == Some(old(freeList[|freeList| - 1])) && slot.value < |old(storage)|
                && storage == old(storage)[slot.value := blank]
                && freeList == old(freeList[..|freeList| - 1])
    {
      if freeList == [] {
        return None;
      }
      var i := freeList[|freeList| - 1];
      freeList := freeList[..|freeList| - 1];
      storage := storage[i := blank];
      slot := Some(i);
    }

    /** Return a slot; null and out-of-storage pointers are ignored. */
    method Deallocate(p: int)
      modifies `freeList
      ensures freeList == if 0 <= p < |storage| then old(freeList) + [p] else old(freeList)
    {
      if p == NULL {
        return;
      }
      if p < 0 || p >= |storage| {
        return;
      }
      freeList := freeList + [p];
    }
  }

  /** Popping the free list hands out a slot that was not in use. */
  lemma PoolTake(free: seq<nat>, capacity: nat, used: set<nat>)
    requires PoolOk(free, capacity, used) && free != []
    ensures forall i :: 0 <= i < |free| ==> free[i] < capacity
    ensures var p := free[|free| - 1]; p < capacity && p !in used && PoolOk(free[..|free| - 1], capacity, used + {p})
  {
    var p := free[|free| - 1];
    assert |used + {p}| == |used| + 1;
  }

  /** Giving a used slot back keeps every slot accounted for exactly once. */
  lemma PoolGive(free: seq<nat>, capacity: nat, used: set<nat>, p: nat)
    requires PoolOk(free, capacity, used) && p in used && p < capacity
    ensures PoolOk(free + [p], capacity, used - {p})
  {
    assert |used - {p}| == |used| - 1;
  }

  lemma {:induction false} PoolGiveAll(free: seq<nat>, capacity: nat, used: set<nat>, slots: seq<nat>)
    requires PoolOk(free, capacity, used) && Distinct(slots) && Elements(slots) <= used
    requires forall k :: 0 <= k < |slots| ==> slots[k] < capacity
    ensures PoolOk(free + slots, capacity, used - Elements(slots))
  {
    if slots == [] {
      assert free + slots == free && used - Elements(slots) == used;
    } else {
      var rest, last := slots[..|slots| - 1], slots[|slots| - 1];
      assert last in Elements(slots) && Elements(rest) <= used;
      PoolGiveAll(free, capacity, used, rest);
      PoolGive(free + rest, capacity, used - Elements(rest), last);
      assert free + rest + [last] == free + slots;
      assert used - Elements(rest) - {last} == used - Elements(slots);
    }
  }
}
