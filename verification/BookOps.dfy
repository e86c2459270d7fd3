/** The abstract book operations, located: what each does at the position of its order or level. */
module BookOps {
  import opened Domain
  import opened Seqs
  import opened BookSpec

  lemma {:induction false} AddToLevel(side: Side, levels: seq<Level>, k: nat, r: Resting)
    requires Sorted(side, levels) && k < |levels|
    ensures AddOrder(side, levels, levels[k].price, r) == levels[k := Level(levels[k].price, levels[k].queue + [r])]
  {
    if k > 0 {
      assert Better(side, levels[0].price, levels[k].price);
      AddToLevel(side, levels[1..], k - 1, r);
    }
  }

  lemma {:induction false} AddNewLevel(side: Side, levels: seq<Level>, k: nat, price: Price, r: Resting)
    requires k <= |levels|
    requires forall i :: 0 <= i < k ==> Better(side, levels[i].price, price)
    requires forall i :: k <= i < |levels| ==> Better(side, price, levels[i].price)
    ensures AddOrder(side, levels, price, r) == InsertedAt(levels, k, Level(price, [r]))
  {
    if k > 0 {
      AddNewLevel(side, levels[1..], k - 1, price, r);
      InsertedTail(levels, k, Level(price, [r]));
    }
  }

  /** Order `id` rests at position `j` of level `i` and at no other position of the side. */
  ghost predicate RestsAt(levels: seq<Level>, i: nat, j: nat, id: u64) {
    && i < |levels| && j < |levels[i].queue| && levels[i].queue[j].orderId == id
    && (forall a, b :: 0 <= a < |levels| && 0 <= b < |levels[a].queue| && levels[a].queue[b].orderId == id ==>
          a == i && b == j)
  }

  lemma {:induction false} WithoutAt(queue: seq<Resting>, j: nat)
    requires j < |queue| && forall b :: 0 <= b < |queue| && queue[b].orderId == queue[j].orderId ==> b == j
    ensures Without(queue, queue[j].orderId) == DeletedAt(queue, j)
  {
    if j > 0 {
      assert queue[0].orderId != queue[j].orderId;
      assert forall b :: 0 <= b < |queue[1..]| && queue[1..][b].orderId == queue[j].orderId ==>
             queue[b + 1].orderId == queue[j].orderId;
      WithoutAt(queue[1..], j - 1);
      assert DeletedAt(queue, j) == [queue[0]] + DeletedAt(queue[1..], j - 1);
    }
  }

  /** `queue` with the order in position `j` resized: in place, or at the tail if it grew. */
  ghost function RequeuedAt(queue: seq<Resting>, j: nat, qty: u64, prioritySeq: u64): seq<Resting>
    requires j < |queue|
  {
    if qty > queue[j].qty then DeletedAt(queue, j) + [queue[j].(qty := qty, prioritySeq := prioritySeq)]
    else queue[j := queue[j].(qty := qty)]
  }

  lemma RequeuedTail(queue: seq<Resting>, j: nat, qty: u64, prioritySeq: u64)
    requires 0 < j < |queue|
    ensures RequeuedAt(queue, j, qty, prioritySeq) == [queue[0]] + RequeuedAt(queue[1..], j - 1, qty, prioritySeq)
  {
    if qty > queue[j].qty {
      DeletedTail(queue, j);
      Regrouped(queue[0], DeletedAt(queue[1..], j - 1), [queue[j].(qty := qty, prioritySeq := prioritySeq)]);
    }
  }

  lemma Regrouped(r: Resting, a: seq<Resting>, b: seq<Resting>)
    ensures [r] + a + b == [r] + (a + b)
  {
  }

  lemma RequeuedHead(queue: seq<Resting>, qty: u64, prioritySeq: u64)
    requires queue != []
    ensures RequeuedAt(queue, 0, qty, prioritySeq) ==
            if qty > queue[0].qty then queue[1..] + [queue[0].(qty := qty, prioritySeq := prioritySeq)]
            else [queue[0].(qty := qty)] + queue[1..]
  {
    assert DeletedAt(queue, 0) == queue[1..];
  }

  /** The order in position `j` is the only one with its id. */
  ghost predicate OnceAt(queue: seq<Resting>, j: nat) {
    j < |queue| && forall b :: 0 <= b < |queue| && queue[b].orderId == queue[j].orderId ==> b == j
  }

  lemma OnceInTail(queue: seq<Resting>, j: nat)
    requires OnceAt(queue, j) && j > 0
    ensures OnceAt(queue[1..], j - 1) && queue[0].orderId != queue[j].orderId && queue[1..][j - 1] == queue[j]
  {
    assert forall b :: 0 <= b < |queue[1..]| ==> queue[1..][b] == queue[b + 1];
  }

  lemma {:induction false} RequeueAt(queue: seq<Resting>, j: nat, qty: u64, prioritySeq: u64)
    requires OnceAt(queue, j)
    ensures Requeue(queue, queue[j].orderId, qty, prioritySeq) == RequeuedAt(queue, j, qty, prioritySeq)
  {
    hide RequeuedAt, OnceAt;
    OnceWithin(queue, j);
    if j == 0 {
      RequeuedHead(queue, qty, prioritySeq);
    } else {
      OnceInTail(queue, j);
      RequeuedTail(queue, j, qty, prioritySeq);
      RequeueAt(queue[1..], j - 1, qty, prioritySeq);
    }
  }

  lemma OnceWithin(queue: seq<Resting>, j: nat)
    requires OnceAt(queue, j)
    ensures j < |queue|
  {
  }

  lemma RestsInTail(levels: seq<Level>, i: nat, j: nat, id: u64)
    requires RestsAt(levels, i, j, id) && i > 0
    ensures RestsAt(levels[1..], i - 1, j, id) && !InQueue(levels[0].queue, id)
  {
    assert forall a :: 0 <= a < |levels[1..]| ==> levels[1..][a] == levels[a + 1];
  }

  lemma {:induction false} DropAt(levels: seq<Level>, i: nat, j: nat, id: u64)
    requires RestsAt(levels, i, j, id)
    ensures OnSide(levels, id)
    ensures DropOrder(levels, id) ==
            if |levels[i].queue| == 1 then DeletedAt(levels, i)
            else levels[i := levels[i].(queue := DeletedAt(levels[i].queue, j))]
  {
    assert InQueue(levels[i].queue, id);
    if i == 0 {
      WithoutAt(levels[0].queue, j);
      assert DeletedAt(levels, 0) == levels[1..];
    } else {
      RestsInTail(levels, i, j, id);
      DropAt(levels[1..], i - 1, j, id);
      DeletedTail(levels, i);
    }
  }

  lemma {:induction false} ResizeAt(levels: seq<Level>, i: nat, j: nat, id: u64, qty: u64, prioritySeq: u64)
    requires RestsAt(levels, i, j, id)
    ensures ResizeOrder(levels, id, qty, prioritySeq) ==
            levels[i := levels[i].(queue := RequeuedAt(levels[i].queue, j, qty, prioritySeq))]
  {
    assert InQueue(levels[i].queue, id);
    if i == 0 {
      RequeueAt(levels[0].queue, j, qty, prioritySeq);
    } else {
      RestsInTail(levels, i, j, id);
      ResizeAt(levels[1..], i - 1, j, id, qty, prioritySeq);
    }
  }
}
