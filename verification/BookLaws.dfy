/** What each book operation does to the order it names and to everything else, in plain positions. */
module BookLaws {
  import opened Domain
  import opened Seqs
  import opened BookSpec
  import opened BookOps

  /** Order `id` rests at position `j` of level `i` on this side, and nowhere else in the book. */
  ghost predicate Sits(book: Book, side: Side, i: nat, j: nat, id: u64) {
    RestsAt(book.Of(side), i, j, id) && !OnSide(book.Of(side.Opposite()), id)
  }

  lemma SitsOn(book: Book, side: Side, i: nat, j: nat, id: u64)
    requires Sits(book, side, i, j, id)
    ensures OnSide(book.Of(side), id) && i < |book.Of(side)| && j < |book.Of(side)[i].queue|
    ensures book.Of(side)[i].queue[j].orderId == id
  {
    assert InQueue(book.Of(side)[i].queue, id);
  }

  // ----- sums over levels

  lemma LevelsSumSplit(levels: seq<Level>, i: nat)
    requires i < |levels|
    ensures LevelsSum(levels) == LevelsSum(levels[..i]) + QueueSum(levels[i].queue) + LevelsSum(levels[i + 1..])
  {
    assert levels == levels[..i] + levels[i..];
    assert levels[i..][1..] == levels[i + 1..];
    LevelsSumAppend(levels[..i], levels[i..]);
  }

  lemma LevelsSumUpdate(levels: seq<Level>, i: nat, level: Level)
    requires i < |levels|
    ensures LevelsSum(levels[i := level]) == LevelsSum(levels) - QueueSum(levels[i].queue) + QueueSum(level.queue)
  {
    LevelsSumSplit(levels, i);
    LevelsSumSplit(levels[i := level], i);
    assert levels[i := level][..i] == levels[..i] && levels[i := level][i + 1..] == levels[i + 1..];
  }

  lemma LevelsSumDelete(levels: seq<Level>, i: nat)
    requires i < |levels|
    ensures LevelsSum(levels[..i] + levels[i + 1..]) == LevelsSum(levels) - QueueSum(levels[i].queue)
  {
    LevelsSumSplit(levels, i);
    LevelsSumAppend(levels[..i], levels[i + 1..]);
  }

  // ----- modify

  /** Only level `i` of this side changes, and of it only the queue. */
  ghost predicate OnlyQueue(book: Book, after: Book, side: Side, i: nat) {
    && after.Of(side.Opposite()) == book.Of(side.Opposite())
    && |after.Of(side)| == |book.Of(side)| && i < |book.Of(side)| && after.Of(side)[i].price == book.Of(side)[i].price
    && (forall a :: 0 <= a < |book.Of(side)| && a != i ==> after.Of(side)[a] == book.Of(side)[a])
  }

  /** Modifying a resting order, on either side: it alone gets the new quantity, where it stands if it did
      not grow, and at the tail of its queue under the new priority if it did. */
  lemma ModifyMeans(book: Book, side: Side, i: nat, j: nat, id: u64, qty: u64, prioritySeq: u64)
    requires Sits(book, side, i, j, id)
    ensures var after := ModifySpec(book, id, qty, prioritySeq);
            && OnlyQueue(book, after, side, i) && j < |book.Of(side)[i].queue|
            && var queue, now := book.Of(side)[i].queue, after.Of(side)[i].queue;
            && (qty <= queue[j].qty ==> now == queue[j := queue[j].(qty := qty)])
            && (qty > queue[j].qty ==>
                  now == queue[..j] + queue[j + 1..] + [queue[j].(qty := qty, prioritySeq := prioritySeq)])
            && LevelsSum(after.Of(side)) == LevelsSum(book.Of(side)) - queue[j].qty + qty
  {
    hide RestsAt, OnSide, ResizeOrder;
    SitsOn(book, side, i, j, id);
    var levels := book.Of(side);
    var queue := levels[i].queue;
    ResizeAt(levels, i, j, id, qty, prioritySeq);
    var now := RequeuedAt(queue, j, qty, prioritySeq);
    RequeuedSum(queue, j, qty, prioritySeq);
    LevelsSumUpdate(levels, i, levels[i].(queue := now));
  }

  lemma RequeuedSum(queue: seq<Resting>, j: nat, qty: u64, prioritySeq: u64)
    requires j < |queue|
    ensures QueueSum(RequeuedAt(queue, j, qty, prioritySeq)) == QueueSum(queue) - queue[j].qty + qty
  {
    if qty > queue[j].qty {
      var r := queue[j].(qty := qty, prioritySeq := prioritySeq);
      QueueSumRemove(queue, j);
      QueueSumAppend(DeletedAt(queue, j), [r]);
      assert QueueSum([r]) == r.qty + QueueSum([r][1..]);
    } else {
      QueueSumUpdate(queue, j, queue[j].(qty := qty));
    }
  }

  // ----- cancel and fill

  /** The order at position `j` of level `i` is gone, and the level with it if it was alone. */
  ghost predicate TakenOut(levels: seq<Level>, after: seq<Level>, i: nat, j: nat) {
    && i < |levels| && j < |levels[i].queue|
    && var queue := levels[i].queue;
       if |queue| == 1 then after == levels[..i] + levels[i + 1..]
       else after == levels[i := levels[i].(queue := queue[..j] + queue[j + 1..])]
  }

  lemma TakenSum(levels: seq<Level>, after: seq<Level>, i: nat, j: nat)
    requires TakenOut(levels, after, i, j)
    ensures LevelsSum(after) == LevelsSum(levels) - levels[i].queue[j].qty
  {
    var queue := levels[i].queue;
    QueueSumRemove(queue, j);
    if |queue| == 1 {
      assert DeletedAt(queue, j) == [];
      LevelsSumDelete(levels, i);
    } else {
      LevelsSumUpdate(levels, i, levels[i].(queue := queue[..j] + queue[j + 1..]));
    }
  }

  lemma TakenGone(levels: seq<Level>, after: seq<Level>, i: nat, j: nat, id: u64)
    requires RestsAt(levels, i, j, id) && TakenOut(levels, after, i, j)
    ensures !OnSide(after, id)
  {
    var queue := levels[i].queue;
    forall a | 0 <= a < |after|
      ensures !InQueue(after[a].queue, id)
    {
      if |queue| == 1 {
        var b := if a < i then a else a + 1;
        assert after[a] == levels[b];
      } else if a == i {
        assert forall k :: 0 <= k < |after[a].queue| ==> after[a].queue[k] == queue[if k < j then k else k + 1];
      } else {
        assert after[a] == levels[a];
      }
    }
  }

  /** Cancelling a resting order, on either side: it alone disappears. */
  lemma CancelMeans(book: Book, side: Side, i: nat, j: nat, id: u64)
    requires Sits(book, side, i, j, id)
    ensures var after := CancelSpec(book, id);
            && TakenOut(book.Of(side), after.Of(side), i, j)
            && after.Of(side.Opposite()) == book.Of(side.Opposite())
            && LevelsSum(after.Of(side)) == LevelsSum(book.Of(side)) - book.Of(side)[i].queue[j].qty
            && !OnSide(after.bids, id) && !OnSide(after.asks, id)
  {
    hide RestsAt, OnSide, DropOrder;
    SitsOn(book, side, i, j, id);
    var levels := book.Of(side);
    DropAt(levels, i, j, id);
    var after := DropOrder(levels, id);
    assert TakenOut(levels, after, i, j);
    hide TakenOut;
    TakenSum(levels, after, i, j);
    TakenGone(levels, after, i, j, id);
  }

  /** A fill that leaves `left` of a resting order, on either side: it alone shrinks in place, or disappears
      when nothing is left. */
  lemma FillMeans(book: Book, side: Side, i: nat, j: nat, id: u64, left: u64)
    requires Sits(book, side, i, j, id) && left <= book.Of(side)[i].queue[j].qty
    ensures var after := FillSpec(book, id, left);
            && after.Of(side.Opposite()) == book.Of(side.Opposite())
            && (if left == 0 then TakenOut(book.Of(side), after.Of(side), i, j)
                else OnlyQueue(book, after, side, i) &&
                     after.Of(side)[i].queue == book.Of(side)[i].queue[j := book.Of(side)[i].queue[j].(qty := left)])
            && LevelsSum(after.Of(side)) == LevelsSum(book.Of(side)) - book.Of(side)[i].queue[j].qty + left
  {
    hide RestsAt, OnSide, DropOrder, ResizeOrder;
    SitsOn(book, side, i, j, id);
    var levels := book.Of(side);
    if left == 0 {
      DropAt(levels, i, j, id);
      TakenSum(levels, DropOrder(levels, id), i, j);
    } else {
      ResizeAt(levels, i, j, id, left, 0);
      RequeuedSum(levels[i].queue, j, left, 0);
      LevelsSumUpdate(levels, i, levels[i].(queue := RequeuedAt(levels[i].queue, j, left, 0)));
    }
  }

  /** An id that rests nowhere changes nothing. */
  lemma UnknownMeans(book: Book, id: u64, qty: u64, prioritySeq: u64)
    requires !OnSide(book.bids, id) && !OnSide(book.asks, id)
    ensures CancelSpec(book, id) == book && ModifySpec(book, id, qty, prioritySeq) == book
  {
  }

  // ----- insert

  /** Inserting an order: it joins the tail of the level at its price, or a new level of its own between the
      better and the worse ones; nothing else changes. */
  lemma InsertMeans(book: Book, order: Order, prioritySeq: u64) returns (k: nat)
    requires Sorted(order.side, book.Of(order.side))
    ensures var levels, after := book.Of(order.side), InsertSpec(book, order, prioritySeq);
            var r := Resting(order.symbolId, order.orderId, order.qty, prioritySeq);
            && k <= |levels| && after.Of(order.side.Opposite()) == book.Of(order.side.Opposite())
            && (forall a :: 0 <= a < k ==>
                if order.side == Buy then levels[a].price > order.price else levels[a].price < order.price)
            && (if PriceOn(levels, order.price)
                then k < |levels| && levels[k].price == order.price &&
                     after.Of(order.side) == levels[k := levels[k].(queue := levels[k].queue + [r])]
                else (k < |levels| ==>
                      if order.side == Buy then levels[k].price < order.price else levels[k].price > order.price) &&
                     after.Of(order.side) == levels[..k] + [Level(order.price, [r])] + levels[k..])
  {
    var levels := book.Of(order.side);
    var r := Resting(order.symbolId, order.orderId, order.qty, prioritySeq);
    hide AddOrder;
    k := PlaceOf(order.side, levels, order.price);
    if PriceOn(levels, order.price) {
      AddToLevel(order.side, levels, k, r);
    } else {
      AddNewLevel(order.side, levels, k, order.price, r);
    }
  }

  /** Where a price belongs on a sorted side. */
  lemma {:induction false} PlaceOf(side: Side, levels: seq<Level>, price: Price) returns (k: nat)
    requires Sorted(side, levels)
    ensures k <= |levels| && (forall a :: 0 <= a < k ==> Better(side, levels[a].price, price))
    ensures PriceOn(levels, price) ==> k < |levels| && levels[k].price == price
    ensures !PriceOn(levels, price) ==> forall a :: k <= a < |levels| ==> Better(side, price, levels[a].price)
    decreases |levels|
  {
    k := 0;
    if levels != [] && Better(side, levels[0].price, price) {
      var rest := levels[1..];
      assert forall a :: 1 <= a < |levels| ==> levels[a] == rest[a - 1];
      k := PlaceOf(side, rest, price);
      PriceInTail(levels, price);
      k := k + 1;
    } else if levels != [] {
      assert forall a :: 0 < a < |levels| ==> Better(side, levels[0].price, levels[a].price);
    }
  }

  lemma PriceInTail(levels: seq<Level>, price: Price)
    requires levels != [] && levels[0].price != price
    ensures PriceOn(levels, price) <==> PriceOn(levels[1..], price)
  {
    if PriceOn(levels, price) {
      var i :| 0 <= i < |levels| && levels[i].price == price;
      assert levels[1..][i - 1].price == price;
    }
    if PriceOn(levels[1..], price) {
      var i :| 0 <= i < |levels[1..]| && levels[1..][i].price == price;
      assert levels[i + 1].price == price;
    }
  }
}
