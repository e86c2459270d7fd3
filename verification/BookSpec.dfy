/** The abstract order book: per side, a price-sorted sequence of FIFO queues. The linked
    structure in `LimitOrderBook` refines these values and operations. */
module BookSpec {
  import opened Domain
  import opened Seqs

  /** A resting order; its price is the price of the level that queues it. */
  datatype Resting = Resting(symbolId: u32, orderId: u64, qty: u64, prioritySeq: u64)

  datatype Level = Level(price: Price, queue: seq<Resting>)

  datatype Book = Book(bids: seq<Level>, asks: seq<Level>) {
    function Of(side: Side): seq<Level> {
      if side == Buy then bids else asks
    }

    function With(side: Side, levels: seq<Level>): Book {
      if side == Buy then this.(bids := levels) else this.(asks := levels)
    }
  }

  const LEVEL_CAPACITY: nat := 1024
  const ORDER_CAPACITY: nat := 10240

  const EMPTY: Book := Book([], [])

  /** `p` is served before `q` on this side: bids descend, asks ascend. */
  predicate Better(side: Side, p: Price, q: Price) {
    if side == Buy then p > q else p < q
  }

  ghost predicate Sorted(side: Side, levels: seq<Level>) {
    forall i, j :: 0 <= i < j < |levels| ==> Better(side, levels[i].price, levels[j].price)
  }

  ghost predicate NonEmptyQueues(levels: seq<Level>) {
    forall i :: 0 <= i < |levels| ==> |levels[i].queue| > 0
  }

  ghost predicate PriceOn(levels: seq<Level>, price: Price) {
    exists i :: 0 <= i < |levels| && levels[i].price == price
  }

  /** No price is quoted on both sides, so a price alone tells the side. */
  ghost predicate NoSharedPrice(book: Book) {
    forall i, j :: 0 <= i < |book.bids| && 0 <= j < |book.asks| ==> book.bids[i].price != book.asks[j].price
  }

  function QueueSum(queue: seq<Resting>): nat {
    if queue == [] then 0 else queue[0].qty + QueueSum(queue[1..])
  }

  function LevelsSum(levels: seq<Level>): nat {
    if levels == [] then 0 else QueueSum(levels[0].queue) + LevelsSum(levels[1..])
  }

  function OrderCount(levels: seq<Level>): nat {
    if levels == [] then 0 else |levels[0].queue| + OrderCount(levels[1..])
  }

  lemma {:induction false} QueueSumAppend(a: seq<Resting>, b: seq<Resting>)
    ensures QueueSum(a + b) == QueueSum(a) + QueueSum(b)
  {
    if a == [] {
      assert a + b == b;
    } else {
      assert (a + b)[1..] == a[1..] + b;
      QueueSumAppend(a[1..], b);
    }
  }

  lemma QueueSumSplit(queue: seq<Resting>, k: nat)
    requires k < |queue|
    ensures QueueSum(queue) == QueueSum(queue[..k]) + queue[k].qty + QueueSum(queue[k + 1..])
  {
    assert queue == queue[..k] + queue[k..];
    assert queue[k..][1..] == queue[k + 1..];
    QueueSumAppend(queue[..k], queue[k..]);
  }

  lemma QueueSumUpdate(queue: seq<Resting>, k: nat, r: Resting)
    requires k < |queue|
    ensures QueueSum(queue[k := r]) == QueueSum(queue) - queue[k].qty + r.qty
  {
    QueueSumSplit(queue, k);
    QueueSumSplit(queue[k := r], k);
    assert queue[k := r][..k] == queue[..k];
    assert queue[k := r][k + 1..] == queue[k + 1..];
  }

  lemma QueueSumRemove(queue: seq<Resting>, k: nat)
    requires k < |queue|
    ensures QueueSum(DeletedAt(queue, k)) == QueueSum(queue) - queue[k].qty
  {
    QueueSumSplit(queue, k);
    QueueSumAppend(queue[..k], queue[k + 1..]);
    assert DeletedAt(queue, k) == queue[..k] + queue[k + 1..];
  }

  lemma {:induction false} OrderCountAppend(a: seq<Level>, b: seq<Level>)
    ensures OrderCount(a + b) == OrderCount(a) + OrderCount(b)
  {
    if a == [] {
      assert a + b == b;
    } else {
      assert (a + b)[1..] == a[1..] + b;
      OrderCountAppend(a[1..], b);
    }
  }

  lemma {:induction false} LevelsSumAppend(a: seq<Level>, b: seq<Level>)
    ensures LevelsSum(a + b) == LevelsSum(a) + LevelsSum(b)
  {
    if a == [] {
      assert a + b == b;
    } else {
      assert (a + b)[1..] == a[1..] + b;
      LevelsSumAppend(a[1..], b);
    }
  }

  /** A 64-bit running total follows each change of the queue it totals. */
  lemma TotalAppended(queue: seq<Resting>, r: Resting)
    ensures Wrap64(Wrap64(QueueSum(queue)) + r.qty) == Wrap64(QueueSum(queue + [r]))
  {
    QueueSumAppend(queue, [r]);
    WrapAdd(QueueSum(queue), r.qty);
  }

  lemma TotalUpdated(queue: seq<Resting>, k: nat, r: Resting)
    requires k < |queue|
    ensures Wrap64(Wrap64(QueueSum(queue)) - queue[k].qty + r.qty) == Wrap64(QueueSum(queue[k := r]))
  {
    QueueSumUpdate(queue, k, r);
    WrapAdd(QueueSum(queue), r.qty - queue[k].qty);
  }

  lemma TotalDeleted(queue: seq<Resting>, k: nat)
    requires k < |queue|
    ensures Wrap64(Wrap64(QueueSum(queue)) - queue[k].qty) == Wrap64(QueueSum(DeletedAt(queue, k)))
  {
    QueueSumRemove(queue, k);
    WrapSub(QueueSum(queue), queue[k].qty);
  }

  // ----- operations

  ghost predicate InQueue(queue: seq<Resting>, id: u64) {
    exists k :: 0 <= k < |queue| && queue[k].orderId == id
  }

  ghost predicate OnSide(levels: seq<Level>, id: u64) {
    exists i :: 0 <= i < |levels| && InQueue(levels[i].queue, id)
  }

  /** Order `id` rests at `price`. */
  ghost predicate QuotedAt(levels: seq<Level>, id: u64, price: Price) {
    exists i :: 0 <= i < |levels| && levels[i].price == price && InQueue(levels[i].queue, id)
  }

  ghost predicate RestsAtPrice(book: Book, id: u64, price: Price) {
    QuotedAt(book.bids, id, price) || QuotedAt(book.asks, id, price)
  }

  /** Queue `r` at the tail of the level at `price`, opening that level when it is missing. */
  function AddOrder(side: Side, levels: seq<Level>, price: Price, r: Resting): seq<Level> {
    if levels == [] then [Level(price, [r])]
    else if levels[0].price == price then [Level(price, levels[0].queue + [r])] + levels[1..]
    else if Better(side, price, levels[0].price) then [Level(price, [r])] + levels
    else [levels[0]] + AddOrder(side, levels[1..], price, r)
  }

  function Without(queue: seq<Resting>, id: u64): seq<Resting> {
    if queue == [] then []
    else if queue[0].orderId == id then queue[1..]
    else [queue[0]] + Without(queue[1..], id)
  }

  /** Take order `id` off the side; a level that runs empty disappears. */
  ghost function DropOrder(levels: seq<Level>, id: u64): seq<Level> {
    if levels == [] then []
    else if InQueue(levels[0].queue, id) then
      var rest := Without(levels[0].queue, id);
      if rest == [] then levels[1..] else [levels[0].(queue := rest)] + levels[1..]
    else [levels[0]] + DropOrder(levels[1..], id)
  }

  function Requeue(queue: seq<Resting>, id: u64, qty: u64, prioritySeq: u64): seq<Resting> {
    if queue == [] then []
    else if queue[0].orderId == id then
      if qty > queue[0].qty then queue[1..] + [queue[0].(qty := qty, prioritySeq := prioritySeq)]
      else [queue[0].(qty := qty)] + queue[1..]
    else [queue[0]] + Requeue(queue[1..], id, qty, prioritySeq)
  }

  /** Change the quantity of order `id`: a decrease keeps its place, an increase sends it to
      the tail of its queue under the new priority. */
  ghost function ResizeOrder(levels: seq<Level>, id: u64, qty: u64, prioritySeq: u64): seq<Level> {
    if levels == [] then []
    else if InQueue(levels[0].queue, id) then
      [levels[0].(queue := Requeue(levels[0].queue, id, qty, prioritySeq))] + levels[1..]
    else [levels[0]] + ResizeOrder(levels[1..], id, qty, prioritySeq)
  }

  /** What inserting an order means for the abstract book. */
  ghost function InsertSpec(book: Book, order: Order, prioritySeq: u64): Book {
    book.With(order.side,
              AddOrder(order.side, book.Of(order.side), order.price,
                       Resting(order.symbolId, order.orderId, order.qty, prioritySeq)))
  }

  /** What cancelling means for the abstract book. */
  ghost function CancelSpec(book: Book, id: u64): Book {
    if OnSide(book.bids, id) then book.With(Buy, DropOrder(book.bids, id))
    else if OnSide(book.asks, id) then book.With(Sell, DropOrder(book.asks, id))
    else book
  }

  /** What a quantity change means for the abstract book. */
  ghost function ModifySpec(book: Book, id: u64, qty: u64, prioritySeq: u64): Book {
    if OnSide(book.bids, id) then book.With(Buy, ResizeOrder(book.bids, id, qty, prioritySeq))
    else if OnSide(book.asks, id) then book.With(Sell, ResizeOrder(book.asks, id, qty, prioritySeq))
    else book
  }

  /** What a fill that leaves `left` means for the abstract book. */
  ghost function FillSpec(book: Book, id: u64, left: u64): Book {
    if OnSide(book.bids, id) then book.With(Buy, FillLevels(book.bids, id, left))
    else book.With(Sell, FillLevels(book.asks, id, left))
  }

  ghost function FillLevels(levels: seq<Level>, id: u64, left: u64): seq<Level> {
    if left == 0 then DropOrder(levels, id) else ResizeOrder(levels, id, left, 0)
  }
}
