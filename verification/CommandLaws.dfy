/** What a command does to the book, told from the command's own fields, live and in replay. */
module CommandLaws {
  import opened Domain
  import opened BookSpec
  import opened BookOps
  import opened BookLaws
  import opened EngineSpec
  import opened Wal
  import opened Commands
  import opened Replay

  // ----- inserting an order and cancelling it again

  ghost predicate Unused(book: Book, id: u64) {
    !OnSide(book.bids, id) && !OnSide(book.asks, id)
  }

  lemma NotQueued(levels: seq<Level>, id: u64, a: nat, b: nat)
    requires !OnSide(levels, id) && a < |levels| && b < |levels[a].queue|
    ensures levels[a].queue[b].orderId != id
  {
    assert !InQueue(levels[a].queue, id);
  }

  lemma JoinedSits(levels: seq<Level>, k: nat, r: Resting)
    requires !OnSide(levels, r.orderId) && k < |levels|
    ensures RestsAt(levels[k := levels[k].(queue := levels[k].queue + [r])], k, |levels[k].queue|, r.orderId)
  {
    hide OnSide;
    forall a, b | 0 <= a < |levels| && 0 <= b < |levels[a].queue|
      ensures levels[a].queue[b].orderId != r.orderId
    {
      NotQueued(levels, r.orderId, a, b);
    }
  }

  lemma OpenedSits(levels: seq<Level>, k: nat, price: Price, r: Resting)
    requires !OnSide(levels, r.orderId) && k <= |levels|
    ensures RestsAt(levels[..k] + [Level(price, [r])] + levels[k..], k, 0, r.orderId)
  {
    hide OnSide;
    forall a, b | 0 <= a < |levels| && 0 <= b < |levels[a].queue|
      ensures levels[a].queue[b].orderId != r.orderId
    {
      NotQueued(levels, r.orderId, a, b);
    }
    var after := levels[..k] + [Level(price, [r])] + levels[k..];
    assert forall a :: 0 <= a < |after| && a != k ==> after[a] == levels[if a < k then a else a - 1];
  }

  /** An order inserted under an unused id rests at its price with its own data, behind the others there;
      and cancelling that id gives back the book. */
  lemma InsertThenCancel(book: Book, order: Order, prioritySeq: u64) returns (i: nat, j: nat)
    requires Sorted(order.side, book.Of(order.side)) && NonEmptyQueues(book.Of(order.side)) &&
             Unused(book, order.orderId)
    ensures var after := InsertSpec(book, order, prioritySeq);
            && Sits(after, order.side, i, j, order.orderId)
            && after.Of(order.side)[i].price == order.price && j + 1 == |after.Of(order.side)[i].queue|
            && after.Of(order.side)[i].queue[j] == Resting(order.symbolId, order.orderId, order.qty, prioritySeq)
            && CancelSpec(after, order.orderId) == book
  {
    hide Sorted, OnSide, RestsAt, AddOrder, CancelSpec, PriceOn;
    var levels, after := book.Of(order.side), InsertSpec(book, order, prioritySeq);
    var r := Resting(order.symbolId, order.orderId, order.qty, prioritySeq);
    i := InsertMeans(book, order, prioritySeq);
    hide InsertSpec;
    if PriceOn(levels, order.price) {
      j := |levels[i].queue|;
      JoinedSits(levels, i, r);
      CancelMeans(after, order.side, i, j, order.orderId);
      LastTaken(levels, i, r, after.Of(order.side), CancelSpec(after, order.orderId).Of(order.side));
    } else {
      j := 0;
      OpenedSits(levels, i, order.price, r);
      CancelMeans(after, order.side, i, j, order.orderId);
      assert CancelSpec(after, order.orderId).Of(order.side) == levels;
    }
    SameBooks(CancelSpec(after, order.orderId), book, order.side);
  }

  lemma LastTaken(levels: seq<Level>, i: nat, r: Resting, after: seq<Level>, taken: seq<Level>)
    requires i < |levels| && levels[i].queue != [] && after == levels[i := levels[i].(queue := levels[i].queue + [r])]
    requires TakenOut(after, taken, i, |levels[i].queue|)
    ensures taken == levels
  {
    var j, queue := |levels[i].queue|, after[i].queue;
    assert queue[..j] + queue[j + 1..] == levels[i].queue;
  }

  lemma SameBooks(a: Book, b: Book, side: Side)
    requires a.Of(side) == b.Of(side) && a.Of(side.Opposite()) == b.Of(side.Opposite())
    ensures a == b
  {
  }

  // ----- commands

  /** A command of kind 0 is a new order, one of kind 1 a cancel. */
  ghost predicate NewOrder(c: OrderCommand) {
    c.kind == 0
  }

  ghost predicate CancelOf(d: OrderCommand, c: OrderCommand) {
    d.kind == 1 && d.origClientOrderId == c.clientOrderId
  }

  /** The order of a command, field by field. */
  lemma LiveOrder(book: Book, c: OrderCommand)
    requires NewOrder(c)
    ensures LiveStep(book, c) ==
            SubmitSpec(book, Order(c.clientOrderId, c.price, c.qty, c.sequence, c.symbolId, c.side, c.orderType))
  {
  }

  /** A new order that crosses nothing, under an unused client id, rests under that id at its price on its
      side with its quantity, symbol and sequence; and a cancel that names that id gives back the book. */
  lemma LiveThenCancel(book: Book, c: OrderCommand, d: OrderCommand) returns (i: nat, j: nat)
    requires WellFormed(book) && NewOrder(c) && Quiet(book, c) && Unused(book, c.clientOrderId) && CancelOf(d, c)
    ensures var after := LiveStep(book, c);
            && Sits(after, c.side, i, j, c.clientOrderId) && after.Of(c.side)[i].price == c.price
            && after.Of(c.side)[i].queue[j] == Resting(c.symbolId, c.clientOrderId, c.qty, c.sequence)
            && LiveStep(after, d) == book
  {
    hide InsertSpec, SubmitSpec, CancelSpec, Sits, FrontCrosses, WellFormed;
    FormOf(book, c.side);
    AgreeIffQuiet(book, OrderOf(c));
    i, j := InsertThenCancel(book, OrderOf(c), c.sequence);
  }

  /** The same of the records of the two commands, when they are replayed. */
  lemma ReplayThenCancel(book: Book, e: LogEntry, c: OrderCommand, f: LogEntry, d: OrderCommand)
    returns (i: nat, j: nat)
    requires WellFormed(book) && NewOrder(c) && Unused(book, c.clientOrderId) && CancelOf(d, c)
    requires RecordOf(e, c) && RecordOf(f, d)
    ensures var after := Effect(book, e);
            && Sits(after, c.side, i, j, c.clientOrderId) && after.Of(c.side)[i].price == c.price
            && after.Of(c.side)[i].queue[j] == Resting(c.symbolId, c.clientOrderId, c.qty, c.sequence)
            && Effect(after, f) == book
  {
    hide InsertSpec, CancelSpec, Sits, Effect, RecordOf, WellFormed;
    FormOf(book, c.side);
    EffectOf(book, e, c);
    i, j := InsertThenCancel(book, OrderOf(c), c.sequence);
    EffectOf(Effect(book, e), f, d);
  }

  /** A command that is neither changes no book. */
  lemma OtherCommands(book: Book, c: OrderCommand)
    requires c.kind != 0 && c.kind != 1
    ensures LiveStep(book, c) == book
  {
  }

  /** A record whose payload is not of command size, or whose type is neither 0 nor 1, changes no book. */
  lemma OtherRecords(book: Book, e: LogEntry)
    requires |e.payload| != 72 || (e.header.messageType != 0 && e.header.messageType != 1)
    ensures Effect(book, e) == book
  {
  }
}
