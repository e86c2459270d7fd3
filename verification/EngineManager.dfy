/** The engine thread's handling of one command: journal first, then act. */
module EngineManagers {
  import opened BookSpec
  import opened BookRep
  import opened SideRep
  import opened EngineSpec
  import opened MatchingEngines
  import opened Wal
  import opened Journals
  import opened Commands
  import opened Replay

  class EngineManager {
    const engine: MatchingEngine
    const journal: EntryQueue
    const ctx: ExecutionContext

    constructor (journalCapacity: nat)
      ensures engine.Ready(ctx) && engine.book.Abs() == EMPTY && journal.items == [] &&
              journal.capacity == journalCapacity
    {
      engine := new MatchingEngine();
      journal := new EntryQueue(journalCapacity);
      ctx := new ExecutionContext();
      new;
      EmptyFormed();
    }

    /** A command refused by the risk checks changes nothing here. A command that passed is recorded,
        unless the journal queue is full, and moves the book as `LiveStep` says. */
    method ProcessCommand(cmd: OrderCommand, passed: bool)
      requires engine.Ready(ctx)
      requires passed && cmd.kind == NEW_ORDER ==>
                 var order := OrderOf(cmd); Rests(engine.book.Abs(), order) ==>
                   Insertable(Matched(engine.book.Abs(), order), order)
      modifies engine, journal, ctx, engine.book, engine.book.bids, engine.book.asks, engine.book.levelPool,
               engine.book.orderPool
      ensures engine.Ready(ctx)
      ensures engine.book.Abs() == if passed then LiveStep(old(engine.book.Abs()), cmd) else old(engine.book.Abs())
      ensures !passed || |old(journal.items)| >= journal.capacity ==> journal.items == old(journal.items)
      ensures passed && |old(journal.items)| < journal.capacity ==>
                exists e :: RecordOf(e, cmd) && journal.items == old(journal.items) + [e]
    {
      hide Sides, PoolOk, LookupOk, NoEmptyQueue, Uncrossed, Insertable, SubmitSpec, CancelSpec, Sealed, CommandBytes,
        OnSide;
      if !passed {
        return;
      }
      CommandFits(cmd);
      var recorded := Append(journal, cmd.sequence, cmd.timestamp, cmd.kind, CommandBytes(cmd));
      ghost var items := journal.items;
      if cmd.kind == NEW_ORDER {
        ctx.trades, ctx.reports := [], [];
        var status := engine.SubmitOrder(OrderOf(cmd), ctx);
      } else if cmd.kind == CANCEL_ORDER {
        ctx.trades, ctx.reports := [], [];
        var found := engine.CancelOrder(cmd.origClientOrderId, cmd.symbolId, ctx);
      }
      assert journal.items == items;
    }
  }

  lemma CommandFits(cmd: OrderCommand)
    ensures |CommandBytes(cmd)| <= MAX_PAYLOAD
  {
  }
}
