# FluxTrade: verified model

A Dafny model of the hard parts of FluxTrade, a single-process exchange: the limit order book and
matching engine, the lock-free queues, persistence (checksum, journal, snapshot, replay), gateway
framing, the module kernel and the pre-trade risk checks. Code that changes state in place is modelled
by classes and methods with loops; each is proved against a specification function, and what the
exchange promises is proved about those functions and about whole runs.

`dafny verify dfyconfig.toml` checks everything.

## How the model is built

**Order book.** `LimitOrderBook` owns two `BookSide`s, an id lookup and two `ObjectPool`s. Orders and
levels are doubly-linked nodes in pool storage. A pointer is the index of a pool slot, which is how the
pool itself addresses its objects, and `NULL` is -1. `Valid()` says: both level lists are well linked and
strictly sorted, every level has a non-empty well-linked queue, totals and counts are those of the
queues, price indexes and lookup hold exactly the linked nodes, and free plus linked slots make up each
pool. `Abs()` is the abstract book, per side a price-sorted list of FIFO queues, and every operation is
proved to move `Abs()` as one function in `BookSpec` says. `BookSide` stands for `BidBook` and `AskBook`,
which mirror each other, with the side as a parameter.

**Matching.** `MatchingEngine` sweeps the linked structure. Its sweep is proved equal to a recursive greedy
match, whose trades, conservation and shape are proved separately. From an empty book no sequence of
commands locks or crosses the book, which is what makes the bids-first level search right.

**Queues.** The MPSC queue and the SPSC ring are step systems, one atomic access per step, in any
interleaving. The SPSC indexes wrap at 64 bits; the MPSC queue is proved on unbounded positions, and `MpscWrap` proves
when the 64-bit queue is a faithful image of it.

**Persistence.** Files are byte sequences; structs are packed little-endian with zero padding. The snapshot
writer and reader, the journal and the replay engine work on the linked book.

**The rest.** Gateway framing on a fixed array, Kahn's resolver with arbitrary hash-map iteration orders,
kernel passes as runs of steps, the rate limiter against a full history, credit accounting and the
nine-stage risk pipeline.

## Where the code and its stated intent differ

- A partly filled limit order is meant to rest its remainder, but line 143 of `matching_engine.cpp` passes
  the original order. `RestsItsRemainderIff` gives the exact condition, `OverRestExample` an instance, and
  `RemainderConserved` the law for a variant that rests the remainder.
- The MPSC static assertion admits capacity 1, with which unread values are lost (`SafeCapacities`).
- `SPSCQueue::size()` is wrong while only the write index has wrapped (`SizeIff`), which every ring can reach
  (`SizeAtWrap`).
- A packet of length zero stops the framing loop from ending (`LoopEndsIff`, `StallExample`).
- A rate limit above 100 reads overwritten slots, and some run of messages shows it (`ExactIff`).
- A record damaged across the end of its checksum field can pass the checksum (`AlwaysRefusedIff`,
  `CommandsRefusedIff`), but a command record so damaged replays as before (`DamageHarmless`).
- A fill not covered by available and reserved power breaks the credit total (`FillConservesIff`).
- Starting the kernel again over running modules can leave a module without its dependency (`EveryPoint`,
  `RestartIff`, `RestartExample`).
- Replay inserts where the live engine matches; they agree only on orders that cross nothing
  (`AgreeIffQuiet`, `CrossingExample`).
- A new journal writer truncates only the numbers it reaches, so recovery reads on into older files behind them
  (`ReadsBack`, `StaleExample`).
- A push to the MPSC queue that is overtaken by 2^64 others can overwrite an unread value (`EveryRun64KeepsAll`,
  `OldClaimLoses`).
- `docs/ORDER_BOOK.md` wants level totals above zero, but `modify_qty` accepts a quantity of zero (`PositiveIff`,
  `TotalsIff`, `ZeroExample`), and totals wrap at 64 bits (`WrapExample`).
- `PriceLevelNode` has no `head_order`; the snapshot writer's use of it is read as `orders.head()`.

## Model

| member | source | states |
|---|---|---|
| `ObjectPools.ObjectPool.constructor` | common/include/common/object_pool.hpp:15-20 | every slot is free, once |
| `ObjectPools.ObjectPool.Allocate` | common/include/common/object_pool.hpp:33-44 | hands out the last free slot and takes it off the free list; none when exhausted |
| `ObjectPools.ObjectPool.Deallocate` | common/include/common/object_pool.hpp:46-63 | puts a slot back on the free list; null is ignored |
| `Links.LinkAt` | matching/order_book/intrusive_list.hpp:20-30 | linking a loose node at a position gives a well-linked list with it in that place |
| `Links.UnlinkAt` | matching/order_book/intrusive_list.hpp:33-47 | unlinking a node gives a well-linked list of the others in order |
| `OrderBooks.LimitOrderBook.ListAppend` | matching/order_book/intrusive_list.hpp:20-30 | the queue's slots become the old ones and the new one at the tail, all links right |
| `OrderBooks.LimitOrderBook.ListRemove` | matching/order_book/intrusive_list.hpp:33-47 | the queue's slots become the old ones without the removed one, all links right |
| `BookSides.BookSide.FindSlot` | matching/order_book/bid_book.hpp:47-58 | the walk stops where the new price belongs: behind every better level, before every worse one |
| `BookSides.BookSide.CreateLevel` | matching/order_book/bid_book.hpp:28-61 | the side stays linked, sorted and indexed with a new empty level in its place |
| `BookSides.BookSide.RemoveLevel` | matching/order_book/bid_book.hpp:64-83 | the side stays linked, sorted and indexed without the level, whose slot is free |
| `OrderBooks.LimitOrderBook.constructor` | matching/order_book/order_book.cpp:6-7 | a sound, empty book with 1024 free levels and 10240 free orders |
| `OrderBooks.LimitOrderBook.Insert` | matching/order_book/order_book.cpp:9-53 | the representation invariant is kept and the abstract book gets the order at the tail of its price level, opened if missing |
| `OrderBooks.LimitOrderBook.FindLevelOf` | matching/order_book/order_book.cpp:59-65 | if no price is on both sides, the bids-first search finds the level that queues the order |
| `OrderBooks.LimitOrderBook.Cancel` | matching/order_book/order_book.cpp:55-95 | the invariant is kept, exactly the order with that id disappears, and a level that runs empty with it; false exactly for an unknown id |
| `OrderBooks.LimitOrderBook.ModifyQty` | matching/order_book/order_book.cpp:97-123 | a decrease keeps the order's place, an increase sends it to its queue's tail under the new priority; nothing else moves |
| `OrderBooks.LimitOrderBook.FillOrder` | matching/order_book/order_book.cpp:125-164 | the filled part leaves the order and its level's total, and a fully filled order disappears |
| `OrderBooks.LimitOrderBook.ClearSide` | matching/order_book/bid_book.hpp:85-101 | every order and level slot of the side goes back to its pool once |
| `OrderBooks.LimitOrderBook.Clear` | matching/order_book/order_book.cpp:174-178 | a sound, empty book with all slots free |
| `OrderBooks.LimitOrderBook.Accounts` | docs/ORDER_BOOK.md:80-88 | free slots plus resting orders, and free levels plus price levels, make up the pools; the lookup has exactly the resting ids and the indexes exactly the quoted prices |
| `OrderBooks.LimitOrderBook.KnownPrice` | matching/order_book/order_book.cpp:9-17 | the price stored with an order is the price of the level it rests at |
| `Snapshots.BookUnique` | docs/ORDER_BOOK.md:80-88 | no order id rests twice in a sound book |
| `BookSpec.TotalAppended` | matching/order_book/order_book.cpp:42-44 | the 64-bit running total follows an append, also when it wraps |
| `BookSpec.TotalUpdated` | matching/order_book/order_book.cpp:108-120 | the 64-bit running total follows a quantity change |
| `BookSpec.TotalDeleted` | matching/order_book/order_book.cpp:67-82 | the 64-bit running total follows a removal |
| `BookLaws.ModifyMeans` | matching/order_book/order_book.cpp:97-123 | for an order resting anywhere on either side: exactly it gets the new quantity, in place if it did not grow and at the tail under the new priority if it did, other levels and the other side stay, and the side's sum moves by the difference |
| `BookLaws.CancelMeans` | matching/order_book/order_book.cpp:55-95 | for an order resting anywhere on either side: exactly it disappears, with its level if alone there, and the side's sum falls by its quantity |
| `BookLaws.FillMeans` | matching/order_book/order_book.cpp:125-164 | for an order resting anywhere on either side: exactly it shrinks in place, or disappears when nothing is left, and the side's sum falls by what was filled |
| `BookLaws.UnknownMeans` | matching/order_book/order_book.cpp:55-58 | an id that rests nowhere changes nothing |
| `BookLaws.InsertMeans` | matching/order_book/order_book.cpp:9-53 | the order joins the tail of the level at its price, or a new level between the better and the worse prices, with its own data; nothing else changes |
| `Matching.MatchConserves` | matching/src/matching_engine.cpp:22-137 | the submitted quantity is the traded sum plus the remainder, and the opposite side loses exactly the traded sum |
| `Matching.MatchIsGreedy` | matching/src/matching_engine.cpp:25-137 | trades take the front of the opposite side in price then queue order at resting prices within the limit, all but the last in full, each reporting what the trades so far left of the order, and stop only when filled, out of quotes or not crossing |
| `Matching.TradedVolume` | matching/src/matching_engine.cpp:25-137 | the traded quantity is the smaller of the order and the crossing volume |
| `Matching.TradesWithinLimit` | matching/src/matching_engine.cpp:25-137 | every trade of a limit order is at its limit or better: not above it for a buy, not below it for a sell |
| `Matching.StopsBeyondLimit` | matching/src/matching_engine.cpp:25-137 | what is left of an order faces no quotes at all, or it is a limit order and the front price is strictly beyond its limit |
| `Matching.UnlimitedTakesAll` | matching/src/matching_engine.cpp:25-137 | an order without a limit trades the smaller of its quantity and all that is offered |
| `Matching.LimitTakesOffered` | matching/src/matching_engine.cpp:25-137 | a limit order trades the smaller of its quantity and all that is offered at its limit or better |
| `Matching.MatchKeepsShape` | matching/src/matching_engine.cpp:25-137 | the side stays sorted with no empty level and no new price, and what is left of the order does not cross its front |
| `EngineLog.TradesKept` | matching/include/matching/execution_context.hpp:24-32 | the context holds the first 128 of the full trade stream, in order |
| `EngineLog.ReportsKept` | matching/include/matching/execution_context.hpp:24-32 | the context holds the first 256 of the full report stream, in order |
| `EngineLog.StatsOfFills` | matching/include/matching/matching_statistics.hpp:7-24 | a sweep adds the number of fills, their quantities and their values to the counters |
| `SubmitLaws.TradeMeans` | matching/src/trade_builder.cpp:18-28 | the i-th trade is with the i-th quote of the opposite side at its price, with the buying and the selling order's ids as they are, whichever came last |
| `SubmitLaws.ReportsMean` | matching/src/trade_builder.cpp:30-62 | each trade is reported to the incoming order with what the trades so far left of it, and to the resting one with what the trade left of that |
| `SubmitLaws.LogMeans` | matching/src/matching_engine.cpp:10-160 | the whole record of a submission: the first 128 trades, the first 256 of acknowledgement, trade reports and expiration, sequence numbers and every counter |
| `SubmitLaws.StatusMeans` | matching/src/matching_engine.cpp:139-153 | filled, expired, partially filled or accepted, each exactly by the traded quantity and the kind of order |
| `SubmitLaws.SubmitRests` | matching/src/matching_engine.cpp:139-144 | the order joins its own side exactly when it is a limit order not traded in full |
| `SubmitLaws.VolumeMeans` | matching/include/matching/matching_statistics.hpp:7-24 | fills at one price are worth that price for each share, and parts add up |
| `EngineSpec.OneFillSweeps` | matching/src/matching_engine.cpp:35-80 | one match leaves the outcome of the sweep as it was and makes the termination measure smaller |
| `EngineSpec.SubmitKeeps` | matching/src/matching_engine.cpp:10-160 | any submission leaves the book sorted, without empty levels and uncrossed |
| `EngineSpec.CancelKeeps` | matching/src/matching_engine.cpp:162-188 | any cancel does too |
| `EngineSpec.ModifyKeeps` | matching/src/matching_engine.cpp:190-201 | any modify does too |
| `EngineSpec.NeverCrossed` | matching/src/matching_engine.cpp:26-32 | after any commands from an empty book the best bid is strictly below the best ask, and no price is on both sides |
| `EngineLaws.SubmitFlow` | matching/src/matching_engine.cpp:139-153 | where the submitted quantity goes in the code as written, on both sides of the book |
| `EngineLaws.RestsItsRemainderIff` | matching/src/matching_engine.cpp:140-144 | a limit order rests exactly its remainder if and only if its crossing volume is zero or at least its quantity |
| `EngineLaws.OverRestExample` | matching/src/matching_engine.cpp:142-143 | ten traded of fifteen leave fifteen resting |
| `EngineLaws.RemainderConserved` | matching/src/matching_engine.cpp:139-144 | with the remainder resting instead, every limit order is conserved end to end |
| `EngineLaws.QueuesRanked` | matching/order_book/order_book.cpp:9-123 | over every run whose priorities grow, each queue is in strict priority order |
| `Quantities.StepIff` | matching/order_book/order_book.cpp:97-123 | a command keeps every resting quantity above zero if and only if it does not set the quantity of a resting order to zero |
| `Quantities.PositiveIff` | docs/ORDER_BOOK.md:85 | over every run from an empty book: all resting quantities are above zero at every point if and only if no command sets an order to zero while it rests |
| `Quantities.TradesPositive` | matching/src/matching_engine.cpp:38-80 | in such a run every fill has a positive size |
| `LevelTotals.FreshOnce` | matching/order_book/order_book.cpp:9-53 | when orders rest only under ids that do not rest yet, no id ever rests twice |
| `LevelTotals.TotalsIff` | docs/ORDER_BOOK.md:85 | over every run with such ids and level sums below 2^64: every stored 64-bit level total is above zero at every point and after any further cancels if and only if no command sets an order to zero while it rests |
| `LevelTotals.ZeroExample` | matching/order_book/order_book.cpp:108-111 | an order for ten, modified to zero, leaves its level standing with a total of zero |
| `LevelTotals.WrapExample` | matching/order_book/order_book.cpp:42-44 | two orders of 2^63 at one price give a total of zero with no quantity zero |
| `MatchingEngines.ExecutionContext.AddTrade` | matching/include/matching/execution_context.hpp:24-27 | a trade joins the buffer while there is room |
| `MatchingEngines.ExecutionContext.AddReport` | matching/include/matching/execution_context.hpp:29-32 | a report joins the buffer while there is room |
| `MatchingEngines.MatchingEngine.MatchOne` | matching/src/matching_engine.cpp:38-80 | one match on the linked book is one abstract fill of the front order, logged in full |
| `MatchingEngines.MatchingEngine.SweepSide` | matching/src/matching_engine.cpp:25-137 | the nested loops end, with the book, the log and the remainder of the greedy match |
| `MatchingEngines.MatchingEngine.SubmitOrder` | matching/src/matching_engine.cpp:10-160 | the linked book, the context, the counters and the status are those of the abstract submission, and the engine stays ready |
| `MatchingEngines.MatchingEngine.CancelOrder` | matching/src/matching_engine.cpp:162-188 | exactly a resting order is cancelled and reported at the price it rested at; otherwise only the reject counter moves |
| `MatchingEngines.MatchingEngine.ModifyOrder` | matching/src/matching_engine.cpp:190-201 | exactly a resting order is resized, with the clock as its new priority if it grows |
| `MatchingEngines.MatchingEngine.Reset` | matching/src/matching_engine.cpp:203-208 | an empty book and fresh counters |
| `MpscQueue.SeenMeans` | common/include/common/ring_buffer.hpp:125-146 | a producer sees full exactly when the cell one lap back is unreleased, and a claimable cell only when there is room |
| `MpscQueue.StoreTouches` | common/include/common/ring_buffer.hpp:141-145 | no store hits a cell with a published unread value |
| `MpscQueue.PopSeenMeans` | common/include/common/ring_buffer.hpp:175-196 | the consumer sees a value exactly when the next ticket is published |
| `MpscQueue.PushDecides` | common/include/common/ring_buffer.hpp:125-146 | a push returns false exactly when the queue is full as it loads the cell, claims exactly when its position is the next and there is room, and otherwise tries again |
| `MpscQueue.PopDecides` | common/include/common/ring_buffer.hpp:175-196 | a pop returns false exactly when the next ticket is not published as it loads the cell, and takes it exactly when it is |
| `MpscQueue.PushReloads` | common/include/common/ring_buffer.hpp:114-139 | a push that tries again goes on from the current write index with the same value |
| `MpscQueue.StepKeeps` | common/include/common/ring_buffer.hpp:111-196 | every step of every thread keeps the queue invariant |
| `MpscQueue.EveryRunKeepsAll` | common/include/common/ring_buffer.hpp:111-196 | with at least two cells, in every interleaving pops follow ticket order, each value at most once, and every unread value is intact |
| `MpscQueue.OneCellLoses` | common/include/common/ring_buffer.hpp:144 | with one cell a second push overwrites an unread value |
| `MpscQueue.SafeCapacities` | common/include/common/ring_buffer.hpp:108 | exactly the capacities of at least two are safe in every run |
| `MpscWrap.EnabledAgree` | common/include/common/ring_buffer.hpp:111-196 | with wrapped positions and signed differences the same steps are possible, while no push is overtaken by 2^63 others before it sees its cell, nor by 2^64 before it claims |
| `MpscWrap.EveryRun64KeepsAll` | common/include/common/ring_buffer.hpp:111-196 | every run on 64-bit positions that keeps to that is the wrapped image of a run on unbounded positions, so nothing is lost in it |
| `MpscWrap.OldClaimLoses` | common/include/common/ring_buffer.hpp:130-133 | a run that does not: a push that sleeps through 2^64 others overwrites an unread value |
| `SpscRing.FullMeans` | common/include/common/ring_buffer.hpp:36-43 | a push finds the ring full exactly when it is full as it loads the read index, wrapped or not |
| `SpscRing.EmptyMeans` | common/include/common/ring_buffer.hpp:66-72 | a pop finds the ring empty exactly when it is empty as it loads the write index |
| `SpscRing.StepKeeps` | common/include/common/ring_buffer.hpp:36-77 | every step keeps masked slots and wrapped indexes in agreement with unbounded counters |
| `SpscRing.EveryRunIsFifo` | common/include/common/ring_buffer.hpp:36-77 | in every run the popped values are the pushed ones in order, never more than the capacity apart |
| `SpscRing.Refines` | common/include/common/ring_buffer.hpp:36-77 | each step leaves the abstract bounded queue alone, appends while there is room, or takes its head |
| `SpscRing.SizeIff` | common/include/common/ring_buffer.hpp:79-83 | the size estimate is right if and only if the write index has not wrapped past the read index |
| `SpscRing.SizeAtWrap` | common/include/common/ring_buffer.hpp:79-83 | on a ring of any capacity some run ends with one value held and a size of zero |
| `Crc32c.Checksum` | persistence/include/persistence/checksum.hpp:54-62 | the nested loops compute the CRC of the data from the initial value |
| `Crc32c.Chained` | persistence/include/persistence/memory_journal.hpp:47-48 | chaining through the complement over two parts is one pass over both |
| `Crc32c.StepUnstep` | persistence/include/persistence/checksum.hpp:57-59 | the bit step can be undone |
| `Crc32c.UnstepStep` | persistence/include/persistence/checksum.hpp:57-59 | and reaches every 32-bit state, so it is a bijection |
| `Crc32c.RegisterOfWord` | persistence/include/persistence/checksum.hpp:55-60 | up to four bytes act as one word xored in before all their bit steps |
| `Crc32c.BurstDetected` | persistence/include/persistence/checksum.hpp:17-62 | equal-length inputs that differ only within four consecutive bytes never share a checksum |
| `CrcLinear.BurstXor` | persistence/include/persistence/checksum.hpp:54-62 | how up to four changed bytes move the register is the same whatever the rest of the data is |
| `Bytes.PackUnpack` | persistence/include/persistence/wal_record.hpp:14-31 | reading a packed struct gives back the values packed |
| `Commands.CommandBack` | gateway/include/gateway/order_command.hpp:20-38 | reading the 72 bytes of a command gives back the command |
| `Layouts.CommandLayout` | gateway/include/gateway/order_command.hpp:20-38 | every field of a command by its offset in the 72 bytes, with the codes of side and type |
| `Wal.HeaderBack` | persistence/include/persistence/wal_record.hpp:25-31 | a record header reads back from its 24 bytes |
| `Wal.FileHeaderBack` | persistence/include/persistence/wal_record.hpp:14-21 | a file header reads back from its 32 bytes |
| `Layouts.RecordLayout` | persistence/include/persistence/wal_record.hpp:25-31 | every field of a record header by its offset |
| `Layouts.FileLayout` | persistence/include/persistence/wal_record.hpp:14-21 | a file header starts with the letters FLUX and version 1, and every field by its offset |
| `Layouts.GoodJournal` | persistence/include/persistence/replay_engine.hpp:62-66 | a journal is read exactly when it is long enough and starts with those six bytes |
| `Layouts.CheckValue` | persistence/include/persistence/checksum.hpp:17-62 | the published check value of CRC-32C: the digits 1 to 9 give 0xE3069283, also chained over any split of them |
| `Wal.CheckIsOnePass` | persistence/include/persistence/memory_journal.hpp:47-49 | a record's checksum is one pass over its header fields and payload |
| `Wal.RecordsRead` | persistence/include/persistence/replay_engine.hpp:68-119 | sealed records in front of any bytes are read first, and the rest as if they were not there |
| `Wal.TornRecord` | persistence/include/persistence/replay_engine.hpp:69-75 | a record cut short is not read and is no failure |
| `Wal.CutFile` | persistence/include/persistence/replay_engine.hpp:58-120 | a file cut anywhere at or behind its header reads as exactly its whole records |
| `Wal.WholeFits` | persistence/include/persistence/replay_engine.hpp:68-75 | the records read from a cut file are as many as fit, and no more would |
| `Wal.CorruptionRefused` | persistence/include/persistence/replay_engine.hpp:77-84 | a record altered within four consecutive bytes of its body or of its checksum, but not of both, its length field intact, is refused; the records before it are read |
| `WalCorruption.AlwaysRefusedIff` | persistence/include/persistence/replay_engine.hpp:77-84 | any change within the four bytes from a position on, other than 17, is sure to be refused if and only if they do not reach from the checksum into the payload |
| `WalCorruption.StraddlingOne` | persistence/include/persistence/replay_engine.hpp:77-84 | every record of one payload byte has an accepted alteration of that byte and three of the checksum |
| `WalCorruption.StraddlingTwo` | persistence/include/persistence/replay_engine.hpp:77-84 | every record of two payload bytes one of both and two of the checksum |
| `WalCorruption.StraddlingThree` | persistence/include/persistence/replay_engine.hpp:77-84 | every record of four payload bytes one of three of them and one of the checksum |
| `WalCorruption.StraddlingCommand` | persistence/include/persistence/replay_engine.hpp:77-84 | every record of command size one of its first two payload bytes and two of the checksum |
| `WalCorruption.CommandsRefusedIff` | persistence/include/persistence/replay_engine.hpp:77-84 | for records of command size, any change within the four bytes from a position on is sure to be refused if and only if the position is not 22, two checksum bytes and two payload bytes |
| `CommandDamage.DamageHarmless` | persistence/include/persistence/replay_engine.hpp:77-118 | any change within four consecutive bytes of a command record, its length field intact, is refused or leaves replay exactly as it was |
| `Journals.Append` | persistence/include/persistence/memory_journal.hpp:28-52 | exactly the sealed record of the given fields is queued; an oversized payload or a full queue changes nothing |
| `Journals.DiskJournal.constructor` | persistence/include/persistence/disk_journal.hpp:27-30 | nothing written, the directory as it was |
| `Journals.DiskJournal.RotateFile` | persistence/include/persistence/disk_journal.hpp:102-123 | the next journal number holds just a file header, and all else stays |
| `Journals.DiskJournal.WriteEntry` | persistence/include/persistence/disk_journal.hpp:86-94 | exactly this record joins what is written, in a new file exactly when none is open or the current one is full |
| `Journals.DiskJournal.Stop` | persistence/include/persistence/disk_journal.hpp:43-51 | the file is closed and all that is written stays |
| `Journals.DiskJournal.ReadsBack` | persistence/include/persistence/replay_engine.hpp:39-54 | reading the directory gives back everything written, in order, through every rotation, and then what older files behind the last journal hold; exactly what was written if and only if nothing is read from there |
| `Journals.StaleExample` | persistence/include/persistence/replay_engine.hpp:39-54 | a new journal over a directory with an older second file: after one record is written, reading gives that record and then the older ones |
| `Journals.ReadBack` | persistence/include/persistence/replay_engine.hpp:39-54 | reading on from any journal gives back what was written from that journal on, and then what lies behind the last |
| `Journals.TornJournal` | persistence/include/persistence/replay_engine.hpp:58-120 | with the last journal cut anywhere behind its header, reading on from any journal gives exactly the whole records from there, and then what lies behind the last |
| `SnapshotFormat.SnapshotHeaderBack` | persistence/include/persistence/snapshot_writer.hpp:15-25 | a snapshot header reads back from its 40 bytes |
| `SnapshotFormat.LevelBack` | persistence/include/persistence/snapshot_writer.hpp:27-32 | a level record reads back, negative prices included |
| `SnapshotFormat.OrderBack` | persistence/include/persistence/snapshot_writer.hpp:34-38 | an order record reads back |
| `Layouts.SnapshotLayout` | persistence/include/persistence/snapshot_writer.hpp:15-25 | every field of a snapshot header by its offset |
| `Layouts.EntryLayout` | persistence/include/persistence/snapshot_writer.hpp:27-38 | every field of a level and of an order record by its offset |
| `Layouts.SavedLevel` | persistence/include/persistence/snapshot_writer.hpp:93-97 | a saved level holds its price, the 64-bit sum of its queue and the number of its orders |
| `Layouts.SavedFile` | persistence/include/persistence/snapshot_writer.hpp:42-75 | a saved file is a header with the sequence, the time and the two level counts, and then the bids and the asks |
| `Layouts.GoodSnapshotFile` | persistence/include/persistence/snapshot_reader.hpp:19-23 | a snapshot is read exactly when it is long enough and starts with its magic number and version 1 |
| `SnapshotLaws.SavedLoads` | persistence/include/persistence/snapshot_reader.hpp:15-77 | saved bytes pass every check of the loader and make it insert the book's orders, best level first in queue order |
| `SnapshotDamage.SavedDamageRefused` | persistence/include/persistence/snapshot_reader.hpp:28-38 | a saved snapshot changed within four consecutive bytes behind its header is refused, unless the change makes the reader stop before the end of the body |
| `Rebuilding.ContentsRebuild` | persistence/include/persistence/snapshot_reader.hpp:53-74 | those inserts are all possible and rebuild the book: same levels, queues, ids, quantities and priorities |
| `Snapshots.CountLevels` | persistence/include/persistence/snapshot_writer.hpp:78-86 | the number of levels of the abstract side |
| `Snapshots.CountOrders` | persistence/include/persistence/snapshot_writer.hpp:119-127 | the length of the queue |
| `Snapshots.WriteLevels` | persistence/include/persistence/snapshot_writer.hpp:88-117 | the file grows by the bytes of the abstract side and the checksum by their CRC |
| `Snapshots.Save` | persistence/include/persistence/snapshot_writer.hpp:42-75 | the file is exactly the snapshot of the abstract book |
| `Snapshots.LoadOrders` | persistence/include/persistence/snapshot_reader.hpp:53-74 | every order record that is there is inserted in turn; success exactly when all were there |
| `Snapshots.LoadLevels` | persistence/include/persistence/snapshot_reader.hpp:45-77 | the same for levels and their orders |
| `Snapshots.Load` | persistence/include/persistence/snapshot_reader.hpp:15-42 | a bad header leaves the book alone; otherwise the book holds what could be read, and success means complete and with the right checksum |
| `Snapshots.SnapshotRestores` | persistence/include/persistence/snapshot_writer.hpp:42-117 | a snapshot saved from any sound book loads, passes the checksum and yields the same abstract book |
| `Replay.ReplayTwice` | persistence/include/persistence/replay_engine.hpp:86-118 | replaying again with the sequence carried over changes nothing |
| `Replay.SnapshotThenJournal` | persistence/include/persistence/replay_engine.hpp:20-55 | a snapshot at any point and then the journal from any earlier point give the book of replaying everything |
| `Replay.AgreeIffQuiet` | persistence/include/persistence/replay_engine.hpp:109 | inserting and submitting a positive limit order agree if and only if it crosses nothing |
| `Replay.CrossingExample` | persistence/include/persistence/replay_engine.hpp:109 | ten lots offered and then bid for at the same price: their journal, built record by record, does not replay to the live book |
| `Replay.JournalRecords` | persistence/include/persistence/memory_journal.hpp:28-52 | every history has a journal of sealed records |
| `CommandLaws.LiveOrder` | exchange/include/exchange/engine_manager.hpp:107-123 | the order submitted for a command, field by field |
| `CommandLaws.LiveThenCancel` | exchange/include/exchange/engine_manager.hpp:107-135 | a new order that crosses nothing rests under its client id at its price, with its quantity, symbol and sequence, and a cancel that names that id gives back the book |
| `CommandLaws.ReplayThenCancel` | persistence/include/persistence/replay_engine.hpp:88-118 | the same of the records of the two commands |
| `CommandLaws.InsertThenCancel` | matching/order_book/order_book.cpp:9-95 | an order inserted under an unused id rests last at its price, and cancelling it gives back the book |
| `CommandLaws.OtherCommands` | exchange/include/exchange/engine_manager.hpp:107-137 | a command that is neither a new order nor a cancel changes no book |
| `CommandLaws.OtherRecords` | persistence/include/persistence/replay_engine.hpp:88-118 | nor does a record of another type or size |
| `Replay.ReplayIsLive` | exchange/include/exchange/engine_manager.hpp:95-137 | for every history of non-crossing limit orders and cancels, replaying its journal rebuilds the live book |
| `Replay.CrashRecovery` | persistence/include/persistence/replay_engine.hpp:20-121 | after such a history, journals torn at any byte of the last one read back as the whole records and then what older files hold behind; the whole records rebuild the live book as of them, and so does all of it unless an older record has a higher sequence |
| `Replay.SnapshotRecovery` | persistence/include/persistence/replay_engine.hpp:20-55 | the live book at any point, saved, and the journals from a suitable number on rebuild the live book, older files behind included unless they hold a higher sequence |
| `Replay.QuietPlayable` | persistence/include/persistence/replay_engine.hpp:86-118 | a history the live book had room for can be replayed step by step |
| `ReplayEngines.ApplyRecord` | persistence/include/persistence/replay_engine.hpp:86-118 | a record at or below the current sequence is skipped; otherwise book and sequence move as the record says |
| `ReplayEngines.ReplayJournal` | persistence/include/persistence/replay_engine.hpp:58-121 | the book and sequence of the readable records in order; success exactly when the header is right and no checksum is wrong |
| `ReplayEngines.Recover` | persistence/include/persistence/replay_engine.hpp:20-55 | the loaded snapshot, or the given book, with all journals from the recorded one, or the first, replayed; failure exactly when the snapshot or a journal fails |
| `Recovery.KeptOnSaved` | persistence/include/persistence/replay_engine.hpp:20-55 | on the live book saved at any point the kept part of the journals replays at every step and ends in the live book of that point or of the last whole record, whichever is later |
| `Recovery.SaveCrashRecover` | persistence/include/persistence/replay_engine.hpp:20-55 | end to end on the linked books: save, lose the last journal from any byte behind its header on, recover from the snapshot file and the journals, with older files of lower sequences behind them or none; the book is that live book, and recovery succeeds exactly when the older files read intact |
| `Recovery.CrashRecover` | persistence/include/persistence/replay_engine.hpp:20-55 | without a snapshot, or with one that is missing: recovery starts at the first journal and gives the live book of the last whole record |
| `EngineManagers.EngineManager.ProcessCommand` | exchange/include/exchange/engine_manager.hpp:76-153 | a command that passed risk is recorded unless the queue is full, and moves the book as the live path says; a refused one changes neither |
| `Framing.DecodeMore` | gateway/include/gateway/packet_decoder.hpp:12-29 | a packet that is all there decodes the same whatever data follows, and the data behind it is what was behind it |
| `Layouts.PacketLayout` | gateway/include/gateway/protocol.hpp:22-30 | every field of a packet header by its offset |
| `Framing.ParseOn` | gateway/src/gateway.cpp:61-84 | parsing may stop anywhere and go on with the kept tail and the next data |
| `Framing.LoopEndsIff` | gateway/src/gateway.cpp:63-74 | the framing loop ends if and only if it meets no packet of length zero |
| `Framing.StallExample` | gateway/src/gateway.cpp:63-74 | a header of zeros is such an input |
| `Framing.SaneParses` | gateway/src/gateway.cpp:51-56 | with lengths from 24 to 4096 the kept tail is below 4096 bytes |
| `Framing.EncodedDecodes` | gateway/include/gateway/packet_encoder.hpp:11-30 | an encoded packet in front of anything is decoded as itself |
| `Framing.EncodedStream` | gateway/include/gateway/packet_encoder.hpp:11-30 | a stream of encoded packets parses into exactly those packets with nothing left |
| `Gateways.ClientConnection.ParseLoop` | gateway/src/gateway.cpp:61-74 | the packets of the buffered bytes in order, and how many bytes they took |
| `Gateways.ClientConnection.Shift` | gateway/src/gateway.cpp:76-84 | exactly the bytes behind the processed ones move to the front |
| `Gateways.ClientConnection.Receive` | gateway/src/gateway.cpp:51-84 | too much data is refused whole; otherwise the completed packets are handed over and the unparsed tail is kept |
| `Gateways.Gateway.OnRead` | gateway/src/gateway.cpp:43-85 | the same by connection, with a connection whose data does not fit disconnected and forgotten, and nothing for an unknown one |
| `Gateways.FeedAll` | gateway/include/gateway/tcp_transport.hpp:75-92 | a stream of 24- to 4096-byte packets, cut in any way into reads of at most 4096 bytes, never overflows and hands over exactly the packets of the uncut stream |
| `Gateways.Encode` | gateway/include/gateway/packet_encoder.hpp:11-30 | the destination starts with the encoded packet and is otherwise unchanged; zero if it does not fit |
| `DependencyGraph.OrderedIsAcyclic` | kernel/src/dependency_resolver.cpp:63-67 | a graph with a startup order has no dependency cycle |
| `DependencyGraph.StuckHasCycle` | kernel/src/dependency_resolver.cpp:63-65 | modules that all wait for one another contain a cycle |
| `DependencyResolvers.BuildGraph` | kernel/src/dependency_resolver.cpp:13-34 | degrees and followers with multiplicity, or an error exactly when a pointer is null, a dependency missing or a module its own dependency |
| `DependencyResolvers.Drain` | kernel/src/dependency_resolver.cpp:44-61 | exactly the modules that can be freed are ordered, each after its dependencies |
| `DependencyResolvers.Resolve` | kernel/src/dependency_resolver.cpp:7-68 | success if and only if no pointer is null, every dependency is registered and there is no cycle; the result is a permutation with dependencies first, also with repeated dependencies |
| `KernelRuns.EveryPoint` | kernel/src/kernel.cpp:77-113 | over every run of start and stop passes: at every point the running modules are a prefix of the startup order if and only if no start fails with the next module running, and closed under dependencies if and only if no start fails of a module that something running needs |
| `KernelRuns.EveryStop` | kernel/src/kernel.cpp:101-113 | in every run, when a module's turn to stop comes, no running module depends on it |
| `KernelRuns.FailedPass` | kernel/src/kernel.cpp:77-99 | a start pass that fails at a position leaves what ran and all before that position, without the failing module |
| `KernelRuns.PrefixDependencies` | kernel/src/kernel.cpp:77-113 | a prefix of the startup order is closed under dependencies |
| `KernelRuns.RestartIff` | kernel/src/kernel.cpp:77-99 | a failing start pass over a running prefix is a run that leaves a prefix if and only if nothing behind the failing module ran |
| `KernelRuns.RestartExample` | kernel/src/kernel.cpp:77-99 | a run of two passes over two modules, the second with the first module failing, ends with the second running without the first |
| `Kernels.Kernel.Initialize` | kernel/src/kernel.cpp:34-61 | a startup order exactly when the modules resolve, and initialization along it up to the first failure |
| `Kernels.Kernel.Start` | kernel/src/kernel.cpp:77-99 | exactly one start pass, up to the first module that fails; after success all run, after a failure what ran and all before the failing module, without it |
| `Kernels.Kernel.Stop` | kernel/src/kernel.cpp:101-113 | exactly one stop pass, which stops exactly what ran, no module before one that depends on it |
| `RateLimits.CheckAgrees` | risk/include/risk/rate_limit_validator.hpp:14-36 | for limits 1 to 100 and time not running backwards, acceptance exactly when fewer than the limit lie less than a second back |
| `RateLimits.EveryRunAgrees` | risk/include/risk/rate_limit_validator.hpp:14-36 | over every run, limits changing as they may, the decisions are those of a limiter with a full history |
| `RateLimits.ExactIff` | risk/include/risk/rate_limit_validator.hpp:14-36 | from a reset, the decisions of every timely run under one limit are those of a full history if and only if the limit is at most 100 |
| `RateLimits.WindowMeans` | risk/include/risk/rate_limit_validator.hpp:26-31 | the reference counts exactly the acceptances less than 1000000000 nanoseconds back |
| `RateLimits.ReferenceMeans` | risk/include/risk/rate_limit_validator.hpp:14-36 | it accepts without a limit, or below it in that window, and records only acceptances under a limit |
| `RateLimits.AccountsApart` | risk/include/risk/rate_limit_validator.hpp:15-18 | accounts below 1024 do not affect each other: over any run the decisions on one account are those of its messages alone |
| `RiskLaws.ClockBack` | risk/include/risk/rate_limit_validator.hpp:26-36 | when the clock has gone back behind the oldest acceptance looked at, the message passes |
| `RateLimitValidators.RateLimitValidator.Check` | risk/include/risk/rate_limit_validator.hpp:14-36 | the in-place check is the specified one on the account's slot |
| `RateLimitValidators.RateLimitValidator.Reset` | risk/include/risk/rate_limit_validator.hpp:38-46 | after it the limiter follows the reference with empty histories |
| `Credits.AcceptConserves` | risk/src/credit_manager.cpp:17-23 | available, reserved and used power keep their sum |
| `Credits.CancelConserves` | risk/src/credit_manager.cpp:40-46 | they keep their sum |
| `Credits.FillConservesIff` | risk/src/credit_manager.cpp:25-38 | they keep their sum if and only if the cost is covered by available plus reserved |
| `Credits.UncoveredGrows` | risk/src/credit_manager.cpp:28-36 | otherwise the sum grows by what was not reserved |
| `Credits.UncoveredExample` | risk/src/credit_manager.cpp:28-36 | one tick on an empty account |
| `Credits.RunConserves` | risk/src/credit_manager.cpp:17-46 | over every run of accepts, cancels and covered fills the sum stays |
| `Credits.AcceptThenCancel` | risk/src/credit_manager.cpp:17-46 | a cancel undoes the accept |
| `Credits.AcceptThenFill` | risk/src/credit_manager.cpp:17-38 | a fill at the reserved cost turns exactly the reservation into used power |
| `RiskLaws.MoneyMeans` | risk/src/credit_manager.cpp:17-46 | what accepting, cancelling and filling do to each balance, where nothing wraps |
| `RiskLaws.CostMeans` | risk/src/risk_engine.cpp:19 | the cost is the value of the order in whole units of a million |
| `RiskLaws.SlotsApart` | risk/src/credit_manager.cpp:9-15 | accounts below 1024 have slots of their own |
| `RiskLaws.LabelMeans` | risk/src/credit_manager.cpp:9-15 | a named slot keeps its name, an unnamed one takes the account's, and no money moves |
| `CreditManagers.CreditManager.AccountState` | risk/src/credit_manager.cpp:9-15 | the slot's state, named after the first account that asks if unnamed |
| `CreditManagers.CreditManager.UpdateOnAccept` | risk/src/credit_manager.cpp:17-23 | only the account's slot changes, by the specified reservation |
| `CreditManagers.CreditManager.UpdateOnFill` | risk/src/credit_manager.cpp:25-38 | only the account's slot changes, by the specified fill |
| `CreditManagers.CreditManager.UpdateOnCancel` | risk/src/credit_manager.cpp:40-46 | only the account's slot changes, by the specified release |
| `RiskPipeline.FirstFailing` | risk/include/risk/risk_engine.hpp:36-44 | the check that rejects is the first that fails on the state as it was before the order |
| `RiskPipeline.AcceptedIff` | risk/include/risk/risk_engine.hpp:26-75 | acceptance exactly when all nine checks pass on that state |
| `RiskPipeline.RejectedKeeps` | risk/src/risk_engine.cpp:25-61 | a rejected order leaves all money and positions as they were |
| `RiskPipeline.AcceptedReserves` | risk/src/risk_engine.cpp:16-24 | an accepted order gets its full cost, the wrapped product of price and quantity over a million, reserved, and nothing else moves |
| `RiskLaws.ReservesValue` | risk/src/risk_engine.cpp:16-24 | an accepted order has price times quantity over a million moved from available to reserved power |
| `RiskPipeline.RejectedIsSeen` | risk/include/risk/duplicate_validator.hpp:14-22 | a reject behind the duplicate check makes the same id a duplicate |
| `RiskLaws.DecisionMeans` | risk/include/risk/risk_engine.hpp:79-175 | which of the nine checks refuses an order, in plain terms of the order, limits and balances, and with which reason |
| `RiskLaws.CreditMeans` | risk/include/risk/credit_manager.hpp:20-35 | the credit check passes exactly an order whose value is available and keeps the day's exposure within its limit |
| `RiskLaws.PositionMeans` | risk/include/risk/margin_manager.hpp:19-41 | the position check passes exactly when net plus or minus the quantity is within the long and short limits |
| `RiskLaws.PositionsApart` | risk/src/margin_manager.cpp:9-15 | accounts below 128 and symbols below 32 have positions of their own |
| `RiskLaws.StateMeans` | risk/include/risk/risk_engine.hpp:36-44 | what a validation leaves behind in the duplicate table, the rate trackers and the positions |
| `RiskEngines.RiskEngine.RunStage` | risk/include/risk/risk_engine.hpp:79-160 | one check's verdict and its effect on its own manager only |
| `RiskEngines.RiskEngine.Validate` | risk/src/risk_engine.cpp:9-62 | the state after the pipeline, a trace of exactly the checks run, the failing check's reason, and one counter moved, with the nine reject counters still adding up to the number of rejects |
| `RiskEngines.RiskEngine.Attribute` | risk/src/risk_engine.cpp:28-56 | the counter chosen is the failing check's |
| `RiskEngines.RejectsAddUp` | risk/src/risk_engine.cpp:25-56 | a reject counted at any check keeps the sum of the nine counters equal to the number of rejects |

## Left out

- Sockets, transports, thread pinning and management, signals, clocks, timestamps in trades and reports, latency statistics: platform calls with no property of their own; clock readings that matter are parameters.
- Files as handles, flush policies, directory creation and `latest.meta`: files are byte sequences by number, and the metadata is a parameter of recovery.
- Hardware CRC instructions: only the software loop is modelled.
- Weak memory orderings: each atomic access is one indivisible step with stale copies in thread state.
- MpscQueue.EveryRunKeepsAll: ticket counters are unbounded; `MpscWrap.EveryRun64KeepsAll` carries it over to 64 bits.
- Order book listeners, event bus, service registry, health monitor: pass-through.
- Aliasing of C++ pointers: nodes live in pool storage and pointers are slot numbers, so a pointer into another pool cannot be expressed.
- Wal.CorruptionRefused: leaves out damage to the checksum and the body at once, part of which passes (`WalCorruption`), and a corrupted length field, which moves the frame of all later bytes.
- WalCorruption.AlwaysRefusedIff: leaves open position 17, the second byte of the message type and the first of the checksum, for payloads not of command size; `CommandsRefusedIff` settles it for commands.
- Struct padding that the compiler inserts is taken as zero.
- OrderBooks.LimitOrderBook.Insert: asks for a new id and free slots, because a repeated id overwrites the lookup entry and an exhausted pool throws inside code that may not.
- Snapshots.LoadOrders: asks that the records can be inserted, with no id repeated and free slots, as `Insert` does.
- Snapshots.LoadLevels: asks that the records can be inserted, with no id repeated and free slots, as `Insert` does.
- Snapshots.Load: asks that the records of a file with a good header can be inserted, with no id repeated and free slots, as `Insert` does.
- ReplayEngines.ApplyRecord: asks of a record what `Insert` asks, no resting id repeated and free slots.
- ReplayEngines.ReplayJournal: asks of a journal what `Insert` asks, no resting id repeated and free slots.
- ReplayEngines.Recover: asks of a snapshot and journals what `Insert` asks, no resting id repeated and free slots.
- MatchingEngines.MatchingEngine.SubmitOrder: asks of an order that comes to rest what `Insert` asks, a new id and free slots.
- EngineManagers.EngineManager.ProcessCommand: asks of a new order that comes to rest what `Insert` asks, a new id and free slots.
- LevelTotals.TotalsIff: asks for new ids, as `Insert` does, and for level sums that 64 bits hold; `WrapExample` shows why.
- Recovery.SaveCrashRecover: asks that older files behind the last journal hold no sequence above the one reached, since replaying their records could meet what `Insert` excludes.
- Gateways.ClientConnection.ParseLoop: leaves out input with a packet of length zero, on which the source does not return; `Framing.LoopEndsIff` says exactly when.
- Gateways.ClientConnection.Receive: leaves out input with a packet of length zero, on which the source does not return; `Framing.LoopEndsIff` says exactly when.
- Gateways.Gateway.OnRead: leaves out input with a packet of length zero, on which the source does not return; `Framing.LoopEndsIff` says exactly when.
- RiskLaws.CreditMeans: for values and exposures that 64 bits hold; `AcceptedReserves` states the cost with its wrap.
- RiskLaws.PositionMeans: for positions that 64 bits hold.
- RiskLaws.DecisionMeans: under the same two conditions.
- RiskLaws.ReservesValue: for values that 64 bits hold.
- RiskLaws.MoneyMeans: for balances that 64 bits hold.
- SnapshotDamage.SavedDamageRefused: leaves out damage to the header, and damage to a count that ends the reading early.
- `trades_generated` in the match result and `can_self_trade`, which always allows: easy members.
- Packet handling behind the framing loop (login, order entry, session state): field copies.
- A claim that net positions stay within their limits: the check looks only at filled quantity.
- The price band's floating-point test, the kill switch and circuit breaker: their verdicts are inputs of the pipeline. The self-trade stage always passes.
- Labels of position slots, and `RiskEngine::update_on_fill`, whose fill cost is not scaled like the reserved cost.
- Fill and cancel feedback from reports to risk: reports do not carry what it would need.
- `Kernel::configure` and `shutdown`: the same pass as initialization, and a reverse pass without a condition.
