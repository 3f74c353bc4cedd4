# A model of the stock-matching system

Traders hold the orders of many stocks; exchanges match them. A trader may send an order only while
its id lies in the window of its stock, and an order may be held until a certain trade of another stock
is known. The exchange stores arriving orders in a window by id, hands them to the stock's matching
engine in id order, and broadcasts acknowledgements and trades to all traders. This project models that
system from the array heaps of one order book up to whole runs of all machines together, and proves:

- **One book.** The two binary heaps refine lists in price-time order; every handler, for every order
  type and side, emits the trades and leaves the book of a greedy fill of that list: record after record
  from the best, as far as the type goes. Over every run the book is never crossed, every order's volume is accounted for, trades are made at the resting order's
  price, the order types relate to one another as their comments say, and buying mirrors selling.
- **In-order commit.** Whatever the order of arrival, an engine commits the longest run 1, 2, 3, ... of
  the ids that have arrived and keeps exactly the rest, if and only if all ids are new.
- **The whole system**, as a step machine with lossless FIFO channels, any number of traders, exchanges
  and stocks, and hooks across stocks: no order is overwritten or lost, windows only move forward, any
  two schedules commit comparable sequences, no run goes on for ever, all runs that cannot go on end in
  the same engines and trade logs, and every order is then committed as its hook and price decide or a
  stock waits for a hook that nobody can answer. This outcome depends on the orders, the hooks and the
  price limits alone, not on the number of machines, the windows or which trader holds which order.
  Queues in which threads wait for room change none of it, and resting prices stay within the limits.
- **The objects**: the controller, the trade receiver, the window and the engine, as classes, start in
  step with that machine and stay in step with it, and what their methods assert holds in every
  reachable state.
- **The parts around it**: the ring queue, the loader's index map and that what it loads is an input of
  the machine, and the chunked replay of a stock's orders against the walk in memory.

| file | contents |
|---|---|
| `Types.dfy` | orders, trades, records |
| `BinaryHeap.dfy` | `push_heap`, `pop_heap` and how a heap represents a ranked list |
| `Matching.dfy`, `MatchingLaws.dfy`, `OrderTypes.dfy` | what one order does to a book, as functions, and the laws of those functions over whole runs |
| `Priority.dfy` | what one order does, record by record: which trades, in which order, how far, and what rests |
| `DeclarationBook.dfy`, `StockExchange.dfy` | the book and the engine as classes that change in place, proved against those functions |
| `Reorder.dfy` | the engine's reorder buffer and the arrival-order laws |
| `Arrivals.dfy` | arrivals of any ids, repeated and stale ones included |
| `SlidingWindow.dfy`, `BlockQueue.dfy`, `Exchange.dfy` | the windows, the ring queue and the broadcast, and one exchange |
| `TradeReceiver.dfy`, `Trader.dfy` | the receiving and the sending side of a trader, and the hook tables |
| `System.dfy` | the whole system as steps |
| `FlowControl.dfy`, `Protocol.dfy` | the invariant of the step machine |
| `Decisions.dfy`, `Routing.dfy` | how an order is decided, and where orders and messages travel, in plain terms |
| `Schedule.dfy`, `Progress.dfy`, `Termination.dfy` | safety over runs, schedule independence, progress and termination |
| `PriceLimits.dfy` | what the traders' price check does for the books |
| `BoundedQueues.dfy` | runs in which a thread waits for room in a queue |
| `TraderMachine.dfy`, `ExchangeMachine.dfy` | the classes against the step machine |
| `Loader.dfy`, `LoadedConfig.dfy` | the index map of the loader, and what it loads as an input of the step machine |
| `Cells.dfy` | which cell of the matrices every order comes from |
| `OrderGenerator.dfy`, `ChunkedTrader.dfy` | the cache, its replay in chunks, and the trader that sends from it |

## How the source is read

- Prices are `real`, so equality and order of prices are exact. Ids and volumes are unbounded, with one
  exception: the total volume of a side is computed in 32 bits with two's complement wrap-around
  (`Matching.Wrap32`), because whole-or-cancel depends on it.
- Vectors that are pushed, popped and overwritten are `seq` fields that methods reassign; the window and
  the ring queue keep fixed arrays. Locks are not modelled inside a method: each operation is atomic, and
  the step machine interleaves operations freely.
- Main results are stated without the functions that compute them: the laws in `Priority`, `Decisions`,
  `Routing` and `Cells` write out prices, ids, positions and conditions.
- The trade step that the source repeats in all six loops of a side is one method per side
  (`TakeSellFirst`, `TakeBuyFirst`), and each loop is a method of its own. Type 1 inserts its remainder
  after its loop instead of in the last round of it.
- `produceTrade` appends to a field of the engine; in the step machine the trades of one order go to the
  exchange's queue one by one, so that acknowledgements and trades of other stocks may come in between.
- Live orders (types 0 to 5) have no negative volume, and type 2, which rests as it is, has a positive
  one, as the assertion at insertion demands. Unknown types and directions leave the book as it is.
- Every trader has its own price limits for a stock, read from its own file. The hook data is one file
  that all traders read.
- A stock's thread may acknowledge its batch at any moment after its first poll. This includes the
  moment after a failed poll in which another order lands in the head slot.
- A trader's pass fills `order_to_send` and then sends; the step machine sends one order at a time.
  `Traders.PassIsSends` shows that a pass over a stock is such a run of sends when nothing is heard
  meanwhile. `TraderMachine.SendStockHearing` shows the same for a pass during which the receiver's
  thread hears any messages before any check, under the window limit read at the start; and by
  `TraderMachine.PassStands` an order that was let go may be put into its queue later.

Where the code does not do what its comments promise, the code is modelled and the exact condition proved:

- Five-level orders use 0 for "no previous price". If the best opposite price is itself 0, it is not
  counted, and a sixth price may be reached. `OrderTypes.FiveLevelsExactly` says for every order on every
  book that a run leaves when that makes a difference, and `OrderTypes.SixLevelsTaken` is a run of the
  engine in which it does. In the system it cannot happen where the lower price limit is positive
  (`PriceLimits.FiveLevelsInSystem`).
- Whole-or-cancel compares with a 32-bit total. Past 2^31 - 1 it may refuse an order that could be
  filled, but never accepts one that cannot (`OrderTypes.WholeOrCancelIsExact`; a run of the engine that
  shows it is `OrderTypes.WrappedTotalRefuses`).
- The reorder buffer accepts any id, but commits in order and keeps just the rest if and only if all ids
  are different and at least 1 (`Arrivals.SettledIffNew`). It jams for good exactly when an id that it has
  passed was below 1 or arrived twice (`Arrivals.JammedIff`, `Arrivals.JammedForGood`): by a stale arrival
  at once (`Reorder.StaleIdBlocks`), by a repeated waiting id when its turn has passed
  (`Arrivals.RepeatedIdJams`, the ids 2, 2, 1). Of two waiting orders with one id the heap decides which is
  committed (`Arrivals.Received`). The window in front of the engine lets neither kind through
  (`Schedule.EngineLawsHold`).
- Replay in ten chunks drops the remainder when a stock's order count is not a multiple of ten, reads
  beyond an empty buffer when there are fewer than ten orders, and stops at an order that the file itself
  marks as cancelled (`OrderGenerators.ReplayIsWalk`).
- The loader's lists overflow when the number of stocks does not divide the first dimension
  (`Loader.UnevenOverflows`), and coordinates from 1024 on are truncated (`Loader.PackRoundTrip`).

## Model

| member | source | states |
|---|---|---|
| `BinaryHeap.PushHeap` | src/exchange/stock_decl_book.hpp:36-48 | adding an element at the end of a heap and sifting it up gives a heap of the same elements |
| `BinaryHeap.PopHeap` | src/exchange/stock_decl_book.hpp:56-72 | the top moves to the end and the others form a heap again, with no element lost or changed |
| `BinaryHeap.TopIsFirst` | src/exchange/stock_decl_book.hpp:50-66 | the top of a heap is the first of the ranked list it represents, and one is empty only when the other is |
| `BinaryHeap.PushRefines` | src/exchange/stock_decl_book.hpp:36-48 | any heap of the old elements and a new one represents the list with that one inserted by rank |
| `BinaryHeap.PopRefines` | src/exchange/stock_decl_book.hpp:56-72 | what is left after a pop represents the list without its first |
| `BinaryHeap.ReplaceTopRefines` | src/exchange/stock_exchange.cpp:94-95 | changing the top in place to something of equal rank changes the first of the list and nothing else |
| `BinaryHeap.RankedIsUnique` | src/exchange/record.hpp:9-23 | a heap represents one list only: ranked lists of the same elements are equal |
| `Matching.LessIsOrder` | src/exchange/record.hpp:9-23 | the priority of bids and of asks is a strict order |
| `DeclarationBooks.VolumeIsUnranked` | src/exchange/record.hpp:9-23 | priority ignores volume, so a partial fill keeps its place |
| `DeclarationBooks.TotalVolumeOfPermutation` | src/exchange/stock_decl_book.hpp:74-86 | a side's total does not depend on how the heap happens to be laid out |
| `DeclarationBooks.SumVolumes` | src/exchange/stock_decl_book.hpp:74-86 | the summing loop returns the total of the ranked list, wrapped to 32 bits |
| `DeclarationBooks.DeclarationBook.constructor` | src/exchange/stock_decl_book.hpp:24-27 | a new book is empty |
| `DeclarationBooks.DeclarationBook.InsertBuy` | src/exchange/stock_decl_book.hpp:36-41 | the bid takes its price-time place; asks are untouched |
| `DeclarationBooks.DeclarationBook.InsertSell` | src/exchange/stock_decl_book.hpp:43-48 | the ask takes its price-time place; bids are untouched |
| `DeclarationBooks.DeclarationBook.QueryBuyFirst` | src/exchange/stock_decl_book.hpp:50-54 | the bid of highest price and lowest id, or none |
| `DeclarationBooks.DeclarationBook.QuerySellFirst` | src/exchange/stock_decl_book.hpp:62-66 | the ask of lowest price and lowest id, or none |
| `DeclarationBooks.DeclarationBook.RemoveBuyFirst` | src/exchange/stock_decl_book.hpp:56-60 | the first bid and only it goes |
| `DeclarationBooks.DeclarationBook.RemoveSellFirst` | src/exchange/stock_decl_book.hpp:68-72 | the first ask and only it goes |
| `DeclarationBooks.DeclarationBook.ReduceBuyFirst` | src/exchange/stock_exchange.cpp:141-142 | lowering the first bid's volume through the pointer keeps a heap and every bid's place |
| `DeclarationBooks.DeclarationBook.ReduceSellFirst` | src/exchange/stock_exchange.cpp:94-95 | lowering the first ask's volume through the pointer keeps a heap and every ask's place |
| `DeclarationBooks.DeclarationBook.TotalBuyVolume` | src/exchange/stock_decl_book.hpp:74-79 | the bids' total in 32 bits |
| `DeclarationBooks.DeclarationBook.TotalSellVolume` | src/exchange/stock_decl_book.hpp:81-86 | the asks' total in 32 bits |
| `StockExchanges.StockExchange.constructor` | src/exchange/stock_exchange.h:17-28 | a new engine has an empty book, nothing waiting, no trades and last id 0 |
| `StockExchanges.StockExchange.TakeSellFirst` | src/exchange/stock_exchange.cpp:84-108 | one trade with the first ask, full or partial, leaves a sweep of one record fewer still to do with the same overall result |
| `StockExchanges.StockExchange.TakeBuyFirst` | src/exchange/stock_exchange.cpp:131-155 | the same with the first bid |
| `StockExchanges.StockExchange.LimitSweepSell` | src/exchange/stock_exchange.cpp:72-109 | the loop trades greedily with the asks at or below the limit, in price-time order |
| `StockExchanges.StockExchange.LimitSweepBuy` | src/exchange/stock_exchange.cpp:119-156 | the loop trades greedily with the bids at or above the limit, in price-time order |
| `StockExchanges.StockExchange.HandleLimitOrder` | src/exchange/stock_exchange.cpp:69-171 | trades and new book are those of the list model for type 0, remainder resting at the limit |
| `StockExchanges.StockExchange.BestSweepSell` | src/exchange/stock_exchange.cpp:185-232 | the loop trades greedily with the asks at the best price only |
| `StockExchanges.StockExchange.BestSweepBuy` | src/exchange/stock_exchange.cpp:240-284 | the loop trades greedily with the bids at the best price only |
| `StockExchanges.StockExchange.HandleCounterpartyBest` | src/exchange/stock_exchange.cpp:174-288 | trades and new book are those of the list model for type 1, remainder resting at the price it traded at |
| `StockExchanges.StockExchange.HandleOurBest` | src/exchange/stock_exchange.cpp:291-331 | trades and new book are those of the list model for type 2 |
| `StockExchanges.StockExchange.LevelSweepSell` | src/exchange/stock_exchange.cpp:342-385 | the level-counting loop over the asks takes exactly the records within the level depth |
| `StockExchanges.StockExchange.LevelSweepBuy` | src/exchange/stock_exchange.cpp:390-433 | the level-counting loop over the bids takes exactly the records within the level depth |
| `StockExchanges.StockExchange.HandleFiveLevelOtherCancel` | src/exchange/stock_exchange.cpp:334-439 | trades and new book are those of the list model for type 3 |
| `StockExchanges.StockExchange.ImmediateSweepSell` | src/exchange/stock_exchange.cpp:448-480 | the loop trades greedily with all asks |
| `StockExchanges.StockExchange.ImmediateSweepBuy` | src/exchange/stock_exchange.cpp:487-519 | the loop trades greedily with all bids |
| `StockExchanges.StockExchange.HandleImmediateOtherCancel` | src/exchange/stock_exchange.cpp:442-529 | trades and new book are those of the list model for type 4 |
| `StockExchanges.StockExchange.WholeSweepSell` | src/exchange/stock_exchange.cpp:544-574 | when the asks cover the order, the loop never meets an empty book and fills the order |
| `StockExchanges.StockExchange.WholeSweepBuy` | src/exchange/stock_exchange.cpp:576-610 | when the bids cover the order, the loop never meets an empty book and fills the order |
| `StockExchanges.StockExchange.HandleWholeOrCancel` | src/exchange/stock_exchange.cpp:532-616 | trades and new book are those of the list model for type 5 |
| `StockExchanges.StockExchange.CommitOrder` | src/exchange/stock_exchange.cpp:618-661 | on the array heaps, every order of every type emits the trades and leaves the book of the list model |
| `StockExchanges.StockExchange.CommitFirst` | src/exchange/stock_exchange.cpp:51-62 | commits the order at the top of the heap when it has its turn, removes it and advances the last id |
| `StockExchanges.StockExchange.CommitTop` | src/exchange/stock_exchange.cpp:51-62 | committing what the heap gives first is the next commit of an ordering of the waiting orders by id, also among equal ids |
| `StockExchanges.StockExchange.ReceiveOrder` | src/exchange/stock_exchange.cpp:29-66 | whatever waits: some ordering of the waiting orders by id, the new one included, has been drained from the front, on the array heap; while no id waits twice this is the reorder model after the same arrival |
| `MatchingLaws.CommitKeepsGood` | src/exchange/stock_decl_book.hpp:10-19 | every order keeps both sides ranked, their volumes positive, their ids older than the next order, and the book uncrossed |
| `MatchingLaws.RunKeepsGood` | src/exchange/stock_exchange.cpp:69-661 | the same holds after every run of orders 1, 2, 3, ... |
| `MatchingLaws.NeverCrossed` | src/exchange/stock_decl_book.hpp:10-19 | after every run, the best bid is strictly below the best ask when both exist |
| `MatchingLaws.SweepConserves` | src/exchange/stock_exchange.cpp:75-109 | for every order id, a sweep turns resting volume into traded volume one for one |
| `MatchingLaws.CommitConserves` | src/exchange/stock_exchange.cpp:69-616 | for every order id, one commit changes traded plus resting volume by exactly what the incoming order does not lose to cancellation |
| `MatchingLaws.CancelledIsNatural` | src/exchange/stock_exchange.cpp:334-616 | the cancelled part of an order is between nothing and all of it |
| `MatchingLaws.LifetimeConservation` | src/exchange/stock_exchange.cpp:69-616 | over every run, an order's volume is the sum of its trades, what rests of it and what was cancelled when it was committed |
| `MatchingLaws.MakerPricing` | src/exchange/stock_exchange.cpp:69-171 | in every trade of every run, the older order was resting on its side at the trade's price, volumes are positive, and no limit order trades beyond its limit |
| `Priority.BookIsSorted` | src/exchange/record.hpp:9-23 | after every run, bids are at falling and asks at rising prices, and at one price in rising ids |
| `Priority.SweepIsGreedy` | src/exchange/stock_exchange.cpp:75-109 | a sweep trades with its records one after the other and uses up each but the last, leaves exactly what has not traded, and passes nothing over while the order is unfilled |
| `Priority.TradesAreInTurn` | src/exchange/stock_exchange.cpp:69-616 | for every type on every reachable book: trade number i is with opposite record number i at its price, all but the last use up their record, and the rest of that side is as before |
| `Priority.TradesDescend` | src/exchange/stock_exchange.cpp:69-616 | along the trades of one commit the resting records strictly descend in priority: by price, and at one price by id |
| `Priority.BetterAreUsedUp` | src/exchange/stock_exchange.cpp:69-616 | a record trades only once every better opposite record is used up |
| `Priority.RunTradesInOrder` | src/exchange/stock_exchange.cpp:45-63 | over every run, the trades are in the order of the orders that caused them, and those of one order descend in priority |
| `Priority.HowFar` | src/exchange/stock_exchange.cpp:69-616 | a limit order trades within its limit and stops only at a worse record, type 1 at the best price only, type 4 until nothing is left, type 5 all of its volume or nothing, type 2 never |
| `Priority.AtMostFivePrices` | src/exchange/stock_exchange.cpp:334-439 | a type 3 order trades at no more than five prices, and stops short only where the next record is at a sixth, unless the best price is 0 |
| `Priority.RemainderRests` | src/exchange/stock_exchange.cpp:111-118 | of type 0 the remainder rests at the limit, of type 1 at the price it traded at, type 2 rests whole at the best price of its side, and nothing else comes to or leaves that side |
| `Priority.CancelledIs` | src/exchange/stock_exchange.cpp:334-616 | the cancelled volume of types 3, 4 and 5 is what did not trade, and of the others nothing or, where the type finds no price, all |
| `Priority.OthersDoNothing` | src/exchange/stock_exchange.cpp:618-661 | a cancelled order, and one of an unknown type or direction, changes nothing |
| `OrderTypes.CounterpartyBestIsLimit` | src/exchange/stock_exchange.cpp:174-288 | on every reachable book, type 1 is a limit order at the opposite best price, or nothing when there is none |
| `OrderTypes.OwnBestIsLimit` | src/exchange/stock_exchange.cpp:291-331 | on every reachable book, type 2 is a limit order at the own best price that trades nothing, or nothing when there is none |
| `OrderTypes.WholeOrCancelIsExact` | src/exchange/stock_exchange.cpp:532-616 | type 5 fills the whole order as type 4 would or changes nothing, by the 32-bit total; this agrees with the real total if and only if that falls short, or the 32-bit total covers the order too, or the order is empty |
| `OrderTypes.WrappedTotalRefuses` | src/exchange/stock_decl_book.hpp:81-86 | two limit orders to sell leave a book whose wrapped total refuses a third order, to buy 1, that it could fill |
| `OrderTypes.FiveLevelIsGreedy` | src/exchange/stock_exchange.cpp:334-439 | type 3 trades greedily with the longest prefix of the opposite side within five different prices (six when the best is 0), and inserts nothing |
| `OrderTypes.FiveLevelsExactly` | src/exchange/stock_exchange.cpp:334-439 | for every order of type 3 on every reachable book: it trades with the best five prices and no others if and only if the best price is not 0, or there are at most five prices, or those five hold its whole volume |
| `OrderTypes.FiveLevelDepth` | src/exchange/stock_exchange.cpp:346-358 | the level counter reaches exactly the records at the best five prices if and only if the best price is not 0 or there are at most five prices |
| `OrderTypes.DeeperSweep` | src/exchange/stock_exchange.cpp:347-385 | sweeping deeper does the same if the shallower depth holds the whole volume, and makes other trades if not |
| `OrderTypes.SixLevelsTaken` | src/exchange/stock_exchange.cpp:346-358 | after six limit orders to sell at the prices 0 to 5, an order of type 3 does not do what the best five prices allow |
| `OrderTypes.LevelPrefixIsUnique` | src/exchange/stock_exchange.cpp:336-341 | the prefix within a number of prices is determined by the book alone |
| `OrderTypes.MirrorCommit` | src/exchange/stock_exchange.cpp:69-661 | swapping the sides and negating all prices commutes with committing any order on any book |
| `OrderTypes.MirrorRun` | src/exchange/stock_exchange.cpp:69-661 | and with whole runs: mirrored orders give the mirrored book and the mirrored trades |
| `Reorder.CommitsLongestRun` | src/exchange/stock_exchange.cpp:29-66 | after any arrivals of new, distinct ids: ids 1 to n are committed in order, id n + 1 has not arrived, and exactly the other arrivals wait |
| `Reorder.ArrivalOrderIrrelevant` | src/exchange/stock_exchange.cpp:29-66 | two arrival orders of the same orders leave the same book, trades, last id and buffer |
| `Reorder.StaleIdBlocks` | src/exchange/stock_exchange.cpp:42-63 | after an id at or below the last committed one, no later arrivals, however many, change the book, the trades or the last id |
| `Arrivals.ReceivedIsReceive` | src/exchange/stock_exchange.cpp:42-63 | the heap has a choice only while an id waits twice |
| `Arrivals.DrainHaving` | src/exchange/stock_exchange.cpp:45-63 | the orders in turn are committed first, one after the other, whatever waits behind them |
| `Arrivals.ReceivedTracks` | src/exchange/stock_exchange.cpp:29-66 | whatever the heap chooses, what was committed and what waits are together exactly what arrived, and what was committed has the ids 1, 2, 3, ... |
| `Arrivals.ReceiveAllTracks` | src/exchange/stock_exchange.cpp:29-66 | the same after any sequence of arrivals |
| `Arrivals.JammedIff` | src/exchange/stock_exchange.cpp:45-49 | after any arrivals, an id at or below the last committed one is at the head if and only if some id that was passed is below 1 or arrived twice |
| `Arrivals.JammedForGood` | src/exchange/stock_exchange.cpp:45-49 | then no later arrivals ever commit anything |
| `Arrivals.RepeatedIdJams` | src/exchange/stock_exchange.cpp:42-63 | three arrivals with the ids 2, 2, 1 jam the engine, though none was stale when it arrived |
| `Arrivals.StaleIffJammed` | src/exchange/stock_exchange.cpp:42-49 | right after new ids, an arrival puts a stale id at the head if and only if it is stale itself; what later arrivals do is `Arrivals.JammedIff` |
| `Arrivals.SettledIffNew` | src/exchange/stock_exchange.cpp:29-66 | after any arrivals, the engine has committed the longest run 1, 2, ..., n in order and keeps just the rest if and only if all ids are different and at least 1 |
| `SlidingWindows.SlidingWindow.constructor` | src/common/sliding_window.hpp:19-20 | a new window is empty with its head at slot 0 |
| `SlidingWindows.SlidingWindow.Put` | src/common/sliding_window.hpp:51-59 | the element is in its slot and everything else is as before |
| `SlidingWindows.SlidingWindow.Poll` | src/common/sliding_window.hpp:73-82 | gives out the head slot and moves on, or changes nothing when the head slot is empty |
| `Exchanges.StocksOf` | src/exchange/exchange.cpp:5-19 | an exchange serves exactly the stocks of its partition, each once, in ascending order |
| `Exchanges.ReceiveOrder` | src/exchange/exchange.cpp:34-44 | the order is stored in slot (id - 1) mod the window size |
| `Exchanges.ConsumeOrder` | src/exchange/exchange.cpp:47-61 | takes everything up to the first empty slot, and acknowledges the id of the last order taken, if any |
| `Exchanges.ConsumeIsPolls` | src/exchange/exchange.cpp:47-61 | in a reachable window, consuming gives out the next ids without a gap, and the acknowledged id is the number of orders polled so far |
| `BlockQueues.BlockQueue.constructor` | src/common/block_queue.hpp:19-21 | a new ring is empty |
| `BlockQueues.BlockQueue.Put` | src/common/block_queue.hpp:64-71 | once there is room, the element is appended |
| `BlockQueues.BlockQueue.Take` | src/common/block_queue.hpp:74-83 | once there is one, the oldest element is removed and returned |
| `BlockQueues.BlockQueue.Offer` | src/common/block_queue.hpp:86-96 | appends exactly when there is room, and says so |
| `BlockQueues.BlockQueue.Poll` | src/common/block_queue.hpp:99-109 | removes and returns the oldest element, or nothing when empty |
| `BlockQueues.Broadcast` | src/exchange/trade_sender.cpp:47-69 | every trader is sent every queued message, in queue order |
| `TradeReceivers.SharedTradeInfo.constructor` | src/trader/trader_controller.h:53-55 | every window starts at 1 and no trade has been reported |
| `TradeReceivers.SharedTradeInfo.UpdateIfHooked` | src/trader/trader_controller.h:34-40 | reporting the next trade of a stock keeps every entry equal to the volume of its trade once reported and -1 before, and adds no entry; that an entry is written only once is proved, not asked |
| `TradeReceivers.SharedTradeInfo.GetHookedVolume` | src/trader/trader_controller.h:43-51 | the volume of the trade with that number among those reported for the stock, and -1 while there are fewer |
| `TradeReceivers.TableGrows` | src/trader/trader_controller.h:34-51 | if every entry is its trade's volume or -1 before that trade, then the next trade's entry is still -1, and setting it keeps this true |
| `TradeReceivers.TraderTradeReceiver.constructor` | src/trader/trade_receiver.cpp:21-34 | trades are numbered from 1 and nothing is logged |
| `TradeReceivers.TraderTradeReceiver.ProcessTrade` | src/trader/trade_receiver.cpp:132-154 | keeps file plus buffer equal to the stock's trades received, the next number one above them, and everything received reported to the hook table; the buffer is written out exactly when it reaches 100 trades |
| `TradeReceivers.TraderTradeReceiver.ProcessTradeResult` | src/trader/trade_receiver.cpp:118-155 | the same for a message of many trades, in message order; the set of hooked trades stays |
| `TradeReceivers.TraderTradeReceiver.ProcessOrderAck` | src/trader/trade_receiver.cpp:173-188 | every acknowledgement in turn opens its stock's window behind the acknowledged id; the log is untouched |
| `TradeReceivers.TraderTradeReceiver.Flush` | src/trader/trade_receiver.cpp:157-171 | afterwards each file is exactly the stock's trades received |
| `Traders.LoadBlock` | src/common/loader.hpp:200-209 | a stock's hooks are exactly the orders named in its block, each as its last row says; other stocks keep theirs |
| `Traders.LoadHook` | src/common/loader.hpp:185-226 | every stock has the hooks of its block, the table holds exactly the trades named in some row, all unknown, so a lookup by a hook always succeeds |
| `Traders.TraderController.CheckOrder` | src/trader/trader_controller.cpp:140-161 | under any limit: an order goes if its id is below the limit and the trade its hook waits for has been heard; it goes cancelled if that trade's volume is above `arg` or it is a limit order with a price below the lower or above the upper limit, and as it is otherwise |
| `Traders.TraderController.SendNext` | src/trader/trader_controller.cpp:173-180 | lets the next order of a stock go as decided and moves on, or stays where it is |
| `Traders.TraderController.SendStock` | src/trader/trader_controller.cpp:169-181 | sends a stock's orders up to the first that must wait, as they are decided, and remembers where it stopped |
| `Traders.TraderController.SendPass` | src/trader/trader_controller.cpp:163-192 | of every stock, the pass contains just what could go, in order; the stocks follow one another in ascending order; and every position moves on by what went |
| `Traders.PassIsSends` | src/trader/trader_controller.cpp:163-187 | a pass over a stock is a run of send steps, puts the same orders on the wire to exchange `s % exchanges` and nothing on another, and leaves no send enabled for the stock |
| `Traders.SendableIs` | src/trader/trader_controller.cpp:173-180 | what a stock can send is order after order as checked, up to the first that must wait |
| `Traders.PassByStock` | src/trader/trader_controller.cpp:169-181 | the orders of one stock in a pass are exactly what that stock can send, and the stocks ascend |
| `Traders.PassIsRun` | src/trader/trader_controller.cpp:163-187 | a whole pass is a run of send steps after which the wire to each exchange has gained exactly the orders of the pass whose stock it serves, in order, and no stock can send |
| `TraderMachine.StartTrader` | src/trader/trader_controller.cpp:76 | with the hooks that `LoadHook` returns, the new objects of a trader are in step with the initial state |
| `TraderMachine.HearTrade` | src/trader/trade_receiver.cpp:118-155 | a trade heard takes objects in step with one state to objects in step with the state that has heard it |
| `TraderMachine.HearAck` | src/trader/trader_controller.h:23-27 | an acknowledgement heard does the same, and moves the window start to the one that state has |
| `TraderMachine.HearMessage` | src/trader/trade_receiver.cpp:81-102 | in every reachable state, taking the next message keeps a trader in step, and no assertion on window starts or on writing once can fail |
| `TraderMachine.SendMessage` | src/trader/trader_controller.cpp:171-180 | an order that is let go, even under a limit read earlier, is one the machine can send then, in the same form; under the current limit the two agree both ways |
| `TraderMachine.StepHearsMore` | src/trader/trader_controller.h:23-51 | over every step, what a trader has heard only grows: no window start moves back and no log loses or changes a trade |
| `TraderMachine.DecisionStands` | src/trader/trader_controller.cpp:140-161 | an order that may go may still go after more has been heard, in the same form |
| `TraderMachine.PassStands` | src/trader/trader_controller.cpp:167-187 | what a pass collects is the beginning of what a later pass would, so putting it into the queues later makes no difference |
| `TraderMachine.HearSome` | src/trader/trade_receiver.cpp:81-102 | hearing any number of messages is that many steps of the machine |
| `TraderMachine.SendStockHearing` | src/trader/trader_controller.cpp:169-181 | while any messages are heard before any check, the loop is a run of sends and hearings of the machine, and stops only where nothing is left or the next order must wait |
| `TraderMachine.FlushFinal` | src/trader/trade_receiver.cpp:157-171 | when a run has ended, the flushed file of a stock holds exactly the trades of its committed orders |
| `TraderMachine.OthersKeepFollowing` | src/trader/trader_controller.cpp:163-192 | no step of another thread, trader or exchange puts a trader out of step |
| `ExchangeMachine.StartStock` | src/exchange/exchange.cpp:15-18 | a new window and engine are in step with the initial state |
| `ExchangeMachine.StoreOrder` | src/exchange/exchange.cpp:34-44 | in every reachable state the slot of an arriving order is free, and storing it is the machine's step |
| `ExchangeMachine.PollOrder` | src/common/sliding_window.hpp:73-82 | a poll succeeds exactly when the machine can poll, and gives the same order |
| `ExchangeMachine.NextOfBatch` | src/exchange/stock_exchange.cpp:29-31 | in every reachable state the next order of a batch is of the right stock and valid, and nothing waits in the engine |
| `ExchangeMachine.WorkOrder` | src/exchange/stock_exchange.cpp:29-66 | so handing it to the engine object is allowed, and is the machine's step |
| `ExchangeMachine.OthersKeepServing` | src/exchange/exchange.cpp:34-61 | no step for another stock puts a window or an engine out of step |
| `FlowControl.SlotIsFree` | src/common/sliding_window.hpp:51-59 | under the invariant, the slot of the next arriving order is free |
| `FlowControl.HeadIsNext` | src/common/sliding_window.hpp:73-82 | under the invariant, what the head slot gives out has the next id |
| `FlowControl.SendKeepsFlow` | src/trader/trader_controller.cpp:140-143 | a send whose id is below the trader's limit keeps all unpolled orders within one window |
| `FlowControl.ArriveKeepsFlow` | src/exchange/exchange.cpp:34-44 | an arrival keeps every order that was sent in exactly one place: on a wire, in its slot or polled |
| `FlowControl.PollKeepsFlow` | src/exchange/exchange.cpp:47-52 | so does a poll |
| `Protocol.ReceiveNext` | src/exchange/stock_exchange.cpp:29-66 | an engine that is handed ids in order commits each at once, as the plain run of commits |
| `Protocol.ForwardPending` | src/exchange/trade_sender.cpp:47-69 | passing a queued message on to one more trader changes no trader's view of what is still to come |
| `Protocol.HearKeepsOne` | src/trader/trade_receiver.cpp:118-188 | hearing a message keeps each trader's log a prefix of the trades produced and its window start at or below the next unacknowledged id, and moves no start back |
| `Protocol.KnownIsProduced` | src/trader/trader_controller.h:43-51 | a hooked volume that a trader knows is the volume of that trade at the engine |
| `Protocol.StepKeeps` | src/trader/trader_controller.cpp:140-192 | every step of the machine keeps the whole invariant |
| `Protocol.RunKeeps` | src/trader/trader_controller.cpp:140-192 | every reachable state satisfies it, for every schedule |
| `Schedule.FlowControlSafety` | src/trader/trader_controller.cpp:141-143 | in every reachable state, a sent order is at most one window above the number polled; above that number it is on the wire to its exchange or in its slot, and otherwise it was polled, as it was sent, in the place of its id; polled ids are 1, 2, 3, ... |
| `Routing.AllStocks` | src/exchange/exchange.cpp:9-13 | the lists of stocks that the exchanges work out |
| `Routing.OneExchange` | src/exchange/exchange.cpp:9-13 | every stock is in exactly one of these lists |
| `Routing.OrdersAreRouted` | src/trader/trader_controller.cpp:184-187 | in every reachable state, an order on a wire to exchange e is for a stock s with `s % exchanges == e` |
| `Routing.RoutedToServer` | src/exchange/exchange.cpp:34-44 | so it is for a stock in the list of that exchange |
| `Routing.MessagesAreRouted` | src/exchange/trade_sender.cpp:82-120 | in every reachable state, a message that an exchange queued or sent is for a stock that it serves |
| `Routing.SentOnItsWire` | src/trader/trader_controller.cpp:184-187 | what was sent and has not arrived is on the wire to the exchange of its stock |
| `Decisions.SendIsPossible` | src/trader/trader_controller.cpp:140-150 | a send is enabled if and only if the trader has a next order whose id is below window start plus window and whose hooked trade, if any, has been heard |
| `Decisions.SendSends` | src/trader/trader_controller.cpp:145-187 | it appends the order, cancelled if its hook or its price says so, to the wire to exchange `s % exchanges` |
| `Decisions.SentAsHeld` | src/trader/trader_controller.cpp:140-161 | in every reachable state, what was sent for a held order is the raw order with type -1 if the hooked trade's volume is above `arg`, and otherwise the raw order after the price check |
| `Decisions.CommittedAsHeld` | src/trader/trader_controller.cpp:140-161 | the same for what was committed under its id |
| `Schedule.NothingOverwritten` | src/common/sliding_window.hpp:51-59 | in every reachable state, an arriving order finds its slot free, so the assertion in `put` never fails |
| `Schedule.WindowsMoveForward` | src/trader/trader_controller.h:23-27 | over every step, each trader's window start never moves back nor past the next order to be polled |
| `Schedule.InOrderEverywhere` | src/exchange/trade_sender.cpp:47-120 | in every reachable state, an engine has committed exactly a prefix of the polled orders, and each trader's log is a prefix of its trades |
| `Schedule.PolledComparable` | src/trader/trader_controller.cpp:140-161 | the polled orders of a stock in two runs on the same input are prefix-comparable, also on different machines |
| `Schedule.SameDecision` | src/trader/trader_controller.cpp:140-161 | in two runs whose trades are comparable, an order of one id is sent in one form, whichever trader holds it |
| `Schedule.ScheduleIndependence` | src/trader/trader_controller.cpp:140-161 | for any two runs on the same orders, hooks and limits, with any machines and windows, each stock's committed orders, as decided by hooks, and its trades are prefix-comparable |
| `Schedule.EngineLawsHold` | src/exchange/stock_exchange.cpp:29-66 | in every reachable state, a stock's engine is the run of the orders 1, 2, 3, ... committed so far, with nothing waiting and a good book |
| `Progress.StuckWaits` | src/trader/trader_controller.cpp:145-150 | if nothing can happen, the next order of a stock waits for a hooked trade whose number is not among the trades made |
| `Progress.FinalIsGreatest` | src/trader/trader_controller.cpp:163-192 | a run that cannot go on has polled everything that any run on the same input ever polls, also on different machines |
| `Progress.FinalOutcomeIsUnique` | src/trader/trader_controller.cpp:163-192 | all runs on the same orders, hooks and limits that cannot go on have the same committed orders and the same engines, whatever the number of traders and exchanges, the windows and who holds which order |
| `Progress.FinalLogs` | src/trader/trade_receiver.cpp:118-155 | when a run cannot go on, every trader has received exactly the trades of every stock's committed orders, in order |
| `Progress.FinalLogsAreUnique` | src/trader/trade_receiver.cpp:118-155 | so the logs of any two traders in any two such runs on the same input are equal |
| `Progress.FinalIsComplete` | src/trader/trader_controller.cpp:163-192 | when a run cannot go on, each order a trader holds is committed at the place of its id, cancelled if its hooked trade's volume is above `arg` or its price outside the limits and as it is otherwise, or the first uncommitted id of its stock waits for a trade that was never made |
| `Progress.AllCommittedWithoutHooks` | src/trader/trader_controller.cpp:163-192 | without hooks, a run that cannot go on has committed every order a trader holds at the place of its id, as it is or cancelled by its price |
| `BoundedQueues.RoomIsEnough` | src/common/block_queue.hpp:64-71 | with a capacity, a step is possible if and only if it is enabled and its queue, or for one sending thread every queue of the trader, has room |
| `BoundedQueues.RoomIsKept` | src/common/block_queue.hpp:64-71 | with a capacity, no queue ever holds more |
| `BoundedQueues.RoomWaitsForRoom` | src/trader/trader_controller.cpp:183-187 | waiting for room in one's own queue, and a trader's one thread waiting with all its orders while any of its queues is full, are both waiting for room in this sense |
| `BoundedQueues.BoundedIsRun` | src/common/block_queue.hpp:64-71 | a run in which puts wait, decided in any way by the run so far, is a run of the machine, so every law of runs holds of it |
| `BoundedQueues.BoundedStuckIsStuck` | src/exchange/trade_sender.cpp:47-69 | when nothing can happen because threads wait for room in their queues, nothing could happen without limits either |
| `BoundedQueues.BoundedOutcome` | src/exchange/trade_sender.cpp:7-8 | a bounded run that cannot go on has committed the same orders, with the same engines, as any unbounded one on the same input that cannot |
| `BoundedQueues.NoDeadlock` | src/common/block_queue.hpp:64-83 | every bounded run can be continued until no step is left even without limits |
| `PriceLimits.RunOk` | src/trader/trader_controller.cpp:155-158 | whatever is true of the prices of all limit orders of a run is true of every price that ever rests, whatever the other types do |
| `PriceLimits.BooksWithinLimits` | src/trader/trader_controller.cpp:155-158 | in every reachable state, every resting price lies within the limits of its stock as some trader has them |
| `PriceLimits.FiveLevelsInSystem` | src/exchange/stock_exchange.cpp:334-439 | where all traders' lower limits are positive, in every reachable state an order of type 3 takes the best five prices and no others |
| `Termination.StepLowers` | src/exchange/exchange.cpp:47-61 | every enabled step of a reachable state lowers a measure of unsent, travelling, stored, working, queued and unheard items |
| `Termination.NoEndlessRun` | src/trader/trader_controller.cpp:163-192 | no infinite sequence of enabled steps exists |
| `Termination.EveryRunCanFinish` | src/trader/trade_receiver.cpp:173-188 | every run can be continued to one that cannot go on |
| `Loader.PackRoundTrip` | src/common/type.hpp:132-151 | unpacking gives each coordinate modulo 1024, so the round trip holds if and only if all are below 1024 |
| `Loader.PackOrders` | src/common/type.hpp:157-162 | packed coordinates compare by x, then y, then z |
| `Loader.SlotInRange` | src/common/loader.hpp:153-162 | when the stocks divide the first dimension, every cell has a slot inside its stock's list |
| `Loader.SlotUnique` | src/common/loader.hpp:154-162 | no two cells share a slot |
| `Loader.SlotIsUsed` | src/common/loader.hpp:154-162 | every slot is the slot of a cell |
| `Loader.UnevenOverflows` | src/common/loader.hpp:153-162 | when the stocks do not divide the first dimension, some cell lies beyond its list |
| `Loader.FillLists` | src/common/loader.hpp:154-162 | after the loops, each slot holds the id and coordinates of its cell |
| `Loader.Sort` | src/common/loader.hpp:164-167 | the same entries in ascending order |
| `Loader.LoadOrderIds` | src/common/loader.hpp:142-183 | each stock's list is ascending and a permutation of its cells' entries |
| `Loader.EntriesLeadBack` | src/common/type.hpp:178-181 | the coordinates of every entry are in range, its stock is right and its id is the matrix's, so the assertions in `generate_order` never fail |
| `Loader.EveryCellListed` | src/common/loader.hpp:154-167 | every cell is in its stock's list |
| `Loader.NoRepeatsInList` | src/common/loader.hpp:154-167 | no cell is in its stock's list twice |
| `LoadedConfigs.LoadedIsValid` | src/common/loader.hpp:142-183 | matrices whose ids are distinct for each stock, once loaded, give every trader ascending lists that no other trader shares an id with, as the step machine asks |
| `Cells.CellIsFilled` | src/common/loader.hpp:153-162 | cell (x, y, z) is in list x % stocks at (x / stocks) * (ny * nz) + y * nz + z, with the id at x * (ny * nz) + y * nz + z |
| `Cells.EntryIsCell` | src/common/type.hpp:178-190 | every order generated from a list has the id, direction, type, price and volume at x * (ny * nz) + y * nz + z of its cell, and stock x % stocks + 1 |
| `Cells.CellIsListed` | src/common/loader.hpp:153-167 | a cell is in the list of its stock once and only once |
| `Cells.WalkAscends` | src/common/loader.hpp:164-167 | the lists ascend by id, and at one id by coordinates |
| `Cells.CellIsGenerated` | src/trader/trader_controller.cpp:99-113 | the cache of a stock has exactly one row for each of its cells, with the values of the cell |
| `Cells.CellIsHeld` | src/trader/trader_controller.cpp:173-174 | a trader with loaded matrices holds exactly one order for each cell, with the values of the cell |
| `OrderGenerators.Dump` | src/trader/trader_controller.cpp:99-113 | row i of the cache is the order that the in-memory walk generates for entry i |
| `OrderGenerators.OrderGenerator.constructor` | src/common/loader.hpp:332-362 | a new generator has loaded its first chunk and used nothing |
| `OrderGenerators.OrderGenerator.LoadData` | src/common/loader.hpp:290-304 | loads the next of ten chunks without using an order, or reports that there is none |
| `OrderGenerators.OrderGenerator.GenerateOrder` | src/common/loader.hpp:306-326 | returns the first unused row of the cache, field by field, and uses nothing, so it may be asked again; after ten chunks, the end mark; with empty chunks, nothing, which stands for the read beyond the buffer |
| `OrderGenerators.OrderGenerator.Commit` | src/common/loader.hpp:328-330 | uses exactly one order |
| `OrderGenerators.DumpIsWalk` | src/trader/trader_controller.cpp:99-113 | the cache that was written holds exactly the orders that the walk in memory generates, in order |
| `OrderGenerators.ReplayIsWalk` | src/common/loader.hpp:290-330 | the chunks hold something and what they let a trader read is the walk in memory if and only if its length is a positive multiple of ten and no order in it is marked as cancelled |
| `OrderGenerators.LoadGenerator` | src/trader/trader_controller.cpp:78-113 | loading, sorting, writing the cache and opening it, taken together, give a generator of that walk |
| `ChunkedTraders.SendNextChunked` | src/trader/trader_controller.cpp:211-220 | one round generates the next readable order, checks it, and uses it exactly if it goes |
| `ChunkedTraders.SendStockChunked` | src/trader/trader_controller.cpp:206-221 | from any position, sends exactly what the loop over the same orders in memory sends from there, and stops at the same place |

## Left out

- ZeroMQ and Boost sockets, ports, retries: every channel is a lossless FIFO of messages.
- Stop, restart and reset of the network, and reconfiguration of ports.
- HDF5 files, file descriptors and `fdatasync`: matrices are sequences, output files growing sequences, and writes always succeed.
- The floating-point computation of price limits (`src/common/loader.hpp`, lines 234-238): the limits are given per stock. Rounding and NaN prices are not modelled.
- The byte layout of messages (`append_to_str`, `from_str`, `get_elem_from_buf`) and the split of orders into messages: messages are values, one order, trade or acknowledgement each.
- BlockQueues.BlockQueue.Put: waiting for room is a precondition here, because one call of a method is atomic; waiting itself is modelled in `BoundedQueues`.
- BlockQueues.BlockQueue.Take: waiting for an element is a precondition; in the step machine the step is not enabled before.
- Timed `offer` and `poll`, `BlockQueueSTL` and the blocking `SlidingWindow::get`: not used on the modelled path.
- Exchanges.ReceiveOrder: requires the free slot that the source asserts; `ExchangeMachine.StoreOrder` shows that it is free in every reachable state. An order for a stock that the exchange does not serve, which the source logs and drops, is not modelled: traders address orders by stock.
- TradeReceivers.SharedTradeInfo.UpdateWindowStart: requires what the source asserts; `TraderMachine.HearMessage` shows it for every reachable state.
- StockExchanges.StockExchange.ReceiveOrder: requires no negative volume, which the source does not check.
- Traders.TraderController.SendStock: nothing is heard during the loop; `TraderMachine.SendStockHearing` lets the receiver's thread hear before any check.
- Traders.TraderController.SendPass: likewise, for all stocks in turn.
- ChunkedTraders.SendStockChunked: likewise; each of its rounds is `ChunkedTraders.SendNextChunked`, which takes any limit and what has been heard by then. Both require chunks that are not empty, without which the source reads beyond its buffer.
- Return codes of the handlers: `receiveOrder` only logs them, and the sell branch of type 3 does not report its remainder as the buy branch does.
- Chunked sending of several stocks in one pass, which is `ChunkedTraders.SendStockChunked` for each stock in turn.
- Traders.LoadHook: requires target stocks in range, at least ten stocks and ten blocks, as the source's fixed dimensions do.
- Loader.Sort: `std::sort` is an insertion sort here; only its result is modelled. Products of dimensions are unbounded.
- Console, configuration files, logging, timers, thread binding, `output_diff`, `query_order`, `io_example` and the tests.
- `archive/mr_skeleton.py`, an unfinished sketch.
