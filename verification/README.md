# Verified model of the trading-contest platform

The platform runs programming contests for trading engines.  This project
models its three cores in Dafny and proves what they promise.

**The order book and the matching engine.**  A side of the book is a pool of
price levels in parallel arrays, a Robin Hood map from price to level, one
intrusive doubly linked list of orders per level in a shared pool with a free
stack, and a cached best level.  The proof goes in layers:

- `SortedBook` and `SimpleBook`: the plain book of the SDK, one sorted array per
  side, shifted in place.
- `LevelBook`, `BookTheory`, `BookRefinement`, `BookAgreement`: the fast book as
  values (a queue of slots per price), its invariant, and its refinement of the
  plain book.
- `RobinHood`, `PriceMap`, `LevelPool`, `OrderPools`, `BookLinks`,
  `BookSnapshots`, `Orderbook`: the arrays, links and hash table as classes,
  each method proved equal to the operation of the same name on values.
- `Pnl`, `CancelMap`, `Engine`, `EngineTheory`, `EngineLists`, `EngineCash`,
  `EngineLimits`, `EngineSafety`, `EngineCancels`, `EngineCases`,
  `MatchingEngine`: accounts, the cancel lookup, and the engine over runs of
  orders, cancels and ticks.
- `Shadow`, `ShadowScores`, `ShadowAgreement`: the reference book that scores a
  contestant's fills, what each mistake costs, and when the book expects the
  right fills.

**The lock-free protocols.**  `SpscRing`, `ShmEngine`, `Sequencer`, `MpscQueue`,
`TicketLock` and `SeqLock` are state machines whose steps are the code's loads,
stores, compare-and-swaps and copies; results hold for every interleaving.
`SpscRuns`, `ShmAnswers`, `ShmOrder` and `SequencerDrain` add what can always be
delivered and in which order.

**Arithmetic and streams.**  `Buckets` and `Histogram` are the latency
histogram, `Framing` the SDK's receive loop.

Where code and comments differ, the model follows the code:

- The engine matches a market order at the price in the message, although the
  protocol calls that price ignored (sdk/include/sdk/protocol.hpp:141).
- The plain book rests the remainder of an immediate-or-cancel order
  (sdk/examples/example_mm.cpp:38-42); the engine discards it.
- The multi-producer queue is an array ring, not the linked list its comment
  announces (core/include/core/spinlock.hpp:119).

Some promises do not hold as they stand.  Each is given with the condition under
which it does and with a case that fails, reached from the start where the code
runs in steps:

| promise | holds | fails |
|---|---|---|
| the cached best price is right | `EngineSafety.OrderCaches` | `EngineCases.StaleCacheReachable` |
| the book is not crossed | `EngineSafety.OrderUncrossed` | `EngineCases.CrossedReachable` |
| free slots hold no quantity | `EngineTheory.StepClean`, `EngineTheory.RunsClean` | `EngineCases.QuantityLost` |
| a cancel removes the order it names | `EngineCancels.CancelHits` | `EngineCases.WrongOrderCancelled` |
| positions stay within the limit | `EngineLimits.WithinLimit` | `EngineCases.LimitPassed` |
| profit is cash value | `Pnl.ReversalShift` | `Pnl.ReversalCounterexample` |
| expected fills are the right ones | `ShadowAgreement.OrderExact` | `ShadowAgreement.RightScoresHalf` |
| claimed items are popped | `MpscQueue.ClaimSafe` | `MpscQueue.LapLosesItems` |
| one thread holds the lock | `TicketLock.SwapExact` | `TicketLock.TwoHolders` |
| what was published is drained | `SequencerDrain.Delivers` | `SequencerDrain.DropStalls` |
| a validated read is whole | `SeqLock.ValidExact` | `SeqLock.LapTearsRead` |

`dafny verify dfyconfig.toml` checks the whole project.

## Model

| member | source | states |
|---|---|---|
| RobinHood.Chain | exchange/include/exchange/orderbook.hpp:130-153 | Going back from an entry at distance n the cells before it are occupied at distances at least n-1, n-2, ...: the cyclic order that displacement keeps. |
| RobinHood.ProbeMayStop | exchange/include/exchange/orderbook.hpp:104-109 | A probe that meets a cell closer to its home than the probe is to its own can stop: the key is not in the table. |
| RobinHood.DistanceAtMostCount | exchange/include/exchange/orderbook.hpp:130-153 | No probe distance exceeds the number of keys held. |
| RobinHood.InsertSwap | exchange/include/exchange/orderbook.hpp:144-149 | Putting down the carried entry and picking up the richer one keeps the table together with the carried entry equal to the map being built, keeps the cyclic order, and comes closer to an empty cell. |
| RobinHood.InsertSkip | exchange/include/exchange/orderbook.hpp:150-151 | Passing an entry that is at least as far from home keeps the same invariant one cell further. |
| RobinHood.InsertPlace | exchange/include/exchange/orderbook.hpp:137-143 | Putting the carried entry into an empty cell gives a table of the whole new map. |
| RobinHood.RemoveShift | exchange/include/exchange/orderbook.hpp:173-177 | Moving the next entry back into the hole keeps placement and cyclic order, moves the hole on and raises no distance. |
| RobinHood.RemoveStop | exchange/include/exchange/orderbook.hpp:166-172 | Clearing the hole where the next entry is at home or empty gives a table of the map without the removed key. |
| PriceMap.PriceHashMap.constructor | exchange/include/exchange/orderbook.hpp:62-76 | An empty table that stands for the empty map. |
| PriceMap.PriceHashMap.FirstMatch | core/include/core/compiler_hints.hpp:137-158 | The first of four consecutive slots that holds the price. |
| PriceMap.PriceHashMap.Find | exchange/include/exchange/orderbook.hpp:90-127 | The four-slot blocked probe with its one-slot fallback answers exactly what the finite map holds, present or absent, and terminates. |
| PriceMap.PriceHashMap.FindScalar | exchange/include/exchange/orderbook.hpp:119-126 | The one-slot probe, entered at any distance the blocked probe can reach, gives the map's answer. |
| PriceMap.PriceHashMap.Insert | exchange/include/exchange/orderbook.hpp:130-153 | Displacement insertion adds exactly the one entry to the map and keeps the Robin Hood order. |
| PriceMap.PriceHashMap.Remove | exchange/include/exchange/orderbook.hpp:156-179 | Removal by backward shift takes exactly the one price away, absent or present, and raises no probe distance. |
| PriceMap.PriceHashMap.BackwardShift | exchange/include/exchange/orderbook.hpp:163-178 | The shifting loop turns a table with a hole back into a table. |
| PriceMap.PriceHashMap.FewPrices | exchange/include/exchange/orderbook.hpp:60-60 | Fewer than 254 prices leave room in every one-byte distance for another insertion. |
| FlatMaps.FlatMap.Find | core/include/core/flat_map.hpp:87-102 | Found exactly if the key is in the map, and then with its value. |
| FlatMaps.FlatMap.Insert | core/include/core/flat_map.hpp:59-84 | Insert-or-update sets the key's value and changes no other entry; true exactly if the key was new. |
| FlatMaps.FlatMap.KnownKeyAhead | core/include/core/flat_map.hpp:71-80 | A key already in the map is met before anything could be displaced, so an update never displaces. |
| SortedBook.TakePriority | sdk/examples/example_mm.cpp:92-112 | The makers of an order are a prefix of the sorted list in list order, each at its own crossing price and each but the last filled completely. |
| SortedBook.TakeLeavesSuffix | sdk/examples/example_mm.cpp:107-112 | What stays is the rest of the list; only the last maker may keep a part, and then the order is used up. |
| SortedBook.TakeConserves | sdk/examples/example_mm.cpp:107-112 | Units taken leave both the list and the incoming order. |
| SortedBook.TakeFillCount | sdk/examples/example_mm.cpp:94-95 | Every fill is of at least one unit, so an order has no more fills than units. |
| SortedBook.TakeExhausts | sdk/examples/example_mm.cpp:92-93 | An order with quantity left that used fewer fills than allowed has met everything it crosses. |
| SortedBook.TakeCapEnough | exchange/include/exchange/orderbook.hpp:469-488 | A fill cap that is at least the number of fills wanted changes nothing. |
| SortedBook.TakeCut | exchange/include/exchange/orderbook.hpp:469-488 | An order with quantity left still crosses what stays exactly if the list is longer than the cap, its front up to the cap is smaller than the order, and the entry after it crosses. |
| SortedBook.InsertPosition | sdk/examples/example_mm.cpp:216-222 | A new order lands behind every order it does not beat and before every order it does. |
| SortedBook.InsertSorted | sdk/examples/example_mm.cpp:211-247 | Insertion keeps the list in price order. |
| SimpleBook.SideArray.Remove | sdk/examples/example_mm.cpp:249-263 | Shifting the array closes the gap: exactly that entry is gone. |
| SimpleBook.SideArray.InsertResting | sdk/examples/example_mm.cpp:211-247 | The in-place shift inserts the order into the sorted list at its price-time position, or drops it if the side is full. |
| SimpleBook.SideArray.TakeFrom | sdk/examples/example_mm.cpp:92-137 | The fill loop takes from the head of the list exactly what the sorted book gives. |
| SimpleBook.SimpleOrderbook.OnOrder | sdk/examples/example_mm.cpp:36-208 | Fills, remainder and both lists after a limit or market order, as functions of the two lists before it. |
| SimpleBook.PlainBalance | sdk/examples/example_mm.cpp:86-208 | An order's units are filled or left; what is left rests unless the order is a market order or its side is full. |
| SimpleBook.SimpleOrderbook.OnCancel | sdk/examples/example_mm.cpp:45-76 | The first order of that id is removed from the bids, or else from the asks, with the quantity it had left; an unknown id changes nothing. |
| BookTheory.FlatSplit | exchange/include/exchange/orderbook.hpp:243-255 | Any price cuts the levels of a side, flattened best first, in two around its own queue. |
| BookTheory.WalkTakes | exchange/include/exchange/orderbook.hpp:488-533 | Walking one level's queue is taking from the head of the sorted list. |
| BookRefinement.MatchKeeps | exchange/include/exchange/orderbook.hpp:456-542 | Whatever the cache says, matching keeps the whole book invariant, changes only remaining quantities, and moves each unit from the resting side and the incoming order into a fill. |
| BookRefinement.MatchRefines | exchange/include/exchange/orderbook.hpp:456-542 | With a right cache, matching gives the sorted book's fills, remainder and residual list, and leaves the cache right. |
| BookRefinement.MatchFillsOk | exchange/include/exchange/orderbook.hpp:502-510 | Every fill is of at least one unit, against an order of the other side, at that order's price, which crosses the limit. |
| BookRefinement.MatchMakersLive | exchange/include/exchange/orderbook.hpp:488-530 | Every maker was resting in the book when the order came in. |
| BookRefinement.TakeLevelKeeps | exchange/include/exchange/orderbook.hpp:469-538 | One pass over a level yields at least one fill, so the outer loop makes progress. |
| BookRefinement.AddKeeps | exchange/include/exchange/orderbook.hpp:366-414 | Resting an order keeps the invariant even when it fails; it fails exactly when no slot is free or a new price finds no level. |
| BookRefinement.AddRefines | exchange/include/exchange/orderbook.hpp:366-414 | A successful add is an insertion into the sorted list behind its equals; a failed one changes neither list. |
| BookRefinement.AddCache | exchange/include/exchange/orderbook.hpp:261-270 | The cache stays right if and only if it was not empty or the new price is at least as good as everything resting on its side. |
| BookRefinement.AddClean | exchange/include/exchange/orderbook.hpp:390-393 | From free slots without quantity, an add leaves them so if and only if no slot was free or its price has or can get a level. |
| BookRefinement.CancelKeeps | exchange/include/exchange/orderbook.hpp:417-443 | A cancel frees exactly that slot, zeroes its quantity and keeps invariant and caches. |
| BookRefinement.CancelRefines | exchange/include/exchange/orderbook.hpp:417-443 | On the sorted list a cancel removes the entry of that order and no other. |
| BookRefinement.ViewSorted | exchange/include/exchange/orderbook.hpp:397-406 | Each side is sorted by price and, at equal price, by exchange id; every resting order has quantity left. |
| BookAgreement.BooksAgree | exchange/include/exchange/orderbook.hpp:366-542 | On every stream of orders and cancels within capacity and fill cap, with every rest leaving its side's cache right, the fast book and the plain sorted arrays report the same fills event by event and end with the same resting orders. |
| BookAgreement.EventAgrees | exchange/include/exchange/orderbook.hpp:366-542 | The same for one order or cancel, with the remainder. |
| BookAgreement.FillPriority | exchange/include/exchange/orderbook.hpp:469-533 | From one fill of an order to the next the price never improves, and at equal price the makers' exchange ids increase. |
| LevelPool.PriceLevelPool.FindOrCreate | exchange/include/exchange/orderbook.hpp:224-240 | Returns the active level of the price, or a fresh index, or fails exactly when a new price finds the indices used up. |
| LevelPool.PriceLevelPool.FindBest | exchange/include/exchange/orderbook.hpp:243-317 | The cached level if it still offers quantity, otherwise the best of a scan, which then is cached. |
| LevelPool.PriceLevelPool.UpdateBest | exchange/include/exchange/orderbook.hpp:261-270 | The new level becomes the cached best if the cache is null or its price is better. |
| LevelPool.PriceLevelPool.Deactivate | exchange/include/exchange/orderbook.hpp:273-277 | The level leaves the price index and, if cached, the cache. |
| OrderPools.OrderPool.constructor | exchange/include/exchange/orderbook.hpp:327-340 | All slots free, slot 0 on top of the stack. |
| OrderPools.OrderPool.Alloc | exchange/include/exchange/orderbook.hpp:342-345 | Pops the top of the free stack, or fails when it is empty. |
| OrderPools.OrderPool.Release | exchange/include/exchange/orderbook.hpp:347-349 | Pushes the slot on the free stack. |
| BookLinks.AppendThreaded | exchange/include/exchange/orderbook.hpp:398-404 | Linking a node behind the tail gives a well-linked list with the node at its end. |
| BookLinks.UnlinkThreaded | exchange/include/exchange/orderbook.hpp:427-431 | Unlinking a node anywhere gives a well-linked list without it. |
| BookSnapshots.AddPlan | exchange/include/exchange/orderbook.hpp:366-414 | The array writes of an add turn arrays that stand for a book into arrays that stand for the book after it. |
| BookSnapshots.CancelPlan | exchange/include/exchange/orderbook.hpp:417-443 | The slot to cancel stands at a known place of a well-linked list whose level the node names. |
| Orderbook.OrderBook.constructor | exchange/include/exchange/orderbook.hpp:357-362 | Arrays that stand for the empty book, with all slots free. |
| Orderbook.OrderBook.AddOrder | exchange/include/exchange/orderbook.hpp:366-414 | The arrays afterwards stand for the book value after the add: links, totals, counts, price map, cache, free stack and ids. |
| Orderbook.OrderBook.CancelOrder | exchange/include/exchange/orderbook.hpp:417-443 | The arrays afterwards stand for the book value after the cancel; false exactly for an index out of range or a slot without quantity. |
| Orderbook.OrderBook.Match | exchange/include/exchange/orderbook.hpp:456-542 | The arrays and the fill buffer afterwards are those of matching on book values, for every limit, quantity and buffer size. |
| Orderbook.OrderBook.WalkLevel | exchange/include/exchange/orderbook.hpp:488-533 | The inner loop over intrusive links fills the queue from its head and frees the filled slots. |
| Orderbook.OrderBook.QueryBoth | exchange/include/exchange/orderbook.hpp:545-553 | Both best prices, 0 for an empty side; only the caches change. |
| Orderbook.OrderBook.FewLevels | exchange/include/exchange/orderbook.hpp:60-60 | A side with fewer than 254 active price levels can take another. |
| Pnl.DriftStep | exchange/include/exchange/match_engine.hpp:66-102 | Every trade moves the difference between reported profit and cash value by exactly its residue: the division remainder when extending, nothing when closing, the part past zero when reversing. |
| Pnl.PnlIsCashPlusResidues | exchange/include/exchange/match_engine.hpp:66-120 | Over any trades from a flat account, reported profit is cash flow plus position at mid plus the sum of residues. |
| Pnl.PnlWithinRounding | exchange/include/exchange/match_engine.hpp:89-98 | Without reversals, at positive prices, it is off by at most the sum over extending trades of the position reached less one. |
| Pnl.ReversalShift | exchange/include/exchange/match_engine.hpp:72-87 | A reversal ending k past zero shifts it by k times the gap between the old average and the price, with the sign of the side left, and by nothing exactly if the two are equal. |
| Pnl.ReversalCounterexample | exchange/include/exchange/match_engine.hpp:89-98 | Buying 1 at 10 and selling 2 at 20 reports 0 instead of 10. |
| Pnl.FillExact | exchange/include/exchange/match_engine.hpp:66-102 | A trade that takes nothing off the position realizes nothing and averages the entry price; one that does realizes exactly the units taken off times price less entry, signed by the side, and leaves the entry price alone. |
| Pnl.RunIs | exchange/include/exchange/match_engine.hpp:66-102 | After any trades from flat, position, realized profit, entry price and fill count are those defined on the trade list alone. |
| Pnl.EntryBetween | exchange/include/exchange/match_engine.hpp:89-98 | The entry price always lies between the lowest and the highest price traded. |
| CancelMap.KeysDiffer | exchange/include/exchange/match_engine.hpp:401-403 | Keys of different contestants or client ids differ, for 32-bit client ids. |
| CancelMap.CancelIndex.Lookup | exchange/include/exchange/match_engine.hpp:417-426 | The value of the first live entry on the key's probe path, or none if there is no live entry. |
| CancelMap.CancelIndex.Insert | exchange/include/exchange/match_engine.hpp:405-415 | Places an entry exactly if one of the key's 64 probes is free or a tombstone; a new key is then found with its value and stored once; a key already stored keeps its old answer unless the new entry comes first; no other key is disturbed. |
| CancelMap.CancelIndex.Remove | exchange/include/exchange/match_engine.hpp:428-438 | A key stored once is gone afterwards; a key stored again may still be found; no other key is disturbed. |
| MatchingEngine.Contestants.ApplyFill | exchange/include/exchange/match_engine.hpp:66-102 | One contestant's row of the parallel arrays changes as the account function says, and no other row. |
| MatchingEngine.MatchEngine.constructor | exchange/include/exchange/match_engine.hpp:149-172 | An engine that stands for the initial engine value. |
| MatchingEngine.MatchEngine.Register | exchange/include/exchange/match_engine.hpp:175-180 | The next contestant id; the count grows by one. |
| MatchingEngine.MatchEngine.BookAll | exchange/include/exchange/match_engine.hpp:216-244 | Each fill is booked to its maker, read from the slot after the match, and then to the taker; both best prices are asked for. |
| MatchingEngine.MatchEngine.ProcessOrder | exchange/include/exchange/match_engine.hpp:184-269 | The arrays afterwards stand for the engine value after the order, and keep the engine invariant. |
| EngineLists.AcceptedExact | exchange/include/exchange/match_engine.hpp:187-206 | An order is accepted if and only if its sender is registered, its size is within bounds and a full fill would leave the sender within the limit; otherwise the first failing check is reported and nothing changes. |
| EngineLists.RestsExact | exchange/include/exchange/match_engine.hpp:246-263 | The unfilled units of an accepted limit order with a slot and a level are inserted into its own sorted list, under the next exchange id and its sender's key; no other order, whatever its type, changes that list or the stored keys. |
| EngineLists.OrderOnLists | exchange/include/exchange/match_engine.hpp:208-263 | With right caches the other list loses exactly what the order takes from its head, with those fills and remainder, and the own side gains the remainder exactly for a limit order with a place. |
| MatchingEngine.MatchEngine.ProcessCancel | exchange/include/exchange/match_engine.hpp:272-302 | The arrays afterwards stand for the engine value after the cancel; acknowledged exactly if the stored slot is the requester's and has quantity. |
| MatchingEngine.MatchEngine.GenerateTick | exchange/include/exchange/match_engine.hpp:306-323 | With right caches, fresh or emptied by a cancel, the tick reports the best prices of a full scan, 0 for an empty side, and the quantity resting at each. |
| EngineTheory.CleanAllows | exchange/include/exchange/orderbook.hpp:420-421 | While no free slot holds quantity, quantity left means exactly a resting order, so every cancel is safe. |
| EngineTheory.StepClean | exchange/include/exchange/orderbook.hpp:390-393 | Free slots stay without quantity if and only if the order does not need a level when none is left. |
| EngineTheory.RunsClean | exchange/include/exchange/match_engine.hpp:184-323 | From the start, every run in which no order needs a level when none is left is followed without a cancel ever reaching a free slot, and ends with no quantity in free slots. |
| EngineTheory.FewOrdersRun | exchange/include/exchange/orderbook.hpp:224-240 | Every run of at most 4096 orders a side is such a run. |
| EngineTheory.TakerWithinLimit | exchange/include/exchange/match_engine.hpp:187-206 | An accepted order moves its sender in its own direction only, by at most its quantity, which is within the size limit, and never past the position limit; fills against own orders cancel out. |
| EngineTheory.AccountsFollowTrades | exchange/include/exchange/match_engine.hpp:216-237 | After any run a contestant's account is what its own trades as maker and taker, in order, make of it. |
| EngineTheory.ReportedProfit | exchange/include/exchange/match_engine.hpp:117-120 | From the start, a contestant's reported profit is the cash value of its trades plus their residues. |
| EngineTheory.ReportedAccount | exchange/include/exchange/match_engine.hpp:66-102 | From the start, after any run, a contestant's account is the net position, realized profit, entry price and number of its own trades. |
| EngineCash.ProfitsCancel | exchange/include/exchange/match_engine.hpp:216-237 | From the start, in every run in which no order needs a level when none is left, all payments cancel out, and at every mid price the reported profits of all contestants add up to the residues of rounding and reversals alone. |
| EngineTheory.Conservation | exchange/include/exchange/match_engine.hpp:184-302 | From the start, in every such run: the engine invariant holds, positions sum to zero, and accepted = 2 x matched + resting + cancelled + discarded. |
| EngineLimits.MatchShare | exchange/include/exchange/orderbook.hpp:456-542 | Whatever the caches say, what a match takes from the resting orders of each contestant is what it fills of them. |
| EngineLimits.SubmitReach | exchange/include/exchange/match_engine.hpp:187-268 | An order of another contestant never widens the range of positions others can bring a contestant to (position less resting asks, position plus resting bids); its own order widens it by at most its quantity, on its own side. |
| EngineLimits.WithinLimit | exchange/include/exchange/match_engine.hpp:195-206 | From the start, a contestant whose every order is within the limit together with all it already has resting on that side is never taken past the position limit, whatever the others do. |
| EngineCases.LimitPassed | exchange/include/exchange/match_engine.hpp:195-206 | The order check alone does not ensure that: with a limit of 1, two resting asks bought by two others leave a position of -2. |
| EngineSafety.OrderCaches | exchange/include/exchange/match_engine.hpp:211-268 | From right caches an order leaves them right except in exactly one case (an unfilled remainder joining an emptied cache at a worse price); from fresh caches it leaves them fresh. |
| EngineSafety.RunFresh | exchange/include/exchange/match_engine.hpp:184-323 | In every run in which a tick follows each cancel, both caches equal the linear scan. |
| EngineSafety.AddMisleads | exchange/include/exchange/orderbook.hpp:261-276 | An add into an emptied cache while a better price rests leaves the best-price query wrong. |
| EngineSafety.MisledFill | exchange/include/exchange/orderbook.hpp:469-478 | The next crossing order is then filled first at the price the cache names. |
| EngineCases.StaleCacheReachable | exchange/include/exchange/match_engine.hpp:292-296 | Two asks, the better one cancelled, a worse one added: from the start, 105 is reported as best ask while 101 rests. |
| EngineSafety.OrderUncrossed | exchange/include/exchange/match_engine.hpp:210-252 | An order leaves an uncrossed book uncrossed unless, and only unless, it is an accepted limit order larger than the 64 best orders of the other side together, the next order there crosses it too, and its price has or can get a level. |
| EngineCases.CrossedReachable | exchange/include/exchange/match_engine.hpp:210-252 | From the start, 65 asks of one unit at 100 and a buy of 66 there leave a crossed book. |
| EngineSafety.SmallNotCut | exchange/include/exchange/match_engine.hpp:189-214 | That cannot happen to orders of at most 64 units. |
| EngineSafety.RunUncrossed | exchange/include/exchange/match_engine.hpp:184-268 | With orders of at most 64 units and a tick after each cancel the book is never crossed. |
| EngineSafety.FromTheStart | exchange/include/exchange/match_engine.hpp:184-323 | Both results from the initial state, for every run in which no order needs a level when none is left. |
| EngineCancels.RunTracked | exchange/include/exchange/match_engine.hpp:253-263 | From the start, with new keys and no order short of a level, every resting order whose key is stored is found under it. |
| EngineCancels.CancelRemoves | exchange/include/exchange/match_engine.hpp:272-302 | Cancelling a resting order under its stored key takes exactly that order off the book and forgets the key. |
| EngineCancels.CancelHits | exchange/include/exchange/match_engine.hpp:287-295 | An honoured cancel hits an order of the requester; it is the one asked for exactly if that one still rests. |
| EngineCases.WrongOrderCancelled | exchange/include/exchange/match_engine.hpp:287-295 | From the start: ask 1 is bought, ask 2 rests in its slot, and the cancel of ask 1 takes ask 2 off the book. |
| EngineCases.QuantityLost | exchange/include/exchange/orderbook.hpp:390-393 | From the start: asks at 4096 prices, the best one bought, one more ask at a new price; a free slot then holds a unit, and a cancel of the bought order takes it for a resting order. |
| Shadow.Accounts | exchange/include/exchange/shadow_orderbook.hpp:85-141 | After any interleaving of orders and reports and one finalize: expected = correct + wrong price + wrong quantity + missing, actual = correct + wrong price + wrong quantity + extra. |
| Shadow.PerfectScore | exchange/include/exchange/shadow_orderbook.hpp:42-56 | Below the fill cap the score is exactly 1 if and only if nothing was expected or every order's reports are its expected fills, in order and none before it was due. |
| Shadow.NoErrorsInOrder | exchange/include/exchange/shadow_orderbook.hpp:116-135 | No report is wrong or extra exactly if at every moment each order's reports are the first of its expected fills. |
| Shadow.ScoreOne | exchange/include/exchange/shadow_orderbook.hpp:42-56 | The formula is 1 exactly if nothing was expected or all is correct with nothing extra or missing. |
| ShadowScores.ScoreLaw | exchange/include/exchange/shadow_orderbook.hpp:42-56 | For all tallies with no more correct than expected fills: the correct share, less three tenths of the missing share and of the extra share, less a tenth per priority error, never below 0. |
| ShadowScores.MissedScore | exchange/include/exchange/shadow_orderbook.hpp:42-56 | On every run whose reports are right and in order, with n expected and r reported, the score is max(0, 1 - 13(n - r)/(10n)). |
| ShadowScores.ExtraScore | exchange/include/exchange/shadow_orderbook.hpp:42-56 | On every run with all n expected fills correct and r reports, the score is 1 - 3(r - n)/(10r). |
| ShadowScores.WrongScore | exchange/include/exchange/shadow_orderbook.hpp:42-56 | On every run with as many reports as expected fills and none extra, k wrong ones give 1 - k/n. |
| ShadowScores.MistakesCost | exchange/include/exchange/shadow_orderbook.hpp:42-56 | Missing a fill instead of reporting it, or one more extra report, lowers the score strictly until it is 0. |
| ShadowScores.ReportTally | exchange/include/exchange/shadow_orderbook.hpp:116-135 | Which tally a report raises, by the first open fill of its order: correct, wrong price, wrong quantity or extra; it closes that fill and no other. |
| ShadowScores.EventsCounted | exchange/include/exchange/shadow_orderbook.hpp:74-75 | Every order and every report of a run is counted once. |
| ShadowScores.FinalizeTwice | exchange/include/exchange/shadow_orderbook.hpp:137-141 | One finalize counts as missing exactly the expected fills without a report held against them; a second one counts them again. |
| Shadow.ShadowOrderbook.ProcessOrder | exchange/include/exchange/shadow_orderbook.hpp:74-110 | The reference book is matched and rested, and the fills are appended to the expected ones while there is room. |
| Shadow.ShadowOrderbook.ValidateFill | exchange/include/exchange/shadow_orderbook.hpp:116-135 | The reported fill is held against the first open expected fill of its order, which is then closed. |
| Shadow.ShadowOrderbook.Finish | exchange/include/exchange/shadow_orderbook.hpp:137-141 | Every expected fill still open is counted as missing. |
| ShadowAgreement.FillsExact | exchange/include/exchange/shadow_orderbook.hpp:85-100 | From agreeing books, the fills expected of an order are those of the plain book if and only if there are at most 64. |
| ShadowAgreement.OrderExact | exchange/include/exchange/shadow_orderbook.hpp:74-110 | Within the capacities, the books agree with right caches after an order if and only if its remainder leaves its side's cache right and it is not an immediate order with a remainder. |
| ShadowAgreement.MisledNext | exchange/include/exchange/shadow_orderbook.hpp:104-108 | Otherwise the next order at that price is expected to fill at it first, while the plain book fills it at a better price. |
| ShadowAgreement.RightContestant | exchange/include/exchange/shadow_orderbook.hpp:42-141 | From the start, on every stream whose orders meet that condition, the score is 1 if and only if the contestant reported the plain book's fills of each order, in order and none before it was due, or there were none. |
| ShadowAgreement.RightScoresHalf | exchange/include/exchange/shadow_orderbook.hpp:74-135 | On asks at 100 and 101, a bid for 100, an ask at 105 and a bid for 105, the contestant who reports exactly the plain book's fills scores a half. |
| RingIndex.SlotsDiffer | core/include/core/ring_buffer.hpp:125-125 | Positions less than a lap apart have different slots. |
| RingIndex.SlotIsModulo | core/include/core/ring_buffer.hpp:67-67 | The slot of a position is the position modulo the capacity. |
| SpscRing.StepInv | core/include/core/ring_buffer.hpp:116-182 | Every load, copy and publish of either side keeps the ring invariant. |
| SpscRing.FifoAndBounded | core/include/core/ring_buffer.hpp:116-182 | In every interleaving popped items are a prefix of pushed ones, occupancy stays within the capacity, and every unread item is still in its slot. |
| SpscRuns.PushAlone | core/include/core/ring_buffer.hpp:150-162 | From every reachable state, wherever the consumer stands, a whole push publishes as many of its items as there are free slots, in order. |
| SpscRuns.PopAlone | core/include/core/ring_buffer.hpp:166-182 | From every reachable state, wherever the producer stands, a whole pop takes as many unread items as there are, up to its maximum, oldest first. |
| SpscRing.RingBuffer.TryPush | core/include/core/ring_buffer.hpp:116-130 | The item joins the end of the queue if and only if the ring is not full. |
| SpscRing.RingBuffer.TryPop | core/include/core/ring_buffer.hpp:133-147 | The oldest item leaves the queue if and only if there is one. |
| SpscRing.RingBuffer.TryPushBatch | core/include/core/ring_buffer.hpp:150-162 | As many items as fit join the end of the queue in order; the array and index are those of single pushes in turn against the same read index. |
| SpscRing.RingBuffer.TryPopBatch | core/include/core/ring_buffer.hpp:166-182 | As many items as there are, up to the maximum, leave the front of the queue in order; the same as single pops in turn against the same write index. |
| ShmEngine.StepInv | loadgen/include/loadgen/shm_engine.hpp:63-136 | Every step of both threads keeps the invariant over fleet, rings and the request in hand. |
| ShmEngine.FlightBound | loadgen/include/loadgen/shm_engine.hpp:176-199 | At most one message per bot is under way, and none for an idle one. |
| ShmEngine.StepRoom | loadgen/include/loadgen/shm_engine.hpp:127-130 | With no more bots than slots every push starts with room, so none fails or spins. |
| ShmEngine.PushFinds | loadgen/include/loadgen/shm_engine.hpp:64-74 | A push that sees room copies its one message. |
| ShmEngine.InFlight | loadgen/include/loadgen/shm_engine.hpp:160-296 | In every interleaving the waiting bots are exactly those with one message under way, carrying their latest number and send time; sends less receives is the number under way; with no more bots than slots every push has room. |
| ShmAnswers.NextHelps | loadgen/include/loadgen/shm_engine.hpp:63-136 | Unless everything is at rest with no message under way, some next step of the code lowers a potential bounded by 0. |
| ShmAnswers.AllAnswered | loadgen/include/loadgen/shm_engine.hpp:160-296 | After any run from the start, with no more bots than slots, the threads can go on without another send until no bot waits and as many messages were received as sent. |
| ShmOrder.AnswersInOrder | loadgen/include/loadgen/shm_engine.hpp:63-136 | In every interleaving the messages under way carry rising numbers, oldest response first, below the next number; requests processed = responses received + responses waiting. |
| ShmOrder.BotsRemember | loadgen/include/loadgen/shm_engine.hpp:176-199 | In every interleaving each bot keeps the number and send time of its last request. |
| Sequencer.OneWriter | exchange/include/exchange/sequencer.hpp:89-94 | No slot ever has two writers. |
| Sequencer.StepInv | exchange/include/exchange/sequencer.hpp:84-150 | Every step of any number of producers and of the consumer keeps the invariant. |
| Sequencer.Integrity | exchange/include/exchange/sequencer.hpp:84-150 | In every run each drained record is whole, was stamped, and has a number congruent to its position; issued = accepted + dropped + undecided. |
| Sequencer.InSequence | exchange/include/exchange/sequencer.hpp:84-150 | If the counter never leads the drain position by more than the ring, nothing is dropped and the records of 1, 2, 3, ... come out with their messages. |
| SequencerDrain.PollExact | exchange/include/exchange/sequencer.hpp:136-141 | Within the window a poll moves on if and only if the next number was issued and its producer has published it, and then the whole record is in its slot. |
| SequencerDrain.Delivers | exchange/include/exchange/sequencer.hpp:136-150 | After any run within the window that leaves the producers idle, the consumer's own loop is a run that ends with every number issued drained: record i has number i and its message. |
| SequencerDrain.SendsAlone | exchange/include/exchange/sequencer.hpp:84-107 | Within the window with room, a producer that runs alone has its message accepted and ready under the next number. |
| SequencerDrain.DropsExact | exchange/include/exchange/sequencer.hpp:89-94 | From the start, in every run and whatever the window, a claim is refused if and only if another producer is writing to its slot or a whole undrained record is in it. |
| SequencerDrain.DropStalls | exchange/include/exchange/sequencer.hpp:134-150 | From the start: a message that finds the ring full is dropped, the ring is drained, one more message is published; a poll then changes nothing, although the next record is whole and ready in the slot after. |
| MpscQueue.CasNoLap | core/include/core/spinlock.hpp:142-144 | A compare-and-swap within a lap of the head load succeeds only if nobody claimed in between. |
| MpscQueue.ClaimSafe | core/include/core/spinlock.hpp:136-144 | A successful claim makes a queue with items in it look empty if and only if the queue is full by then, which takes one or more whole laps of claims since the head load; otherwise a slot stays free and the invariant holds. |
| MpscQueue.LapLosesItems | core/include/core/spinlock.hpp:134-167 | From the start, for every capacity and two or more producers: one checks and sleeps, the other pushes a lap, the consumer pops one; the sleeper's claim then leaves a full ring that the consumer takes for empty. |
| MpscQueue.PopsInClaimOrder | core/include/core/spinlock.hpp:134-167 | In every run whose producers claim within a lap, the items popped are the items claimed, whole and in claim order, and no unread slot is claimed again. |
| MpscQueue.PopOnce | core/include/core/spinlock.hpp:152-167 | From every state of the invariant in which the oldest unpopped item is raised, the consumer's steps pop it. |
| TicketLock.SpinExact | core/include/core/spinlock.hpp:32-38 | A waiting thread gets in exactly when its ticket is being served. |
| TicketLock.NextEnters | core/include/core/spinlock.hpp:32-38 | While tickets are out and nobody holds the lock, the waiter with the lowest ticket, and no other, gets it with its next look. |
| TicketLock.SwapExact | core/include/core/spinlock.hpp:46-51 | A try_lock that swaps shares the lock with another thread, holding or about to enter, if and only if some thread held or waited, which takes one or more whole laps of 2^32 tickets since its load; otherwise the lock stays sound. |
| TicketLock.NobodyIn | core/include/core/spinlock.hpp:31-43 | Nobody holds or waits exactly if every ticket issued has been served. |
| TicketLock.TryAlone | core/include/core/spinlock.hpp:46-51 | Within 2^32 tickets of its load, try_lock succeeds only when nobody holds or waits. |
| TicketLock.TwoHolders | core/include/core/spinlock.hpp:46-51 | From the start, with two or more threads: one loads and sleeps while the other takes 2^32 tickets; the swap then succeeds while the other holds the lock. |
| TicketLock.MutualExclusion | core/include/core/spinlock.hpp:31-51 | In every timely run at most one thread holds the lock, and entries follow ticket order. |
| SeqLock.ValidExact | core/include/core/spinlock.hpp:107-111 | A read that validates has words of one version unless whole laps of the counter passed since it began; within a lap it validates exactly if the counter has not moved. |
| SeqLock.NoTornRead | core/include/core/spinlock.hpp:81-111 | From the start, in every timely run every validated read returned a value the writer had completed. |
| SeqLock.QuietRead | core/include/core/spinlock.hpp:81-111 | From every state of the invariant with no write under way, a reader that runs alone validates the latest value. |
| SeqLock.LapTearsRead | core/include/core/spinlock.hpp:81-111 | From the start, a reader that copies a word, sleeps for 2^31 writes and copies the rest validates a value that was never written. |
| Buckets.Bracket | core/src/hdr_histogram.cpp:114-141 | A value lies between the edge of its bucket and the next edge. |
| Buckets.BracketUnique | core/src/hdr_histogram.cpp:114-141 | And in no other bucket. |
| Buckets.IndexMonotone | core/src/hdr_histogram.cpp:114-129 | Bucket indexing is monotone. |
| Buckets.RoundTrip | core/src/hdr_histogram.cpp:114-141 | The edge of a bucket is indexed to that bucket. |
| Buckets.ErrorBound | core/src/hdr_histogram.cpp:114-141 | The edge misses the value by less than one part in 2^m, and in the linear part by less than a unit. |
| Histogram.DefaultScale | core/src/hdr_histogram.cpp:9-43 | For two figures up to 10^10 the constructor's length is 3584 buckets, which cover everything below 2^34, exact below 256 and within one part in 128 above. |
| Histogram.RankEdge | core/src/hdr_histogram.cpp:67-73 | The bucket in which the cumulative count reaches t is the bucket of the sample of rank t. |
| Histogram.CountsAddUp | core/src/hdr_histogram.cpp:52-53 | The counts of the buckets add up to the number of samples. |
| Histogram.HdrHistogram.constructor | core/src/hdr_histogram.cpp:29-42 | The doubling loop leaves a table of the stated length that covers every value up to the highest to track, unless it is capped. |
| Histogram.HdrHistogram.RecordWithCount | core/src/hdr_histogram.cpp:49-58 | The sample is added to counts, total, sum, minimum and maximum, or refused if its bucket is outside the table, which never happens at or above the linear part. |
| Histogram.OverflowCounted | core/src/hdr_histogram.cpp:126-128 | Every sample at or above the linear part is counted: in its own bucket, or in the last one if that lies beyond the table. |
| Histogram.AcceptsAll | core/src/hdr_histogram.cpp:29-58 | A constructed histogram whose linear part fits the table refuses no sample. |
| Histogram.HdrHistogram.Percentile | core/src/hdr_histogram.cpp:60-75 | The lower edge of the bucket of the sample of that rank, never above the maximum; 0 without samples; the maximum beyond the last rank. |
| Histogram.HdrHistogram.GetPercentiles | core/src/hdr_histogram.cpp:77-104 | All four in one pass, each the edge for its rank, with p50 <= p90 <= p99 <= p999 <= max. |
| Framing.ParseInParts | sdk/include/sdk/gateway_client.hpp:101-172 | Parsing a cut stream is parsing the first part and then its rest followed by the second. |
| Framing.RestShort | sdk/include/sdk/gateway_client.hpp:165-171 | The carried bytes are no whole message and, on known types, shorter than 64. |
| Framing.UnknownSticks | sdk/include/sdk/gateway_client.hpp:111-114 | A message of unknown type stops the dispatch for good. |
| Framing.Dispatch | sdk/include/sdk/gateway_client.hpp:106-160 | The inner loop dispatches exactly the whole messages in the buffer up to the end of the session. |
| Framing.Compact | sdk/include/sdk/gateway_client.hpp:165-171 | The unprocessed bytes move to the front. |
| Framing.Run | sdk/include/sdk/gateway_client.hpp:89-172 | However the stream is cut into receives, the strategy sees the same messages; on the bytes of a session it sees exactly its orders, cancels, session starts and session ends, whole and in order; the remainder stays below 64 bytes and the buffer never fills. |
| Framing.SessionCalls | sdk/include/sdk/protocol.hpp:214-227 | For every list of messages of 64 bytes (types 1, 3, 10, 30, 31) and 32 bytes (types 2, 4, 11, 20), with 31 at most last, parsing the concatenation gives back exactly those of types 10, 11, 30 and 31. |

## Left out

- PriceMap.PriceHashMap.Find: requires a nonzero price, because 0 is the table's empty-key sentinel; the code does not check it.
- PriceMap.PriceHashMap.Insert: requires a nonzero price that is not in the map, as the code's comment does, and probe distances of at most 253, because they are single bytes; `PriceMap.PriceHashMap.FewPrices` gives a count that is always enough.
- FlatMaps.FlatMap.Insert: requires probe lengths below 254 and a free slot for a new key; the code has neither check.  The byte-wise hash is an arbitrary function.
- LevelPool.PriceLevelPool.FindOrCreate: requires a price strictly inside the 64-bit range and not 0, and room in the probe distances when a new level is made; the code checks neither.
- Orderbook.OrderBook.AddOrder: requires a positive quantity and, when a slot is free, a price strictly inside the 64-bit range and not 0, and room in the probe distances of its side when a new level is made (`Orderbook.OrderBook.FewLevels`); the code checks none of these.
- Orderbook.OrderBook.CancelOrder: requires that a slot with quantity left is in a queue, which holds until an add has failed for lack of a level; what the code does to the links after that is not modelled.
- MatchingEngine.MatchEngine.ProcessOrder: of a limit order whose remainder rests requires a price that can rest, room for a new level if it needs one, and a key other than 0 (client id 0 of contestant 0).
- MatchingEngine.MatchEngine.ProcessCancel: requires that the slot found is resting if it has quantity, as in every run of `EngineTheory.RunsClean`; `EngineCases.QuantityLost` is a run after which it is not.
- EngineTheory.AccountsFollowTrades: for runs in which no cancel reaches a free slot with quantity; `EngineTheory.RunsClean` says which these are.  The same holds of `EngineTheory.ReportedProfit`, `EngineSafety.RunFresh` and `EngineSafety.RunUncrossed`.
- EngineLimits.WithinLimit: one direction only; an order that is not covered may still never be filled.
- EngineTheory.TakerWithinLimit: bounds the sender of the order; a maker's position is the subject of `EngineLimits.WithinLimit`.
- MatchingEngine.MatchEngine.Register: requires a free row among the 64; the code does not check.
- Shadow.ShadowOrderbook.ProcessOrder: of a limit order whose remainder rests requires a price that can rest and room for a new level if it needs one.
- ShadowAgreement.RightContestant: for streams without cancels, which the reference book ignores.
- CancelMap.CancelIndex.Insert: requires a nonzero key, because 0 marks an unused entry.
- Sequencer.InSequence: one direction only; when the window is exceeded a number is dropped or not depending on when its slot is drained, which `SequencerDrain.DropsExact` says exactly.
- SequencerDrain.Delivers: says that the consumer's loop delivers, not that it is scheduled; the same holds of `ShmAnswers.AllAnswered`.
- EngineCancels.CancelRemoves: needs the key to be stored; an order whose 64 probes were all taken rests without one and cannot be cancelled.
- Histogram.HdrHistogram.constructor: takes the two magnitudes; their floating-point computation from the number of significant figures and the lowest value is not modelled.
- Histogram.HdrHistogram.Percentile: takes the rank as an integer; the floating-point computation of the rank from a percentage is not modelled, nor is the mean.
- Shadow.Score: exact arithmetic in place of doubles.
- Widths: prices, quantities, totals and counters are unbounded integers; wrap-around is modelled only where the protocols depend on it (queue indices, ticket and sequence counters).
- Timestamps, original quantities, session statistics and last-trade fields are opaque or dropped.
- Outbound messages and their queue: acknowledgements are return values; the queue's capacity is not enforced by the code either.
- The protocols are modelled as steps on values under sequential consistency, not as classes; weak memory ordering is not covered.
- The load generator's choice of the next bot and its telemetry ring: the model allows every order of sends and receives.
- Arena memory is fresh zeroed arrays; prefetching and alignment are ignored; the four-lane comparison is a loop over four keys.
- The two copies of code for bids and asks, and for stamping orders and cancels, appear once, by side or by message.
- Market data generation, sockets, the compiler service, storage clients, the web backend, the frontend and the FPGA design: input and output around the modelled logic.
- The arena allocator, the order blaster and the bench programs: they would only add easy members.
