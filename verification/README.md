# A verified model of the Hermes order book and its queues

The engine keeps a limit order book: two ladders of price levels, each level a cached volume and a
first-in-first-out list of orders, and an index from order ids to list nodes. Commands add, modify
and cancel orders; an incoming order is matched against the other side in price-time order. A
lock-free ring buffer and a closable blocking queue carry commands between threads.

The project models these parts and proves what they promise, over every input, every session of
commands and every interleaving of threads.

| file | contents |
|---|---|
| `Types.dfy`, `Ladders.dfy`, `Books.dfy` | values; price ladders and their edits; the book as a value, with the agreement of its levels, lists and index |
| `Matching.dfy` | matching on levels, on the price-time queue and on a plain set, and that the three agree; the closed form |
| `Commands.dfy` | the commands as functions, sessions, the agreement of the book and that it is never crossed |
| `VolumeLaw.dfy`, `Scans.dfy`, `FillOrKill.dfy` | what the cached volumes really are; the fill-or-kill scan decided exactly; when fill-or-kill keeps its promise |
| `FlatBook.dfy` | the refinement: every session is the same session on two plain sets of orders and a history |
| `Ledger.dfy`, `Lifetimes.dfy` | conservation of quantity and the issue of ids; the life of an order and time priority over sessions |
| `Limits.dfy`, `Effects.dfy` | price limits and price priority in plain comparisons; what each command answers and leaves behind, case by case |
| `Emptied.dfy` | which commands and sessions leave orders with nothing left on the book |
| `Counterexamples.dfy` | one session for each promise that fails |
| `Equivalences.dfy` | modify as cancel then add, add then cancel, post-only, late rejections |
| `Events.dfy`, `Overrun.dfy` | what a command reports and answers, and sessions in which the answer does not fit |
| `Orders.dfy`, `Mirrors.dfy`, `Progress.dfy`, `OrderBook.dfy`, `Guarantees.dfy` | the order and the order book as objects whose methods change them in place, proved against the functions above |
| `SpscQueue.dfy` | the ring buffer: two threads in any interleaving with stale index loads, and the object |
| `ThreadSafeQueue.dfy` | the blocking queue: mutex, condition variable and close, any number of threads, and the object |

How the two levels fit together: the class `OrderBooks.OrderBook` holds order objects in its ladders
and nodes and level keys in its index. A ghost field is the same book as a value. Every method is
proved to change that value as the functions in `Commands` say, and `Live` ties it to the session of
all commands applied so far, so each law of sessions is a law of the object.

A sequence of levels sorted by price stands for the ordered map, a level's price for the iterator
to it, and a map from ids for the hash index. Mirror-image branches for the two sides are written
once, with the side as a parameter. Quantities are 64-bit and wrap; the arithmetic on volumes does so
in the model as in the code.

Where code and documentation differ, the model follows the code:

- `README.md:21` of the repository says that fully filled orders are removed. An order reduced to
  zero in place stays on the book (`Counterexamples.EmptiedStays`) until its owner moves or cancels it, or the matcher reaches it
  and removes it with a fill of zero (`Emptied.EmptiedIsSwept`). Exactly these reductions break the rule
  (`Emptied.PositiveIff`, `Emptied.SessionPositiveIff`).
- An in-place reduction by `d` raises the volume of a visible order's level by `d`
  (`src/Core/Order.hpp:69-73` as used by `src/Engine/OrderBook.inl:160-162`), and fills of hidden
  orders lower a volume that they were never added to. `VolumeLaw` states the exact sum.
- Fill-or-kill trusts these volumes, so it can be filled in part and still be reported as accepted
  (`Counterexamples.PromiseBroken`, exactly when: `FillOrKill.BrokenIff`), and it can be killed although enough crosses
  (`Counterexamples.KilledInFrontOfHidden`, exactly when: `FillOrKill.WronglyKilledIff`).
- `src/Core/globals.hpp` says that Day orders are not supported and that fill-or-kill fills all or nothing; the
  code rests Day orders exactly like good-till-cancelled ones, and fill-or-kill is as above.
- The parameter that a fill receives as the taker's side is the resting order's side, and the two order ids it
  receives are client ids (`src/Matching/Matching.cpp:27-28`). The model reports what the code reports; true
  ids are kept in ghost histories.

## Model

| member | source | states |
|---|---|---|
| `Orders.Order.Fill` | src/Core/Order.hpp:59-67 | the quantity is taken off, and asking for more than is left changes nothing |
| `Orders.Order.UpdateQuantity` | src/Core/Order.hpp:69-73 | the new remainder is set, and the wrapped difference new minus old is returned |
| `Ladders.EraseQueue` | src/Engine/OrderBook.inl:187-195 | erasing a node, and its level when empty, takes exactly one position out of the price-time queue |
| `Ladders.AppendQueue` | src/Engine/OrderBook.inl:99-120 | an order that rests goes behind all orders of its price and of better prices, whether or not its level existed |
| `Books.QueueInOrder` | src/Engine/OrderBook.hpp:115-117 | the levels and lists of one side, read in order, are in strict price-time order |
| `Books.UniqueIds` | src/Engine/OrderBook.hpp:32-35 | no two resting orders share an id |
| `Books.RemoveKeeps` | src/Engine/OrderBook.inl:184-195 | removing one order keeps lists, levels and index in agreement and touches no other order |
| `Books.InsertKeeps` | src/Engine/OrderBook.inl:99-120 | resting one order keeps lists, levels and index in agreement and touches no other order |
| `Matching.MatchIsSweep` | src/Matching/Matching.cpp:9-67 | matching on levels makes the same fills and leaves the same orders as running down the price-time queue |
| `Matching.SweepIsGreedy` | src/Matching/Matching.cpp:9-67 | running down the queue is taking the best crossing order out of a plain set as long as there is one |
| `Matching.MatchIsGreedy` | src/Matching/Matching.cpp:9-67 | the matcher consumes the set of opposite orders greedily: best price first, then lowest id |
| `Matching.SweepTakesPrefix` | src/Matching/Matching.cpp:9-67 | the makers touched are a prefix of the queue, all but the last are filled and gone, and all others are untouched |
| `Matching.SweepFillsMin` | src/Matching/Matching.cpp:10-37 | the quantity filled is the smaller of the order's quantity and all crossing liquidity |
| `Matching.SweepReaches` | src/Matching/Matching.cpp:10-37 | at least n fills are made exactly when the n-th order of the queue crosses and those in front of it do not suffice |
| `Matching.SweepExhausts` | src/Matching/Matching.cpp:13-18 | a taker with quantity left faces nothing that it could trade with |
| `Commands.MatchKeeps` | src/Matching/Matching.cpp:30-36 | matching keeps lists and index in agreement; exactly the filled makers leave the index; no maker grows |
| `Commands.AddSettles` | src/Engine/OrderBook.inl:67-122 | an order that passes the checks rests with what it has left exactly when it is a Day or GTC order and not a market order |
| `Commands.AddKeeps` | src/Engine/OrderBook.inl:15-123 | adding keeps the agreement and uses up one id exactly when the checks pass |
| `Commands.ModifyKeeps` | src/Engine/OrderBook.inl:126-166 | modifying keeps the agreement |
| `Commands.CancelKeeps` | src/Engine/OrderBook.inl:170-198 | cancelling keeps the agreement and uses no id |
| `Commands.ApplyKeeps` | src/Engine/OrderBook.hpp:89-109 | after every command: no empty level, sorted levels, FIFO lists, the index has exactly the ids in the lists, all below the counter |
| `Commands.ApplyUncrossed` | src/Engine/OrderBook.hpp:89-109 | no command leaves the book crossed |
| `Commands.RunUncrossed` | src/Engine/OrderBook.hpp:89-109 | over every session the book is in agreement and every bid is strictly below every ask |
| `Commands.LogFills` | src/Engine/OrderBook.inl:67-122 | the history of a command contains exactly its fills, in order |
| `FlatBook.TopDecides` | src/Engine/OrderBook.inl:58-61 | looking at the best price alone tells whether any opposite order crosses |
| `FlatBook.AddRefines` | src/Engine/OrderBook.inl:15-123 | adding to the book is adding to two plain sets with a history: same orders, code, fills and history, fill-or-kill included |
| `FlatBook.CancelRefines` | src/Engine/OrderBook.inl:170-198 | cancelling is removing one order from a plain set, with the same code |
| `FlatBook.ModifyRefines` | src/Engine/OrderBook.inl:126-166 | modifying is the same change of two plain sets, with the same code, fills and history |
| `FlatBook.ApplyRefines` | src/Engine/OrderBook.hpp:89-109 | one command on levels, lists, volumes and index is one command on two plain sets with a history |
| `FlatBook.RunRefines` | src/Engine/OrderBook.hpp:89-109 | from any book that follows the volume law, a run leaves the same orders and the same history, fills included, as the run on two plain sets |
| `FlatBook.SessionRefines` | src/Engine/OrderBook.hpp:89-109 | a whole session is the session on two plain sets that decides everything, kills included, from the orders and its own history |
| `VolumeLaw.ApplyLaw` | src/Engine/OrderBook.inl:269-290 | every command keeps the exact volume law |
| `VolumeLaw.ShrinkLaw` | src/Engine/OrderBook.inl:159-163 | an in-place reduction by d keeps the exact law: it moves the drift by 2d, of a visible order's level only |
| `VolumeLaw.MatchLaw` | src/Engine/OrderBook.inl:273-290 | matching keeps the exact law of the side it meets; only fills of hidden orders move a drift |
| `VolumeLaw.SessionVolumes` | src/Engine/OrderBook.inl:103-115 | in every session, volume = visible quantity + 2 x visible in-place reductions - hidden fills since the level was made, mod 2^64 |
| `Scans.KillsIff` | src/Engine/OrderBook.inl:26-51 | for volumes of any kind, a fill-or-kill is killed exactly when no run of crossing levels has volumes that add up, mod 2^64, to its quantity |
| `Scans.VolumesAreReach` | src/Engine/OrderBook.inl:34-46 | the summed volumes of the best levels are the visible quantity and the drifts of the orders up to that price |
| `Scans.KillsByHistory` | src/Engine/OrderBook.inl:26-51 | a kill is decided by the resting orders and the history, without levels and cached volumes |
| `FillOrKill.ScanDecides` | src/Engine/OrderBook.inl:26-51 | on exact volumes that do not overflow, the early-exit scan finds enough exactly when there is enough |
| `FillOrKill.AllOrNothingIff` | src/Engine/OrderBook.inl:26-51 | an order is filled completely or changes nothing if and only if, when the checks let it pass, enough crosses |
| `FillOrKill.BrokenIff` | src/Engine/OrderBook.inl:26-51 | a fill-or-kill breaks its promise exactly when too little crosses while some run of crossing levels shows enough volume |
| `FillOrKill.WronglyKilledIff` | src/Engine/OrderBook.inl:26-51 | a fill-or-kill is killed although enough crosses exactly when no run of crossing levels shows enough volume |
| `FillOrKill.ExactBooksKeepThePromise` | src/Engine/OrderBook.inl:26-51 | on exact volumes a fill-or-kill is rejected, without a trace, exactly when too little crosses, and is otherwise filled completely |
| `FillOrKill.PlainSessionsKeepThePromise` | src/Engine/OrderBook.inl:26-81 | in every session without hidden orders and in-place reductions, as long as the quantity resting on the other side is below 2^64, the promise holds |
| `Counterexamples.PromiseBroken` | src/Engine/OrderBook.inl:160-162 | a session with one in-place reduction after which a fill-or-kill for 12 is filled for 6 and accepted |
| `Counterexamples.KilledInFrontOfHidden` | src/Engine/OrderBook.inl:113-115 | a session with one hidden offer of 10, in front of which a fill-or-kill for 10 is killed |
| `Counterexamples.EmptiedStays` | src/Engine/OrderBook.inl:159-163 | a session after which an order with nothing left rests |
| `Counterexamples.RejectedAfterTrading` | src/Engine/OrderBook.inl:82-85 | a session after which a market order for the day trades 10 and is then rejected |
| `Emptied.PositiveIff` | src/Engine/OrderBook.inl:149-163 | when only orders with something left rest, a command changes that exactly if its owner reduces an order to zero at its price |
| `Emptied.SessionPositiveIff` | src/Engine/OrderBook.inl:149-163 | throughout a session only orders with something left rest, exactly when no command of it is such a reduction |
| `Emptied.EmptiedIsSwept` | src/Matching/Matching.cpp:20-36 | an empty order that an incoming order meets first is removed with a fill of zero |
| `Ledger.ApplyBalances` | src/Engine/OrderBook.hpp:89-109 | every command balances the quantity of every order id |
| `Ledger.SessionConserves` | src/Engine/OrderBook.inl:67-97 | for every id in every session, issued = matched + resting + withdrawn |
| `Ledger.SessionIssuesOnce` | src/Engine/OrderBook.inl:67 | a session issues the ids 1, 2, 3 and so on, each once, so the next id has never been issued |
| `Lifetimes.OrdersOnlyAge` | src/Engine/OrderBook.inl:140-163 | over any session an order keeps its terms, its quantity never rises, and an id that is gone does not come back |
| `Lifetimes.OnlyFillsAndOwners` | src/Engine/OrderBook.inl:140-182 | an order that is neither filled nor the target of its owner's command is untouched |
| `Lifetimes.ApplyInTurn` | src/Matching/Matching.cpp:10-37 | in one command, a fill of an order means that every order in front of it has left the book |
| `Lifetimes.GoneIsGone` | src/Engine/OrderBook.inl:187-188 | an id that is off the book is never filled again |
| `Lifetimes.StaysInFront` | src/Engine/OrderBook.inl:106-118 | an order in front of another stays in front of it, in the queue, while both rest |
| `Lifetimes.PriorityHolds` | src/Engine/OrderBook.inl:106-118 | over any session, an order receives no fill while an order in front of it still rests |
| `Limits.SessionWithinLimits` | src/Matching/Matching.cpp:16-18 | in every session, every fill is between the two sides and, by plain comparison, within the limit of a taker that is no market order |
| `Limits.AddExhausts` | src/Matching/Matching.cpp:13-18 | after an accepted order that is not filled, a market order faces an empty side, and any other order only prices strictly beyond its own |
| `Limits.AddTakesBest` | src/Matching/Matching.cpp:10-14 | no order that an accepted order leaves on the other side is at a better price than one it filled |
| `Effects.AddAnswered` | src/Engine/OrderBook.inl:20-97 | the code of an add, case by case, from the request and the book before it |
| `Effects.AddRests` | src/Engine/OrderBook.inl:67-122 | exactly what is left of a Day or GTC order that is no market order joins the book, and an id is used exactly when the checks are passed |
| `Effects.CancelTakesOut` | src/Engine/OrderBook.inl:170-198 | a client's own resting order goes and nothing else; any other cancel changes nothing and has its code |
| `Effects.ModifyInPlace` | src/Engine/OrderBook.inl:159-165 | at the same price and without an increase, the order keeps its id and has the new quantity, and nothing is filled |
| `Equivalences.ModifyIsCancelThenAdd` | src/Engine/OrderBook.inl:149-157 | a new price or larger quantity is a cancel, which cannot fail, and an add under a fresh id, which can fail only by being post-only and then leaves the cancelled book |
| `Equivalences.AddThenCancel` | src/Engine/OrderBook.inl:172-197 | an order that crosses nothing and rests, cancelled, restores levels, lists, volumes and index; only the id counter has moved |
| `Equivalences.PostOnlyNeverTakes` | src/Engine/OrderBook.inl:53-65 | a post-only limit order that passes the check makes no fill and rests whole |
| `Equivalences.LateRejection` | src/Engine/OrderBook.inl:76-94 | an unsupported time in force, or a resting market order, is refused only after matching, exactly when too little crossed; its fills stand, and it changes nothing but the id counter exactly when no resting order crosses |
| `Events.RecordAllFits` | src/Engine/OrderBook.inl:292-296 | trades are recorded in order with consecutive ids while there is room, and later ones use no id |
| `Events.TradesThenAnswer` | src/Engine/OrderBook.inl:299-337 | the answer falls outside of the buffer exactly when the command is accepted, its 128th facing order crosses and the first 127 do not suffice; otherwise the events are the trades in order and then one answer |
| `Events.AcceptedUnderOwnId` | src/Engine/OrderBook.inl:299-311 | an accepted add is answered with its own id, under which no other order rests, and a rejected one with its code |
| `Events.TradesAddUp` | src/Engine/OrderBook.inl:67-74 | the reported quantities of an add sum to what the taker was filled for |
| `Events.AddWellReported` | src/Matching/Matching.cpp:16-28 | each trade is reported with consecutive id, both clients, the price and side of the maker, its quantity and the kind of matching; by plain comparison no price is beyond the limit or better than the one before |
| `Events.CancelAnswered` | src/Engine/OrderBook.inl:327-337 | the one event of a cancel: accepted exactly when the id rests and is the client's, else rejected as invalid when it does not rest, and as unauthorized otherwise |
| `Events.ModifyAnswered` | src/Engine/OrderBook.inl:313-325 | the last event of a modify: accepted exactly when the id rests, is the client's and is not moved as a post-only order to a price that would trade; else rejected with its code |
| `Events.ModifyCode` | src/Engine/OrderBook.inl:126-166 | the code of a modify, from the book before it |
| `Events.SessionTells` | src/Engine/OrderBook.hpp:89-109 | a session loses an answer exactly when one of its commands meets too many orders; otherwise the reported trades are exactly its fills, numbered from one |
| `Overrun.AnswerLost` | src/Engine/OrderBook.inl:305-310 | after n one-lot offers an order for n makes n fills, and its answer is written behind the buffer exactly when n is 128 or more |
| `Mirrors.FindSlot` | src/Engine/OrderBook.hpp:32-35 | the node and level key in the index lead to the order's own slot |
| `Mirrors.LinkRemove` | src/Engine/OrderBook.inl:184-195 | erasing a node and its index entry keeps the objects laid out as the value book |
| `Mirrors.LinkInsert` | src/Engine/OrderBook.inl:99-120 | appending a node and its index entry keeps the objects laid out as the value book |
| `Mirrors.AppendedIsAppend` | src/Engine/OrderBook.inl:100-107 | finding or making the level and then appending is the append of the model |
| `Progress.RoundIsFillTop` | src/Matching/Matching.cpp:20-36 | a fill, its record and the cancel of an emptied order together are one step of the ladder matcher |
| `Progress.UnderwayStep` | src/Matching/Matching.cpp:10-37 | each round of the loop keeps "done plus what is still to come" and shortens the queue or fills the taker |
| `OrderBooks.OrderBook.constructor` | src/Engine/OrderBook.hpp:55-57 | a new book is empty and is the outcome of the empty session |
| `OrderBooks.OrderBook.FindOrder` | src/Engine/OrderBook.inl:200-208 | the order with the id, as it rests, or null exactly when none rests |
| `OrderBooks.OrderBook.GetBestBid` | src/Engine/OrderBook.inl:210-216 | null exactly when there is no bid, otherwise the first bid by price and time |
| `OrderBooks.OrderBook.GetBestAsk` | src/Engine/OrderBook.inl:218-224 | null exactly when there is no ask, otherwise the first ask by price and time |
| `OrderBooks.OrderBook.GetVolumeAtPrice` | src/Engine/OrderBook.inl:226-244 | the cached volume of the level at that price, and zero when there is none |
| `OrderBooks.OrderBook.SnapshotSide` | src/Engine/OrderBook.inl:252-264 | as many levels of a side as the depth says, or all there are, each with its price and volume; all of them at the greatest 32-bit depth |
| `OrderBooks.OrderBook.GetSnapshot` | src/Engine/OrderBook.inl:246-266 | the same for both sides, bids going down in price and asks going up |
| `OrderBooks.PricesSorted` | src/Engine/OrderBook.hpp:115-116 | bid levels go strictly down in price and ask levels strictly up |
| `OrderBooks.OrderBook.RecordFill` | src/Engine/OrderBook.inl:268-297 | the level gives up the quantity and goes only when it has neither volume nor orders; the trade is written if there is room |
| `OrderBooks.ChargedExactly` | src/Engine/OrderBook.inl:273-290 | position by position: the level at the price goes exactly when it has no orders and loses all its volume, otherwise it keeps its orders with the wrapped difference; all other levels stay |
| `OrderBooks.ChargedIsUpdate` | src/Engine/OrderBook.inl:273-290 | recording a fill of a resting order never erases the order's level |
| `OrderBooks.OrderBook.InternalCancelOrder` | src/Engine/OrderBook.inl:168-198 | the objects change as the cancel function says, with the same code |
| `OrderBooks.CancelOwn` | src/Matching/Matching.cpp:30-36 | the cancel inside the matcher always succeeds and removes the order that was filled |
| `OrderBooks.Exchange` | src/Matching/Matching.cpp:20-28 | both orders give up the smaller quantity and one fill is recorded |
| `OrderBooks.Execute` | src/Matching/Matching.cpp:20-36 | one round of the loop is one round on the value book |
| `OrderBooks.Match` | src/Matching/Matching.cpp:5-68 | the loop ends on every book and has the fills, leftovers, index and events of the ladder matcher |
| `OrderBooks.OrderBook.Scan` | src/Engine/OrderBook.inl:26-48 | the loop computes the fill-or-kill scan of the model |
| `OrderBooks.OrderBook.PreCheck` | src/Engine/OrderBook.inl:20-65 | success exactly when the order is accepted; otherwise the code of the check that failed |
| `OrderBooks.OrderBook.Rest` | src/Engine/OrderBook.inl:99-120 | the order object goes to the back of its level, and the index learns its node |
| `OrderBooks.OrderBook.Dispose` | src/Engine/OrderBook.inl:73-120 | the time in force decides between resting, discarding and refusing, as in the model |
| `OrderBooks.OrderBook.InternalAddOrder` | src/Engine/OrderBook.inl:14-123 | the objects, the code, the fills and the events are those of the add function |
| `OrderBooks.OrderBook.InternalModifyOrder` | src/Engine/OrderBook.inl:125-166 | the objects, the code, the fills and the events are those of the modify function |
| `OrderBooks.OrderBook.HandleAdd` | src/Engine/OrderBook.inl:299-311 | after the trades comes the acceptance with the new id, or the rejection |
| `OrderBooks.OrderBook.HandleModify` | src/Engine/OrderBook.inl:313-325 | after the trades comes the answer to the modify |
| `OrderBooks.OrderBook.HandleCancel` | src/Engine/OrderBook.inl:327-337 | the only event is the answer to the cancel |
| `OrderBooks.OrderBook.Apply` | src/Engine/OrderBook.hpp:89-109 | the object stays the outcome of the session of its commands, and returns what the command reports |
| `Guarantees.VolumeKept` | src/Engine/OrderBook.hpp:22-30 | every level object's volume obeys the exact law of the session so far |
| `Guarantees.Conserved` | src/Engine/OrderBook.hpp:89-109 | for every id quantity is conserved, and what is open is what the indexed node has left |
| `Guarantees.NeverCrossed` | src/Engine/OrderBook.hpp:115-116 | every bid level's price is below every ask level's |
| `SpscQueue.MaskIsSlot` | src/Data-Structures/SPSC-Queue.hpp:10-11 | for every admitted capacity, masking with size - 1 wraps a counter to its slot |
| `SpscQueue.SlotIsRemainder` | src/Data-Structures/SPSC-Queue.hpp:56 | the slot of a counter is its remainder modulo the capacity |
| `SpscQueue.StepKeeps` | src/Data-Structures/SPSC-Queue.hpp:24-53 | every step keeps tailCache <= tail <= headCache <= head <= tailCache + size - 1 on the counters behind the indices, and every unread item in its slot |
| `SpscQueue.FifoAlways` | src/Data-Structures/SPSC-Queue.hpp:24-53 | in every interleaving, with stale loads, the popped items are a prefix of the pushed ones and at most size - 1 are held |
| `SpscQueue.UnreadUntouched` | src/Data-Structures/SPSC-Queue.hpp:34-35 | no step changes a slot with an unread item |
| `SpscQueue.SeenBeforeTouched` | src/Data-Structures/SPSC-Queue.hpp:28-51 | a slot is read only after its publishing store was seen, and written only after its freeing store was seen; the two threads are never at one slot |
| `SpscQueue.PushFailsWhenFull` | src/Data-Structures/SPSC-Queue.hpp:25-32 | a push fails exactly when the loaded tail leaves no room, and a fresh load fails exactly when the queue is full |
| `SpscQueue.PopFailsWhenEmpty` | src/Data-Structures/SPSC-Queue.hpp:40-46 | a pop fails exactly when the loaded head shows nothing unread, and a fresh load fails exactly when the queue is empty |
| `SpscQueue.PushCallDecides` | src/Data-Structures/SPSC-Queue.hpp:25-32 | a push loads the tail exactly when the cached one leaves no room, and goes on to write otherwise |
| `SpscQueue.PopCallDecides` | src/Data-Structures/SPSC-Queue.hpp:40-43 | a pop loads the head exactly when the cached one shows nothing unread, and goes on to read otherwise |
| `SpscQueue.EmptyReturns` | src/Data-Structures/SPSC-Queue.hpp:24-53 | in every execution a call returns without an item exactly by loading an index that shows nothing unread, or no room |
| `SpscQueue.PopAlone` | src/Data-Structures/SPSC-Queue.hpp:39-53 | from anywhere in a call, a consumer alone with an unread item and fresh loads pops exactly the oldest one, in at most four steps |
| `SpscQueue.PushAlone` | src/Data-Structures/SPSC-Queue.hpp:24-37 | from anywhere in a call, a producer alone with room and fresh loads pushes exactly its value |
| `SpscQueue.Ring.Push` | src/Data-Structures/SPSC-Queue.hpp:24-37 | uninterrupted, a push appends the item exactly when fewer than size - 1 are held |
| `SpscQueue.Ring.Pop` | src/Data-Structures/SPSC-Queue.hpp:39-53 | uninterrupted, a pop takes the oldest item exactly when there is one |
| `ThreadSafeQueue.StepKeeps` | src/Data-Structures/ThreadSafeQueue.hpp:19-66 | every step of every thread keeps the mutex, the order of items, and that no wake-up is lost |
| `ThreadSafeQueue.EveryExecution` | src/Data-Structures/ThreadSafeQueue.hpp:19-66 | in every execution: FIFO; a wait returns false only on a closed and drained queue; while open, no sleeper or items <= pending notifications + woken threads; after close, sleepers have a closer on the way |
| `ThreadSafeQueue.StepItems` | src/Data-Structures/ThreadSafeQueue.hpp:32-66 | a step puts in the value of a push that succeeds, takes the front item for a pop that does, and otherwise leaves the items alone |
| `ThreadSafeQueue.NothingLost` | src/Data-Structures/ThreadSafeQueue.hpp:32-66 | in every execution the accepted items are exactly those of the pushes that report success, in order, and the pops that report success have taken as many from the front |
| `ThreadSafeQueue.SleepersHaveReason` | src/Data-Structures/ThreadSafeQueue.hpp:45-47 | when nobody is under way, a thread sleeps only if the queue is open and empty |
| `ThreadSafeQueue.SomebodyMoves` | src/Data-Structures/ThreadSafeQueue.hpp:19-66 | while anybody is under way, some thread can take a step of its own |
| `ThreadSafeQueue.ComesToRest` | src/Data-Structures/ThreadSafeQueue.hpp:19-66 | without new calls and spurious wakes every execution is bounded, and where it cannot go on, nobody is under way and a sleeper means an open, empty queue |
| `ThreadSafeQueue.ClosedIsFinal` | src/Data-Structures/ThreadSafeQueue.hpp:19-43 | once closed, always closed, and nothing is accepted any more |
| `ThreadSafeQueue.NoPushAfterClose` | src/Data-Structures/ThreadSafeQueue.hpp:32-43 | in any execution from a closed queue, a push succeeds only if its thread had put its item in before |
| `ThreadSafeQueue.Guarded.Push` | src/Data-Structures/ThreadSafeQueue.hpp:32-43 | under the mutex: refused exactly when closed, otherwise the value is at the back of the queue; as in the protocol |
| `ThreadSafeQueue.Guarded.WaitAndPop` | src/Data-Structures/ThreadSafeQueue.hpp:49-54 | after the wait: the oldest item exactly when there is one, or false on a closed and empty queue; as in the protocol |
| `ThreadSafeQueue.Guarded.TryPop` | src/Data-Structures/ThreadSafeQueue.hpp:57-66 | under the mutex: the oldest item exactly when there is one; as in the protocol |
| `ThreadSafeQueue.Guarded.Close` | src/Data-Structures/ThreadSafeQueue.hpp:19-25 | under the mutex: the flag is set, as in the protocol |

## Left out

- `OrderBooks.OrderBook.RecordFill`: says nothing about which order traded through the maker and taker fields, because the code passes client ids in them.
- `Events.TradesThenAnswer`: the answer written behind the buffer is modelled as a flag and not as a write to whatever lies there.
- `SpscQueue.FifoAlways`: models stale index loads, but not the rest of the C++ memory model; that slots are not read or written early is shown by the order of stores and loads.
- Order, trade and index counters are unbounded; the code's 64-bit ids would wrap after 2^64 commands.
- Memory: pool allocation, failure to allocate, cache alignment, iterator stability as such.
- Timestamps, the expiry watch list, the market state and execution instructions, which matching does not use.
- Auction matching, good-till-date and at-the-open semantics beyond the codes they return.
- `Order::ModifyOrder`, the remaining accessors and the text conversions: not used by the book.
- `is_closed`, `empty` and `size` of the blocking queue, and its destructor, which only closes it.
- Binary serialization of commands and events: plain copies.
- The trading engine's loop and its snapshot double-buffering, networking, rendering, logging, file streams and auditing: input and output.
