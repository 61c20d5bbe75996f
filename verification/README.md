# Verified model of the trading pipeline

This project models three parts of the trading pipeline and proves what they promise.
Prices and indicator values are real numbers; sizes, ids and ticks are unbounded integers.

- **The matching engine and the venue.** `OrderBook.Book` is the mutable book: price-sorted levels of
  queues, a cached size per level and an index from id to place. It is proved against `FlatBook`, where each
  side is one list of orders in price-time priority. `BookRuns` lifts the flat rule to whole runs. `Exchange` is
  the venue as a step machine over strategy commands and participant rounds, `VenueLaws` and `ReportLaws` what
  these do and what is published about them in the values of the wire, `ExchangeStage` the processes that carry
  them out, `Execution` the accounting stage, and `EndToEnd` the agreement between the two.
- **The graph compiler and the stack machine.** `Graph` unfolds a graph into trees and gives their code,
  `Compiler` is the recursive lowering, `Bytecode` says what a program means on a price history and holds the
  streaming indicators over ring buffers, `VirtualMachine` the machine. `CompilerCorrectness` connects the
  program to a semantics that evaluates every node once per tick; `Compilable`, `Windows`, `StackBound`,
  `Overflow` and `Rewiring` settle when that applies, and `GraphWords` says it all again in the
  words of the graph file. `ByteForm` is the byte encoding, `JsonReader`, `JsonStrings`, `JsonText` and
  `GraphJson` the graph files.
- **The composite strategy.** `Indicators` gives every indicator as a plain function of the price history,
  `Readings` what they read as equations between prices, `Strategy` is the streaming strategy proved equal to
  them, `Cooldown` the trade gap over whole runs, `Directions` which way the strategy leans.
  The machine's indicators and the strategy's are proved equal to the same functions, which makes them
  mirrors of each other.

Some promises turned out to hold only under a condition, which is stated exactly.

- The compiled program means the graph when it fits the 32 cells of the stack. `StackBound.ProgramFitsIff`
  says when it does; `Overflow.DeepChainFiresIff` gives a graph that goes wrong beyond.
- The order of connections is free when both wirings fit the stack (`Rewiring.OrderOfConnectionsIsFree`).
  `Overflow.FlippedAgreesIff` gives two wirings of one graph that differ exactly beyond it.
- A compiled program can be run when no signal depends on a reversion node with a zero window
  (`Windows.CompiledRunsIff`).
- The byte form is faithful when every indicator parameter is below 65536 (`ByteForm.CompiledRoundTripIff`).
- A string in a graph file is heard as RFC 8259 means it when it is made of ASCII characters and the escapes
  `\"`, `\\`, `\/`, `\n` and `\t` (`JsonStrings.HeardIff`). The reader takes `\r`, `\b`, `\f` and `\u` for the
  letter behind the backslash, and a character of several bytes for as many characters.
- Synthetic ids are new while their counter has not passed the synthetic bit (`Exchange.SynIdNewIff`).

The texts of `JsonText` take in the whole grammar of RFC 8259. They may also hold raw control characters in
strings, between tokens the other bytes the reader takes for white space, white space for a comma, and a comma
behind the last value.

The comments in `src/bin/exchange.rs` say that the remaining quantity of a maker is tracked by execution; the
code there drops the order at the first such report, and the model follows the code
(`Execution.PiecesAreLost`).

Every sequence of events, price history, graph and text is arbitrary unless a precondition says otherwise.
`sqrt` is an arbitrary function that is positive on positive numbers, `tanh` one that stays within [-1, 1] and is
zero at zero; `Directions` also uses that it keeps the sign. What participants choose (prices, sizes, sides, coin
flips) is an input.

## Model

| member | source | states |
|---|---|---|
| `OrderBook.Book.Submit` | src/order_book.rs:170-273 | the indexed, cached, mutable book keeps its whole invariant, and its flattened sides, the outcome and the appended fills are those of the flat matching rule; no fill is beyond the limit, while quantity is left no entry the order would have taken remains, and the remainder rests, or is turned away, in full |
| `OrderBook.Book.Cancel` | src/order_book.rs:276-290 | removes exactly the named order wherever it stands in its queue, keeps every cache and the index exact, rejects an id the index does not know |
| `OrderBook.Book.SweepLevel` | src/order_book.rs:204-240 | the inner loop consumes one level front to back: it terminates, the level's cached size stays the sum of its queue, and what it leaves continues the flat match from where it was |
| `OrderBook.Book.Cross` | src/order_book.rs:184-248 | the outer loop: what it leaves of the quantity and of the other side, and its fills, are those of the flat match, and the own side is untouched |
| `OrderBook.Book.CrossBestLevel` | src/order_book.rs:195-248 | one turn of the outer loop, with the deferred index clean-up: quantity strictly falls and the rest of the flat match is unchanged |
| `OrderBook.Book.Rest` | src/order_book.rs:261-272 | a rested remainder is inserted behind everything at its price, is indexed, and learns exactly the size ahead of it |
| `OrderBook.Book.CutOrder` | src/order_book.rs:276-290 | cutting an order out of the middle of its level is removal from the flat side; an emptied level leaves the book |
| `OrderBook.Book.SizeAt` | src/order_book.rs:143-150 | the cached level size is the true size resting at that price |
| `OrderBook.Book.BestBid` | src/order_book.rs:137-139 | the greatest resting bid price, strictly below the best ask |
| `OrderBook.Book.BestAsk` | src/order_book.rs:140-142 | the least resting ask price, strictly above the best bid |
| `OrderBook.Book.BestOf` | src/order_book.rs:294-299 | none exactly when the side is empty, otherwise the price at the front of the flat side |
| `OrderBook.Book.IsResting` | src/order_book.rs:160-162 | the index holds an id exactly when an order with that id rests |
| `OrderBook.Book.LevelMut` | src/order_book.rs:301-308 | gets the level at a price, adding an empty one when there is none, and touches nothing else |
| `PriceLevels.FlattenInsert` | src/order_book.rs:261-272 | pushing on the back of a level's queue is insertion by price and time into the flat side |
| `PriceLevels.FlattenRemove` | src/order_book.rs:276-290 | cutting from a level's queue is removal from the flat side |
| `PriceLevels.FlattenSizeAt` | src/order_book.rs:60-64 | a level's cached size is the size the flat side rests at that price |
| `FlatBook.SubmitValid` | src/order_book.rs:170-273 | every admissible submission leaves both sides sorted, every remainder positive, ids distinct and the best bid below the best ask |
| `FlatBook.SubmitHonours` | src/order_book.rs:184-248 | prices written out: a limit buy never pays more than its limit and a limit sale never takes less; while quantity is left every remaining entry of the other side is strictly beyond the limit, and for a market order none remains; buys hit the asks in priority order and sales the bids |
| `FlatBook.SubmitDisposes` | src/order_book.rs:250-272 | filled exactly when nothing is left; a limit order's remainder rests in full on its own side at its limit, a market order's is rejected, and otherwise nothing of a new order is in the book |
| `FlatBook.CancelValid` | src/order_book.rs:276-290 | every cancel keeps the book valid and takes out exactly that id |
| `FlatBook.TakeIsGreedyPrefix` | src/order_book.rs:195-248 | the i-th fill hits the i-th entry in price-time priority, all but the last take the whole entry, and the side afterwards is exactly what lies behind |
| `FlatBook.TakeVolume` | src/order_book.rs:195-248 | the volume filled is the lesser of the quantity and all that rests at acceptable prices |
| `FlatBook.TakeRunningRemainder` | src/order_book.rs:204-240 | each fill carries what the taker still wants after it, zero only on the last |
| `FlatBook.TakePricesWorsen` | src/order_book.rs:195-248 | fill prices only get worse for the taker along one submission |
| `BookRuns.ReachableValid` | src/order_book.rs:115-120 | every book reached by fresh submissions and cancels is valid |
| `BookRuns.Conservation` | src/order_book.rs:170-290 | over every run and for every id: rested at the start plus submitted equals filled as taker plus filled as maker plus resting plus cancelled plus rejected |
| `BookRuns.InsertPosition` | src/order_book.rs:261-272 | the queue position reported at rest is the size ahead of the order in the flat side |
| `BookRuns.PositionStep` | src/order_book.rs:170-290 | one event shrinks a resting order's position by exactly the volume filled or cancelled ahead of it |
| `BookRuns.PositionOverRun` | src/order_book.rs:170-290 | the same over any run that neither fills nor cancels the order |
| `BookRuns.FilledOnlyAtFront` | src/order_book.rs:204-240 | a taker reaches an order only after draining everything ahead of it at its price |
| `BookRuns.FirstFillAfterQueueAhead` | src/order_book.rs:204-272 | from rest to first fill, the volume filled and cancelled ahead of the order is exactly the position it was told |
| `BookRuns.RunIgnores` | src/order_book.rs:170-290 | a run that never fills or names an order does the same to the rest of the book without it |
| `BookRuns.CancelledUnfilledLeavesNoTrace` | src/order_book.rs:261-290 | an order that rested without a fill and is cancelled unfilled leaves the book and all fills as if it had never been sent, crossing orders in between included |
| `Exchange.CommandKeepsInvariant` | src/bin/exchange.rs:455-478 | a strategy command keeps the venue invariant, and each of its submissions carries an id that is not resting |
| `Exchange.RoundKeepsInvariant` | src/bin/exchange.rs:144-189 | at every stage of a participant round the live list is distinct, synthetic and covers every resting synthetic order; after the prune it is exactly that set |
| `Exchange.RunKeepsInvariant` | src/bin/exchange.rs:349-370 | in every interleaving of commands and rounds the invariant holds and every submission is fresh |
| `VenueLaws.CommandMeans` | src/bin/exchange.rs:455-478 | in wire values: action 1 takes the order off the book and fills nothing; any other action ends with quantity filled plus resting equal to the quantity sent (a market order never rests), side byte 0 buying, type byte 1 limiting; every other order loses exactly what it made |
| `VenueLaws.CommandCountsDown` | src/bin/exchange.rs:482-513 | the k-th report of a command names its order, no price beyond its limit, and exactly the quantity still wanted once the fills up to it are counted; it is terminal exactly when that is zero |
| `VenueLaws.QuotesMean` | src/bin/exchange.rs:144-163 | a round's bid is a limit buy and its ask a limit sale at their own prices and sizes, under the next two synthetic ids, which join the live list |
| `VenueLaws.CancelMeans` | src/bin/exchange.rs:165-170 | a round's cancel takes off the book and the list exactly the live order at the drawn place |
| `VenueLaws.TakerMeans` | src/bin/exchange.rs:172-185 | a round's taker takes up to its size from the other side, touches nobody on its own, and never rests |
| `Exchange.RetainIsFilter` | src/bin/exchange.rs:186 | the prune keeps exactly the ids that still rest, each once |
| `Exchange.SwapRemoveDropsOne` | src/bin/exchange.rs:165-169 | swap-and-remove takes out exactly the chosen id |
| `ExchangeStage.MatchStrategyOrder` | src/bin/exchange.rs:455-478 | cancel, cancel and replace, and new orders do to the book what their flat events do, and append exactly their fills |
| `ExchangeStage.Participants.Act` | src/bin/exchange.rs:144-189 | a round on the mutable book and live list is the round of the step machine, its fills appended in order |
| `ExchangeStage.Participants.NewSynId` | src/bin/exchange.rs:109-113 | the next id carries the synthetic bit and, as far as the counter counts, differs from every id given out before exactly while the counter has not passed that bit |
| `Exchange.SynIdNewIff` | src/bin/exchange.rs:109-113 | the n-th synthetic id repeats none of the earlier ones if and only if n is at most the synthetic bit |
| `ExchangeStage.PublishFills` | src/bin/exchange.rs:482-513 | one report for each fill with a strategy taker, in order: the k-th carries the k-th such fill's order id, price, quantity, fee and quantity still wanted |
| `ExchangeStage.PublishStrategyMakerFills` | src/bin/exchange.rs:518-546 | one report for each fill with a strategy maker, in order, always terminal: the k-th carries the maker's order id, the price, the quantity and the fee of the k-th such fill |
| `ReportLaws.TakerReportsTell` | src/bin/exchange.rs:482-513 | field by field: the k-th report of a command tells the k-th fill whose taker carries a strategy id |
| `ReportLaws.MakerReportsTell` | src/bin/exchange.rs:518-546 | field by field: the k-th report of a round tells the k-th fill whose maker carries a strategy id |
| `ReportLaws.RunTells` | src/bin/exchange.rs:349-370 | over every run, limit orders, cancels and replaces included, no report names a synthetic order and the quantities reported for each strategy order sum to what it took in its own commands and made in rounds |
| `Reports.CommissionIsFee` | src/bin/exchange.rs:492-503 | the commission is price times quantity times the fee rate, as the wire has them, divided by ten to the twelfth, with the fraction dropped toward zero |
| `ExchangeStage.Stage.Serve` | src/bin/exchange.rs:349-370 | the main loop over any stream of inputs is the run of the step machine and publishes exactly that run's reports, which name strategy orders only and tell each exactly the quantity it had executed |
| `Execution.Stage.OnReport` | src/bin/execution.rs:119-166 | one report of status 1 or 2 of a known order moves position by its quantity and cash by its price times quantity and its commission, a buy up and a sale down, counts, and forgets the order when the status is 2; any other report changes nothing |
| `Execution.Stage.Drain` | src/bin/execution.rs:105-166 | a stream of commands and reports is folded message by message |
| `Execution.AccountIsExact` | src/bin/execution.rs:105-166 | after every causal stream the kept contexts are those of the orders seen without a booked terminal fill, and position, cash and counts are integer sums over the reports' fields, each signed by the side of its order |
| `Execution.ContextIsStanding` | src/bin/execution.rs:105-166 | for every stream an id has a context if and only if its last command has had no terminal report since, and the context is that command's |
| `Execution.StreamIsExact` | src/bin/execution.rs:105-166 | for every stream at all, with reports of other statuses, of unknown or of finished orders in it: position, cash and counts are integer sums over the fields of exactly the booked reports |
| `Execution.PiecesAreLost` | src/bin/execution.rs:119-166 | of an order reported as terminal piece by piece only the first piece is booked, and position and cash fall short by exactly the sums over the other pieces |
| `EndToEnd.TakerReportsClean` | src/bin/exchange.rs:482-513 | a strategy taker's reports are partial until one terminal report, which comes last and is there exactly when the order is fully filled |
| `EndToEnd.RoundReportsNothing` | src/bin/exchange.rs:363-369 | with only synthetic orders resting, a participant round publishes no report |
| `EndToEnd.RunReportsExact` | src/bin/exchange.rs:349-370 | the reports of a run of market commands and rounds say exactly what the book did |
| `EndToEnd.BookAndExecutionAgree` | src/bin/execution.rs:105-166 | over a lossless in-order bus execution's position is lots bought less lots sold by the book's strategy-taker fills, its cash is sales less purchases less fees, all as integer sums over the fills; it counts exactly the filled orders of positive quantity, keeps exactly the other contexts, and no strategy order rests |
| `Indicators.VarianceNonNegative` | src/bytecode.rs:247-249 | the variance computed from running sums is never negative |
| `Indicators.EmaWithinRange` | src/strategy.rs:96-104 | an EMA of period one or more stays within the least and greatest price of its history |
| `Indicators.RecentPush` | src/strategy.rs:158-171 | adding a price and trimming the window is the window of the longer history |
| `Readings.EmaSays` | src/strategy.rs:84-104 | an average starts at the first price and moves two parts in period + 1 of the way to each further one |
| `Readings.MomentumSays` | src/strategy.rs:226-238 | silent up to the lookback; then the x for which x times the price that far back at full scale is ten thousand times the gain, cut off at one |
| `Readings.ReversionSays` | src/strategy.rs:240-254 | silent up to the window; then, with the window's mean and mean squared distance, minus half the deviations of the last price from the mean, cut off at one, and zero on a flat window |
| `Strategy.Ema.Update` | src/strategy.rs:96-104 | the streaming EMA is the plain function of the whole history |
| `Strategy.Composite.Signals` | src/strategy.rs:142-148 | the three signals are plain functions of the price history: EMA gap, return over the lookback, z-score over the window |
| `Strategy.Composite.PushWindow` | src/strategy.rs:161-171 | add then evict: the window is the last W prices and the running sums are its true sums |
| `Strategy.Composite.ReversionSignal` | src/strategy.rs:240-254 | silent until the window is full, then the faded, clamped z-score of the last price; on true rolling state it is the plain reversion of the price history |
| `Strategy.Composite.CooldownOk` | src/strategy.rs:203-212 | grants the first trade, every change of side at once, and a trade on the same side exactly when the gap has passed |
| `Strategy.Composite.OnPrice` | src/strategy.rs:151-201 | the decision on each tick is a function of the whole price history: it trades on a side exactly when the weighed signals reach the threshold there and the latest trade was on the other side or lies the cooldown back |
| `Strategy.DecisionIsTrade` | src/strategy.rs:151-201 | a history's decisions are the trades a cooldown machine grants to the sides wished for |
| `Strategy.DecisionIff` | src/strategy.rs:173-212 | over a price history, exactly when a price trades and on which side, by the decisions made before it; the score is the weighted mean of the three signals |
| `Strategy.SameSideTradesSpaced` | src/strategy.rs:203-212 | two trades on one side with none between are at least the cooldown apart |
| `Cooldown.CooldownHolds` | src/strategy.rs:203-212 | the same for any stream of wishes |
| `Cooldown.TradesIff` | src/strategy.rs:203-212 | a tick trades if and only if it wishes for a side and the latest trade before it, if any, was on the other side or lies at least the gap back |
| `Cooldown.LastTradeIsLast` | src/strategy.rs:193-198 | the remembered side and tick are those of the latest trade |
| `Cooldown.TradesAreThrottled` | src/strategy.rs:203-212 | with no change of side and a gap of at least one, n ticks hold at most the ceiling of n over the gap trades |
| `Strategy.RunsAreThrottled` | src/strategy.rs:151-212 | the same for the decisions over a price history |
| `Strategy.ScoreBounded` | src/strategy.rs:173-182 | non-negative weights of positive sum keep the score in [-1, 1] |
| `Strategy.ConstantPriceHolds` | src/strategy.rs:151-201 | a constant price and a positive threshold never trade |
| `Strategy.TrendSays` | src/strategy.rs:216-224 | trend is the hyperbolic tangent of two hundred times the relative gap between the two averages, zero without one |
| `Directions.FollowsTheMarket` | src/strategy.rs:151-238 | without mean reversion, a shorter fast period and a sign-keeping hyperbolic tangent, the strategy never sells while prices only rise and never buys while they only fall |
| `Directions.FadesTheMarket` | src/strategy.rs:240-254 | on mean reversion alone it never buys at the highest price so far and never sells at the lowest |
| `Bytecode.EmaUpdate` | src/bytecode.rs:175-187 | the VM's EMA cell gives the same function of the history as the fixed strategy's |
| `Bytecode.MomentumUpdate` | src/bytecode.rs:190-218 | the VM's ring gives the same function of the last L+1 prices as the fixed strategy's deque |
| `Bytecode.ReversionUpdate` | src/bytecode.rs:221-259 | evict then add: the VM's ring and sums give the same function of the last W prices as the fixed strategy's |
| `Bytecode.SumsSlide` | src/bytecode.rs:232-239 | the running sums stay the true sums of the window as it slides |
| `Rings.RingPush` | src/bytecode.rs:199-203 | writing at the head and stepping it around holds the longer history |
| `Rings.RingOldest` | src/bytecode.rs:207-208 | the head of a full ring is the oldest price it holds |
| `VirtualMachine.Vm.constructor` | src/bytecode.rs:284-297 | every stateful op gets its own fresh cell, in slot order |
| `VirtualMachine.Vm.Push` | src/bytecode.rs:390-395 | pushes, or drops the value when the stack is full |
| `VirtualMachine.Vm.Pop` | src/bytecode.rs:398-405 | pops, or yields zero when the stack is empty |
| `VirtualMachine.Vm.UpdateCell` | src/bytecode.rs:320-331 | each indicator op finds its own cell at its slot, on every tick |
| `VirtualMachine.Vm.Run` | src/bytecode.rs:311-387 | one tick decides what the program means on the whole price history, and leaves every cell true to it |
| `Bytecode.OpJudges` | src/bytecode.rs:337-382 | what each op leaves of two cells on the stack, comparisons and truth written out |
| `Bytecode.NotOpposes` | src/bytecode.rs:367-370 | negation turns each comparison into its opposite |
| `Bytecode.SlotIsPosition` | src/bytecode.rs:284-297 | under slot agreement the k-th stateful op carries slot k |
| `CompilerCorrectness.CompiledSlots` | src/compiler.rs:238-242 | in every compiled program the k-th stateful op carries slot k |
| `Compiler.Compile` | src/compiler.rs:85-125 | the compiler computes the program of the unfolded graph, or the first error in reading order |
| `Compiler.Lowerer.EmitNode` | src/compiler.rs:152-236 | the recursive emission terminates and on success appends exactly the code of the node's unfolding and leaves the visiting stack as it was; otherwise it returns the unfolding's error |
| `Compiler.Lowerer.EmitUnaryInput` | src/compiler.rs:133-149 | no input emits a zero, one emits its code, more are refused with their count |
| `Compiler.Wire` | src/compiler.rs:89-99 | refuses the first unknown connection end, otherwise collects each node's sources in connection order |
| `TreeCode.CodeRuns` | src/compiler.rs:152-236 | given room, a segment leaves the cells below untouched and pushes exactly its tree's value, whatever its slots |
| `CompilerCorrectness.TreeIsValue` | src/compiler.rs:152-236 | however often a shared node is copied, each copy evaluates to the node's one value |
| `CompilerCorrectness.CompiledMeansGraph` | src/compiler.rs:85-243 | for every graph that compiles to a program that can be run and fits the stack, and every price history, the program decides what the graph decides when each node is evaluated once, and ends with an empty stack |
| `Windows.CompiledRunsIff` | src/bytecode.rs:227-259 | a compiled program can be run if and only if no signal depends on a reversion node with a zero window |
| `CompilerCorrectness.DecisionUnique` | src/bytecode.rs:371-382 | the last declared signal with a positive input decides, so a graph decides one thing only |
| `CompilerCorrectness.MeaningExists` | src/compiler.rs:85-243 | every graph that compiles has such a once-per-tick evaluation |
| `GraphStrategy.RunGraph` | src/compiler.rs:85-243 | compile once, run on every tick: refused exactly when the file cannot be read, otherwise, when the program fits the stack, every tick decides what the file says on the prices so far; only zero windows that a signal depends on are excluded |
| `GraphWords.CompiledFollows` | src/compiler.rs:108-236 | in the file's own words: the last listed buy_signal or sell_signal with a positive input decides, and every node under it has the value its type, properties, operator name and listed connections give it |
| `GraphWords.CompilesIffReads` | src/compiler.rs:85-236 | in the file's own words: it compiles if and only if every connection joins declared nodes and each walk back from a signal node repeats none and ends at a known type with no more inputs than it takes |
| `GraphWords.RefusalIsAccurate` | src/compiler.rs:36-66 | every error is accurate: the first undeclared connection end, or a node some signal depends on with the type, or the number of inputs, it names |
| `GraphWords.WindowedIff` | src/bytecode.rs:227-259 | the same for zero windows: no signal depends on a reversion node whose window property is below one |
| `Compilable.CompilesIff` | src/compiler.rs:85-236 | compiling succeeds if and only if all connection ends are known and every walk from a signal through operands repeats no node and meets only known, unambiguous ones |
| `Compilable.ErrorIsReal` | src/compiler.rs:152-156 | a reported cycle shows a walk from a signal that visits a node twice; every other error shows the walk, or the connection, it is about |
| `StackBound.CodeFitsIff` | src/compiler.rs:152-236 | a segment runs on the machine without dropped push or empty pop if and only if its need finds room above the cells there, and then leaves one cell more |
| `StackBound.ProgramFitsIff` | src/bytecode.rs:390-405 | a program runs on the machine without dropped push or empty pop if and only if each of its terminals fits, and then ends with an empty stack |
| `StackBound.SmoothIff` | src/bytecode.rs:311-405 | on the machine no push is dropped and no pop finds nothing if and only if the count of cells never leaves its bounds, and then the stack rises by that count |
| `StackBound.NeedWithinDepth` | src/compiler.rs:205-221 | the need is at most the gate depth plus two, whatever the gate width |
| `StackBound.ThirtyGatesFit` | src/bytecode.rs:21 | every graph whose paths cross at most thirty gates fits the 32 cells |
| `Overflow.DeepChainFiresIff` | src/bytecode.rs:390-395 | beyond the bound the promise fails: a chain of n price-fed gates that should fire on every positive price fires if and only if n is at most 31 |
| `Overflow.FlippedAgreesIff` | src/bytecode.rs:390-395 | the same chain with each gate's two connections swapped is the same graph up to their order; both compile and run, and on a positive price they decide alike if and only if n is at most 31 |
| `Rewiring.GatePermutes` | src/compiler.rs:205-221 | a gate of two or more inputs is 1 or 0 as the conjunction or disjunction of their truth, in any order |
| `Rewiring.InputsPermuted` | src/compiler.rs:89-99 | permuted connections give every node the same inputs up to order |
| `Rewiring.CompilesPermutes` | src/compiler.rs:85-236 | permuting connections does not change whether a graph compiles |
| `Rewiring.OrderOfConnectionsIsFree` | src/compiler.rs:205-221 | permuting the connections of a graph that compiles and can be run gives another such graph and, when both fit the stack, the same decision on every price history, though the code and the slots change |
| `ByteForm.ProgramToBytes` | src/bytecode.rs:442-457 | the emitted bytes are each op's opcode and operand, in order |
| `ByteForm.EncodedOp` | src/bytecode.rs:68-86 | the k-th op stands behind the bytes of those before it, as its code in the platform's opcode space and its operand, low byte first |
| `ByteForm.DecodeEncode` | src/bytecode.rs:442-457 | a decoder that numbers slots in order inverts the encoder up to the sixteen-bit cut of parameters |
| `ByteForm.SameBytesIff` | src/bytecode.rs:442-457 | two programs have equal bytes if and only if they agree after the cut |
| `ByteForm.CompiledRoundTripIff` | src/bytecode.rs:442-457 | a compiled program comes back from its bytes if and only if every parameter is below 65536 |
| `ByteForm.CompiledBytesFaithful` | src/bytecode.rs:442-457 | compiled programs with such parameters and equal bytes are equal |
| `ByteForm.LargeParamsCollide` | src/bytecode.rs:448 | periods 1 and 65537 share their bytes but read differently |
| `JsonReader.Cursor.ParseValue` | src/compiler.rs:373-389 | on every byte string the recursive descent terminates, reads in range, and returns the value and cursor of the reader's function, which moves forward on every success |
| `JsonReader.Cursor.ParseObj` | src/compiler.rs:391-414 | fields are gathered, a repeated key replaces the earlier one, commas are optional, errors are the first met |
| `JsonReader.Cursor.ParseArr` | src/compiler.rs:416-432 | items are gathered in order, commas are optional, errors are the first met |
| `JsonReader.Cursor.ParseStr` | src/compiler.rs:434-456 | escapes undone, every other byte one character, an unclosed string ends with the input |
| `JsonReader.Cursor.ParseNum` | src/compiler.rs:468-484 | the longest run of number bytes, handed to the number reader |
| `JsonReader.ReadValue` | src/compiler.rs:373-389 | every success consumes at least one byte, and none happens at the end of input |
| `JsonText.ValueRead` | src/compiler.rs:373-389 | the reader gets back the value of every text of the grammar, with any white space and any escapes and with commas left out or one too many, and stops right behind it |
| `JsonText.NoKey` | src/compiler.rs:391-403 | in an object anything but a quote or the closing brace where a key is due is refused, the end of the text included |
| `JsonText.NoColon` | src/compiler.rs:391-403 | behind a key anything but a colon is refused, the end of the text included |
| `JsonText.NoNumber` | src/compiler.rs:468-484 | a run of number bytes that is no number is refused |
| `JsonText.NoValueBegins` | src/compiler.rs:373-389 | a byte that begins no value is refused as a number |
| `JsonText.NothingToRead` | src/compiler.rs:373-389 | white space alone ends unexpectedly |
| `JsonText.LooseLiterals` | src/compiler.rs:373-389 | a literal is known by its first letter and its length passed over, whatever the other bytes are |
| `JsonText.UnclosedString` | src/compiler.rs:434-456 | a string that is never closed ends with the text, a last backslash standing for itself |
| `JsonReader.CharacterClasses` | src/compiler.rs:367-371 | exactly which bytes are white space and which belong to a number, and that none of either begins anything else |
| `JsonText.BodyRead` | src/compiler.rs:434-456 | a written string is read to its closing quote, whatever escapes it holds |
| `JsonStrings.HeardIff` | src/compiler.rs:440-453 | a string is heard as it is meant if and only if it is made of ASCII characters and the five escapes |
| `JsonStrings.EscapeIff` | src/compiler.rs:442-447 | of the eight two-character escapes of RFC 8259 exactly five are undone as they are meant: quote, backslash, slash, newline and tab |
| `JsonStrings.HeardTextIff` | src/compiler.rs:440-453 | a string that is quoted and read comes back unchanged if and only if it is ASCII, and longer otherwise |
| `GraphJson.Parse` | src/compiler.rs:252-309 | the graph read from a text, or the first error; without a canvas field there is none |
| `GraphJson.SpecSays` | src/compiler.rs:252-309 | field by field: nodes take id, type, number and string properties from their own fields, connections without an end are left out, anything missing reads as empty |
| `GraphJson.SpecBackIff` | src/compiler.rs:252-309 | a graph comes back from its JSON value if and only if no property key is both number and string and no connection end is empty |
| `GraphJson.ReadBackIff` | src/compiler.rs:252-309 | the same through any text of that value, laid out with any white space and followed by anything |
| `GraphJson.PrintedRoundTrip` | src/compiler.rs:252-309 | every graph with printable numbers comes back from its own text if and only if it can be written down and all its strings are ASCII, keys included |

## Left out

- iceoryx2 publish and subscribe, events and shared memory, `hot_path.rs`, core pinning, scheduling and `rdtsc`: foreign calls and hardware. The bus is a lossless in-order sequence of messages where a property needs it.
- `tsc_calibration.rs`, the random generator and the fair-value walk of `src/bin/exchange.rs`: participants' choices are inputs, which makes the invariants stronger.
- `latency_window.rs`, the bench binaries, the tick-to-fill window of execution, `control_server.rs`, `disasm.rs`, `webui/`: input and output, or easy members.
- Market-tick publishing, snapshots of the top of book, `last_price`, the profit line and the stop after a number of completed orders.
- The strategy process: its exposure limit bounds intended exposure only, and its order ids enter as the assumption that issued ids are new and below the synthetic bit.
- EndToEnd.BookAndExecutionAgree: stated for market orders, because a strategy maker filled in pieces is reported as terminal each time and execution drops its context at the first.
- EndToEnd.RunReportsExact: stated for market orders for the same reason; what execution makes of any other stream is `Execution.StreamIsExact`.
- Execution.AccountIsExact: stated for causal streams, where every report is booked; `Execution.StreamIsExact` is the same for every stream.
- Exchange.RunKeepsInvariant: stated while the synthetic counter stays within the synthetic bit, after which the source's ids repeat (`Exchange.SynIdNewIff`).
- ExchangeStage.Stage.Serve: the same bound on the counter.
- OrderBook.Book.Submit: a limit order must not reuse an id that is resting, which the source leaves to its callers.
- FlatBook.SubmitValid: a limit order must not reuse an id that is resting, which the source leaves to its callers; the venue lemmas discharge it.
- CompilerCorrectness.CompiledMeansGraph: the fit of the stack is a sufficient condition; a program that drops values may still decide right by luck.
- VirtualMachine.Vm.constructor: takes programs whose stateful ops carry their own positions as slots and whose windows are at least one, as every compiled program that can be run does; hand-made programs with other slots are left out.
- GraphJson.PrintedRoundTrip: the printer escapes the quote, the backslash, the newline and the tab and leaves every other character as it is; numbers must print as tokens the number reader gives back.
- IEEE rounding, infinities and not-a-number, the parsing and printing of decimal numbers: reals, with number tokens and eight-byte constants read and written by arbitrary functions that invert each other on the numbers in question.
- Integer widths of sizes, ticks and slots, capacities of collections, and the depth of the call stack on deeply nested graphs and texts.
- `disassemble` and mnemonics.
