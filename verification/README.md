# Limiance exchange backend, verified

A Dafny model of the parts of the Limiance backend where a mistake costs money, with proofs about every run of them.

- **The matching engine** (`engine/src`). An order book with a slot pool, an id index and price-level queues refines a sorted list of orders. Around it sits the symbol engine that journals before it publishes and re-executes its journal after a crash, and below it the byte format of the journal with its CRC-32C.
- **The money protocols** (`internal/datamanager`, `internal/withdrawals`, `internal/p2p`). A double-entry ledger with withdrawals, deposits, escrowed peer-to-peer trades, transfers and conversions on it. Any number of payout workers, reconcilers and a payment provider interleave freely and may crash between any two steps.
- **Market data and exact arithmetic** (`internal/marketdata`, `internal/trading`, `internal/custody`). Sequenced trade delivery, candles and their aggregation, the hold of a limit buy, and decimal amounts.

Each SQL transaction and each engine command is one atomic step. Code that updates things in place is a class with `modifies` clauses whose methods are proved against a specification function; the laws are lemmas about those functions and about whole runs. What the main operations do is said a second time without their own definitions, in arithmetic, balances and rows: `Execution`, `Answers`, `CrcLaws`, `Statements`, `Authority`.

## Files

| files | what is in them |
|---|---|
| `Options`, `Arithmetic`, `Text` | an option type, products and quotients, decimal strings |
| `Wire`, `Crc`, `CrcLaws`, `Journal` | integers as bytes, the checksum and what number it is, journal records and files |
| `Book`, `BookLaws`, `Greedy`, `Execution` | the book as two sorted lists, its invariant, matching as greedy filling, orders and cancels in plain terms |
| `Levels`, `SlotPool`, `BookState`, `Depth`, `OrderBook` | queues, slots and index, and the class that refines the sorted lists |
| `History`, `HistoryLaws` | everything the book reports over a run |
| `Engine`, `Recovery`, `CrashSafety`, `CrashLaws`, `Answers`, `SymbolEngine`, `Durability` | journalled commands, recovery, crashes, what the world can rely on, what is answered and written, the engine class, torn files |
| `Ledger`, `Money`, `MoneyLaws`, `MoneyRows`, `MoneyRuns`, `Statements`, `Authority` | postings and balances, the transactions as functions on tables, the invariant over all runs, what every balance consists of, who may do what |
| `Payouts`, `PayoutLaws`, `Vault`, `VaultRace`, `Entitlement`, `Deposits`, `Idempotency`, `Manager`, `Desk` | workers and provider, vault cover and how it is lost, withdrawal limits, webhooks and reviews, keyed requests, the transactions as methods |
| `Candles`, `Aggregation`, `TradeStream`, `StreamLaws`, `Consumer`, `TradeFeed`, `FeedLaws`, `BookStream` | buckets, aggregation, the stored trade stream, its consumer and their link to the engine, the order-book stream |
| `Reservations`, `Buying`, `Amounts` | holds and fees, holds over whole runs of the book, atomic and decimal amounts |

## Where the code and its promises part

- Recovery accepts more than crash-free journals. A journal with the same cancel twice, or with the same order under an empty id twice, is re-executed and accepted although no run of the engine writes it. `Recovery.CrashFreeExactly` gives the exact condition (no id occurs twice among the order records or among the cancel records); `Recovery.RepeatedCancelAccepted` and `Recovery.RepeatedBlankAccepted` are the witnesses, and `Recovery.OnlyBlankOrdersRepeat` shows there are no others for orders.
- One cancel can get two answers. Control requests of every kind share one reply cache, and replies to replays and snapshots are not journalled, so a cancel under the id of a replay is given the replay's acknowledgement, and after a restart it runs. `CrashLaws.AnswerExactly` says when an answer is the journalled one, `CrashLaws.BorrowedAnswerChanges` is the failing run.
- Not every published event is journalled: a snapshot taken on request is not. `CrashLaws.PicturedExactly` says exactly which are not, `CrashLaws.SnapshotUnwritten` is a run with one.
- "One terminal status per order" fails in the book for the empty id, which is rejected again each time. The running engine answers a second such order from its reply cache (`engine/src/symbol_engine.cpp:55`), so only the book by itself shows it. `HistoryLaws.EndsOnceExactly` says when it holds, `HistoryLaws.BlankEndsTwice` shows it failing.
- "Committed withdrawals stay within confirmed deposits once limits are on" fails when more was already committed at that moment. `Entitlement.WithinExactly` says when it holds, `Entitlement.LateLimitsExceed` is a run in which it fails.
- The journal checksum covers the payload only. `JournalFile.RecoverHeaderDamage` says which header damage that leaves the length unchanged is noticed, `JournalFile.RecoverMissesKindDamage` shows the part of it that is not: a changed kind.
- The journal takes payloads it will not read back. `append` allows up to 2^32 - 1 bytes and `recover` 8 MiB; `JournalFile.RecoverAppended` gives the exact condition, and shows that a file with one larger payload is refused for ever.
- The trade stream stalls for good on a trade whose quote rounds to zero. The book trades any positive price and quantity, and the consumer stops with an error where price times quantity is below 10^8, before it reaches the store. `FeedLaws.FeedExactly` says when a replay completes the store, `FeedLaws.FeedStalls` that nothing helps otherwise, `FeedLaws.DustStalls` and `FeedLaws.StallExists` are the run of two orders.
- The vault can owe more than it holds. The capacity check compares an earlier look at the vault with the reservations open at commit; a payout paid and struck off between the two is missed by both. `Vault.VaultCovers` holds where that does not happen, `VaultRace.RaceUncovers` is a run in which it does.
- The order-book stream loses its reader. A command raises the book number once per fill and once for a rest, but publishes one snapshot, and the stream takes only the next number. `BookStream.BookStreamExactly` says when every snapshot of a run is accepted, `BookStream.TwoFillsRefused` is a run in which one is refused; after the first refusal none is accepted (`BookStream.AcceptedExactly`).

## Model

| member | source | states |
|---|---|---|
| Wire.GetPut | engine/src/journal.cpp:24-29 | an integer written as little-endian bytes reads back, for every width it fits |
| Wire.PutGet | engine/src/journal.cpp:24-29 | bytes read as an integer are the bytes that integer is written as |
| Wire.Put | engine/src/journal.cpp:24-26 | the byte loop writes the little-endian form |
| Wire.Get | engine/src/journal.cpp:27-29 | the byte loop reads the little-endian form |
| Crc.ComputeChecksum | engine/src/journal.cpp:31-35 | the nested byte and bit loops compute the checksum, which CrcLaws.ChecksumDivides says without them |
| Crc.BitStepInjective | engine/src/journal.cpp:33 | no two register values are confused by a bit step |
| Crc.BitStepSurjective | engine/src/journal.cpp:33 | every register value is reached by a bit step, so with the row above a bit step is a bijection |
| Crc.ChecksumDetectsBurst | engine/src/journal.cpp:31-35 | changing up to four adjacent bytes anywhere in a payload of any length changes the checksum |
| Crc.PolynomialValue | engine/src/journal.cpp:33 | the register used in the proofs is the constant 0x82F63B78 |
| CrcLaws.ChecksumDivides | engine/src/journal.cpp:31-35 | the checksum is the complement of the remainder of the message, its first 32 bits turned over, divided by the Castagnoli polynomial over two elements; the remainder is unique |
| CrcLaws.DivisionUnique | engine/src/journal.cpp:31-35 | quotient and remainder of a division of polynomials over two elements are unique |
| Framing.RecoverWhole | engine/src/journal.cpp:78-106 | every list of records with contiguous sequences and payloads of 1 byte to 8 MiB comes back whole from its file |
| Framing.BoundaryIsPrefixEnd | engine/src/journal.cpp:78-84 | the cut positions where a record prefix comes back are exactly the ends of record prefixes |
| Framing.RecoverPrefix | engine/src/journal.cpp:86-106 | a file cut at any byte gives a record prefix at a record boundary and an error everywhere else |
| Framing.RecoverIsExact | engine/src/journal.cpp:86-106 | whatever file recovery accepts is, byte for byte, the encoding of the records it returns |
| JournalFile.RecoverDetectsBurst | engine/src/journal.cpp:86-106 | a payload changed in up to four adjacent bytes is refused with a checksum error, whatever comes before and after it |
| Framing.RecoverHeader | engine/src/journal.cpp:88-103 | for any header layout: a header overwritten with any fields of the same length, at any record of any file, is read exactly when nothing but the kind changed; otherwise the error is named |
| JournalFile.RecoverHeaderDamage | engine/src/journal.cpp:88-103 | any 24 bytes in place of a record header with its length unchanged: the record is read, with the new kind, exactly when they are its header but for the kind; else an invalid header, a sequence or a checksum error |
| JournalFile.RecoverMissesKindDamage | engine/src/journal.cpp:80-102 | a changed kind is not noticed: among any records before and after, the record comes back with the wrong kind |
| Framing.RecoverOversize | engine/src/journal.cpp:78-97 | a file with one appended payload over 8 MiB is refused, whatever follows |
| JournalFile.RecoverAppended | engine/src/journal.cpp:78-97 | appended records come back exactly when no payload is over 8 MiB; otherwise the file and every file it grows into are refused |
| JournalFile.DiskLawful | engine/src/journal.cpp:24-35 | the real header layout and checksum satisfy the laws the framing proofs use |
| JournalFile.RecordLayout | engine/src/journal.cpp:78-84 | byte by byte what stands where in a record on disk, low byte first, with the literal magic and version |
| JournalFile.Journal.Append | engine/src/journal.cpp:78-84 | appends exactly the encoding of the record, and refuses sequence 0, an empty payload and one over 32 bits |
| JournalFile.Journal.Recover | engine/src/journal.cpp:86-106 | the read loop returns what the parsing function makes of the whole file, errors included |
| JournalFile.Journal.ReadFrame | engine/src/journal.cpp:88-103 | one turn of the loop: header, sequence, length, payload and checksum are checked in this order |
| Greedy.MatchIsGreedy | engine/src/order_book.cpp:84-108 | the trades of an accepted order are the greedy fills of the reachable makers, best price first and oldest first; fill k takes what the makers before it left |
| Greedy.ExecutedQuantity | engine/src/order_book.cpp:84-108 | an accepted order executes the smaller of its quantity and the eligible quantity |
| Greedy.FillOrKill | engine/src/order_book.cpp:34-68 | fill-or-kill fills completely, or trades nothing and is rejected |
| Greedy.PostOnlyNeverTakes | engine/src/order_book.cpp:63-65 | a post-only order never trades, and is rejected when it would cross |
| Greedy.OnlyGtcRests | engine/src/order_book.cpp:72-80 | an order that is not good-till-cancelled leaves its own side of the book as it was |
| Greedy.SubmitAnswers | engine/src/order_book.cpp:56-82 | every order that is not a duplicate ends with a status of its own |
| Greedy.EligibleIsReach | engine/src/order_book.cpp:40-52 | the eligible makers are exactly those a market order or a limit at their price allows, and they form a prefix of the side |
| Execution.SubmitExactly | engine/src/order_book.cpp:56-126 | what an order does, said of the command and the resting orders alone: repeated, turned away, or executed; then every trade with its parties, price and rates, every maker and taker status, the makers left, whether and where the rest stays, and all numbers |
| Execution.RefusedExactly | engine/src/order_book.cpp:22-68 | an order is refused exactly when it is malformed, the book is full, it is post-only and could trade, or it is fill-or-kill and too little is offered within its limit |
| Execution.MarketTakes | engine/src/order_book.cpp:84-108 | a new immediate market order trades its quantity or the whole opposite side, and is filled, canceled or rejected accordingly |
| Execution.CancelExactly | engine/src/order_book.cpp:149-154 | a cancel takes out exactly the resting order with this id and reports what it had left, or does nothing if there is none |
| BookInvariant.SubmitOk | engine/src/order_book.cpp:56-126 | an order keeps the book invariant: sorted sides, no crossing, positive remainders, right side and price, every level sum within 64 bits, live count within capacity |
| BookInvariant.CancelOk | engine/src/order_book.cpp:149-154 | a cancel keeps the book invariant |
| BookState.NotionalFits | engine/src/order_book.cpp:97-98 | a filled notional never leaves 128 bits |
| BookState.FillKeepsNotional | engine/src/order_book.cpp:96-98 | a fill keeps both notionals within limit price times filled quantity |
| Depth.GroupedExact | engine/src/order_book.cpp:170-180 | grouping a sorted side gives strictly improving levels whose quantity and count are those of all orders at that price, and shows every price |
| Depth.SumsFit | engine/src/order_book.cpp:175-176 | the sum of a level is positive and fits 64 bits, so no shown level wraps or is dropped |
| OrderBooks.OrderBook.constructor | engine/src/order_book.cpp:14-20 | an empty book with every slot free |
| OrderBooks.OrderBook.Submit | engine/src/order_book.cpp:56-82 | the book with slots, index and queues moves exactly as the sorted lists do, with the same trades and statuses, and so as Execution says of the command and the book alone; its invariant (slots partitioned, index exact, queues tidy) is kept |
| OrderBooks.OrderBook.Cancel | engine/src/order_book.cpp:149-154 | removes the order the sorted lists remove, with the same status, or changes nothing; the same in the terms of Execution |
| OrderBooks.OrderBook.Snapshot | engine/src/order_book.cpp:170-180 | the wrapping 64-bit and 32-bit sums give the exact levels of the sorted lists, up to the depth |
| OrderBooks.OrderBook.ExecutableQuantity | engine/src/order_book.cpp:34-54 | the saturating sum with early exit is below the quantity exactly when the eligible total is |
| OrderBooks.OrderBook.Match | engine/src/order_book.cpp:84-108 | the nested loops over levels and queues are the greedy matching of the sorted list |
| OrderBooks.OrderBook.FillFront | engine/src/order_book.cpp:94-102 | one fill against the front of the best queue: both remainders, notionals, trade, status, slot and index |
| OrderBooks.OrderBook.Conclude | engine/src/order_book.cpp:73-80 | filled, resting or leaving, as the sorted lists say |
| OrderBooks.OrderBook.Joins | engine/src/order_book.cpp:110-121 | an order may rest exactly when its level stays within 64 bits |
| OrderBooks.OrderBook.Join | engine/src/order_book.cpp:122-125 | the order goes to the end of its price queue, a new level where there was none |
| OrderBooks.OrderBook.Take | engine/src/order_book.cpp:95-98 | takes a quantity from one order at a price: its remainder falls, its notional rises |
| OrderBooks.OrderBook.Enter | engine/src/order_book.cpp:69-71 | takes a free slot for the command, indexes its id and counts it |
| OrderBooks.OrderBook.Release | engine/src/order_book.cpp:135-138 | gives the slot back and forgets the id |
| OrderBooks.OrderBook.Remove | engine/src/order_book.cpp:140-147 | erases the order from its queue, and the level with its last order |
| OrderBooks.OrderBook.EmitTrade | engine/src/order_book.cpp:156-159 | the next trade number, the maker price and the rates of both tiers |
| OrderBooks.OrderBook.EmitStatus | engine/src/order_book.cpp:161-168 | the next status number, filled and remaining quantity and the average price |
| History.RunGood | engine/src/order_book.cpp:56-168 | over every run of orders and cancels the log is lawful: each trade is between open orders at the maker price within the taker limit, each status has filled plus remaining equal to the quantity and filled equal to what was traded |
| HistoryLaws.FilledNeverDecreases | engine/src/order_book.cpp:84-102 | from one status of an order to a later one the filled quantity does not fall, and filled plus remaining stays |
| HistoryLaws.NothingAfterTheEnd | engine/src/order_book.cpp:73-80 | after a terminal status no trade and no status mentions the order again |
| HistoryLaws.AverageWithinFills | engine/src/order_book.cpp:161-163 | the average price lies between the lowest and the highest fill price |
| HistoryLaws.AverageWithinLimit | engine/src/order_book.cpp:161-163 | the average price of a limit order is within its limit |
| HistoryLaws.MakerAverage | engine/src/order_book.cpp:161-163 | an order that never took has its own price as average |
| HistoryLaws.TradesNumbered | engine/src/order_book.cpp:156-159 | the trades of a lawful log are numbered 1, 2, 3 without gaps |
| HistoryLaws.RunFilledNeverDecreases | engine/src/order_book.cpp:84-102 | over every run: filled equals what was traded, does not fall, and makes the placed quantity with what remains |
| HistoryLaws.RunNothingAfterTheEnd | engine/src/order_book.cpp:73-80 | over every run: nothing mentions an order after its terminal status |
| HistoryLaws.RunAverageWithinFills | engine/src/order_book.cpp:161-163 | over every run: a reported average lies within the fill prices |
| HistoryLaws.RunAverages | engine/src/order_book.cpp:161-163 | over every run: the average is within a limit order's limit, and a pure maker's own price |
| HistoryLaws.RunTradesNumbered | engine/src/order_book.cpp:156-159 | over every run: trades are numbered from 1 up to the book's trade number |
| HistoryLaws.EndsOnceExactly | engine/src/order_book.cpp:56-82 | an id gets at most one terminal status in a run exactly when it is not the empty id or the empty id was placed at most once |
| HistoryLaws.BlankEndsTwice | engine/src/order_book.cpp:56-62 | the empty id is rejected twice |
| EngineSpec.RestoreSound | engine/src/symbol_engine.cpp:115-168 | whatever recovery accepts is a prefix of the journal of the commands it found; it ends with that journal, book and replies |
| EngineSpec.RestoreComplete | engine/src/symbol_engine.cpp:115-168 | every record prefix of a command list's journal is accepted |
| Recovery.RestoreExact | engine/src/symbol_engine.cpp:115-168 | recovery succeeds exactly on the record prefixes of the journals that command lists write |
| Recovery.RestoreMinimal | engine/src/symbol_engine.cpp:119-168 | recovery finds no command beyond those whose own record is there |
| Recovery.FoundAreRecords | engine/src/symbol_engine.cpp:115-143 | the commands recovery finds are the order and cancel records of the list |
| Recovery.CrashFreeExactly | engine/src/symbol_engine.cpp:52-168 | a record list is a prefix of the journal of a crash-free run exactly when recovery accepts it and no id occurs twice among its order records or among its cancel records |
| Recovery.RestoreIsRun | engine/src/symbol_engine.cpp:115-168 | from any record prefix of a served run, recovery gives the engine that serves just those commands: same journal, book and replies |
| Recovery.RestoreWhole | engine/src/symbol_engine.cpp:115-168 | from the whole journal recovery gives the very engine that wrote it |
| Recovery.RepeatedCancelAccepted | engine/src/symbol_engine.cpp:137-166 | a journal with one cancel twice is accepted though no run writes it |
| Recovery.RepeatedBlankAccepted | engine/src/symbol_engine.cpp:130-155 | a journal with one order under the empty id twice is accepted though no run writes it |
| Recovery.OnlyBlankOrdersRepeat | engine/src/symbol_engine.cpp:130-155 | orders can only repeat in an accepted journal under the empty id |
| CrashSafety.RunOk | engine/src/symbol_engine.cpp:28-168 | over every sequence of requests, crashes at any record of a command or of recovery itself, and restarts, the disk holds a prefix of the history's journal, every published event is on it or is a true snapshot taken on request, and every answer not borrowed from a replay or snapshot reply is the history's |
| CrashLaws.PublishedStays | engine/src/symbol_engine.cpp:45-50 | a journalled event once published stays at its place in the journal for ever; a snapshot taken on request stays a true picture of the book its commands left |
| CrashLaws.PicturedExactly | engine/src/symbol_engine.cpp:84-91 | an event is published without being journalled exactly when a new snapshot request is served, and then shows the book of that moment |
| CrashLaws.SnapshotUnwritten | engine/src/symbol_engine.cpp:84-91 | a snapshot asked for before any command is published while nothing is on disk |
| CrashLaws.AnswerExactly | engine/src/symbol_engine.cpp:52-104 | every order and cancel is answered; the answer is the journalled history's reply exactly when its id is not that of a replay or snapshot request served since the last restart, and otherwise nothing runs |
| CrashLaws.VolatileExactly | engine/src/symbol_engine.cpp:73-91 | those ids are exactly the ones of replay and snapshot requests served since the last restart |
| CrashLaws.AnswersAgree | engine/src/symbol_engine.cpp:52-104 | two answers to one order or one cancel, neither of them borrowed, are the same, whatever happened between them |
| CrashLaws.BorrowedAnswerChanges | engine/src/symbol_engine.cpp:76-91 | a cancel under the id of a replay is answered as accepted, and after a crash and restart as refused |
| CrashLaws.AnswersCanDiffer | engine/src/symbol_engine.cpp:76-91 | such requests exist |
| CrashLaws.RestartBringsBack | engine/src/symbol_engine.cpp:115-168 | at every moment a restart succeeds and brings back the crash-free run of the history |
| Answers.AnswerMeans | engine/src/symbol_engine.cpp:52-104 | over every crash run an answer that is not borrowed is, for an order, the last status it brought about when it ran, which is its own; for a cancel, accepted exactly if the order was resting, with the number of its status |
| Answers.RequestServed | engine/src/symbol_engine.cpp:52-104 | in every reachable state a request runs exactly when it is a new order or cancel of this pair; all its news are then told in order, and it is answered |
| Answers.JournalMeans | engine/src/symbol_engine.cpp:33-50 | the journal of a run is, command by command, the command, its trades, its statuses, the best thousand levels if the book moved, and the answer to a cancel, under their record kinds |
| Answers.LookMeans | engine/src/symbol_engine.cpp:72-91 | a replay or snapshot is acknowledged with the last trade or the book number, at least 1 |
| Answers.SnapshotShows | engine/src/order_book.cpp:170-180 | a snapshot shows each side under the book number: the best prices up to the depth, best first, each with the sum and number of its orders |
| SymbolEngines.SymbolEngine.Append | engine/src/symbol_engine.cpp:28-31 | the record goes to the file and to the list under the next number |
| SymbolEngines.SymbolEngine.EncodeResult | engine/src/symbol_engine.cpp:33-43 | trades, then statuses, then a snapshot if the book moved |
| SymbolEngines.SymbolEngine.PersistAndPublish | engine/src/symbol_engine.cpp:45-50 | each record is appended before it is published |
| SymbolEngines.SymbolEngine.Submit | engine/src/symbol_engine.cpp:52-65 | one order as the crash-safety model steps: journalled, executed, published and answered, or answered from the cache; Answers says what the answer is |
| SymbolEngines.SymbolEngine.Control | engine/src/symbol_engine.cpp:73-104 | the same for cancels, replays and snapshots, with everything they publish; a cancel is given the answer of the model |
| SymbolEngines.SymbolEngine.Replay | engine/src/symbol_engine.cpp:106-113 | publishes the journalled trades from the given number on |
| SymbolEngines.SymbolEngine.Restore | engine/src/symbol_engine.cpp:115-168 | the record loop is the recovery function, errors included; the replies it brings back are those of Answers.AnswerMeans |
| SymbolEngines.SymbolEngine.Open | engine/src/symbol_engine.cpp:22-26 | a new engine over a file is what recovery makes of the file |
| SymbolEngines.WireOkExists | engine/src/symbol_engine.cpp:15-19 | the assumptions on the message format can be met by one that carries an order and every kind of control request |
| Durability.TornFile | engine/src/journal.cpp:78-106 | the file of a crash-free run cut at any byte: inside a record it is refused; at a boundary the engine comes back with the run of the kept commands |
| Ledger.ZeroSum | internal/datamanager/manager.go:986-1004 | if every journal balances, an asset sums to zero over all accounts and buckets |
| Ledger.MoveEffect | internal/datamanager/manager.go:2512-2522 | two postings move an amount between two places and change no other balance |
| MoneyRuns.StepOk | internal/datamanager/manager.go:2423-2754 | every transaction keeps the money invariant: balanced journals, no customer overdrawn, held balances explained by open withdrawals and escrows, each row with exactly its journals |
| MoneyRuns.RunOk | internal/datamanager/manager.go:1984-2754 | the money invariant holds after every run of transactions |
| MoneyRuns.LedgerBalances | internal/datamanager/manager.go:2501-2522 | in every reachable state each asset sums to zero, no customer is overdrawn, and held equals open withdrawals plus open escrows plus the trading engine's own holds |
| MoneyRuns.EscrowAlwaysCovered | internal/p2p/postgres.go:536-580 | in every reachable state release and refund of an open trade succeed: the insufficient-balance branches are never taken |
| MoneyRuns.HoldAlwaysStands | internal/datamanager/withdrawal_dispatch.go:97-118 | the hold of a withdrawal that has not ended stands, so dispatch never finds it missing |
| MoneyRuns.HoldUndoneOnce | internal/datamanager/manager.go:2642-2741 | each withdrawal is held once and undone by exactly one of cancel, release and settlement, exactly when it has ended |
| MoneyRuns.EscrowUndoneOnce | internal/p2p/postgres.go:526-580 | each trade is escrowed once and released or refunded exactly once, exactly when it has ended |
| MoneyRuns.CreateOk | internal/p2p/postgres.go:28-80 | creating a trade keeps the money invariant |
| MoneyRuns.ReleaseEscrowOk | internal/p2p/postgres.go:536-559 | releasing an escrow keeps the money invariant |
| MoneyRuns.RefundEscrowOk | internal/p2p/postgres.go:560-580 | refunding an escrow keeps the money invariant |
| MoneyRuns.TransferOk | internal/datamanager/manager.go:931-1118 | an internal transfer keeps the money invariant |
| MoneyRuns.ConvertOk | internal/datamanager/conversions.go:215-356 | the five-posting conversion balances in both assets and keeps the money invariant |
| Statements.StepAccounts | internal/datamanager/manager.go:931-2754 | every transaction moves every balance by exactly what its rows stand for afterwards and before, and what it passes on |
| Statements.BalanceExplained | internal/datamanager/manager.go:931-2754 | in every reachable state every balance is what the withdrawals, trades, quotes and deposits stand for, plus deposits received, transfers, test money and trading |
| Statements.EscrowPays | internal/p2p/postgres.go:536-580 | over every run, however an escrow ends: released, the seller hold falls and the buyer available balance rises by the amount; otherwise the seller gets it back; no other balance moves |
| Authority.TradeStepExactly | internal/p2p/postgres.go:28-392 | in every reachable state an action on a trade takes effect exactly when status, person, account and time allow, and then does just that to the row; held funds never stop it |
| Authority.BuyerIsOwner | internal/p2p/postgres.go:81-118 | over every run the buyer of a trade is not its seller and owns the account it is released to |
| Authority.RequestExactly | internal/datamanager/manager.go:2423-2550 | a withdrawal is taken exactly when key, checks, owner, limits and balance allow, and waits for approval unless that is automatic |
| Authority.WithdrawalStepExactly | internal/datamanager/manager.go:2245-2754 | in every reachable state every action moves every withdrawal exactly so: signed, approved by the second, cancelled, dispatched with its reservation, submitted, ended |
| Authority.ApprovedByTwo | internal/datamanager/manager.go:2245-2306 | over every run a withdrawal requested while approval was manual is approved, dispatched or ended only after two different people with the role signed it; while pending at most one has |
| Authority.TransferExactly | internal/datamanager/manager.go:931-1118 | a transfer happens exactly when its sender owns the account and it covers the amount |
| Authority.ConvertExactly | internal/datamanager/conversions.go:215-356 | a quote settles exactly once, for its user, in time and if both sides can pay |
| Authority.ObserveExactly | internal/datamanager/manager.go:1984-2086 | the row after an observation, case by case, or nothing changes if what it should credit cannot be |
| Authority.CreditExactly | internal/datamanager/manager.go:2307-2373 | the manual credit happens exactly for a deposit under review that is not rejected, by somebody with the role, to an account of its user |
| Authority.RoomExactly | internal/datamanager/withdrawal_capacity.go:331-346 | the capacity check is exactly: fee within its limit, and what was seen covers unended reservations, amount and fee |
| Authority.CommittedMeans | internal/datamanager/withdrawal_entitlement.go:22-80 | in every reachable state the committed sum is that of the withdrawals neither failed nor cancelled |
| Authority.CreditedMeans | internal/datamanager/withdrawal_entitlement.go:22-80 | in every reachable state the entitlement is the sum of the credited, approved, confirmed deposits with a hash |
| PayoutLaws.RunPayOk | internal/withdrawals/worker.go:39-139 | over every interleaving of workers, crashes, approvals, cancels, reconcilers and provider, calls, claims, dispatches and provider states agree |
| PayoutLaws.PaidAtMostOnce | internal/withdrawals/worker.go:115-136 | the provider is called at most once per withdrawal, and only after its dispatch was committed |
| PayoutLaws.HeldReturnsOnlyAfterFailure | internal/datamanager/manager.go:2617-2754 | held funds return only by a cancel of a withdrawal never dispatched nor paid, or after the provider lost the payout; they settle only after it was paid |
| PayoutLaws.RunStable | internal/datamanager/manager.go:2577-2754 | over every run provider id, dispatch and reservation are written once, a dispatched withdrawal is never cancelled, a terminal state stays |
| Vault.OpenCovers | internal/datamanager/withdrawal_capacity.go:331-346 | open capacity covers what is still owed from a vault plus what left it since an honest sighting, amounts and fees together, also where one asset is both |
| Vault.RoomFor | internal/datamanager/withdrawal_dispatch.go:121-207 | a capacity check passed on honest sightings leaves room for the new reservation beside everything owed |
| Vault.VaultCovers | internal/datamanager/withdrawal_dispatch.go:121-207 | over every run with routes required and no payout consumed between sighting and commit, the vault balance covers all undebited amounts and fees in every asset |
| VaultRace.RaceUncovers | internal/datamanager/withdrawal_dispatch.go:121-207 | the run without that: a worker looks, the other payout is paid and struck off, the worker's claim passes its check and more is owed than the vault holds |
| VaultRace.RaceExists | internal/datamanager/withdrawal_capacity.go:331-346 | such a run exists, with two withdrawals of 60 from a vault of 100 |
| Entitlement.StepWithin | internal/datamanager/withdrawal_entitlement.go:22-80 | one transaction under enforced limits: commitments rise only within confirmed deposits |
| Entitlement.WithinDeposits | internal/datamanager/withdrawal_entitlement.go:22-80 | from the moment limits are enforced, commitments stay within the larger of confirmed deposits and what was committed then |
| Entitlement.WithinExactly | internal/datamanager/withdrawal_entitlement.go:22-80 | commitments stay within confirmed deposits from then on exactly when they were within them at that moment |
| Entitlement.GrantKeepsEnforcement | internal/datamanager/withdrawal_entitlement.go:24-35 | once a grant exists, limits are enforced in every later state |
| Entitlement.WithinFromGrant | internal/datamanager/withdrawal_entitlement.go:22-80 | from the first grant on, without further assumption, commitments stay within the larger of confirmed deposits and what was committed then, and within confirmed deposits exactly when they were at the grant |
| Entitlement.LateLimitsExceed | internal/datamanager/withdrawal_entitlement.go:22-80 | a run in which they are not: a deposit is transferred, its receiver requests a withdrawal, then limits are switched on |
| Deposits.FirstDecisiveFixes | internal/datamanager/manager.go:1984-2086 | for any order and repetition of observations of a deposit that is not flagged or rejected, manual credits attempted or not, its status is what the first decisive observation whose transaction commits makes it |
| Deposits.CreditedAtMostOnce | internal/datamanager/manager.go:2047-2086 | over every run of observations, risk flags, rejections and manual credits, a deposit has one crediting journal, for its own amount, exactly when it is credited |
| Deposits.FlagStopsAutomatic | internal/datamanager/manager.go:2047-2056 | a deposit the risk worker flagged is never credited by an observation |
| Deposits.ManualCredits | internal/datamanager/manager.go:2307-2373 | the manual path credits a flagged deposit, once, and a later observation does not credit it again |
| Deposits.StatusAbsorbs | internal/datamanager/manager.go:1984-2046 | credited, reorged and rejected deposits never change status |
| Managers.Manager.RequestWithdrawal | internal/datamanager/manager.go:2423-2550 | the method is the transaction of the money model: checks, idempotency, hold |
| Managers.Manager.ApproveWithdrawal | internal/datamanager/manager.go:2245-2306 | the method is the transaction of the money model; Authority.ApprovedByTwo says that the second signature by another person approves |
| Managers.Manager.CancelWithdrawal | internal/datamanager/manager.go:2706-2754 | only a withdrawal awaiting approval is cancelled, and its hold undone |
| Managers.Manager.BeginDispatch | internal/datamanager/withdrawal_dispatch.go:24-230 | the one-shot dispatch with its entitlement, hold and capacity checks |
| Managers.Manager.CheckCapacity | internal/datamanager/withdrawal_dispatch.go:121-207 | the capacity comparison, with one asset for both amount and fee as its own case |
| Managers.Manager.MarkSubmitted | internal/datamanager/manager.go:2577-2616 | records the provider id once |
| Managers.Manager.CustodyUpdate | internal/datamanager/manager.go:2617-2705 | settles or releases on a final provider status, and ignores a withdrawal that has ended |
| Managers.Manager.ObserveDeposit | internal/datamanager/manager.go:1984-2086 | one webhook: insert or raise confirmations, keep a final status, credit automatically |
| Managers.Manager.CreditApprovedDeposit | internal/datamanager/manager.go:2307-2373 | the manual path credits a deposit under review |
| Managers.Manager.CreateInternalTransfer | internal/datamanager/manager.go:931-1118 | moves an available balance once per key; a known key is answered with its first transfer |
| Managers.Manager.ConfirmConversion | internal/datamanager/conversions.go:215-356 | settles a quote once, with both balances checked; a known key is answered with its first conversion |
| Managers.Manager.ApprovedWithdrawals | internal/datamanager/manager.go:2551-2576 | the oldest waiting withdrawals up to the limit, all of them when there are fewer |
| Managers.Manager.ReconciliationCandidates | internal/datamanager/withdrawal_reconciliation.go:24-52 | the oldest dispatches of this provider with a reservation, nothing final recorded and not looked at for 30 seconds, up to the limit; whatever is left over is younger |
| Managers.Worker.Handle | internal/withdrawals/worker.go:115-136 | calls the provider only for a withdrawal this call dispatched, and touches no other |
| Managers.Worker.RunOnce | internal/withdrawals/worker.go:39-139 | one pass calls the provider once for each withdrawal it newly dispatched and for no other, leaves every other withdrawal as it was, and keeps the money invariant |
| Managers.Manager.RecordObservation | internal/datamanager/withdrawal_reconciliation.go:53-92 | a look is recorded exactly for an unresolved dispatch of this provider |
| Managers.Reconciler.Resolve | internal/withdrawals/reconciler.go:40-70 | brings one withdrawal up to what the provider reports, records the look and touches no other |
| Managers.Reconciler.RunOnce | internal/withdrawals/reconciler.go:28-74 | every processed candidate was due, ends as its finding says and has its look recorded, in order; the others are untouched |
| Managers.NotDueAgain | internal/datamanager/withdrawal_reconciliation.go:35-36 | a withdrawal looked at in a pass is not due again for 30 seconds |
| Idempotency.KeyedIsRun | internal/p2p/postgres.go:483-502 | every run of keyed requests is a run of the transactions that took effect, so all laws of runs hold of it |
| Idempotency.KeyedOk | internal/datamanager/manager.go:931-2754 | the money invariant holds after every run of keyed requests |
| Idempotency.ActedOnce | internal/p2p/postgres.go:483-502 | a trade request, proposal or approval that took effect takes effect once per actor and key: later ones change nothing, and are answered with the same trade if hash and role are right, refused otherwise |
| Idempotency.PaidOnce | internal/datamanager/manager.go:940-949 | a transfer posts once per key |
| Idempotency.SwappedOnce | internal/datamanager/conversions.go:231-239 | a conversion posts once per key |
| Idempotency.RefundedByTwo | internal/p2p/postgres.go:290-392 | over every run a refunded dispute was proposed by one person and approved by another |
| Idempotency.DisputeEndsByTwo | internal/p2p/postgres.go:335-392 | a trade once disputed stays so, or is released or refunded by an approved resolution of that kind, by two people |
| Idempotency.OneProposal | internal/p2p/postgres.go:291-334 | over every run an open proposal is of a disputed trade, and a trade has at most one |
| Idempotency.ProposeExactly | internal/p2p/postgres.go:291-334 | a proposal is made exactly by somebody with the role, under a new key, for a disputed trade with none open |
| Desks.Desk.ExistingAction | internal/p2p/postgres.go:483-502 | a known key gives its trade, or a conflict if the request differs |
| Desks.Desk.ProposeResolution | internal/p2p/postgres.go:291-334 | the keyed proposal for a disputed trade that has none open; with Idempotency.OneProposal, never two at a time |
| Desks.Desk.Create | internal/p2p/postgres.go:28-80 | the method is the keyed transaction: repeat check, balance check, row, escrow, event |
| Desks.Desk.Accept | internal/p2p/postgres.go:81-118 | another user takes an open offer in time |
| Desks.Desk.MarkPaid | internal/p2p/postgres.go:119-133 | the buyer marks payment before the deadline |
| Desks.Desk.Release | internal/p2p/postgres.go:134-168 | the seller releases a paid trade; Statements.EscrowPays says the buyer gets it |
| Desks.Desk.Cancel | internal/p2p/postgres.go:169-203 | the seller cancels an open offer and is refunded |
| Desks.Desk.Dispute | internal/p2p/postgres.go:204-215 | a participant disputes an accepted or paid trade |
| Desks.Desk.ApproveResolution | internal/p2p/postgres.go:335-392 | a second person's approval releases or refunds a disputed trade, once |
| Desks.Desk.PostRelease | internal/p2p/postgres.go:536-559 | the escrowed amount is released and the row ends, or nothing happens; Statements.EscrowPays says to whom |
| Desks.Desk.PostRefund | internal/p2p/postgres.go:560-580 | the escrowed amount goes back to the seller, or nothing happens |
| Desks.Desk.Batch | internal/p2p/postgres.go:250-252 | the overdue trades nobody has locked, longest overdue first, up to the limit; whatever is left over comes later |
| Desks.SoonerMeans | internal/p2p/postgres.go:250-252 | an open offer is due when it expires and an accepted one at its deadline; the earlier due goes first |
| Desks.Desk.Expire | internal/p2p/postgres.go:244-290 | the longest overdue unlocked trades up to the limit are refunded, in that order, each by its own journal after the old ones, and no other table, row or control changes; no refund can fail |
| Candles.BucketHolds | internal/marketdata/model.go:101-127 | every time lies in its bucket, also for weeks and calendar months |
| Candles.BucketOrder | internal/marketdata/model.go:101-116 | buckets start no later than their times and keep their order |
| Candles.BucketNest | internal/marketdata/model.go:101-116 | the start of a finer bucket lies in the same coarser bucket as the time itself |
| Candles.Nestings | internal/marketdata/model.go:70-78 | every interval of at most a day nests in every longer one, and weeks nest in no months |
| Candles.WeekStart | internal/marketdata/model.go:110-114 | weeks from Monday are the seven-day grid |
| Candles.BucketIs | internal/marketdata/model.go:70-127 | a bucket starts at the last multiple of its length, in nanoseconds, and is that long |
| Candles.YearDays | internal/marketdata/model.go:101-127 | twelve months make a Gregorian year |
| Aggregation.AggregateCandles | internal/marketdata/model.go:158-194 | the loop over sorted minutes computes the aggregation function |
| Aggregation.AggregateMeans | internal/marketdata/model.go:158-194 | each result candle has the first open, last close, extremes and sums of the candles of its bucket; buckets are in strict order and every candle is in one |
| Aggregation.AggregateComposes | internal/marketdata/model.go:158-194 | aggregating to a finer interval and then to a coarser one is aggregating to the coarser one |
| Aggregation.AggregateConserves | internal/marketdata/model.go:158-194 | volume, quote volume and trade count are conserved |
| TradeStream.Add | internal/marketdata/model.go:137-156 | adds a trade to a candle or refuses one that does not continue it |
| TradeStream.Store.ClaimSequence | internal/marketdata/postgres.go:312-354 | accepts only the next number, reports duplicates and gaps, and starts at 1 unless any start is allowed |
| TradeStream.Store.ApplyTrade | internal/marketdata/postgres.go:239-297 | one delivery as a transaction: claim, conflict check, insert, candle |
| TradeStream.Store.UpsertCandle | internal/marketdata/postgres.go:272-292 | the insert-or-update of the minute row |
| TradeStream.Store.ClaimOrderBookSequence | internal/marketdata/postgres.go:299-310 | claims on the order-book stream, which may start anywhere |
| BookStream.JournalShots | engine/src/symbol_engine.cpp:39-41 | the snapshot records of a run's journal are one per command that moved the book, with the book's number |
| BookStream.AcceptedExactly | internal/marketdata/postgres.go:339-353 | of rising numbers a new store accepts exactly those up to the first jump, and asks for the number after the last accepted one ever after |
| BookStream.BookStreamExactly | internal/marketdata/postgres.go:312-354 | a store fed every snapshot of a run in order accepts them all exactly when no command moved the book number by more than one |
| BookStream.TwoFillsRefused | engine/src/order_book.cpp:93-103 | an order with two fills is published as number 4 after number 2, and the store refuses it asking for 3 |
| StreamLaws.FoldedCharts | internal/marketdata/model.go:129-156 | folding the trades of a minute gives first and last price, extremes and sums of exactly those trades |
| StreamLaws.UpsertFolds | internal/marketdata/postgres.go:276-292 | the stored update of a candle row is the in-memory addition of the trade |
| StreamLaws.RunExact | internal/marketdata/postgres.go:239-354 | under any loss, duplication and reordering, the stored trades are exactly the first ones in order, each applied once, and every candle is the fold of its trades; the stream is as far as the deliveries match it |
| StreamLaws.ReplayCompletes | internal/marketdata/postgres.go:312-354 | a replay from the number a gap asks for, or from an earlier one, brings the store to the last trade |
| StreamLaws.RepliesExact | internal/marketdata/postgres.go:239-297 | the next trade is applied, a later one is a gap naming the next number, an earlier one repeats or conflicts by its hash |
| TradeFeed.JournalTrades | engine/src/symbol_engine.cpp:33-43 | the trade records of a journal are the run's trades, numbered without gaps |
| TradeFeed.ReplayIsSuffix | engine/src/symbol_engine.cpp:106-113 | a replay publishes exactly the trades from the given number on, in order |
| TradeFeed.PublishedTrade | engine/src/symbol_engine.cpp:45-50 | every trade ever published, before or after any crash, is one of the history's trades |
| Consumers.QuoteExactly | internal/trading/settlement.go:146-162 | the quote of a trade is price times quantity at eight decimals rounded down, refused exactly when that is zero |
| Consumers.ReadExactly | internal/marketdata/consumer.go:72-88 | an event is read into a valid trade exactly when its names, time and pair are in range, its taker is known and its quote is not zero; number, price and quantity are the event's |
| Consumers.Consumer.ProcessTrade | internal/marketdata/consumer.go:72-110 | decode, time, side, quote and store in turn; a gap asks for a replay, any other error fails |
| Consumers.Consumer.ProcessOrderBook | internal/marketdata/consumer.go:53-70 | a snapshot claims its number on the order-book stream |
| Consumers.Consumer.Process | internal/marketdata/consumer.go:39-51 | an event goes where its topic says, others are ignored |
| Consumers.Consumer.Run | internal/marketdata/consumer.go:123-139 | the receive loop is a session that ends at the first failure which is no gap |
| FeedLaws.TradesProper | engine/src/order_book.cpp:22-27 | over every run each trade has a positive price and quantity and names its orders and users |
| FeedLaws.FeedExact | internal/marketdata/consumer.go:72-139 | over any engine run with crashes and any consumer sessions that lose, repeat and reorder what was published, the store holds exactly a first part of the trades and never gets past the first one it cannot take |
| FeedLaws.FeedConverges | internal/marketdata/consumer.go:112-139 | a replay from the store's next number brings it to the last trade exactly when it can take every trade of the run; otherwise the session fails just before the first one it cannot take |
| FeedLaws.GapAsks | internal/marketdata/consumer.go:112-121 | a trade that comes too early makes the consumer ask for a replay from the next number of the store |
| FeedLaws.FeedExactly | internal/marketdata/consumer.go:84-87 | with ordinary names and times, a replay completes the store exactly when no trade of the run has price times quantity below 10^8 |
| FeedLaws.FeedStalls | internal/marketdata/consumer.go:84-87 | after a trade the store cannot take it never gets past the one before, whatever engine and consumer do from then on |
| FeedLaws.DustStalls | internal/marketdata/consumer.go:84-87 | a sell and a buy with price times quantity below 10^8: the store stays empty through every later run |
| FeedLaws.StallExists | engine/src/order_book.cpp:22-27 | such orders exist: one unit at price 1 makes a trade that is published and never stored |
| Reservations.HoldCovers | internal/trading/service.go:323-369 | whatever fills at the limit price or better, up to the quantity and the reserved rate, settle for, quote rounded down and fees included, is at most the hold |
| Reservations.HoldTight | internal/trading/service.go:323-369 | the hold exceeds the cost of one full fill at the limit by at most three units |
| Reservations.FeeBound | internal/trading/settlement.go:164-176 | a fee, truncated towards zero and negative for rebates, is at most the notional times the rate limit |
| Reservations.NotionalBound | internal/trading/settlement.go:150-162 | a settled notional is at most price times quantity at the quote scale |
| Reservations.HoldIs | internal/trading/service.go:323-369 | exactly what is held: the quantity of a sell, everything for a market buy, notional and fee each rounded up for a limit buy if they fit 64 bits |
| Reservations.QuoteIs | internal/trading/settlement.go:146-162 | a fill quote is price times quantity at the scale of the quote, rounded down, refused exactly when zero |
| Reservations.FeeIs | internal/trading/settlement.go:164-176 | a fee is the rate of the notional rounded towards zero, a rebate for a negative rate, refused exactly outside its range |
| Buying.RunFollowed | engine/src/order_book.cpp:84-102 | over every run each trade is followed by a status of its maker and of its taker |
| Buying.QuantityBounded | engine/src/order_book.cpp:84-108 | an order never trades more than it was placed for |
| Buying.RunRated | engine/src/order_book.cpp:156-159 | over every run each trade charges maker and taker the rates of their own fee tiers |
| Buying.HoldCoversRun | internal/trading/service.go:323-369 | over every run of the book, a limit buy reserved at no less than its tier's rates settles within its hold, however it was filled |
| Buying.HoldCoversDefault | engine/src/order_book.cpp:8-11 | with the built-in fee table the taker rate of the order's own tier is enough to reserve at |
| Amounts.DecimalDigits | internal/custody/fireblocks.go:296-303 | the loop accepts exactly the strings of digits |
| Amounts.ReadsUnits | internal/custody/fireblocks.go:270-294 | reading is exact: a decimal string within precision and range gives its units, anything else is refused |
| Amounts.Writes | internal/custody/fireblocks.go:259-265 | writing gives a canonical string that stands for the value |
| Amounts.AtomicRoundTrip | internal/custody/fireblocks.go:251-294 | every positive amount of at most 78 digits and 0 to 36 decimals is written and read back as the same number |
| Amounts.ProviderRoundTrip | internal/custody/fireblocks.go:251-294 | every accepted positive decimal string prints back canonically with the same units, and as itself exactly when it is canonical |

## Left out

- Order-book stream delivery under loss and reordering, and replays of it: the stream has no replay of its own; only feeding in order is modelled.
- FlatBuffers messages: encoders and decoders are function values; what the engine encodes is assumed to decode to the same trade at the consumer and to the same number in the engine, and messages are assumed to fit a record.
- File-system failures, short writes and failed syncs: crashes happen at record boundaries in the engine model, and at any byte in the file lemmas. Opening a file assumes fewer than 2^64 bytes.
- Sequence counters are unbounded numbers: trade, status, book and journal numbers do not wrap at 64 bits (the journal's own check for the next number does).
- Threads, sockets and the request router: one engine is one sequence of steps.
- OrderBooks.OrderBook.Conclude: the status of a resting order is written before it joins its queue, which gives the same book and the same report.
- Money tables are sequences of rows in one database value; a transaction is one step on it. Lock order, deadlocks and isolation levels are not modelled, and a failed or aborted transaction changes nothing.
- Routes, staleness of observations, KYC, account status, roles and whether a recipient exists are boolean inputs of a transaction (`Checks`).
- Managers.Manager.ConfirmConversion: how a quote is priced is not modelled; a quote is any row, and journals need positive amounts.
- Managers.Worker.RunOnce: network policy and amount formatting before the dispatch stand behind one input that may refuse.
- Managers.Manager.ReconciliationCandidates: candidates come in the order of their withdrawals, not of their reservations.
- Managers.Reconciler.Resolve: nothing else commits between marking, recording and updating one withdrawal.
- Desks.Desk.Expire: trades due at the same time come in the order of their creation, not of their ids; the audit event of each is not modelled.
- Consumers.Consumer.Run: the cache and the replay request do not fail, and an order's row is there before its trade; a session that ends early for such a reason is one that received fewer events.
- Request hashes are compared as given; that they are injective in the request is not modelled.
- Evidence attached to disputes, lists and lookups of trades: no effect on money.
- The risk worker and the rejection of a deposit are not in the repository; they are environment actions that may come at any time before the deposit is decided.
- The trading store and its settlement journals are an environment that balances, overdraws nobody and gives back only what it held.
- Vault.VaultCovers: funds leave a vault only for dispatched withdrawals and at most at their reserved fee, as the model's provider does; other debits of the vault are not modelled.
- Aggregation.AggregateCandles: the sort of the argument in place is a sort of a sequence; its order for equal open times, unspecified in the source, is by position. An unknown interval name, an error in the source, is not a value here.
- TradeStream.Store.ApplyTrade: column widths (78 digits, 64-bit trade counts), foreign keys and the microsecond precision of stored times are not modelled; amounts are numbers, an unparsable one counts as not positive.
- Zero padding of a fraction by `%0*s` is taken to fill with zeros, as the formatted amounts of the source require.
- HTTP, sessions, API keys, KYC workflows, notifications, price adapters, configuration and admin commands: no deep invariant.
