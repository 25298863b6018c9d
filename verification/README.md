# Verified model of the aetelier data plane

This project models, in Dafny, the parts of the aetelier market-data repository that carry its
guarantees, and proves those guarantees for every input, every run or every reachable state.

- **Order-book reconstruction** (`Levels`, `Reconstruction`, `ReconstructionLaws`, `L3Refinement`,
  `L3Orders`, `Runtime`, `RuntimeSoundness`, `RuntimeLiveness`, `RuntimeCompleteness`,
  `RuntimeBuffering`). A venue is an infinite history of
  absolute level updates; `TrueBook(h, n)` is its book after update `n`, and a delta `[a, b]` is honest
  when its levels are the net effect of updates `a..b`. The runtime is a state machine whose events
  are frames (lost, duplicated and reordered at will), REST seeds (landing at any time, failing, or
  unparseable), connection gaps, seed deadlines, end of stream and stop. Each object the program
  mutates is a class proved to compute the machine's functions.
- **The grid synchronizer** (`MarketSync` and the `MarketSync*` theorems). All four clock modes, the
  hold-back window, capped gaps, the pruned book history and both forms of `finalize`, observed over
  whole runs from outside.
- **Trade loss accounting** (`TradeBook`), the **crash-consistent leaf** (`Naming`, `LeafIndex`,
  `LeafConsistency`), the **archive cursor** (`ArchivePlan`, `ArchiveCursor`), **REST rehydration**
  (`Rehydrate`), the **circuit breaker** (`Breaker`), the **feed cache** (`FeedCache`), the
  **lock-free connection epoch** (`ConnEpoch`), the **canonical query** of AWS Signature Version 4
  (`Signing`) and **trade aggregation and deduplication** (`Aggregate`).

Clocks, random draws, fetch results, hash functions, decimal parsing, hash-map iteration order and the
moments at which the process stops are parameters or events, never assumptions. Prices and sizes are
exact reals. `dafny verify dfyconfig.toml` checks everything.

## Where the code does less than it seems to promise

Each of these is proved, with the exact condition where there is one.

- A REST seed that fails to parse half way is reset into a pair that is already streaming (an in-band
  snapshot came first), and the pair keeps streaming on the half-loaded book under its old id
  (aetelier-connect/src/framework/runtime.rs:776-793). `UnparsedSeedIsReachable` is an honest run from
  start-up for every venue kind and every text that does not parse, `UnparsedSeedCorrupts` the family of
  states, `SeedIsSafeExactlyWhenItParses` the exact condition over all runs, and `ReconstructionIsSound`
  carries that condition and no other.
- The `Monotonic` predicate accepts a delta after a lost one (`MonotonicHidesALoss`), as
  aetelier-connect/src/framework/model.rs:253-258 says itself.
- A book-driven synchronizer keeps every event through `finalize` exactly when one symbol is tracked or
  nothing is pending (`FinalizeConservesIff`).
- `pending_files` answers "nothing" on a leaf without an index file, so a first flush stopped before its
  append leaves a file that is neither listed nor pending (`PendingIsDefinedIff`, `FirstFlushCanHide`).
- aetelier-io/src/leaf_index.rs:8-10 promises that a torn run loses at most the line in flight. No newline
  is restored before an append, so this is false: `ReadEntryCanBeLost` gives the run from an empty leaf in
  which an undisturbed append takes away an entry that was read back, and its own. One append is safe
  exactly when the file ends in a newline (`AppendIsSafeIff`).
- The append syncs the index file and not its directory, so a power cut before the next flush can take a
  new index away, with at most one completed entry, whose file is then neither listed nor pending
  (`FirstIndexCanVanish`).
- Together: a run loses as many of the entries it completed as there are closed lines that do not parse
  plus entries in an index taken away, and none exactly when each completed append found a final newline
  and each such power cut found no completed entry (`NothingIsLostIff`). Entries written whole without
  their newline are a case of their own: they are read back exactly while alone on the last line
  (`UnendedIsReadIff`). The files of all of them are complete, and pending once there is an index.
- A rehydration that uses up its 200 rounds reports `exhausted_before_range_end == false`, as a complete
  one does: `CappedWalkLooksComplete` is the input. Before the call, coverage is certain exactly when
  every served id the files lack is among the first 200 served above the start (`CoverageIff`).
- An initial delay below one millisecond with jitter makes the first backoff panic on an empty random
  range (`FirstBackoffPanicsIff`), and nothing else does (`RunAnswersAreBounded`).
- `suggested_delay_factor` documents its zero for a protocol rejection as unused
  (aetelier-connect/src/clients/disconnect.rs:87). After data it is used: the retry is immediate and
  uncounted, and any number of them leaves the circuit closed (`UncountedNeverTrips`); only failures with
  a nonzero factor count towards the limit (`TripsExactlyAtTheLimit`).
- The archive resumes at the first place of the cursor's key. A key whose cursor was written can be
  handled again exactly when the plan repeats a key (`RepeatsIff`), for a window exactly when it has a day
  and names a coin twice (`WindowRepeatsIff`); and a cursor file from another window or listing whose key
  occurs in the plan skips every earlier key that was not handled (`NothingIsSkippedIff`).
- Pruning changes no row, with any number of symbols, exactly when the clock is global or there is no
  hold-back window (`RefinesIff`). In book-driven mode with a window, one symbol's crossing prunes the
  book another symbol's next row needs, for every period and every window (`OtherSymbolPrunes`); with one
  symbol it never does (`PrunedRefinesFull`).
- Epochs repeat exactly at the 64-bit maximum (`EpochsAreFresh`).
- The volume-weighted price lies between the extremes for all prices exactly when no amount is negative,
  which `from_fills` does not check (`BoundsHoldIff`).

## Model

| member | source | states |
|---|---|---|
| `Levels.OrderbookDelta.Process` | aetelier-types/src/orderbooks/delta.rs:201-322 | A snapshot replaces the levels, a delta lays its writes over them, zero deletes; a text that fails to parse leaves the part already written |
| `Levels.OrderbookDelta.Best` | aetelier-types/src/orderbooks/delta.rs:430-438 | The best price of a side: a price with a level there that no other level beats, None exactly when the side is empty |
| `Levels.OrderbookDelta.IsCrossed` | aetelier-connect/src/framework/model.rs:441-447 | Whether some bid is at or above some ask |
| `Levels.OverlayIsPatch` | aetelier-types/src/orderbooks/delta.rs:394-418 | Writing levels one by one equals patching with the net effect of the whole list |
| `Levels.TrueBookIsPatch` | aetelier-types/src/orderbooks/delta.rs:269-322 | The venue's book after n updates is the patch of the empty book with their net effect |
| `Levels.Bridge` | aetelier-connect/src/framework/model.rs:605-643 | A delta that touches or overlaps the book's id brings the true book of m to the true book of b, for every a <= m + 1, m <= b |
| `ReconstructionLaws.LoadMeans` | aetelier-types/src/orderbooks/delta.rs:223-267 | After a snapshot each level holds the last positive size given for it, and a level given none is absent |
| `ReconstructionLaws.OverlayMeans` | aetelier-types/src/orderbooks/delta.rs:269-322 | After a delta each level it names holds the last size given, or nothing for zero; every other level is as before |
| `ReconstructionLaws.DeltaIsAcceptedIff` | aetelier-connect/src/framework/model.rs:605-643 | A sequenced delta is accepted if and only if a snapshot was taken, its ids follow the book's under the venue's predicate, it parses, and the result is not crossed; and what either answer leaves of the book |
| `ReconstructionLaws.SnapshotIsAcceptedIff` | aetelier-connect/src/framework/model.rs:605-616 | A sequenced snapshot is accepted if and only if it parses and is not crossed, and replaces levels and id |
| `ReconstructionLaws.FullRefreshReplaces` | aetelier-connect/src/framework/model.rs:592-603 | On a full-refresh venue every frame, flagged a snapshot or not, replaces the whole book, and is refused only when it does not parse or is crossed |
| `Reconstruction.SourcedOrderbook.Apply` | aetelier-connect/src/framework/model.rs:429-449 | One apply of any modelled kind, the crossed test included, computes `ApplyDelta` on the whole book state and returns its answer |
| `Reconstruction.SourcedOrderbook.ApplySeq` | aetelier-connect/src/framework/model.rs:605-643 | Continuity test, level engine and id update of a sequenced frame |
| `Reconstruction.SourcedOrderbook.ApplyPerOrder` | aetelier-connect/src/framework/model.rs:456-551 | The per-order frame: order map, level totals, touched levels and the order cap |
| `Reconstruction.SourcedOrderbook.ForceGap` | aetelier-connect/src/framework/model.rs:661-668 | The book is gapped, without an id, levels or orders |
| `L3Refinement.SumSplit` | aetelier-connect/src/framework/model.rs:456-551 | A level's total is the total without one order plus that order's share |
| `L3Refinement.AggregatesIsProjection` | aetelier-connect/src/framework/model.rs:456-551 | Aggregated totals equal the projection of the order map: a level is absent exactly when no order rests there |
| `L3Refinement.FrameRefines` | aetelier-connect/src/framework/model.rs:456-551 | A frame under the cap, from a snapshot or on a consistent book, leaves order map, totals and L2 levels consistent |
| `L3Refinement.L3RunRefines` | aetelier-connect/src/framework/model.rs:456-551 | After any sequence of frames from a snapshot that never exceeds the cap, the incremental totals and the L2 book written from touched levels both equal the projection of the orders |
| `L3Orders.FrameRests` | aetelier-connect/src/framework/model.rs:456-515 | After any frame an id it names rests exactly as the last entry naming it says (own side, price and size, or not at all); any other id rests as before, or nowhere after a snapshot |
| `L3Orders.RunRests` | aetelier-connect/src/framework/model.rs:456-515 | Over any run of frames every id rests as the last entry naming it since the last snapshot says |
| `L3Orders.RunBookIsItsOrders` | aetelier-connect/src/framework/model.rs:456-551 | Under the cap the L2 size at a level is the sum of the orders those entries left there, and the level is absent exactly when there are none |
| `L3Orders.OverCapIsRefused` | aetelier-connect/src/framework/model.rs:510-515 | A frame that takes the map over 200 000 orders is refused and leaves the levels alone |
| `RuntimeLiveness.StartIsAttended` | aetelier-connect/src/framework/runtime.rs:299-327 | Start-up, for every venue: in-flight counts the seeding pairs, a pair waits exactly when its one fetch is out or its seed will come in the stream, and nobody waits for REST without a seeder |
| `Runtime.SourceRuntime.KickOff` | aetelier-connect/src/framework/runtime.rs:299-327 | The start-up loops, in any order of pairs, leave the books, the in-flight count and the outstanding fetches of the machine's start |
| `Runtime.SourceRuntime.Drive` | aetelier-connect/src/framework/runtime.rs:328-465 | The loop over any events leaves the state machine's state |
| `Runtime.SourceRuntime.OneTurn` | aetelier-connect/src/framework/runtime.rs:340-465 | One event, possible or not, takes exactly the machine's step, loop test included |
| `Runtime.SourceRuntime.OnFrame` | aetelier-connect/src/framework/runtime.rs:479-608 | A frame is buffered, seeds, is applied and sent, or opens a gap that re-seeds or escalates |
| `Runtime.SourceRuntime.OnConnectionGap` | aetelier-connect/src/framework/runtime.rs:609-635 | Every book is gapped and cleared, every buffer dropped, and the run asks for a reconnect |
| `Runtime.SourceRuntime.Seed` | aetelier-connect/src/framework/runtime.rs:749-881 | Apply the snapshot, skip covered deltas, replay the rest, then stream, re-seed or escalate |
| `Runtime.SourceRuntime.ReplayBuffer` | aetelier-connect/src/framework/runtime.rs:807-862 | The replay loop computes `Replay`: book, sent books and the stuck remainder |
| `Runtime.SourceRuntime.Reseed` | aetelier-connect/src/framework/runtime.rs:982-1002 | A fetch starts only without one in flight and inside the budget |
| `RuntimeSoundness.FrameIsSound` | aetelier-connect/src/framework/model.rs:605-643 | An accepted honest frame leaves an uncrossed book that is the true book of its id; a refused one that parses leaves a true book |
| `RuntimeSoundness.IdsAdvance` | aetelier-connect/src/framework/model.rs:605-643 | Outside snapshots the id never moves back and an accepted delta moves it forward |
| `RuntimeSoundness.ReplayIsSound` | aetelier-connect/src/framework/runtime.rs:807-862 | Replaying any honest buffer sends only true books with growing ids |
| `RuntimeSoundness.StepKeepsInv` | aetelier-connect/src/framework/runtime.rs:340-465 | Every possible event keeps: each streaming book is true of its id, each buffer honest, the log true and increasing |
| `RuntimeSoundness.ReconstructionIsSound` | aetelier-connect/src/framework/runtime.rs:288-881 | In every run with honest frames in any order and number and seeds that parse when they reach a streaming pair, each emitted book equals the venue's book at its id and is not crossed, and ids strictly grow between snapshots |
| `RuntimeLiveness.StepKeepsInv` | aetelier-connect/src/framework/runtime.rs:384-439 | Every event keeps: in-flight equals the seeding pairs, each buffering pair has a fetch out, budgets hold |
| `RuntimeLiveness.NoStrandedBook` | aetelier-connect/src/framework/runtime.rs:299-439 | In every reachable running state each buffering pair has exactly one fetch in flight, in-flight counts the seeding pairs; always at most 8 re-seeds and 9 fetches since start-up or the last clean reconcile |
| `RuntimeLiveness.SpentBudgetReconnects` | aetelier-connect/src/framework/runtime.rs:384-439 | A fetch that comes back ends the run, spends one more re-seed on a new fetch, or reconciles and resets the budget; a failed one starts another exactly while fewer than 8 were spent, and ends the run at 8 |
| `RuntimeCompleteness.ChainIsAccepted` | aetelier-connect/src/framework/runtime.rs:807-862 | From a true book, a linked chain is accepted whole and sends the true book of each id |
| `RuntimeCompleteness.ReplayReconciles` | aetelier-connect/src/framework/runtime.rs:807-870 | A buffered chain replays cleanly if and only if its first uncovered delta links to the snapshot; then exactly the covered ones are skipped and the book ends true at the last id |
| `RuntimeCompleteness.RangeChainBridges` | aetelier-connect/src/framework/model.rs:605-643 | A range chain that starts at or below snapshot id + 1 links |
| `RuntimeCompleteness.PrevIdChainBridges` | aetelier-connect/src/framework/model.rs:605-643 | A previous-id chain that passes through the snapshot id links |
| `RuntimeCompleteness.SeedReconciles` | aetelier-connect/src/framework/runtime.rs:749-881 | Such a seed puts the pair back to streaming with its budget reset, synced at the true book of the last buffered id |
| `RuntimeBuffering.BufferIsWhatCame` | aetelier-connect/src/framework/runtime.rs:518-531 | In every running state a waiting pair's buffer is what it had in hand when it began to wait (nothing, the frame that gapped, or what a replay could not take) and every delta that came for it since, in order, down to the newest 100 000 |
| `RuntimeBuffering.ReplayMeans` | aetelier-connect/src/framework/runtime.rs:807-862 | A replay takes in order every delta the snapshot does not cover up to the first the book refuses, and leaves that one and all behind it |
| `RuntimeBuffering.FrameFate` | aetelier-connect/src/framework/runtime.rs:517-590 | A waiting pair keeps a delta; a streaming one goes on when the book takes the frame, and when it refuses waits with that frame in hand and a fetch out, or ends the run when no seeder or budget is left |
| `RuntimeBuffering.SeedReconcilesFromStart` | aetelier-connect/src/framework/runtime.rs:479-881 | From start-up, among any other events: if the newest deltas that came for a pair form a chain that bridges the snapshot brought to it, it streams, with a full budget, at the true book of the last delta that came |
| `RuntimeBuffering.ConnectionGapClears` | aetelier-connect/src/framework/runtime.rs:609-635 | A connection gap leaves every book empty, without an id and not waiting, and ends the run for a reconnect |
| `RuntimeBuffering.RunningMeans` | aetelier-connect/src/framework/runtime.rs:336-465 | A running run has seen no stop, no gap while open and no expired in-band deadline, and its stream is open or a fetch is out; it finishes only by a stop or when the stream ended and nothing is out |
| `RuntimeCompleteness.UnparsedSeedCorrupts` | aetelier-connect/src/framework/runtime.rs:776-793 | For every streaming pair with a fetch out: after an unparseable seed, any continuing honest delta that leaves a wrong level alone is sent with a book that is not the venue's |
| `RuntimeCompleteness.UnparsedSeedIsReachable` | aetelier-connect/src/framework/runtime.rs:776-793 | For every venue kind and every text that does not parse, five honest events from start-up send an empty book for a venue with a bid |
| `RuntimeCompleteness.SeedIsSafeExactlyWhenItParses` | aetelier-connect/src/framework/runtime.rs:776-793 | Over all venues, pairs and honest runs from start-up, seeds of these levels never cause a false book if and only if the levels parse |
| `RuntimeCompleteness.MonotonicHidesALoss` | aetelier-connect/src/framework/model.rs:253-258 | However many updates before m are lost, m is accepted, and its book is the venue's if and only if no level m leaves alone was changed by the lost ones |
| `TradeBook.SourcedTradebook.Apply` | aetelier-connect/src/framework/model.rs:738-758 | One print computes the whole new tradebook state and its answer |
| `TradeBook.OutcomeTellsAll` | aetelier-connect/src/framework/model.rs:738-758 | A repeated or older number changes nothing, a jump of two or more loses exactly the numbers between, and everything else is counted and moves the position |
| `TradeBook.LossIsExact` | aetelier-connect/src/framework/model.rs:738-758 | From a known position, over prints in any order: sequenced prints applied plus prints lost is the distance the position moved |
| `TradeBook.CarryMakesReconnectsExact` | aetelier-connect/src/framework/runtime.rs:661-683 | However a stream is cut into connections, the summed losses, gaps and prints and the carried position are those of one uninterrupted tradebook |
| `MarketSync.MarketSynchronizer.DrainEvents` | aetelier-connect/src/synchronizers/market_sync.rs:274-340 | The pending events are split, in order, into rows, kept and late, and the late count grows by the late ones |
| `MarketSync.MarketSynchronizer.EmitRows` | aetelier-connect/src/synchronizers/market_sync.rs:367-405 | A crossing pushes its rows (at most the gap cap), prunes and counts |
| `MarketSync.MarketSynchronizer.Advance` | aetelier-connect/src/synchronizers/market_sync.rs:351-405 | The global clock anchors, ignores or crosses as the ripe period says |
| `MarketSync.MarketSynchronizer.OnOrderbook` | aetelier-connect/src/synchronizers/market_sync.rs:458-540 | A book is recorded and, in book-driven mode, moves its symbol's clock |
| `MarketSync.MarketSynchronizer.OnEvent` | aetelier-connect/src/synchronizers/market_sync.rs:547-616 | An event is refused after finalize, otherwise buffered, and drives the clock in its mode |
| `MarketSync.MarketSynchronizer.Finalize` | aetelier-connect/src/synchronizers/market_sync.rs:624-700 | The terminal rows of either mode, once |
| `MarketSyncTrace.Partition` | aetelier-connect/src/synchronizers/market_sync.rs:274-340 | A crossing sends each pending event to exactly one of: one row, kept, late |
| `MarketSyncTrace.CrossConserves` | aetelier-connect/src/synchronizers/market_sync.rs:367-405 | Over one crossing the events balance, late ones are past their row and never settlements, and the counters agree with the rows |
| `MarketSyncConservation.RunIsAccounted` | aetelier-connect/src/synchronizers/market_sync.rs:386-434 | In every run: drained plus buffered snapshots are the rows, `total_captured` counts them, `late_events_dropped` is the late events plus the calls after finalize, and no settlement is late |
| `MarketSyncConservation.RunConserves` | aetelier-connect/src/synchronizers/market_sync.rs:624-700 | In every run (for book-driven mode until finalize) each accepted event is in exactly one row, pending, or late |
| `MarketSyncConservation.FinalizeConservesIff` | aetelier-connect/src/synchronizers/market_sync.rs:637-668 | A book-driven finalize conserves events if and only if one symbol is tracked or nothing is pending |
| `MarketSyncConservation.AfterFinalizeNothingMoves` | aetelier-connect/src/synchronizers/market_sync.rs:423-434 | No later call moves any event or row |
| `MarketSyncGrid.RunKeepsGrid` | aetelier-connect/src/synchronizers/market_sync.rs:351-405 | The clock is always the ripe period of the largest driving timestamp, and rows end where it stands |
| `MarketSyncGrid.RowsCarryTheirOwn` | aetelier-connect/src/synchronizers/market_sync.rs:274-340 | In every mode and run a non-terminal row p carries only events with (p-1)P <= ts < pP, settlements aside |
| `MarketSyncGrid.RowNumbers` | aetelier-connect/src/synchronizers/market_sync.rs:383-404 | Row numbers strictly increase over one-clock runs, and are consecutive when no gap was capped |
| `MarketSyncHoldBack.HoldBackProtects` | aetelier-connect/src/synchronizers/market_sync.rs:351-405 | An event at most W behind the largest driving timestamp, arriving after the anchor in a run without a capped gap, is never late: it is in its own row, pending, or terminal |
| `MarketSyncBooks.RecordAgrees` | aetelier-connect/src/synchronizers/market_sync.rs:231-238 | A late book changes pruned and full history alike |
| `MarketSyncBooks.PruneAgrees` | aetelier-connect/src/synchronizers/market_sync.rs:259-265 | Pruning at a row changes no answer from that row on |
| `MarketSyncBooks.PrunedRefinesFull` | aetelier-connect/src/synchronizers/market_sync.rs:231-265 | Over every run with any number of symbols under a global clock or without a hold-back window, and with one symbol in every mode, each non-terminal row carries the book the unpruned history of its symbol gives |
| `MarketSyncBooks.PruneKeepsIff` | aetelier-connect/src/synchronizers/market_sync.rs:259-265 | Pruning keeps a book if and only if no later book lies below the row |
| `MarketSyncBooks.OtherSymbolPrunes` | aetelier-connect/src/synchronizers/market_sync.rs:259-265 | For every period and every hold-back window, a row that alone carries a book carries none after another symbol's crossing |
| `MarketSyncBooks.RefinesIff` | aetelier-connect/src/synchronizers/market_sync.rs:511-533 | Every row of every run carries what the unpruned history gives if and only if the clock is global or there is no hold-back window |
| `MarketSyncFed.RowsCarryWhatWasFed` | aetelier-connect/src/synchronizers/market_sync.rs:231-255 | In every mode, over runs of one symbol and said of the calls alone: each row is stamped with its number times the period and carries the last-fed book of the greatest period below its number, none exactly when none was fed there; a terminal row the last-fed book of the greatest period |
| `MarketSyncFed.CrossPlaces` | aetelier-connect/src/synchronizers/market_sync.rs:274-340 | A crossing emits at most 10 000 rows; an event goes to the row of its own period and no other, a settlement whose row is gone to the first row; it stays exactly when all rows are before its own, and is late exactly when its row is gone and it is no settlement |
| `MarketSyncFed.OrderIsKept` | aetelier-connect/src/synchronizers/market_sync.rs:274-340 | The events of a row, and those that stay, keep the order they arrived in |
| `MarketSyncFed.FinalizePushes` | aetelier-connect/src/synchronizers/market_sync.rs:637-700 | One terminal row for each anchored clock, numbered right behind it, with everything pending; none without one |
| `MarketSyncFed.RipeMeans` | aetelier-connect/src/synchronizers/market_sync.rs:351-365 | The ripe period is the one the timestamp falls in, moved back by the hold-back window |
| `Naming.UniquePath` | aetelier-io/src/naming.rs:17-31 | The search ends, and chooses the name itself or the first free number, never a taken name |
| `Naming.NamesLookLikeThis` | aetelier-io/src/naming.rs:17-31 | The stem, a hyphen, the number and the suffix, on two names |
| `Naming.TakenNumbersFit` | aetelier-io/src/naming.rs:17-31 | Pigeonhole: n taken numbers need at least n names in the directory |
| `Naming.ChosenIsUnique` | aetelier-io/src/naming.rs:17-31 | The directory and the request decide one name |
| `LeafIndex.LeafStore.Persist` | aetelier-io/src/sink.rs:87-113 | An undisturbed flush is the five steps in order, to a name that was free |
| `LeafIndex.LeafStore.FinalizeInto` | aetelier-io/src/leaf_index.rs:123-133 | The staged file moves to a free name, leaving every other file |
| `LeafIndex.LeafStore.ReadIndex` | aetelier-io/src/leaf_index.rs:166-188 | The entries of the lines that parse, in order, and the number of non-blank lines that do not |
| `LeafIndex.LeafStore.PendingFiles` | aetelier-io/src/leaf_index.rs:191-209 | The parquet files no parsed entry lists; none without an index |
| `LeafConsistency.StepKeepsInv` | aetelier-io/src/leaf_index.rs:99-164 | Every step and every stop, torn appends and power cuts included, keeps entries true of complete files, lines about different files, and an index the directory was not synced for at one append |
| `LeafConsistency.LeafIsConsistent` | aetelier-io/src/leaf_index.rs:99-209 | After any flushes, stops, power cuts and restarts: parsed entries are true of complete files, present files split into listed and pending once an index exists, and the entries whose appends completed and which are no longer read number at most the torn lines plus the power cuts that took an index, all with complete files |
| `LeafConsistency.AppendIsSafeIff` | aetelier-io/src/leaf_index.rs:151-164 | An append adds its entry and keeps the others if and only if the file ends in a newline; otherwise its entry and the open line's are not read |
| `LeafConsistency.NothingIsLostIff` | aetelier-io/src/leaf_index.rs:151-188 | The completed entries a run loses are as many as the closed lines that do not parse plus those in an index taken away, at most one each time; none if and only if each completed append found a final newline and no power cut took a completed entry |
| `LeafConsistency.UnendedIsReadIff` | aetelier-io/src/leaf_index.rs:151-188 | An entry written whole without its newline is read back if and only if it is alone on the open last line; otherwise its file is complete, and pending once an index exists |
| `LeafConsistency.ReadEntryCanBeLost` | aetelier-io/src/leaf_index.rs:151-164 | From an empty leaf, an entry that parsed is gone after the next undisturbed flush, and so is that flush's own |
| `LeafConsistency.FirstIndexCanVanish` | aetelier-io/src/leaf_index.rs:151-164 | From an empty leaf, a flush that completed and was read back is neither listed nor pending after a power cut before the next flush |
| `LeafConsistency.SpoiledIsPending` | aetelier-io/src/leaf_index.rs:151-209 | The file of anything written on an unparseable line is complete and pending |
| `LeafConsistency.PendingIsDefinedIff` | aetelier-io/src/leaf_index.rs:191-209 | Present is listed plus pending if and only if an index exists or no parquet file does |
| `LeafConsistency.FirstFlushCanHide` | aetelier-io/src/sink.rs:87-113 | A first flush stopped before its append leaves a file that is neither |
| `LeafConsistency.FilesAreNeverOverwritten` | aetelier-io/src/leaf_index.rs:123-133 | Once its rename is durable a file stays, unchanged, through every later run |
| `ArchivePlan.PlannedKeys` | aetelier-connect/src/framework/entrepot.rs:236-254 | The nested loops list the window's keys day by day, context first, then hour by hour and coin by coin |
| `ArchivePlan.PlanIsInOrder` | aetelier-connect/src/framework/entrepot.rs:236-254 | The place of every key and the number of keys: day by day, context first when asked for, then 24 hours, then the coins in order |
| `ArchivePlan.KeysLookLikeThis` | aetelier-connect/src/framework/entrepot.rs:242-248 | The text of a context key and of a book key |
| `ArchivePlan.BookKeyIsInjective` | aetelier-connect/src/framework/entrepot.rs:236-254 | The text of a book key determines its day, hour and coin |
| `ArchivePlan.PlanIsDistinct` | aetelier-connect/src/framework/entrepot.rs:236-254 | A nonempty window plans every key once if and only if it names every coin once |
| `ArchiveCursor.Backfill.ResumeIndex` | aetelier-connect/src/framework/entrepot.rs:335-360 | The place after the cursor's first occurrence; zero without a cursor or a match |
| `ArchiveCursor.Backfill.Spawn` | aetelier-connect/src/framework/entrepot.rs:653-814 | A run leaves the cursor and the record of handled keys that the machine leaves, until it ends or the keys do |
| `ArchiveCursor.RecordedIff` | aetelier-connect/src/framework/entrepot.rs:676-796 | Over every run an event records a key if and only if it is a fetch that was absent, corrupt, undecodable, or decoded and delivered, under exactly the outcome that calls for; any other leaves cursor and record, and a failed fetch or a closed receiver ends the run |
| `ArchiveCursor.PassedKeysWereSettled` | aetelier-connect/src/framework/entrepot.rs:653-814 | Every key before the cursor's place, and every key once a run walked off the end, was settled by such a fetch or handled earlier |
| `ArchiveCursor.NoKeyIsSkipped` | aetelier-connect/src/framework/entrepot.rs:653-814 | From any cursor file, given that the keys before the starting place had been handled: over any runs and any failures no key is handled before every earlier one, everything before the cursor's place was handled, and a finished walk handled all |
| `ArchiveCursor.NothingIsSkippedIff` | aetelier-connect/src/framework/entrepot.rs:335-360 | Every finished walk has handled the whole plan if and only if the keys before the starting place had been handled |
| `ArchiveCursor.OnlyInterruptedKeysRepeat` | aetelier-connect/src/framework/entrepot.rs:335-375 | From any cursor, with distinct keys and successful writes, the handled keys climb by one after each saved key; only a key stopped before its write is handled again |
| `ArchiveCursor.RepeatedKeyRepeatsWork` | aetelier-connect/src/framework/entrepot.rs:335-360 | For every plan with two equal keys a run with successful writes handles a saved key again |
| `ArchiveCursor.RepeatsIff` | aetelier-connect/src/framework/entrepot.rs:335-375 | With successful writes a saved key can be handled again if and only if the plan repeats a key |
| `ArchiveCursor.WindowRepeatsIff` | aetelier-connect/src/framework/entrepot.rs:236-254 | For the plan of a window: if and only if it has a day and names a coin twice |
| `Rehydrate.FirstCopiesMeans` | aetelier-io/src/rehydrate.rs:83-92 | The rows read are the first copy of every numeric id |
| `Rehydrate.TakeBatch` | aetelier-io/src/rehydrate.rs:130-152 | One batch: position, rows taken and whether it advanced |
| `Rehydrate.TakeMeans` | aetelier-io/src/rehydrate.rs:130-152 | A batch adds all its ids up to the limit and moves the position to its largest id |
| `Rehydrate.WalkVenue` | aetelier-io/src/rehydrate.rs:111-157 | The loop computes the walk `Rounds`: rows, how it ended and after how many rounds |
| `Rehydrate.WalkEnds` | aetelier-io/src/rehydrate.rs:117-157 | The position climbs at least one id a round; stopping short of the range without failure or exhaustion takes all 200 rounds |
| `Rehydrate.WalkCovers` | aetelier-io/src/rehydrate.rs:117-157 | With a lawful venue every served id up to the position is present, and exhaustion means no later id is served |
| `Rehydrate.CoverageIff` | aetelier-io/src/rehydrate.rs:111-157 | Every lawful way of paging covers the range if and only if each served id the files lack is among the first 200 served above the start |
| `Rehydrate.CappedWalkLooksComplete` | aetelier-io/src/rehydrate.rs:111-157 | The repair's walk on files with ids 1 and n, n > 201, and a venue that gives one id a page: not exhausted, not failed, id 201 missing |
| `Rehydrate.RehydrateTrades` | aetelier-io/src/rehydrate.rs:64-173 | The repair keeps every first copy, adds only ids the files lacked, writes them in id order, and covers every served id of the range when the walk stops before its 200 rounds or the missing ids are within their reach |
| `Breaker.ReconnectPolicy.NextAction` | aetelier-connect/src/clients/reconnect.rs:167-266 | One decision computes the whole new policy state and its answer |
| `Breaker.RunIsSound` | aetelier-connect/src/clients/reconnect.rs:167-297 | In every run the delay is the initial delay doubled per backoff and capped, the cooldown is 4 or 8 times the maximum, Open holds the deadline of its trip, and Closed means fewer failures than the limit and conversely |
| `Breaker.JitterIsBounded` | aetelier-connect/src/clients/reconnect.rs:246-252 | A drawn delay lies between its base and the base plus full jitter |
| `Breaker.RunAnswersAreBounded` | aetelier-connect/src/clients/reconnect.rs:167-266 | In every run each backoff is at most 2 max (1 + jitter), no probe precedes the full cooldown of the last trip, and a panic needs jitter and an initial delay under a millisecond |
| `Breaker.AnswersAreExact` | aetelier-connect/src/clients/reconnect.rs:167-266 | Every answer of every run from the calls and notes before it: give-up, refusal until the full cooldown, the one attempt after the initial delay, the doubled cooldown, the immediate retry, the trip at the limit, and a backoff between base and base (1 + jitter), equal without jitter, where base is the initial delay doubled per backoff, capped, in whole milliseconds, times 2 or 1 |
| `Breaker.TripsExactlyAtTheLimit` | aetelier-connect/src/clients/reconnect.rs:217-244 | In every run the circuit is closed if and only if the failures with a nonzero factor since the last connection are fewer than the limit, and while closed the policy's counter is that number |
| `Breaker.UncountedNeverTrips` | aetelier-connect/src/clients/reconnect.rs:167-224 | Any number of clean closes, rejections and dropped receivers leaves the circuit closed; a clean close or a rejection after data is retried at once every time, the others give up |
| `Breaker.FirstBackoffPanicsIff` | aetelier-connect/src/clients/reconnect.rs:246-252 | The first backoff panics if and only if jitter is on and the initial delay is under a millisecond |
| `FeedCache.FeedWatch.NoteLive` | aetelier-connect/src/framework/runtime.rs:920-944 | Data updates last-seen, the live set and, unless spared, the feed |
| `FeedCache.FeedWatch.SweepStaleDatatypes` | aetelier-connect/src/framework/runtime.rs:886-917 | The sweep, in any order of keys, marks exactly the overdue live feeds stale |
| `FeedCache.CacheAgrees` | aetelier-connect/src/framework/runtime.rs:920-957 | In every run the feeds equal those of a runtime that calls `mark_live` on every event |
| `FeedCache.CachedFeedsAreLegal` | aetelier-connect/src/framework/feed.rs:88-100 | From running feeds every move follows legal edges and terminal feeds never change |
| `FeedCache.MarkLiveIsLegalIff` | aetelier-connect/src/framework/feed.rs:280-289 | `mark_live` is legal exactly when the feed is not requested, reconnecting or draining |
| `FeedCache.SweepIsExact` | aetelier-connect/src/framework/runtime.rs:886-917 | A live feed goes stale exactly when its datatype is watched and its last data is more than two cadences old |
| `FeedCache.StaleMeansQuiet` | aetelier-connect/src/framework/feed.rs:291-298 | A stale feed was found too quiet by some sweep and has had no data since |
| `FeedCache.StateFollowsMarks` | aetelier-connect/src/framework/runtime.rs:886-957 | In every run a feed nothing marked is as it was, one last marked by a gap is resubscribing, and one last marked by data is live, or stale exactly if a sweep since found it too quiet |
| `FeedCache.EdgesInto` | aetelier-connect/src/framework/feed.rs:88-100 | The legal edges by the state they lead to |
| `ConnEpoch.EpochsAreLinearizable` | aetelier-connect/src/framework/budget.rs:219-237 | Every interleaving, with stale loads and spurious failures, returns what the same calls return one after another in the order of their swaps |
| `ConnEpoch.EpochsAreFresh` | aetelier-connect/src/framework/budget.rs:219-237 | Each epoch is at least its caller's clock and no more than that or one above the epoch before; a later success has a larger epoch exactly when the earlier is below the 64-bit maximum |
| `Signing.UriEncode` | aetelier-entrepot/src/sign.rs:28-40 | The loop computes the percent-encoding byte by byte |
| `Signing.ByteBecomes` | aetelier-entrepot/src/sign.rs:28-40 | The unreserved characters stay, a slash too when not encoded, and every other byte becomes a percent sign and two upper-case hexadecimal digits |
| `Signing.EncodeConcat` | aetelier-entrepot/src/sign.rs:28-40 | Encoding goes byte by byte |
| `Signing.EncodingRoundTrips` | aetelier-entrepot/src/sign.rs:28-40 | Decoding an encoded text gives it back, with or without encoded slashes |
| `Signing.EncodingIsClean` | aetelier-entrepot/src/sign.rs:28-40 | An encoding never holds an equals sign or an ampersand |
| `Signing.SortedIsUnique` | aetelier-entrepot/src/sign.rs:53-64 | A multiset of pairs has one sorted listing |
| `Signing.JoinIsInjective` | aetelier-entrepot/src/sign.rs:53-64 | Joining clean pairs with the separators is injective |
| `Signing.BuildCanonicalQuery` | aetelier-entrepot/src/sign.rs:53-64 | The loops compute encode, sort, join |
| `Signing.CanonicalIsWritten` | aetelier-entrepot/src/sign.rs:53-64 | The canonical query is the encoded pairs in ascending byte order of key and then value, written key=value with ampersands between |
| `Signing.CanonicalExactlyOnPermutations` | aetelier-entrepot/src/sign.rs:53-64 | Two queries have the same canonical string if and only if one is a permutation of the other |
| `Aggregate.FromFills` | aetelier-types/src/trades.rs:570-641 | Each refusal exactly in its case and order; otherwise the fills' common exchange, pair and side, totals, true extremes, vwap, ends and a sweep depth within max - min; vwap between the extremes for nonnegative amounts |
| `Aggregate.NotionalIsBetween` | aetelier-types/src/trades.rs:598-635 | For nonnegative amounts px_min qty <= notional <= px_max qty |
| `Aggregate.BoundsHoldIff` | aetelier-types/src/trades.rs:598-635 | For a positive quantity these bounds hold at all prices if and only if no amount is negative |
| `Aggregate.TotalsAreOrderFree` | aetelier-types/src/trades.rs:598-635 | Quantity, notional and extremes depend only on the multiset of fills |
| `Aggregate.DedupByIdentity` | aetelier-types/src/trades.rs:667-693 | The pass with its map of fingerprints keeps and counts what the fold does |
| `Aggregate.DedupKeepsFirsts` | aetelier-types/src/trades.rs:667-693 | Kept plus removed is all; kept identities are distinct, and each identity keeps its first row |
| `Aggregate.DedupKeepsOrder` | aetelier-types/src/trades.rs:667-693 | The rows kept are those at the first places of their identities, in input order; the conflicts are the removed rows whose fingerprint differs from the kept row's |
| `Aggregate.DedupIsIncremental` | aetelier-types/src/trades.rs:667-693 | Deduplicating in batches keeps the same rows and adds up to the same counts; twice is once |

## Left out

- Levels.OrderbookDelta.Process: the refusal of a frame for another symbol is left out, because the runtime hands a book only the frames of its own pair, and so is depth pruning (`max_depth` is None).
- Reconstruction.SourcedOrderbook.Apply: the checksummed model and its CRC recipes are left out, because the hash is a foreign call and the venue's checksum is the only continuity test that model has.
- The undeclared-pair filter, timestamps, latency and counters in `handle_event`, and the routing of trades, funding and open interest through it: they would only add easy members. Trades are modelled in `TradeBook`.
- Runtime.SourceRuntime.Seed: the runtime's map holds book values that it replaces, not the mutable objects, so aliasing between a pair's book and its readers is not captured.
- Venue adapters, decoders, transports, drivers and workers: their event streams and REST answers are the environment.
- Delays and pacing of fetch retries: the environment decides when a fetch lands.
- MarketSync.MarketSynchronizer.DrainEvents: the five event vectors are one tagged sequence, so the order of events of different kinds inside a snapshot, which the source does not have, is not meaningful.
- MarketSyncHoldBack.HoldBackProtects: events are values, so the claim is about an event value that arrives once; the tag stands for whatever tells two events apart.
- Aggregation into fixed market aggregates and the parquet flush of the synchronizer.
- The leaf lock registry and `flock`, the SHA-256 function and the JSON text of an entry; an append stopped half way is a whole or cut piece of a line.
- ArchivePlan.PlannedKeys: days are numbered and their eight-character texts are a parameter; calendar arithmetic is not modelled.
- The listing of a window without named coins, edge probing, object checksums and line decoding of the archive: a fetch is one of absent, corrupt, unreachable or bytes.
- Rehydrate.RehydrateTrades: takes the rows of the selected files in name order; the selection by extension and name is not modelled.
- Breaker.ReconnectPolicy.NextAction: durations and the failure counter are unbounded, so 32-bit and `Duration` overflow are not modelled.
- FeedCache.CacheAgrees: marks by the worker between connections are outside the run; a runtime starts with empty live sets.
- ConnEpoch.EpochsAreLinearizable: the retry loop is a state machine over its atomic steps, since the proof is about many callers at once; that a caller finally wins is not claimed, because a weak swap may fail for ever.
- Signing.CanonicalExactlyOnPermutations: headers, the hashed payload, HMAC keys and the signature itself are not modelled.
- Aggregate.FromFills: decimal rounding and overflow are not modelled, and `place_at`, evidence and split reasons only copy fields.
- 64-bit overflow of counters, ids and period arithmetic, other than the connection epoch.
