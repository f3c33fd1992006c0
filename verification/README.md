# Order book server: a verified model

The server rebuilds a full per-order (L4) book from two block streams of a node (order statuses
and book diffs), audits it against node snapshots, derives aggregated (L2) views at seven
precisions, and publishes both. This project models that core in Dafny and proves what it keeps,
over every input, every call sequence and every run.

`dafny verify dfyconfig.toml` checks everything. Each module is one file.

| modules | what they cover |
|---|---|
| SlabList, Orders, Matching, FlatBook, LevelBook, MultiBook, Snapshots, TriggerRemoval | the matching book: slab lists, the level maps over them, the flat form they refine, and rebuilding from snapshots |
| BookOutcomes, DiffOutcomes | what each operation and each diff leaves behind, order by order and in plain prices |
| Thinning, ThinReplays | a book beside the same book without some orders of size zero, under every operation and block |
| Buckets, Aggregation, Views, BookViews | rounding, level grouping, and the cascade of precisions |
| Blocks, Replays, Scopes, BookState, SharedViews | applying blocks, running on a subset of coins, the incremental view cache and its copy-on-write sharing |
| Queues, Pairing, Listeners, ListenerObject, StreamPairs, ScopedListener, ScopedRuns | the two streams, their pairing, the listener, and the listener of a subset of coins |
| Audit, Protocol, Publication, AuditEffects, Repairs, Continuity, Freshness, Announcements, NodeChain, Truth | the recovery protocol over whole runs |
| WireCache, Delivery, World, Cursor | encoded frames, client connections, listener and connection together, the file reader |
| Findings | one concrete input for each property that fails in general |

Where the source updates objects in place the model has classes, and each method is proved to act
on the object's value as a function does; the theorems are about those functions. `hide`
statements only narrow what a proof looks at.

The main theorems:

- `Protocol.RunSafe`, `Publication.RunConsecutive`, `Publication.OvertakenAttemptInstallsNothing`:
  for every run, with no assumption about the node, replaying the remembered blocks on the
  captured clone gives exactly the live books, height and time; between two gaps the L4 updates are
  all heights the live book went through, once and in order; and no snapshot attempt overtaken by a
  fence, an expiry, a gap or an overflow of the remembered blocks installs anything.
- `Publication.RunContinues`, `Continuity.RunLeads`: replaying the L4 updates on the old live books
  gives the new ones; exactly, over every run in which no audit rebuilds, and up to empty books over
  every run of legal blocks, whatever audits complete.
- `StreamPairs.RunFollows`: over every run, the fill-then-drain of a load included, a ready listener
  has paired exactly the ordered intersection of the heights accepted since the last fence.
- `Truth.RunTrue`, `Truth.AuditsNeverDiverge`, `Truth.SubscriberHoldsLiveBooks`: while the node's
  batches and snapshots are true to one chain of blocks, the live books are the node's books at the
  live height in every reachable state, audits never announce a gap, and subscribers hold the live
  books.
- `World.FramesShowLiveStates`, `World.FramesShowNode`: in every run of the listener together with a
  connection that lags, subscribes, unsubscribes and reconnects as it likes, every frame the
  connection has sent shows the first levels of the subscribed view of a live state of the listener
  (of the node's book, if the node is truthful) at the frame's height, and heights rise.
- `AuditEffects.BenignAuditIff`: exactly when an audit that rebuilds the books goes unnoticed.
- `Repairs.LoadInstallsNode`, `Repairs.DivergedInstallsNode`, `Repairs.RepairHolds`: a load and a
  diverged audit install the books of the node's snapshot, untriggered orders left out, with the
  later blocks applied, exactly when these apply; auditing the repaired books again finds them equal.
- `Announcements.EveryTurnAnnounces`, `Announcements.RunAnnounced`: over every run, each turn that
  raises the live height broadcasts exactly one map of views, the full rebuild at the new height, and
  no height is announced twice by turns; without a live book nothing but fills is served.
- `DiffOutcomes.NewDiffOutcome`, `DiffOutcomes.TargetDiffOutcome`: every field of the order that a
  diff rests, where it rests, what it trades, what an update or removal changes, and when each is
  refused.
- `ScopedRuns.RunScoped`: over every run in which the full listener succeeds, a listener of some
  coins goes through the projections of its states; byte accounting, loads and audits included.
- `LevelBook.MatchOrder` with `Matching.OutcomeUnique`: matching over a map of linked lists is the
  one possible outcome of consuming a price-then-time queue.
- `Views.FiveFigureViewsDirect`, `Views.CoarseViewsDirectIff`: when the cascade of rounded views is
  the direct aggregation, exactly.

## Findings

- Coarse views. The 4, 3 and 2 figure views are built from the five-figure view of mantissa 5.
  They equal direct aggregation if and only if every resting price has more digits than the figures
  kept or is a multiple of 5 (`Views.CoarseViewsDirectIff`). Prices of at least five raw digits
  always qualify; a bid at 12 in raw units does not (`Findings.CoarseViewExample`).
- Benign audits. An audit that only finds new empty books rebuilds from the node snapshot, and
  the rebuild drops orders of size zero. It goes unnoticed if and only if every order missing from
  the rebuilt books, at first those of size zero at the snapshot's height, is matched away by the
  later remembered blocks before one of them names it (`AuditEffects.BenignAuditIff`); if one is named, the audit fails and the stream is
  fenced, even though the live book may hold positive sizes only (`Findings.ZeroSizeAuditExample`).
  Sizes that become zero after the snapshot's height do no harm (`AuditEffects.BenignAuditInvisible`).
- Duplicate oids. Adding an order whose oid rests at another price or side makes the index lose the
  older order, which no cancel reaches any more (`Findings.DuplicateOidExample`);
  `FlatBook.AddBeforeWellFormedIff` gives the exact condition.
- Dirty marks. A New diff marks its own coin dirty but inserts into its status's coin. The cache
  stays right if and only if the two coins are one, the status's coin is already marked, or it has a
  book that the addition leaves as it was (`BookState.NewDiffAgreesIff`); `BookState.StaleCacheExample`
  is a block that leaves a stale view.
- Time. An audit keeps the live time if and only if it did not diverge with a snapshot at exactly
  the live height, or the live time is 0 anyway; in that one case the time becomes 0
  (`Protocol.CommitsAtLiveHeight`, `Findings.ZeroTimeExample`). A first load has time 0 as long as no
  queued block has been applied to it (`Protocol.LoadTime`). With a truthful node the time is the
  node's as soon as one block has been applied since (`Truth.RunTrue`).
- Documentation. The repository's README says that the server exits when an audit finds a
  difference. The code reloads the node snapshot and publishes a gap, and the model follows the code.

## Assumptions

They are stated as `requires` where they are needed and nowhere else: a New diff's oid is not yet
resting in its coin and an Update leaves a positive size (`Replays.LegalDiff`), or only that
nothing comes to rest under an oid that rests by then (`ThinReplays.FreshDiff`); within a block, an opening status and a New
diff of one oid name one coin unless that diff's coin is ignored (`Blocks.CoinsAgree`,
`Freshness.Owner`); for scopes, all events of one oid in a block do (`Scopes.OneCoinPerOid`); sizes
are positive where a round trip is claimed; decimal length is exact. `Findings.SomeNode` is a node
that keeps the promises asked of nodes. Lock scopes are atomic steps: a failing chunk of records and
the fence that follows it happen under one lock, and there is at most one snapshot task.

## Model

| member | source | states |
|---|---|---|
| `SlabList.LinkedList.PushBack` | server/src/order_book/linked_list.rs:35-57 | appends the entry at the back of the key sequence, or changes nothing and says so when the key exists; links, tail and key index stay a chain both ways |
| `SlabList.LinkedList.InsertBefore` | server/src/order_book/linked_list.rs:61-81 | inserts directly in front of the named key, at every position including the head; refused without effect when that key is missing or the new one exists |
| `SlabList.LinkedList.RemoveFront` | server/src/order_book/linked_list.rs:91-113 | drops the first entry, or reports an empty list |
| `SlabList.LinkedList.RemoveNode` | server/src/order_book/linked_list.rs:115-137 | drops exactly the entry with that key and keeps the order of the rest |
| `SlabList.LinkedList.HeadValue` | server/src/order_book/linked_list.rs:87-89 | the value at the front of the sequence |
| `SlabList.LinkedList.SetNodeValue` | server/src/order_book/linked_list.rs:139-142 | replaces one value in place; keys and order stay |
| `SlabList.LinkedList.ToVec` | server/src/order_book/linked_list.rs:144-153 | following the forward links from the head spells the sequence, and ends |
| `SlabList.LinkedList.ToRevVec` | server/src/order_book/linked_list.rs:176-185 | following the backward links from the tail spells the same sequence reversed |
| `SlabList.LinkedList.Fold` | server/src/order_book/linked_list.rs:155-166 | folds the values in sequence order |
| `SlabList.LinkedList.EntriesHaveDistinctKeys` | server/src/order_book/linked_list.rs:21-33 | the key index is a bijection onto the live slots, so keys are distinct |
| `Matching.MatchShape` | server/src/order_book/mod.rs:171-209 | the filled oids are the first makers in priority order, each crossing; at most one more maker is reduced, and then the taker is exhausted; all others are untouched |
| `Matching.OutcomeUnique` | server/src/order_book/mod.rs:171-209 | that description determines the remaining makers, the filled oids and the leftover |
| `Matching.MatchConserves` | server/src/order_book/mod.rs:171-209 | the taker's reduction equals the makers' total reduction, zero-size makers included |
| `Matching.LeftoverFacesNothing` | server/src/order_book/mod.rs:171-209 | a taker with size left faces no crossing maker |
| `Matching.TradesWithinLimit` | server/src/order_book/mod.rs:171-209 | every maker filled or reduced has a price at most a buyer's limit, or at least a seller's; all other makers are untouched |
| `Matching.BeyondLimit` | server/src/order_book/mod.rs:181-187 | a taker with size trades nothing if and only if there is no maker or the best one is beyond its limit |
| `Matching.LeftoverBeyondLimit` | server/src/order_book/mod.rs:181-203 | a taker with size left has left only makers beyond its limit |
| `LevelBook.LevelsDetermineSide` | server/src/order_book/mod.rs:14-19 | a map of levels stands for exactly one priority-ordered sequence of orders |
| `LevelBook.MatchLevel` | server/src/order_book/mod.rs:188-197 | the inner loop over one linked list is the flat matching of that level's orders, and ends even with zero-size makers |
| `LevelBook.MatchOrder` | server/src/order_book/mod.rs:171-209 | matching over the sorted map of linked lists gives the flat matching's makers, filled oids and leftover, with no empty level left; levels at prices beyond the limit keep their orders, and only those remain if size is left |
| `LevelBook.AddOrderToBook` | server/src/order_book/mod.rs:148-169 | rests the order at the back of its price or in front of the named order; on failure no empty level stays |
| `LevelBook.OrderBook.AddOrderBefore` | server/src/order_book/mod.rs:70-87 | the object's new book and reply are those of the flat book, also when placement fails after partial matching |
| `LevelBook.OrderBook.CancelOrder` | server/src/order_book/mod.rs:89-105 | same, for cancelling; emptied levels go |
| `LevelBook.OrderBook.ModifySz` | server/src/order_book/mod.rs:107-124 | same, for resizing in place |
| `LevelBook.OrderBook.ToSnapshot` | server/src/order_book/mod.rs:127-131 | the levels concatenated best price first are the two flat sequences |
| `LevelBook.FromSnapshot` | server/src/order_book/mod.rs:134-145 | adding the orders one by one gives the flat book's rebuild |
| `LevelBook.RemoveTriggersInPlace` | server/src/order_book/mod.rs:34-53 | pops from each side's end while the oid is on both sides, as the flat form says |
| `FlatBook.AddBeforeSound` | server/src/order_book/mod.rs:70-87 | best bid stays below best ask, sides stay sorted, oids stay unique within a level, the index points at resting orders; whatever the order, also on failure |
| `FlatBook.AddBeforeWellFormedIff` | server/src/order_book/mod.rs:79-85 | unique oids and an exact index survive an addition if and only if the leftover does not rest while its oid rests elsewhere |
| `FlatBook.CancelSound` | server/src/order_book/mod.rs:89-105 | keeps the book sound and succeeds exactly on indexed oids |
| `FlatBook.CancelWellFormed` | server/src/order_book/mod.rs:89-105 | keeps the index exact |
| `FlatBook.ModifySzSound` | server/src/order_book/mod.rs:107-124 | keeps the book sound and succeeds exactly on indexed oids |
| `FlatBook.ModifySzWellFormed` | server/src/order_book/mod.rs:107-124 | keeps the index exact |
| `FlatBook.RunSound` | server/src/order_book/mod.rs:70-124 | every sequence of additions, cancels and resizes keeps the book sound, failed ones included |
| `FlatBook.RunWellFormed` | server/src/order_book/mod.rs:70-124 | every sequence whose additions bring new oids keeps oids unique and the index exact |
| `FlatBook.OidsUniqueInBook` | server/src/order_book/mod.rs:14-19 | with an exact index no oid rests twice, on either side |
| `BookOutcomes.SoundInPrices` | server/src/order_book/mod.rs:14-19 | bids never rise along the book, asks never fall, and every bid is below every ask |
| `BookOutcomes.AdditionOutcome` | server/src/order_book/mod.rs:70-87 | what the other side loses comes off the order, and the rest stands directly in front of the named order, or else behind all of its price or better and ahead of all worse; refused exactly when something is left and the named order does not rest at its price |
| `BookOutcomes.CancelOutcome` | server/src/order_book/mod.rs:89-105 | takes out exactly the order with that oid and its index entry, and is refused exactly when no side lists it |
| `BookOutcomes.ResizeOutcome` | server/src/order_book/mod.rs:107-124 | gives exactly the order with that oid the new size, on either side and among any others; places and all other orders stay |
| `Snapshots.RebuildKeepsPositive` | server/src/order_book/mod.rs:127-145 | rebuilding from a book's own snapshot gives its orders of positive size, in order, with an exact index |
| `Snapshots.RoundTripIff` | server/src/order_book/mod.rs:127-145 | the round trip gives back the very same book if and only if all sizes are positive |
| `Snapshots.FromSnapshotSound` | server/src/order_book/mod.rs:134-145 | any snapshot whatsoever rebuilds to a sound book |
| `Snapshots.FromSnapshotWellFormed` | server/src/order_book/mod.rs:34-53 | a snapshot whose oids are distinct after trigger removal rebuilds to an exact book of positive sizes |
| `TriggerRemoval.TriggersRemoved` | server/src/order_book/mod.rs:34-53 | of both sides a prefix is kept: every dropped order is listed on both sides, the last kept one is not |
| `TriggerRemoval.TailOffUnique` | server/src/order_book/mod.rs:34-53 | that describes one result |
| `TriggerRemoval.RebuildIgnoresTriggers` | server/src/order_book/mod.rs:134-145 | the snapshot of an exact book of positive sizes, with the same new oids appended to both sides, rebuilds exactly that book |
| `Thinning.MatchKeep` | server/src/order_book/mod.rs:171-209 | a taker passes over orders of size zero: leaving them out changes no other maker, no other fill and not the leftover |
| `Thinning.ZeroKeep` | server/src/order_book/mod.rs:171-209 | a taker of size zero takes away one order of size zero at the head of the whole side and perhaps another at the head of the thinned one; the thinned result is still the whole one with known orders left out |
| `Thinning.ThinAdd` | server/src/order_book/mod.rs:70-87 | an addition of any size on the thinned book gives the thinned result; matched orders leave the left-out set, a taker of size zero may exchange one for another; it fails if and only if it is to rest in front of a left-out order |
| `Thinning.ThinCancel` | server/src/order_book/mod.rs:89-105 | same for cancelling, which fails exactly on a left-out order |
| `Thinning.ThinModifySz` | server/src/order_book/mod.rs:107-124 | same for resizing, which fails exactly on a left-out order |
| `ThinReplays.ReplayThin` | server/src/listeners/order_book/state.rs:72-141 | blocks that apply to the full books apply to the thinned ones if and only if none names an order that is missing by then, and the results differ by exactly those missing at the end |
| `MultiBook.OrderBooks.AddOrderBefore` | server/src/order_book/multi_book.rs:55-58 | changes the order's coin only, creating its book if needed; every other coin's object is untouched |
| `MultiBook.OrderBooks.CancelOrder` | server/src/order_book/multi_book.rs:60-62 | changes that coin only; a coin without a book is refused |
| `MultiBook.OrderBooks.ModifySz` | server/src/order_book/multi_book.rs:65-67 | changes that coin only; a coin without a book is refused |
| `MultiBook.OrderBooks.ToSnapshots` | server/src/order_book/multi_book.rs:72-75 | one snapshot per coin, each its book's orders in priority |
| `MultiBook.FromNodeSnapshots` | server/src/order_book/multi_book.rs:44-52 | one separate rebuilt book object per coin |
| `MultiBook.OrderBooks.ApplyAll` | server/src/listeners/order_book/state.rs:98-136 | a block's diffs applied to the book objects give the books and the outcome of the block function, also when one fails midway |
| `MultiBook.RefreshViews` | server/src/listeners/order_book/utils.rs:127-168 | recomputes, coin by coin from the book objects, the views of exactly the dirty coins that have a book |
| `Buckets.BucketMonotone` | server/src/order_book/levels.rs:7-18 | rounding keeps the order of prices |
| `Buckets.BucketIdempotent` | server/src/order_book/levels.rs:7-18 | a rounded price rounds to itself, also one that gained a digit |
| `Buckets.BucketRange` | server/src/order_book/levels.rs:7-18 | bids never rise and keep their digits; asks never fall and never exceed 10^d |
| `Buckets.BucketFitsU64` | server/src/order_book/levels.rs:7-18 | neither the rounding step nor the rounded price overflows 64 bits, for prices of up to 19 digits |
| `Buckets.BucketError` | server/src/order_book/levels.rs:7-18 | the rounding error is below mantissa times 10^(1-n) of the price |
| `Buckets.BucketNested` | server/src/order_book/levels.rs:7-18 | rounding finely first does not change a coarse rounding whose step the fine step divides, the rollover to 10^d included |
| `Buckets.BucketExact` | server/src/order_book/levels.rs:7-18 | a price of d digits is rounded to the nearest multiple of m * 10^(d-n), down for bids and up for asks |
| `Aggregation.GroupIsGrouping` | server/src/order_book/levels.rs:114-139 | comparing with the current bucket only gives one level per distinct bucket, strictly ordered, with the sizes and counts of that bucket |
| `Aggregation.GroupingUnique` | server/src/order_book/levels.rs:114-139 | that description has one solution |
| `Aggregation.GroupConserves` | server/src/order_book/levels.rs:114-139 | total size and order count are conserved |
| `Aggregation.BuildL2Level` | server/src/order_book/levels.rs:114-139 | one step of the pass, with the early stop at the requested number of levels |
| `Aggregation.L2LevelsToL2Levels` | server/src/order_book/levels.rs:56-75 | asking for k levels gives the first k of the unlimited grouping, k = 0 included |
| `Aggregation.GroupTwice` | server/src/order_book/levels.rs:36-48 | grouping an already grouped side is grouping directly, when the buckets nest |
| `BookViews.MapToL2Levels` | server/src/order_book/levels.rs:78-112 | the pass over the level map with its folds is the grouping of the side's orders |
| `BookViews.ToL2Snapshot` | server/src/order_book/levels.rs:22-33 | both sides, limited to the first n levels |
| `BookViews.CoarsenView` | server/src/order_book/levels.rs:38-48 | a view regrouped at a coarser precision |
| `BookViews.ComputeViews` | server/src/listeners/order_book/utils.rs:139-163 | the push loop builds exactly the seven cascaded views, each from the right earlier entry |
| `Views.FiveFigureViewsDirect` | server/src/listeners/order_book/utils.rs:149-158 | the raw and all five-figure views equal direct aggregation for every book |
| `Views.ThroughMantissaFive` | server/src/listeners/order_book/utils.rs:159-161 | rounding through the mantissa-5 view agrees with direct rounding if and only if the price has more digits than are kept or is a multiple of 5 |
| `Views.CoarseViewsDirectIff` | server/src/listeners/order_book/utils.rs:159-161 | the 4, 3 and 2 figure views equal direct aggregation if and only if every price meets that condition |
| `Views.CascadedOrdered` | server/src/listeners/order_book/utils.rs:139-163 | every cascaded view is ordered by side |
| `Views.DirectShowsOrders` | server/src/order_book/levels.rs:22-33 | one level per rounded price of an order and no other, best first, each with the total size and number of the orders that round to it |
| `Blocks.UntouchedBooks` | server/src/listeners/order_book/state.rs:98-136 | coins not marked dirty keep their books, also when a block fails midway, and only marked coins gain one |
| `DiffOutcomes.OpeningStatuses` | server/src/listeners/order_book/state.rs:87-97 | a diff is paired with the last status of its oid that opens an order: open, no trigger and not Ioc, or a triggered trigger |
| `DiffOutcomes.NewDiffOutcome` | server/src/listeners/order_book/state.rs:106-122 | the order rests at the diff's price, on the status's side, with the diff's size less what the other side lost, and an activated trigger's stamp, tif and trigger fields; nothing trades when no price is within the diff's; the status is used up and no other coin changes |
| `DiffOutcomes.DiffRefused` | server/src/listeners/order_book/state.rs:105-126 | a New diff without an opening status left and a diff that does not parse are refused without effect |
| `DiffOutcomes.TargetDiffOutcome` | server/src/listeners/order_book/state.rs:127-139 | an update resizes and a removal takes out exactly that order in the diff's coin, refused exactly when it is not there |
| `DiffOutcomes.EveryDiffInTurn` | server/src/listeners/order_book/state.rs:98-140 | a block that applies applies every diff in order, but for those of ignored spot coins, and marks exactly the others' coins |
| `Replays.ReplayHeights` | server/src/listeners/order_book/state.rs:77-85 | replayed blocks have consecutive heights; height and time are those of the last |
| `Replays.ReplayCongruent` | server/src/listeners/order_book/state.rs:72-141 | a missing book and an empty one are interchangeable under every run of blocks |
| `Replays.ReplayGood` | server/src/listeners/order_book/state.rs:98-136 | a node that keeps its promises keeps every book exact with positive sizes, over every run |
| `Scopes.ParseInScope` | server/src/types/node_data.rs:137-155 | keeps exactly the in-scope events in order, and height, time and record length |
| `Scopes.ScopeExact` | server/src/types/subscription.rs:21-63 | every outcome coin is in scope, any other only if all are or it is listed |
| `Scopes.BlockProjects` | server/src/types/node_data.rs:137-155 | a block that applies unrestricted applies in scope, to the restricted books, marking the marked coins in scope |
| `Scopes.ReplayProjects` | server/src/listeners/order_book/state.rs:72-141 | the same over whole runs of blocks: same height and time, identical book for every coin in scope, no other book |
| `Scopes.SnapshotsProject` | server/src/order_book/multi_book.rs:195-208 | loading the filtered snapshots is restricting the loaded books |
| `BookState.OrderBookState.ApplyUpdates` | server/src/listeners/order_book/state.rs:72-141 | the object's new state and result are those of the block function: old blocks accepted without effect, gaps refused, failures stopping midway |
| `BookState.OrderBookState.DrainDiffs` | server/src/listeners/order_book/state.rs:98-136 | the diff loop, its dirty marks and its stop at the first failure |
| `BookState.CollectOpenings` | server/src/listeners/order_book/state.rs:87-97 | the opening status of each oid, a later one replacing an earlier one |
| `BookState.OrderBookState.ComputeL2Snapshot` | server/src/listeners/order_book/state.rs:48-52 | the loop over the dirty coins with books extends the cache by exactly their new views and clears the marks |
| `BookState.OrderBookState.L2Snapshots` | server/src/listeners/order_book/state.rs:55-62 | views are handed out once per height |
| `BookState.NewDiffAgreesIff` | server/src/listeners/order_book/state.rs:104-118 | after a New diff, failed or not, unmarked cached views are right if and only if status and diff name one coin, the status's coin was marked, or its book keeps its orders |
| `BookState.ApplyUpdatesAgrees` | server/src/listeners/order_book/state.rs:98-136 | cached views of unmarked coins stay those of their books, also when a block fails midway, if opening statuses and their New diffs name one coin |
| `BookState.RefreshIsRebuild` | server/src/listeners/order_book/utils.rs:127-168 | the incremental refresh equals recomputing all views |
| `BookState.StaleCacheExample` | server/src/listeners/order_book/state.rs:104-118 | a block whose status and diff name different coins leaves a stale view unmarked |
| `SharedViews.SharedMaps.Extend` | server/src/listeners/order_book/utils.rs:166-167 | extending a view map that anybody else holds copies it first: every map published before is unchanged, and the own map has the new views |
| `SharedViews.PublishThenRefresh` | server/src/listeners/order_book/utils.rs:166-167 | a map once published is unchanged by later refreshes |
| `SharedViews.RefreshBesideCache` | server/src/listeners/order_book/utils.rs:166-167 | a refresh leaves every encoded frame that the cache holds right |
| `Queues.BatchQueue.PushBatch` | server/src/listeners/order_book/utils.rs:187-205 | accepts, ignores stale heights, or refuses beyond the byte, count, age and span limits; only acceptance changes anything |
| `Queues.PushOk` | server/src/listeners/order_book/utils.rs:187-205 | accepted heights stay strictly increasing, bytes are the summed record lengths, all limits hold |
| `Queues.PushVerdict` | server/src/listeners/order_book/utils.rs:187-205 | a batch above everything accepted is taken in if and only if bytes, count, span and age allow it; at or below it is ignored |
| `Queues.PopCache` | server/src/listeners/order_book/mod.rs:486-509 | pops the earliest pair of equal heights, dropping batches behind the other front |
| `Queues.PopPairOk` | server/src/listeners/order_book/mod.rs:486-509 | keeps both queues accounted and in bounds; without a pair one queue is empty |
| `Pairing.PopOneKeeps` | server/src/listeners/order_book/mod.rs:486-509 | popping keeps the pairing invariant from any two queues, however full; without a pair one queue is empty |
| `Pairing.EmptyMeets` | server/src/listeners/order_book/mod.rs:486-509 | once a queue is empty the popped pairs are exactly the ordered intersection of the accepted heights |
| `Pairing.InterleavingIrrelevant` | server/src/listeners/order_book/mod.rs:486-534 | the same accepted batches give the same pairs, whatever the order of arrivals and pops |
| `Pairing.DroppedNeverPairs` | server/src/listeners/order_book/mod.rs:494-505 | a batch of either stream that has left its queue is below every later batch of the other stream |
| `StreamPairs.RunFollows` | server/src/listeners/order_book/mod.rs:511-602 | over every run, batches piled up before a load and drained by it included, a ready listener has popped exactly the ordered intersection of the heights accepted since the last fence |
| `StreamPairs.RunsAgree` | server/src/listeners/order_book/mod.rs:511-602 | two runs that accepted the same batches since their fences have popped the same pairs |
| `ListenerObject.OrderBookListener.Fence` | server/src/listeners/order_book/mod.rs:441-454 | raises the epoch, drops state, queues and remembered blocks, publishes a gap |
| `ListenerObject.OrderBookListener.ReceiveBatch` | server/src/listeners/order_book/mod.rs:511-570 | queueing, pairing, applying, remembering within budget, and broadcasting one batch, in that order |
| `ListenerObject.OrderBookListener.Turn` | server/src/listeners/order_book/mod.rs:697-739 | a chunk of records and, on any failure, the fence |
| `ListenerObject.OrderBookListener.CloneState` | server/src/listeners/order_book/mod.rs:472-474 | the captured clone is a separate copy of the live state |
| `ListenerObject.OrderBookListener.BeginCaching` | server/src/listeners/order_book/mod.rs:572-576 | starts remembering with an empty cache |
| `ListenerObject.OrderBookListener.TakeCache` | server/src/listeners/order_book/mod.rs:579-583 | hands over the remembered blocks and stops remembering |
| `ListenerObject.OrderBookListener.ExpireCache` | server/src/listeners/order_book/mod.rs:108-112 | abandons the audit: new epoch, live state kept |
| `ListenerObject.OrderBookListener.InitFromSnapshot` | server/src/listeners/order_book/mod.rs:585-602 | applies every queued pair to the loaded book, installing it only if all apply |
| `ListenerObject.OrderBookListener.ReconcileSnapshot` | server/src/listeners/order_book/mod.rs:621-679 | catching up the clone, validating, rebuilding, replaying the rest, committing and announcing |
| `ListenerObject.OrderBookListener.FinishSnapshot` | server/src/listeners/order_book/mod.rs:604-619 | no effect in a later epoch, otherwise reconciliation with the cache taken |
| `ListenerObject.ValidateSnapshotConsistency` | server/src/listeners/order_book/utils.rs:80-119 | equal, only new empty books, or diverged: coin by coin over both maps, missing counting as empty, ignored coins left out |
| `ScopedListener.ReceiveScoped` | server/src/listeners/order_book/mod.rs:511-570 | receiving the narrowed record on the projected listener is the projection of receiving: same queue and cache bytes, heights, limits and verdicts |
| `ScopedListener.ReceiveAllScoped` | server/src/listeners/order_book/mod.rs:697-733 | the same over every sequence of records |
| `ScopedListener.TurnScoped` | server/src/listeners/order_book/mod.rs:697-748 | the same for a chunk with its broadcast of views |
| `ScopedListener.LoadScoped` | server/src/listeners/order_book/mod.rs:585-602 | draining both queues onto a projected book is the projection of the unrestricted drain |
| `ScopedRuns.FinishLoadScoped` | server/src/listeners/order_book/mod.rs:585-619 | a load from the filtered snapshot installs the projection of what the load from the whole one installs |
| `ScopedRuns.LoadThenTurnScoped` | server/src/listeners/order_book/mod.rs:697-748 | and so on through the records that follow |
| `ScopedRuns.VerdictScoped` | server/src/listeners/order_book/utils.rs:80-119 | an equal audit is equal in scope; one with new empty books has them in scope or is equal there; a divergence in scope is a divergence |
| `ScopedRuns.AuditVerdictScoped` | server/src/listeners/order_book/mod.rs:633-652 | the same of the audit with its catching up |
| `ScopedRuns.AuditScoped` | server/src/listeners/order_book/mod.rs:621-679 | an audit that reaches the same verdict in scope does the projection of what the unrestricted one does, rebuilds and gaps included |
| `ScopedRuns.RunScoped` | server/src/listeners/order_book/mod.rs:418-679 | over every run in which the unrestricted listener succeeds, the scoped system goes through the projections of its states |
| `ScopedRuns.RunScopedFromStart` | server/src/listeners/order_book/mod.rs:418-439 | in particular from new listeners |
| `Audit.CatchUpSplits` | server/src/listeners/order_book/mod.rs:633-644 | catching up never fails, falls short exactly when the snapshot is beyond the live height, and otherwise splits the remembered blocks at its height |
| `Audit.RebuildBooksIff` | server/src/listeners/order_book/utils.rs:80-119 | rebuilding from a consistent snapshot gives the same books if and only if no size is zero |
| `Audit.BenignRebuild` | server/src/listeners/order_book/mod.rs:655-660 | rebuilt books with the rest replayed are interchangeable with the live ones |
| `Protocol.StepKeeps` | server/src/listeners/order_book/mod.rs:90-222 | every step keeps the queue, cache, publication and audit-replay invariants |
| `Protocol.RunSafe` | server/src/listeners/order_book/mod.rs:511-583 | they hold in every state of every run |
| `Protocol.ChainedConsecutive` | server/src/listeners/order_book/mod.rs:562-568 | L4 updates with no gap and no update between them have consecutive heights |
| `Protocol.CommitsAtLiveHeight` | server/src/listeners/order_book/mod.rs:655-679 | whatever an audit commits over a live book has exactly the live height; its time is 0 if it diverged with a snapshot at the live height and the live time otherwise |
| `Protocol.LoadTime` | server/src/listeners/order_book/mod.rs:585-602 | a load that applied no queued block is exactly the state built from the snapshot, whose time is 0; otherwise its time is that of the queued batch at its height |
| `Repairs.LoadInstallsNode` | server/src/listeners/order_book/mod.rs:585-602 | a load installs a book if and only if the queued pairs above the snapshot's height replay on the node's books, and then the one they lead to |
| `Publication.RunConsecutive` | server/src/listeners/order_book/mod.rs:511-570 | over every run, without a gap the live book stays and the L4 updates are all heights it went through, once and in order |
| `Publication.FinishContinues` | server/src/listeners/order_book/mod.rs:633-679 | an audit that is stale, short, equal or diverged leaves the live books alone or announces a gap |
| `Publication.RunContinues` | server/src/listeners/order_book/mod.rs:511-679 | replaying the broadcast blocks on the old live books gives the new ones, over every run in which no audit rebuilds for new empty books |
| `Continuity.AuditLeads` | server/src/listeners/order_book/mod.rs:621-679 | every audit of good live books announces a gap or leaves every order, height and time |
| `Continuity.RunLeads` | server/src/listeners/order_book/mod.rs:511-679 | over every run of legal blocks, whatever audits complete, replaying the broadcast blocks on the old live books gives books with the same orders as the new ones, and their height and time |
| `AuditEffects.RebuildThins` | server/src/listeners/order_book/utils.rs:80-119 | rebuilding from a consistent snapshot leaves out exactly the orders of size zero |
| `AuditEffects.RebuildIff` | server/src/listeners/order_book/mod.rs:655-660 | replaying later blocks on the rebuilt books succeeds if and only if none names a missing order, and gives the live books if and only if moreover none is missing at the end |
| `AuditEffects.BenignAuditIff` | server/src/listeners/order_book/mod.rs:633-679 | a rebuilding audit, for a snapshot at any height, goes unnoticed if and only if every missing order, at first those of size zero at that height, is matched away by later blocks before one names it; it fails exactly when one is named |
| `AuditEffects.BenignAuditInvisible` | server/src/listeners/order_book/mod.rs:633-679 | an audit that finds no divergence leaves every order, height and time as they were and announces no gap, provided, if it rebuilds, that no size is zero at the snapshot's height |
| `Repairs.DivergedInstallsNode` | server/src/listeners/order_book/mod.rs:653-679 | a diverged audit succeeds if and only if the remembered blocks after the snapshot replay on the node's books, and goes on with what they lead to, announced by a gap; otherwise the live books stay |
| `Repairs.RepairHolds` | server/src/listeners/order_book/mod.rs:653-679 | repaired at the live height, the books are the node's and validating them against the same snapshot finds them equal |
| `Repairs.AuditCoversCoins` | server/src/listeners/order_book/mod.rs:646-679 | after an audit that reached the snapshot's height every coin of the snapshot has a book |
| `Publication.OvertakenIff` | server/src/listeners/order_book/mod.rs:541-570 | over every run, the epoch has moved on from the attempt in flight if and only if its remembered blocks were gone at some point |
| `Publication.OvertakenAttemptInstallsNothing` | server/src/listeners/order_book/mod.rs:541-613 | an attempt in flight while the stream is fenced, the audit expires, a gap is published or the remembered blocks are dropped, as on overflow, has no effect when it finishes |
| `Publication.OnlyCurrentAttemptsInstall` | server/src/listeners/order_book/mod.rs:585-613 | a fenced listener becomes ready only through an attempt begun in the current epoch without a book |
| `Freshness.StepFresh` | server/src/listeners/order_book/mod.rs:735-748 | every view map broadcast is the full rebuild of the live books, at their height and time, as long as each block's opening statuses and New diffs agree on coins |
| `Freshness.RunFresh` | server/src/listeners/order_book/state.rs:48-62 | in every reachable state unmarked coins' cached views are those of their books, under the same condition |
| `Announcements.RunAnnounced` | server/src/listeners/order_book/state.rs:55-62 | in every reachable state the live book counts as published if and only if the latest views since the last gap are at its height |
| `Announcements.TurnViews` | server/src/listeners/order_book/mod.rs:735-748 | a turn that succeeds over a live book broadcasts exactly one map of views, as its last message, or none if that height was announced already |
| `Announcements.EveryTurnAnnounces` | server/src/listeners/order_book/mod.rs:697-748 | from the start: each turn that raises the height broadcasts exactly the full rebuild at the new height; one that does not, on a published state, none |
| `Announcements.BadRecordFails` | server/src/listeners/order_book/mod.rs:699-733 | an unreadable record anywhere in a chunk breaks it off |
| `Announcements.ReceiveVerdict` | server/src/listeners/order_book/mod.rs:511-534 | a record that does not read or fit is an error without effect; any other is one only if it completes a pair that does not apply |
| `Announcements.PairVerdict` | server/src/listeners/order_book/mod.rs:531-568 | a pair at or below the live height is passed over, one above the next height is an error, the next one is applied and broadcast exactly if it applies |
| `Announcements.BrokenTurnFences` | server/src/listeners/order_book/mod.rs:441-454 | a chunk that breaks off ends in a gap with no live book and empty queues |
| `Announcements.FailedAttemptFences` | server/src/listeners/order_book/mod.rs:114-222 | a crashed snapshot owner and a failed audit fence likewise |
| `Announcements.RememberedIff` | server/src/listeners/order_book/mod.rs:540-561 | an applied block is remembered if and only if number and bytes stay in budget; only otherwise the audit is given up |
| `Announcements.RunFills` | server/src/listeners/order_book/mod.rs:519-529 | over every run, fences included, fills are broadcast in strictly rising order of height |
| `Announcements.FillsBroadcastIff` | server/src/listeners/order_book/mod.rs:519-529 | fills above all heights broadcast are broadcast, and no others |
| `NodeChain.TrueStep` | server/src/listeners/order_book/state.rs:72-141 | the node's next block always applies and leads to the node's next books |
| `Truth.RunTrue` | server/src/listeners/order_book/mod.rs:511-679 | live books, broadcast views and L4 updates are the node's, in every state of every run with a truthful node; so is the time, which is 0 only while no block has been applied since the last load |
| `Truth.RunFromStart` | server/src/listeners/order_book/mod.rs:418-439 | in particular, from a new listener: whenever it has a live book after such a run, its orders are the node's at that height |
| `Truth.AuditsNeverDiverge` | server/src/listeners/order_book/mod.rs:621-679 | such a run's audits never fail, never announce a gap and change no order |
| `Truth.SubscriberHoldsLiveBooks` | server/src/listeners/order_book/mod.rs:562-568 | a subscriber that applies the L4 updates since it took the books holds the live books, audits notwithstanding |
| `WireCache.BookWireCache.Get` | server/src/servers/websocket_server.rs:377-429 | returns what encoding afresh would; entries are accounted within 2 MiB and 1024, encode the one retained position, and it never moves back in height or time |
| `WireCache.BookWireCache.RetainedMemory` | server/src/servers/websocket_server.rs:393-395 | any change of memory except the retained map leaves all entries right |
| `WireCache.ValidIsOffered` | server/src/types/subscription.rs:105-135 | a book subscription is valid exactly for a known or outcome coin, one of the seven precisions computed, and 1 to 100 levels other than 20, or none named |
| `Delivery.Connection.SendFromSnapshot` | server/src/servers/websocket_server.rs:431-460 | sends exactly when the height is news and there is a view, and records it; fails only when stale, too large or not written, and then sends nothing |
| `Delivery.Connection.OnSnapshot` | server/src/servers/websocket_server.rs:166-182 | every book subscription with a view has been sent that height or a later one, none twice, unless a stale, too large or unwritten frame ended the connection |
| `Delivery.Connection.SubscribeBook` | server/src/servers/websocket_server.rs:253-300 | a valid new subscription with a recent view that is written is accepted; acceptance comes with a first frame of the current position; otherwise the subscription is undone |
| `Delivery.Connection.Unsubscribe` | server/src/servers/websocket_server.rs:262-315 | ends the subscription and forgets its position; an invalid or absent one changes nothing |
| `Delivery.RisingBetween` | server/src/servers/websocket_server.rs:444-457 | frames of one subscription with no end of it between them have strictly increasing heights |
| `Delivery.FrameShowsBooks` | server/src/servers/websocket_server.rs:404-419 | encoding a full rebuild of the views gives exactly the first n levels of the subscribed view of those books, for every coin with a book and every outcome coin unless too large |
| `Delivery.FrameContents` | server/src/servers/websocket_server.rs:404-419 | of each side the best n levels, twenty when not named, or all |
| `Delivery.FrameShowsNode` | server/src/servers/websocket_server.rs:404-419 | encoding a broadcast of a truthful run gives those of the node's book at its height |
| `Delivery.FrameShowsLive` | server/src/servers/websocket_server.rs:272-300 | the immediate snapshot shows those of the live book |
| `Delivery.PushedOk` | server/src/servers/websocket_server.rs:166-182 | a broadcast keeps heights rising and positions right, as it reaches each subscription at most once and only with news |
| `Delivery.AnsweredOk` | server/src/servers/websocket_server.rs:253-300 | so does a subscription, however it ends |
| `World.FramesShowLiveStates` | server/src/servers/websocket_server.rs:166-182 | in every run of listener and connection, every frame sent shows the first n levels of the subscribed view of a live state at its height and time, and heights rise per subscription, by induction over the steps |
| `World.FramesShowNode` | server/src/servers/websocket_server.rs:431-460 | with a truthful node, every frame sent in every such run shows the node's book at its height |
| `Cursor.FileCursor.ReadTurn` | server/src/listeners/order_book/ingestion.rs:124-166 | puts out the longest newline-terminated prefix of held-back and read bytes, holds back the rest and counts it; fails exactly on an over-long record, a stale or truncated file, or bytes that do not decode |
| `Cursor.ReadTurns` | server/src/listeners/order_book/ingestion.rs:124-166 | reading with the cursor in turns of any sizes: output, held-back bytes and failure depend on the bytes read alone, and no byte is lost, for a decoder that judges text line by line |
| `Cursor.ChunkIndependent` | server/src/listeners/order_book/ingestion.rs:124-166 | the same of the turns as a function of the bytes they see |
| `Findings.CoarseViewExample` | server/src/listeners/order_book/utils.rs:159-161 | a bid at raw price 12 whose four-figure view is not the direct aggregation |
| `Findings.DuplicateOidExample` | server/src/order_book/mod.rs:79-85 | an oid opened twice: the index loses the first order and a cancel removes only the second |
| `Findings.ZeroSizeAuditExample` | server/src/listeners/order_book/mod.rs:655-660 | an order of size zero at the snapshot's height, resized by a later block: all live sizes are positive and the rebuild cannot replay |
| `Findings.ZeroTimeExample` | server/src/listeners/order_book/mod.rs:653-660 | a divergence at the live height that resets the time to 0 |
| `Findings.SomeNode` | server/src/listeners/order_book/state.rs:98-136 | a node that opens an order and keeps every promise asked of nodes |
| `Findings.TriggerRepricedExample` | server/src/listeners/order_book/fixtures/trigger_repriced.json:1-80 | the recorded stop order of limit 7.1973 rests at 7.917 with size 4.6 and the fields of the expected snapshot, and its removal finds it |

## Left out

- Floating point: `num_digits` is the exact decimal length instead of an `f64` logarithm, and prices and sizes start as integers; parsing and printing decimals is not modelled.
- Integer width: sizes, size sums, oids, heights and epochs are unbounded; byte counters keep their 64-bit overflow checks. Prices of 20 digits, where rounding an ask up could overflow, are outside `Buckets.BucketFitsU64`.
- BookState.OrderBookState.ApplyUpdates: the state object holds the books as values, so cloning it is a copy; that the per-coin book objects do the same under a block and a refresh is `MultiBook.OrderBooks.ApplyAll` and `MultiBook.RefreshViews`. Aliasing between a state and its clone's objects is not captured.
- AuditEffects.BenignAuditIff: what is left of a later New order rests only under an oid that does not rest by then; what an audit does with blocks that open an oid twice, which already cost the live book its exact index or silently do nothing, is not characterised.
- ScopedRuns.RunScoped: covers runs in which the unrestricted listener succeeds and the coins in scope alone lead its audits to the same verdict; where it fails on another coin, or finds new empty books or a divergence on another coin only, the scoped listener goes on without the fence or the rebuild.
- Delivery.Connection.SubscribeBook: only book subscriptions are modelled; trades and L4 subscriptions share the connection without touching its book positions.
- WireCache.ValidIsOffered: the length bound on coin names counts characters, not bytes.
- Wall-clock rules: queue age, partial-record age, the three-second freshness rule and write timeouts are nondeterministic flags or steps.
- JSON and UTF-8: parsing delivers typed batches or a malformed record, encoding is injective and only its length matters.
- Filesystem watching, inode checks, cursor eviction and the dirty-path queue; the file is a byte sequence that the cursor reads from an offset.
- HTTP snapshot requests and their temporary files: a request either yields a snapshot map and height or fails.
- WebSocket transport, compression, connection limits, delivery traces, statistics and logging.
- Trades, L4 snapshot messages and the per-coin split of block updates, which are direct conversions.
- Coin scope parsing, and the rayon parallel maps, which are ordinary per-coin maps here.
