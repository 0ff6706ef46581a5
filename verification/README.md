# A verified model of the Beefy timeline

The repository keeps a ledger of Beefy share tokens, prices every balance change in ClickHouse behind a watermark that
moves while events are still committed, and serves the priced timeline through a cached API. This project models the
parts of it where the state and the interleavings are, and proves what they promise.

## What is modelled

**Pricing behind a watermark** (`Events`, `Ranges`, `Reprice`, `Watermark`, `WatermarkWrites`, `WatermarkSound`,
`WatermarkRaces`, `Pending`, `Pricing`). ClickHouse is sets of rows, and a client call is one atomic step on them. Any
number of advances, retries and rewinds of one version interleave with each other and with Envio committing events.
Envio's contract is that of the history table: the committed frontier only moves forward, rows appear above it, there
are no `DELETE` rows and an id keeps its account, chain and timestamp. `FINAL` on the watermark table is a row with the
largest `movedAt`. The server's clock moves at every step in `Watermark`; in `WatermarkSound` and `WatermarkRaces` it
may also stand still. Which rows a retry or a provisional pass prices again is left open: any subset. Ids, accounts,
tokens and assets are opaque numbers, times are integer milliseconds (microseconds for `movedAt`, seconds for price
points), prices reals.

**Versions side by side** (`Lifecycle`, `LifecycleSteps`, `LifecycleRaces`, `CacheVersion`). Deploy, mark ready, switch
and cleanup over the deployment rows, the tables, the Envio databases and the three API views with the views being built
aside. Each statement of a switch is a step; a switch may stop anywhere, another one may run after it, cleanups run
beside it. What a switch and a cleanup read before they act is one step with the act in `Lifecycle`, and a step of its
own in `LifecycleRaces`. Beside that lifecycle the API polls the status view, takes cache keys from what it last
published and reads the timeline view later.

**The indexer's ledger** (`Ledger`, `ZapAttribution`, `IndexerStore`). The store is a class whose methods are the
handlers; it is proved against pure replays of a run (`Ledger.Replay`, `ZapAttribution.Written`), and the promises are
proved of those. The store keeps the sets and sequences the handlers write, for one chain.

**The API** (`InsertionMap`, `ByteLru`, `RateLimiter`, `ConcurrencyLimiter`, `SingleFlight`, `Service`, `Build`,
`Chronology`). The cache, the token buckets, the limiter and the single flight are classes over the fields the closures
keep, each proved against a function on values. `Service` composes those functions in the request path as steps of one
event loop: a step is the code up to the next `await`, and requests, reads, timers and settling interleave in any
order. The breaker may refuse any build. Times, tokens and lifetimes are reals, and the clock does not run backwards.

**Scripts** (`Pacer`, `PacerRuns`, `KnownAddresses`, `KnownConfig`, `ConfigLines`, `Csv`). The RPC pacer as steps of an
event loop over its upstreams and forwarded requests; the rewriter of config.yaml's generated blocks and its extractor,
on text and lines, with the source's patterns as functions that scan a line; the CSV reader and the printer it inverts.

Transition systems are relations `Next(s, action, s')`; a run is a sequence of states from the initial one. Methods
stand where the source loops or changes state. `Options` and `Reals` hold what several modules share.
`dafny verify dfyconfig.toml` checks everything.

## Where the code and its promise differ

- A rewind is promised never to be lost. When the server's clock stands still between an advance's check and the rewind's
  insert the two rows tie and it can be (`WatermarkRaces.TieLosesRewind` is a run). Exactly: it can be lost if and only if,
  as it lands, an advance that was underway has a row or a checked write no older than the rewind, or compares with a row
  no older (`WatermarkRaces.LostExactly`). With a clock that moves none of these can be. `FINAL` may be any row of the
  largest `movedAt` here, where a ReplacingMergeTree keeps the one inserted last: the condition also counts an equal row
  inserted before the rewind, which ClickHouse would not show.
- An advance that a rewind passes is promised to stop as superseded. It can also end as done, if it had only its
  provisional rows left or was inserting its last row (`WatermarkRaces.DoneAfterRewind` is a run), as paused, if it was
  inserting another row below its target, or as waiting, if it had looked before the first mark and its frontier has no
  event; and in no other way (`WatermarkRaces.EndsExactly`). What it inserts is older than the rewind.
- A cleanup is promised not to race a switch back to a retired version. A version whose tables were dropped can come to be
  named by a view if and only if, as the drop lands, a view names it already or a switch to it is between its read and its
  end (`LifecycleRaces.NamedAfterDropExactly`; `LifecycleRaces.SwitchBackLosesTables` gives both runs).
- The price match has a sentinel at the epoch. A real price point at the epoch ties with it, and the match is then wrong for
  one of the two choices (`Pricing.AsofExact` is an equivalence, `Pricing.EpochTieWrong` the failing half).
- Stakes for the zero address add to a boost's supply and to no balance, so supply and balances agree exactly when those
  net to nothing (`Ledger.SupplyIsSumExactly`); from any run in which they agree, one such stake parts them
  (`Ledger.ZeroStakeParts`).
- The comment on attributed mints speaks of passing minted shares to another account; the code also marks an account that
  passes them to itself. What it writes is the rule of the comment if and only if no minted value is passed so
  (`ZapAttribution.WrittenIsWorded`; `ZapAttribution.SelfForwardIsMarked` is a run).
- A cached response is never older than its key's version while switches go up; a switch back from any version to a lower
  one breaks it (`CacheVersion.SwitchingBackCachesOlder` gives the run for any two). In any state of any run, while the
  timeline view names v, rows of v can be cached under a newer version if and only if the status view, a status read not
  published yet, the published version or the key of a build is newer than v (`CacheVersion.OlderRowsExactly`).
- The running balance of an item needs a transaction's rows of a product to stand together: for the keys of any rows,
  balances run whatever the rows move if and only if they do (`Chronology.BalancesRunExactly`). The rows are sorted by time,
  chain and log index and not by block. Where a chain's blocks have different times they stand together
  (`Chronology.SortedBalancesRun`); where the logs of two blocks of one time cross they do not
  (`Chronology.CrossingBreaks`, and `Chronology.TwoBlocksInASecond` for three transfers of a share on a chain with two
  blocks a second).
- Reading by account without deduplicating first is exact if and only if no event of the account has moved to another one
  (`Events.AccountReadExactly`), which the indexer's contract excludes.
- The CSV reader loses a last record that is a single NULL without its line break, and only that
  (`Csv.ReadsWhatIsPrinted` is an equivalence).

The attribution rule is stated for transactions whose transfers of a token are not interleaved with another's, as the
indexer receives them; `ZapAttribution.InterleavingLosesMint` shows only that this is needed.

## Model

| member | source | states |
|---|---|---|
| Events.FilterBeforeDedup | packages/clickhouse/src/events.ts:99-141 | for any rows with one row of an event per checkpoint, filtering before keeping the latest per id returns what filtering the entity view afterwards returns, if and only if wherever the filter holds of a row it holds of that event's latest row |
| Events.AccountRead | packages/clickhouse/src/events.ts:11-17 | so reading by account is exact, under the contract that an id keeps its account |
| Events.RangeAboveRead | packages/clickhouse/src/events.ts:99-141 | and so is reading a time range with a lower bound on each chain's checkpoint |
| Events.AccountReadExactly | packages/clickhouse/src/events.ts:11-17 | without the contract, reading by account is exact if and only if no event of the account has moved to another one |
| Events.MovedEventStaysVisible | packages/clickhouse/src/events.ts:11-17 | and of an event that has, an old row stays visible to the first account |
| Events.StoredKeys | packages/clickhouse/src/events.ts:99-141 | the keys a statement stores are those of every matching row, latest or not |
| Events.OneRowPerEvent | packages/clickhouse/src/events.ts:99-141 | of the committed rows that match, each id of a chain gives the one of the highest checkpoint and no other, unless that one is a deletion or fails the filter on latest rows |
| Ranges.PlanRanges | packages/clickhouse/src/ranges.ts:42-69 | the planned ranges are a greedy cut of the atoms, cover the range exactly with consecutive non-empty ranges, and conserve the counted events of the buckets that meet it |
| Ranges.BucketAtoms | packages/clickhouse/src/ranges.ts:24-34 | a bucket's atoms stand in order inside its clipped part, sum to its events, each within maxEvents or one millisecond long |
| Ranges.AtomsTile | packages/clickhouse/src/ranges.ts:24-34 | the atoms tile the clipped bucket without gaps, each with its even share of time and events to within one |
| Ranges.FewestAtoms | packages/clickhouse/src/ranges.ts:24-34 | no fewer atoms hold a bucket's events within maxEvents |
| Ranges.RangesWithinLimits | packages/clickhouse/src/ranges.ts:42-69 | a range exceeds maxEvents only when it is a single one-millisecond atom, and maxSpanMs only when it is a single atom |
| Ranges.FewestRanges | packages/clickhouse/src/ranges.ts:42-69 | no cut of the same atoms within the limits has fewer ranges |
| Ranges.NoRangeSkipped | packages/clickhouse/src/ranges.ts:42-69 | some planned range counts nothing if and only if no counted bucket meets the whole range, so skipping empty ranges skips no event |
| Reprice.RepriceRanges | packages/clickhouse/src/deployments.ts:831-855 | however the range is cut, open-ended or not, and though each statement reads what those before it stored, the chunked loop stores exactly what one statement over the whole range stores, and nothing when it runs no statement |
| Reprice.PlannedRanges | packages/clickhouse/src/deployments.ts:798-823 | the parts cover the range exactly and skip no counted row; an empty range comes back whole with nothing to run |
| Reprice.PlansAreComplete | packages/clickhouse/src/deployments.ts:798-823 | every plan of the hourly counts covers every counted row with a range that is not skipped |
| Reprice.RepricedSplit | packages/clickhouse/src/deployments.ts:831-855 | a statement over a range and then one over the range after it, reading what the first stored, are one over both |
| Reprice.RepricedExactly | packages/clickhouse/src/deployments.ts:831-855 | a statement writes a key exactly when a committed row of the range, strictly above the lower bound if there is one, has it and it is due as stored; every other key stays as it was |
| Reprice.KeysSplit | packages/clickhouse/src/deployments.ts:831-855 | the keys of two neighbouring statements are those of one over both |
| WatermarkSound.EveryMarkSound | packages/clickhouse/src/deployments.ts:857-997 | in every interleaving of advances, rewinds and commits, whatever the server's clock does, every watermark row ever written is sound: each event committed at or below its checkpoints with an earlier timestamp has a stored row |
| Watermark.RewindNeverLost | packages/clickhouse/src/deployments.ts:593-617 | the FINAL row is the rewind's, a later rewind's, or one of an advance that compared with a row at least as late as the rewind |
| Watermark.AdvanceBuildsOnSeen | packages/clickhouse/src/deployments.ts:906-985 | an advance's row replaces a row that is there and no other of that move; it moves neither watermark nor frontier back, and every event in between was stored again after it |
| Watermark.RewindStopsAdvance | packages/clickhouse/src/deployments.ts:1036-1049 | from the moment a rewind lands, even between an advance's check and its insert, that advance inserts at most the one row it had checked, older than the rewind |
| Watermark.NextCheckSuperseded | packages/clickhouse/src/deployments.ts:603-617 | and its next check, if it makes one, ends it as superseded (or the call fails) |
| WatermarkRaces.EndsExactly | packages/clickhouse/src/deployments.ts:937-997 | besides superseded and failed, an advance that a rewind passes can end as done, paused or waiting, each if and only if it was at the place that leads there without another check |
| WatermarkRaces.DoneAfterRewind | packages/clickhouse/src/deployments.ts:603-617 | a whole run in which an advance ends as done though a rewind landed before its last insert |
| Watermark.RewindLandsAhead | packages/clickhouse/src/deployments.ts:1036-1049 | when a rewind lands, every advance underway compares with something older |
| Watermark.NextKeepsInv | packages/clickhouse/src/deployments.ts:880-997 | every client call of an advance, a retry or a rewind, and every commit, keeps the protocol's invariant |
| WatermarkWrites.RewindRowIsAsAsked | packages/clickhouse/src/deployments.ts:1034-1048 | every rewind's row, in every run, has the watermark asked for and the checkpoints of a row that was FINAL at its read and not below it |
| WatermarkWrites.RewindRefusedExactly | packages/clickhouse/src/deployments.ts:1040-1046 | a rewind is refused if and only if there is no row or the time asked for is after the FINAL watermark; else it is about to write that time |
| WatermarkWrites.OneFrontier | packages/clickhouse/src/deployments.ts:906-910 | all the statements of an advance use the frontier committed as it read it |
| WatermarkWrites.StartIs | packages/clickhouse/src/deployments.ts:783-790 | the watermark step starts at the watermark read, or, when there is none, at the day of the first committed event |
| WatermarkWrites.DoneReaches | packages/clickhouse/src/deployments.ts:957-998 | an advance with only its provisional rows left has inserted a row with the frontier it read and a watermark at its target, or at its start when that is not before the target, and none of its parts goes beyond the target |
| WatermarkWrites.DoneFromLast | packages/clickhouse/src/deployments.ts:985-998 | and an advance is done only from there |
| WatermarkRaces.LostExactly | packages/clickhouse/src/deployments.ts:593-617 | with a clock that may stand still, some continuation shows a row of an advance underway before as the FINAL one, if and only if as the rewind lands such an advance has a row or a checked write no older, or compares with a row no older |
| WatermarkRaces.StrictNeverLost | packages/clickhouse/src/deployments.ts:593-602 | with a clock that moves until the rewind lands, it is never lost |
| WatermarkRaces.TieLosesRewind | packages/clickhouse/src/deployments.ts:593-602 | a whole run in which the check and the rewind fall in one microsecond and the rewind is lost |
| Pending.PendingEvents | packages/clickhouse/src/deployments.ts:349-398 | given a sound watermark row, the chunked late-plus-recent count is the number of committed events of the period, up to the earlier of the client's and the server's age limits, with neither a stored row nor an indexer price |
| Pending.CountPart | packages/clickhouse/src/deployments.ts:372-395 | one step's loop over planned parts counts exactly the pending events of its range, skipping only parts without any |
| Pending.StatementExact | packages/clickhouse/src/deployments.ts:311-333 | one count statement is exact for its range, including the rows it leaves out below the recorded frontier |
| Pending.PeriodCovered | packages/clickhouse/src/deployments.ts:349-371 | the late and the recent step cover the period without overlap |
| Pending.SnapshotSound | packages/clickhouse/src/deployments.ts:335-348 | in every run of the watermark protocol the row a count reads is sound, so the count is exact there |
| Pending.UnsoundMarkHides | packages/clickhouse/src/deployments.ts:335-348 | without soundness the count can miss an event |
| Pricing.StoredIsDirect | packages/clickhouse/src/pricing.ts:97-191 | what the pruned, sentinel-headed match stores for an event is the flag, price and points of a direct search of the whole price table |
| Pricing.StoredPrice | packages/clickhouse/src/pricing.ts:148-191 | from the price table's own rows: with a last row up to the event's second and a first from it on, each within 48 hours and of the larger source at its time, the price is on the line between the two, stale exactly when they are over six hours apart; with one, it is that row's, extrapolated; with none it is missing; source and times are theirs |
| Pricing.PriceAtPoint | packages/clickhouse/src/pricing.ts:184-188 | so at a point's own time the price is the point's |
| Pricing.AnyChunkSamePrice | packages/clickhouse/src/pricing.ts:84-96 | so any two chunks that contain an event store the same price for it |
| Pricing.EveryEventStored | packages/clickhouse/src/pricing.ts:112-191 | every event of a chunk gets a row |
| Pricing.SearchPruned | packages/clickhouse/src/pricing.ts:112-150 | restricting the points to the chunk's assets and days within reach loses nothing that is within 48 hours |
| Pricing.AsofExact | packages/clickhouse/src/pricing.ts:126-165 | every ASOF match answers the direct search if and only if the last point at or before the event is not at the epoch |
| Pricing.EpochTieWrong | packages/clickhouse/src/pricing.ts:126-165 | there the sentinel matches too, and its answer is wrong |
| Pricing.DirectUnique | packages/clickhouse/src/pricing.ts:84-96 | the direct search has one answer |
| Pricing.PriceBetween | packages/clickhouse/src/pricing.ts:166-191 | an interpolated price lies between the two it is made of |
| Lifecycle.NamedNeverDropped | packages/clickhouse/src/deployments.ts:1204-1259 | in every run what an API view names is deployed and not dropped, its tables are there, and the next step drops neither its tables nor its database |
| Lifecycle.DroppedForever | packages/clickhouse/src/deployments.ts:1204-1259 | dropped is terminal, dropped tables stay recorded, and such a version is never active or named again |
| Lifecycle.CompletedSwitch | packages/clickhouse/src/deployments.ts:493-535 | a completed switch leaves exactly one active version, its target, intact and named by all three views |
| Lifecycle.RerunAccepted | packages/clickhouse/src/deployments.ts:425-507 | neither the state nor the tables of an active version refuse a switch to it again, whatever ran meanwhile: it needs force if and only if its events do not pass the gate, which compares them with no other version once the ones before are retired |
| Lifecycle.SwitchConverges | packages/clickhouse/src/deployments.ts:488-535 | from any state half done by switches that stopped, a switch whose statements succeed ends with its target the one active version, intact and named by every view, in a bounded number of statements |
| LifecycleSteps.StatesMove | packages/clickhouse/src/deployments.ts:465-535 | in every run a state moves only from nothing to building to ready, from any state with its tables to active, from active to retired and from retired, its tables dropped, to dropped; tables are dropped only while retired and unnamed |
| LifecycleSteps.ViewsAreExchanged | packages/clickhouse/src/deployments.ts:517-534 | a view changes only to the target of the switch underway, and one that is there only by an exchange with the one built aside, so it is never missing |
| LifecycleSteps.GateExactly | packages/clickhouse/src/deployments.ts:425-507 | a version can be marked ready if and only if it is building, and switched to if and only if it has its tables and is ready or active, and both, unless forced, only when it has the price columns, nothing pending, nine tenths of the current version's events on each of its chains and a watermark within a day of where it may be |
| LifecycleSteps.CleanupTakes | packages/clickhouse/src/deployments.ts:1204-1259 | a cleanup takes its version's tables, then its database unless it is shared, and nothing of another version |
| LifecycleSteps.DeployMakes | packages/clickhouse/src/deployments.ts:238-262 | a deploy makes the tables of a version that is not dropped, as building when it is new, and moves no state when it is not |
| LifecycleRaces.NamedAfterDropExactly | packages/clickhouse/src/deployments.ts:1204-1259 | with reads and acts as steps of their own, a version can be named after its tables are dropped if and only if a view names it or a switch to it is underway as the drop lands |
| LifecycleRaces.ClearDropsAreSafe | packages/clickhouse/src/deployments.ts:1198-1259 | where every drop lands clear of both, what a view names always has its tables |
| LifecycleRaces.CheckedStaysClear | packages/clickhouse/src/deployments.ts:1198-1259 | what a cleanup found unnamed stays clear until its drop unless a switch to it is underway in between |
| LifecycleRaces.SwitchBackLosesTables | packages/clickhouse/src/deployments.ts:488-513 | whole runs in which a forced switch back comes to name the tables a cleanup has just dropped, between its read and its mark or after its mark |
| Lifecycle.NextKeepsInv | packages/clickhouse/src/deployments.ts:493-535 | every statement of deploy, mark ready, switch and cleanup keeps the lifecycle's invariant |
| CacheVersion.CachedNeverOlder | packages/clickhouse/src/timeline.ts:232-239 | while switches go up, no response cached under version N was built from rows of an older version, and no build under way will be |
| CacheVersion.StatusFollows | packages/clickhouse/src/deployments.ts:517-534 | the status view moves only to a version the timeline view already names |
| CacheVersion.OlderRowsExactly | apps/api/src/timeline/service.ts:110-151 | in any state of any run, while the timeline view names v, a response of v's rows can be cached under a newer version's key if and only if the status view, a status read not published yet, the published version or the key of a build is newer than v |
| CacheVersion.SwitchingBackCachesOlder | apps/api/src/timeline/service.ts:110-151 | for any two versions, a whole run that switches from the higher back to the lower and caches rows of the lower under the higher |
| ZapAttribution.WrittenIsRule | apps/indexer/src/lib/timeline.ts:112-159 | when a transaction's logs are contiguous, the MINT and BURN rows written log by log are exactly those of the rule over the transaction's ordered transfers |
| ZapAttribution.FlowsKept | apps/indexer/src/lib/timeline.ts:112-159 | the one flow kept per token holds exactly the legs of its last transaction |
| ZapAttribution.WrittenIsWorded | apps/indexer/src/lib/timeline.ts:112-159 | they are those of the rule as the source words it, passing on to another account, if and only if no account passes a minted value to itself |
| ZapAttribution.SelfForwardIsMarked | apps/indexer/src/lib/timeline.ts:144-147 | a run with such a transfer, and the row it writes beyond the worded rule |
| ZapAttribution.InterleavingLosesMint | apps/indexer/src/lib/timeline.ts:112-159 | without contiguous logs an attribution is lost, so the assumption is needed |
| Ledger.SupplyIsSum | apps/indexer/src/lib/balances.ts:27-125 | after every run of transfers and stakes a token's supply is the sum of its balances plus what was staked, net, for the zero address |
| Ledger.SupplyIsSumExactly | apps/indexer/src/lib/balances.ts:105-125 | so the two are equal if and only if that is nothing |
| Ledger.ZeroStakeParts | apps/indexer/src/lib/balances.ts:105-125 | after any run in which they are equal, a stake for the zero address adds its amount to the supply and nothing to any balance |
| Ledger.RowsAreSteps | apps/indexer/src/lib/balances.ts:27-51 | each account's BALANCE rows are a step function with non-zero deltas that ends at its balance, and the zero address has none |
| Ledger.BalanceIsHolding | apps/indexer/src/lib/balances.ts:27-125 | after every run each account's balance of each token is what transfers sent to it less what they sent from it, plus what it staked less what it unstaked; the zero address holds nothing |
| Ledger.RowsAreGains | apps/indexer/src/lib/balances.ts:27-51 | and its BALANCE rows are, in order, one for each operation that changed what it holds, with the change and TRANSFER or BOOST_STAKE as its source |
| IndexerStore.Store.HandleShareTransfer | apps/indexer/src/lib/balances.ts:71-102 | each account's balance moves by what the transfer sends to it less what it sends from it; supply, flows, marks and transfers are the ledger's and the matcher's step |
| IndexerStore.Store.HandleBoostStake | apps/indexer/src/lib/balances.ts:105-125 | a stake adds its amount to the user's balance and an unstake takes it, no other balance moves, and its BoostStake row is added |
| IndexerStore.Store.ApplyBalanceDeltas | apps/indexer/src/lib/balances.ts:27-51 | the loop over tracked deltas is the ledger's, each reading the balance from before the event |
| IndexerStore.Store.WriteTransferTimeline | apps/indexer/src/lib/timeline.ts:112-159 | the flow read and set, and the marks written, are the matcher's step |
| IndexerStore.Store.HandleEvents | apps/indexer/src/lib/balances.ts:71-125 | after a chain's transfers and stakes, in any order, the store satisfies all of it: every account's balance is what it received and staked less what it sent and unstaked, its rows are those changes, supplies are the sums of balances plus what was staked, net, for the zero address, marks are the rule's, and each event has its own row |
| ByteLru.HitIsLastSet | apps/api/src/http/lru.ts:24-39 | after any calls, a hit is the last value set under its key, in the state its age dictates |
| ByteLru.CachedFaithful | apps/api/src/http/lru.ts:12-66 | the entries are last-set values in order of last use, within the byte limit, after any calls |
| ByteLru.EvictsShortestPrefix | apps/api/src/http/lru.ts:54-57 | eviction drops the shortest least recently used prefix that makes room |
| ByteLru.SetKeepsItsEntry | apps/api/src/http/lru.ts:40-58 | a set that fits keeps its entry, as the most recently used |
| ByteLru.StaysIff | apps/api/src/http/lru.ts:40-58 | another key's entry survives a set if and only if it fits with everything used after it and the new entry |
| ByteLru.Lru.Get | apps/api/src/http/lru.ts:24-39 | a lookup is the specification's step and answer, with used equal to the sum over entries and within the limit |
| ByteLru.Lru.Set | apps/api/src/http/lru.ts:40-58 | and so is a set |
| RateLimiter.WindowBound | apps/api/src/http/rateLimit.ts:22-48 | over any stretch of takes that keeps a key's bucket, the takes granted to it are at most its burst plus its rate over the stretch |
| RateLimiter.AllowedExactly | apps/api/src/http/rateLimit.ts:22-48 | a take is granted if and only if one more grant keeps every window that ends with it in bounds |
| RateLimiter.WaitIsRight | apps/api/src/http/rateLimit.ts:43-47 | after the wait a refusal asks for the bucket has a token, and a second less is not enough |
| RateLimiter.ForgottenOnlyAfter | apps/api/src/http/rateLimit.ts:27-41 | a key's bucket is forgotten only after at least maxKeys other keys have taken |
| RateLimiter.TableBounded | apps/api/src/http/rateLimit.ts:27-41 | the table holds each key once and at most maxKeys keys |
| RateLimiter.Limiter.TakeOne | apps/api/src/http/rateLimit.ts:28-47 | the method's new table and answer are the specification's |
| ConcurrencyLimiter.ReleasedInv | apps/api/src/http/limiter.ts:21-27 | ending a run keeps the limits and the queue's order, and starts the oldest waiter |
| ConcurrencyLimiter.TimedOutInv | apps/api/src/http/limiter.ts:40-45 | a timed out waiter, and no other, leaves the queue |
| ConcurrencyLimiter.Limiter.Acquire | apps/api/src/http/limiter.ts:29-50 | a call starts if and only if a slot is free, is refused if and only if slots and queue are full, and waits last otherwise; slots and queue stay bounded and none waits while a slot is free |
| ConcurrencyLimiter.Limiter.Release | apps/api/src/http/limiter.ts:21-60 | a freed slot goes to the first waiter, and to no one only when none waits |
| ConcurrencyLimiter.Limiter.TimeOut | apps/api/src/http/limiter.ts:40-45 | a waiter that times out, and no other, leaves the queue |
| SingleFlight.Flight.Run | apps/api/src/http/singleFlight.ts:5-11 | a call joins the key's run when there is one and starts one otherwise |
| Service.MissesBounded | apps/api/src/timeline/service.ts:151-186 | in every interleaving, over any window the builds not started by a stale hit are at most missBurst plus missesPerMinute over the window |
| Service.ClientMissesBounded | apps/api/src/timeline/service.ts:160-186 | and over any stretch that keeps a client's bucket, the builds its misses started are at most its burst plus its rate over the stretch |
| Service.OneBuildPerKey | apps/api/src/timeline/service.ts:151-153 | each key has at most one build |
| Service.ReadsBounded | apps/api/src/timeline/service.ts:112-122 | at most maxInFlight builds read, none waits while a slot is free, the queue is bounded and in order of arrival |
| Service.OldestFirst | apps/api/src/http/limiter.ts:18-59 | a freed slot goes to the build that has waited longest |
| Service.OnlyMissesPay | apps/api/src/timeline/service.ts:160-186 | joiners and cache answers are never charged, a client its own budget refuses takes nothing from the shared one, and what a miss starts was allowed by and charged to both |
| Service.AskedAnswers | apps/api/src/timeline/service.ts:159-186 | what every request is answered and starts: a key remembered as too large is refused; a fresh copy is given and starts nothing; a stale one is given and one build of the key then runs; else it joins the build, or starts one when both budgets allow, or is limited, with a copy kept for errors, if there is one, to stand in |
| Service.CachedWasBuilt | apps/api/src/timeline/service.ts:112-149 | every cached entry is what a build of its key stored, with the lifetimes counted from then |
| Service.BuiltIsCached | apps/api/src/timeline/service.ts:112-149 | and what a build stores is cached at once if it fits |
| Service.RememberedWasTooLarge | apps/api/src/timeline/service.ts:113-121 | a key is remembered as too large only from a build of it that was told so, for five minutes |
| Service.TooLargeIsRemembered | apps/api/src/timeline/service.ts:113-121 | it is then remembered exactly until those are over, and of the other keys only the oldest of a full list goes |
| Service.TooLargeBounded | apps/api/src/timeline/service.ts:116-118 | the list of too large keys is bounded, with each key once |
| Service.EveryBuildEnds | apps/api/src/timeline/service.ts:112-153 | from every state of every run every build can end in two steps, and frees its key |
| Service.NextKeepsGate | apps/api/src/timeline/service.ts:112-153 | every step keeps the single flight, the builds and the limiter in agreement |
| Pacer.SendsBounded | apps/indexer/scripts/rpcPacer.ts:399-474 | for any answers of n upstreams a request makes at most 13n - 1 sends, and never waits once all have refused it |
| Pacer.WaitingIsWoken | apps/indexer/scripts/rpcPacer.ts:340-388 | a waiting request always has a send in flight at an upstream it may go to, and the end of that send wakes it |
| Pacer.WithinLimits | apps/indexer/scripts/rpcPacer.ts:345-358 | each upstream stays within its concurrency, its rate within the limits |
| PacerRuns.RepliesExactly | apps/indexer/scripts/rpcPacer.ts:399-474 | a request ends as passed if and only if it got a good answer while its client was there; with the last refusal if and only if it had one and, as it looked for an upstream, each had refused it or, near the head, was paused; given up if and only if a failure used up its attempts; abandoned if and only if its client was gone as it looked or had an answer |
| PacerRuns.GoesToSoonest | apps/indexer/scripts/rpcPacer.ts:291-316 | a request goes to an upstream that has not refused it, untried if any is, below its cap; none such is free before the slot it reserves, and of those free by then none has fewer requests in flight |
| PacerRuns.RefusedExactly | apps/indexer/scripts/rpcPacer.ts:405-448 | a request leaves out the upstreams that refused it and those known to refuse its range as it arrived, unless all were |
| PacerRuns.HasRefusalExactly | apps/indexer/scripts/rpcPacer.ts:443-450 | it has a refusal to give if and only if one refused it in an answer |
| PacerRuns.TriedExactly | apps/indexer/scripts/rpcPacer.ts:431-472 | an upstream counts as tried if and only if it answered since the request last backed off |
| PacerRuns.BacksOffExactly | apps/indexer/scripts/rpcPacer.ts:459-472 | a request backs off if and only if a failure other than a rate limit, and not its last, leaves every upstream tried or refused |
| PacerRuns.LimitIsLeast | apps/indexer/scripts/rpcPacer.ts:443-447 | what is known of an upstream's log range is one less than the shortest it refused |
| PacerRuns.RateFollows | apps/indexer/scripts/rpcPacer.ts:432-457 | each upstream's rate is that of its own controller over its own good and rate limited answers, and its strikes are the rate limits since its last good one |
| PacerRuns.PausedUntilLatest | apps/indexer/scripts/rpcPacer.ts:451-457 | an upstream is paused until the latest end that one of its rate limited answers asked for |
| PacerRuns.RetryDelayIs | apps/indexer/scripts/rpcPacer.ts:101-105 | that is the Retry-After, up to a minute, or half a second doubled with each strike, up to a minute |
| PacerRuns.SendsCounted | apps/indexer/scripts/rpcPacer.ts:399-474 | the sends a request is bounded by are those it began in the run |
| Pacer.SlotsApart | apps/indexer/scripts/rpcPacer.ts:345-358 | an upstream's slots are at least 1000 / maxRps ms apart, so k more of them take k times that |
| Pacer.PicksSoonest | apps/indexer/scripts/rpcPacer.ts:291-316 | the pick is free and none free is sooner; there is none exactly when the whole pool is at its cap |
| Pacer.HalvingsApart | apps/indexer/scripts/rpcPacer.ts:107-142 | over any sequence of answers, two halvings of a rate are at least a cooldown apart |
| Pacer.FallsOnlyThere | apps/indexer/scripts/rpcPacer.ts:107-142 | a rate falls only by a halving, and stays within its limits |
| Pacer.RateController.OnRateLimited | apps/indexer/scripts/rpcPacer.ts:135-140 | the method's new state is the specified step, of which those are proved |
| Pacer.RateController.OnSuccess | apps/indexer/scripts/rpcPacer.ts:128-134 | the rate stays within its limits and is raised after a streak |
| KnownConfig.OnlyLastKnownMatters | apps/indexer/scripts/knownConfig.ts:105-164 | merging into the result of a merge gives what merging into the text gives, the refusal of an address included; so merging twice changes nothing |
| KnownConfig.ExtractsWhatIsMerged | apps/indexer/scripts/knownConfig.ts:166-185 | with markers only inside address lists, the extractor finds in the merged text, list by list, exactly the known addresses not listed by hand |
| KnownConfig.MergesWhatIsExtracted | apps/indexer/scripts/knownConfig.ts:105-185 | and merging back what was extracted changes nothing, also where lists of one chain and contract have different addresses by hand |
| KnownConfig.MergeAgain | apps/indexer/scripts/knownConfig.ts:109-164 | the same on lines, from any chain and contract |
| KnownConfig.HandAgain | apps/indexer/scripts/knownConfig.ts:129-140 | a rewritten body gives its hand-listed lines back, and only them |
| KnownConfig.LinesOfJoined | apps/indexer/scripts/knownConfig.ts:110-110 | splitting the joined lines gives them back |
| KnownConfig.MergeKnownContracts | apps/indexer/scripts/knownConfig.ts:109-164 | the loops compute the specified merge, refusing where the source throws |
| KnownConfig.ExtractKnownContracts | apps/indexer/scripts/knownConfig.ts:167-185 | the loop and the grouping give each chain and contract exactly the addresses of its blocks, lowercase, each once, sorted |
| ConfigLines.ChainLine | apps/indexer/scripts/knownConfig.ts:117-117 | the chain pattern matches exactly the indented key, digits and a word's end, and gives their number |
| ConfigLines.NameLine | apps/indexer/scripts/knownConfig.ts:122-122 | the name pattern matches exactly the indented key, a word and blanks, and gives the word |
| ConfigLines.KeyLine | apps/indexer/scripts/knownConfig.ts:124-124 | the list pattern matches exactly the key, open or empty, and blanks |
| ConfigLines.BulletLine | apps/indexer/scripts/knownConfig.ts:97-97 | the address pattern matches exactly the bullet, an address and a word's end |
| ConfigLines.LowerIs | apps/indexer/scripts/knownConfig.ts:143-143 | lowercase is the same text but for case, without capitals, so a listed address becomes one that may be written |
| ConfigLines.StandsInExactly | apps/indexer/scripts/knownConfig.ts:116-123 | a list is in the chain whose line is the last before it and the contract named last since that line |
| ConfigLines.ListInPlace | apps/indexer/scripts/knownConfig.ts:114-162 | around any list the text is rewritten as if on its own, and in its place stand the list's hand lines and the addresses known of its chain and contract |
| ConfigLines.LineStays | apps/indexer/scripts/knownConfig.ts:125-129 | any other line outside the lists stays |
| ConfigLines.HandIs | apps/indexer/scripts/knownConfig.ts:131-140 | the hand lines are, in order, the items that are no markers and not between a begin marker and the next end marker |
| ConfigLines.GeneratedIs | apps/indexer/scripts/knownConfig.ts:141-149 | the generated addresses are the known ones that no hand line lists, whatever its case |
| ConfigLines.ListIsWritten | apps/indexer/scripts/knownConfig.ts:150-160 | a list is refused if and only if a generated address is not lowercase, and else is the key, the hand lines and the block of generated addresses between the markers, or the empty list |
| KnownAddresses.ToKnownIs | apps/indexer/scripts/knownConfig.ts:55-82 | each list is in strict order and holds exactly the addresses routed to it |
| Csv.ReadsWhatIsPrinted | apps/indexer/scripts/correctness.ts:313-355 | the reader undoes the printer of section 2 of RFC 4180 with psql's NULLs, for any texts, optional quotes and LF or CRLF ends, if and only if the text does not end with an open record of a single NULL |
| Csv.TableReadBack | apps/indexer/scripts/correctness.ts:356-369 | with distinct column names every cell comes back under its column's name, and nothing else |
| Csv.ParseCsv | apps/indexer/scripts/correctness.ts:313-369 | the loop computes the specified reading |
| Build.EachRowInOneItem | apps/api/src/timeline/build.ts:104-122 | every row is in exactly one item |
| Build.ItemIs | apps/api/src/timeline/build.ts:104-197 | an item is that of its transaction's and product's rows, all of them in order, with the product's total after the last |
| Build.ItemSays | apps/api/src/timeline/build.ts:124-197 | an item says of its rows what their fields say: the actions, the diff, each contract's move, the underlying tokens deposited less withdrawn, given exactly when there are any, the claims in order, and the last balance row as the one it is priced by |
| Build.SameItem | apps/api/src/timeline/build.ts:108-109 | two rows are in one item if and only if their chain, transaction and product address, or contract when that is empty, are the same |
| Build.NewestFirst | apps/api/src/timeline/build.ts:196-196 | items stand in the order of their first rows, the last first |
| Build.ItemsSum | apps/api/src/timeline/build.ts:104-197 | the diffs of a product's items sum to the total of its BALANCE deltas |
| Build.MovesCancel | apps/api/src/timeline/build.ts:131-138 | an item's diff is the sum of its contracts' moves, so moves between a product's own contracts cancel |
| Build.MovesOfOk | apps/api/src/timeline/build.ts:131-138 | one move per contract: the sum of its changes, the last balance given and the first kind |
| Build.BalancesRun | apps/api/src/timeline/build.ts:104-120 | when each transaction's rows of a product stand together, every item's balance is the next older item's plus its own diff, and the newest is the product's total |
| Chronology.BalancesRunExactly | apps/api/src/timeline/build.ts:104-120 | for the keys of any rows in any order, balances run whatever the rows move if and only if each transaction's rows of a product stand together |
| Chronology.ChronologicalOk | apps/api/src/timeline/repository.ts:79-99 | the sort gives the same rows in order of time, chain and log index |
| Chronology.SortedBy | apps/api/src/timeline/repository.ts:79-99 | earlier time first, then the smaller chain, then the smaller log index |
| Chronology.SortStable | apps/api/src/timeline/repository.ts:79-99 | and rows equal in all three stay in the order given |
| Chronology.SortedBalancesRun | apps/api/src/timeline/repository.ts:79-99 | rows of chains whose blocks have different times give timelines that run |
| Chronology.CrossingBreaks | apps/api/src/timeline/repository.ts:79-99 | where the logs of two blocks of one time cross, the chain can give amounts whose sorted rows do not |
| Chronology.TwoBlocksInASecond | apps/indexer/src/lib/event.ts:17-17 | block times are whole seconds, so a chain with two blocks a second gives such rows: three transfers of one share, with the balances as they ran on the chain |
| Build.ActionsOf | apps/api/src/timeline/build.ts:76-97 | on the rows' own fields, each once: a deposit for a CLM deposit or a mint, a withdrawal for a CLM withdrawal or a burn, a claim, a stake or unstake for a BOOST_STAKE balance row by its sign, and a transfer for any other balance row by its sign, but none in beside a deposit or an unstake and none out beside a withdrawal or a stake |
| Build.BuildTimeline | apps/api/src/timeline/build.ts:104-197 | the loops compute the specified items, newest first |

## Left out

- ClickHouse, Postgres, RPC, HTTP and Envio transport, statement text and identifier quoting: only the meaning of each statement is kept.
- Rollbacks of Envio rows already committed, which Envio deletes itself.
- Concurrent switches by two operators, a version marked ready while its gate is read, and a crash between a `DROP` and its record: the code keeps no invariant there.
- Envio databases shared by hand between versions: a database belongs to one version here, and cleanup may keep it.
- What the gate's statements read of a version's events: any counts, watermark and columns (`Pending` treats the pending count).
- The circuit breaker's state: it may refuse any build.
- The sleep of a backoff and of a reserved slot: a request may resume at any time after it.
- Watermark.RewindNeverLost: assumes a server clock that moves at every step, because `WatermarkRaces.LostExactly` treats one that does not.
- Lifecycle.NamedNeverDropped: takes what a switch and a cleanup read before they act as one step with the act, because `LifecycleRaces` treats them apart.
- RateLimiter.AllowedExactly: speaks of a bucket from its creation while it is kept, because a forgotten key starts again with a full one.
- Pending.PendingEvents: the stored keys, the mark and the server's age limit are those of one instant for the whole count, where the source runs one statement per part: events stored or committed between two of its statements are not modelled.
- An insert that fails for the client and yet lands, of watermark rows as of prices: a failed call in `Watermark.Calls` leaves nothing behind.
- Csv.TableReadBack: a row is a map, without JavaScript's special object keys.
- Build.ItemIs: amounts stay integers and prices stay in their row, because decimal printing, dates and dollar values are formatting.
- Service.MissesBounded: responses are opaque values, and the key's version is an opaque part of the key, because `CacheVersion` treats it.
- The price choice of the timeline view between stored and indexer prices, the pick of a product's facts, contract registration and call batching: joins and merges of single rows.
- Settled-block copies, transaction recovery and answer classification of the pacer: what an upstream answers is any kind.
- Calendar formatting, floating point, metrics, logging, configuration, the scheduler loop and address data.
