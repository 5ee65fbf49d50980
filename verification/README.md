# PluginPocket verification model

A Dafny model of the parts of PluginPocket whose correctness rests on protocols rather than on single functions, with
proofs of what those protocols promise. `dafny verify dfyconfig.toml` checks everything.

The model covers six components. Each has a value-level specification of its transactions, lock sections or passes,
methods in the imperative form of the source proved equal to that specification, and theorems over all runs.

1. **Upstream session pool.** `SessionPool` holds the lock sections of one HTTP session pool. `LeaseProtocol` runs any
   number of lease requests, releases and forced closes over any number of pools, with one step for every lock section,
   channel operation, dial and wait-group operation; `LeaseInvariant`, `LeaseProofs` and `LeaseRegistry` prove an
   inductive invariant over all interleavings, and `LeaseTheorems` states what follows from it. `LeaseEffects` says what
   each section does in terms of what it finds; `LeaseProgress` and `LeaseTermination` show that leases are reached, that
   nothing deadlocks, and that every goroutine ends.
2. **Credit ledger.** `LedgerModel` has one function for each transaction that moves credits: registration, top-up codes,
   reserve, denied calls, finish, adjustment, redemption, team funding. `LedgerStore` is the same in the statement order
   of both stores and of the handlers. `LedgerInvariant`, `LedgerProofs`, `LedgerTheorems` and `LedgerRuns` prove
   conservation, exact settlement and idempotence; `LedgerRecovery` proves the recovery sweep while any other transactions
   commit between its own. `Settlement` and `GatewayCall` put the gateway's call on top, with every way a commit can
   succeed, fail, or succeed without its acknowledgement arriving. `LedgerEffects` and `LedgerGrants` read each
   transaction's effect, and the credits of a run, off the requests; `SettlementMeaning` and `CallVerdicts` do so for the
   verdict on a result and the cost of a call.
3. **Tool catalog.** `CatalogCache` has the cache's lock sections and a discovery's paging; `CatalogProtocol` interleaves
   configuration commits, invalidations, expiry, requests and discoveries; `CatalogProofs` and `CatalogTheorems` show
   what a served catalog may contain, `CatalogFreshness` when one is served at all, `CatalogDiscovery` what a discovery
   finds, and `CatalogDuplicates` when it fails on a duplicate name. `ToolNames` is the public naming of remote tools.
4. **CLI configuration.** `ConfigJournal` is the plan of atomic writes with its ownership journal, cut off anywhere;
   `LocalClient` is the code's own loops. `JournalProofs` and `JournalTheorems` prove crash safety and convergence,
   `BackupOrder` what the backups hold, and `JobRefusals` which jobs are refused. `TextLines`, `HealBlock`,
   `HealTheorems`, `HealTwice`, `HealLimits`, `Splice`, `SpliceTheorems`, `SlotMarkers` and `HealThenSplice` cover the
   text side: repairing a polluted block and taking a block out of a TOML file; `HealMeaning` and `SpliceMeaning` say
   which lines and texts those are.
5. **Published Git repository.** `SkillPaths` and `SkillFiles` validate the files of a skill, `SafePaths` and
   `SkillAcceptance` say which those are; `Exporter` renders the marketplace tree, `ExportMeaning` and `ExportComplete` say
   what it holds; `GitTree`, `GitOrder`, `GitObjects`, `GitRender` and `GitMarketplace` turn it into Git objects, and
   `GitReadBack` reads them again with an independent reader of Git's tree, blob and commit formats. `GitHistory`,
   `GitRegistry` and `GitTheorems` follow the published history over every sequence of rebuilds, `GitRefs` the way to it
   from HEAD; `GitTreeOrder` and `GitTexts` read orders, paths and times off what is written; `ExportTheorems`,
   `ExportReadBack` and `PublishedExports` join the pieces from validated skill to fresh clone.
6. **Rate limiter.** `RateLimit` has the upsert with its reclamation, and the bounds over unbounded request sequences.

## Assumptions

- Each committed transaction and each lock section is one step; row locks and the single SQLite writer make the
  transactions serial. A transaction that fails leaves the database as it was.
- Fresh wallets start at 0 credits, a pending call has recorded cost 0, and a request key is unique for its token.
- What others commit beside a recovery sweep reserves with clocks past its cut-off.
- Every configuration commit raises the database revision by one in its own transaction.
- A digest has twenty bytes, inflating undoes deflating, and the objects of a run do not collide. Nothing assumes that the
  hash is injective on all strings, which no hash is. A hexadecimal SHA-256 is not the empty string.
- `strings.ToLower` acts on each path segment by itself and never makes one empty, `.`, `..` or slashed.
- Verdicts of settlement scripts and patterns, the TOML parser and the JSON documents are arbitrary functions. Marketplace
  slugs have no slash or NUL: every insertion checks them (`server/internal/app/marketplace.go:173`, `:329`, `:513`).

## Results that qualify a promise

- Reclaiming expired public windows changes no answer exactly when public windows are at most a minute long: the rows are
  chosen by minute numbers, whatever their own window length (`ReclaimInvisibleIff`, `ReclaimVisible`).
- A call answered with an error costs nothing, except in exactly one case: the settlement committed and only its
  acknowledgement was lost (`AnswerTellsCost`, `LostAcknowledgement`, `ChargedButReportedFailed`).
- The duplicate-name failure of a discovery is reachable. On every run, a page fails it exactly when a tool of the page is
  already bound under the same key, and then commits moved that key from a row already read to one of this page
  (`DuplicateIff`). Two commits of one row each between the pages are enough (`MovedKeyFails`, `DuplicateHappens`).
- Repairing a repaired block changes nothing exactly when the block held nothing foreign, the end marker stands alone on
  its line, or no line of the block keeps a carriage return (`HealTwiceIff`); for every pair of markers there is a text on
  which the second repair differs (`SecondRepairDiffers`). The repair panics on a reversed slice exactly when both markers
  occur and some end marker ends before every begin marker starts (`PanicIff`).
- A client file entry that is itself the record's array of versions passes the ownership check; it is the only value that
  is owned without having been generated or accepted as one (`OwnedIff`, `OnlyGenerated`). The journal loses it
  exactly when the job replaces that record by an entry which the array does not list (`JournalOwnsIff`, `CrashSafeIff`):
  then a cut behind the journal leaves a file that the next run for that name refuses (`StuckIff`, `ArrayEntryStuck`).
  After interrupted runs that lost no array in that way, every run converges (`Converges`).
- A tree reads back exactly if and only if no path lies inside another (`VisibleIff`, `MarketplaceReadBack`). Exports meet
  that because slugs have no slash, which is checked where they are inserted, not by the exporter.

## Model

| member | source | states |
|---|---|---|
| `SessionPool.HttpSessionPool.BeginLease` | server/internal/gateway/http_pool.go:126-133 | entering a pool under its lock counts the lease unless the pool is retired |
| `SessionPool.HttpSessionPool.PickIdle` | server/internal/gateway/http_pool.go:159-170 | the last idle session is popped, or none; whether the pool is retired is observed under the same lock |
| `SessionPool.HttpSessionPool.RecordSession` | server/internal/gateway/http_pool.go:176-193 | a dialed or popped session is recorded with its request context only if dialing succeeded, the pool is live and the caller still waits; otherwise it leaves the map |
| `SessionPool.HttpSessionPool.ReleaseSession` | server/internal/gateway/http_pool.go:197-217 | a session goes back on the idle stack without its context, or out of the map when it failed or the pool is retired |
| `SessionPool.HttpSessionPool.Close` | server/internal/gateway/http_pool.go:220-242 | retires the pool, empties its idle stack into the sessions to close and, when forced, interrupts exactly the leased requests |
| `SessionPool.HttpSessionPool.FinishLease` | server/internal/gateway/http_pool.go:244-249 | uncounts one lease |
| `SessionPool.HttpSessionPool.ForgetIfUnused` | server/internal/gateway/http_pool.go:251-269 | marks a pool forgotten, once, when it is retired and has neither leases nor sessions |
| `LeaseEffects.EnterIff` | server/internal/gateway/http_pool.go:126-133 | a request entering a live pool is counted and waits for a slot; a retired pool turns it away and does not change |
| `LeaseEffects.PickTakesLast` | server/internal/gateway/http_pool.go:159-170 | the session on top of the idle stack is what a request gets, and it gets none exactly when the stack is empty |
| `LeaseEffects.EstablishedIff` | server/internal/gateway/http_pool.go:175-195 | a lease is established with the dialed session, attached in the pool's map, exactly if the dial did not fail, the pool is not retired and no context is done; otherwise the session leaves the map and the slot goes back |
| `LeaseEffects.ReleasedIff` | server/internal/gateway/http_pool.go:197-217 | a session released without error into a live pool is on top of the idle stack without a context; after an error or in a retired pool it is out of the map |
| `LeaseEffects.ReleasedThenPicked` | server/internal/gateway/http_pool.go:159-217 | what was released last is what the next request of the pool gets |
| `LeaseEffects.RetireDrops` | server/internal/gateway/http_pool.go:220-242 | a close keeps every leased session in the map, drops exactly the idle ones, and leaves the counter alone |
| `LeaseEffects.ForgottenIff` | server/internal/gateway/http_pool.go:251-257 | the cleanup is claimed exactly when the pool is retired, without leases and sessions, and not claimed before |
| `LeaseEffects.CleanupFrees` | server/internal/gateway/http_pool.go:258-269 | the cleanup frees the key only while it leads to this pool, and the row's provider exactly with its last pool |
| `LeaseProgress.LeaseIsReached` | server/internal/gateway/http_pool.go:98-195 | under every interleaving, a request for which nothing is canceled, closed or refused by the upstream never leaves the way to its lease and holds it after exactly eight steps of its own |
| `LeaseProgress.NeverStuck` | server/internal/gateway/http_pool.go:98-195 | in every reachable state it can take its next step, unless all 32 slots of its provider are taken or another goroutine holds the gateway's lock |
| `LeaseTermination.StepsAreBounded` | server/internal/gateway/http_pool.go:39-269 | in every run, each goroutine of a request, close or registration makes at most as many steps as its program counter leaves: fourteen for a whole lease |
| `LeaseTermination.NeverBlocked` | server/internal/gateway/http_pool.go:39-269 | in every reachable state, a goroutine that has not ended and is not using its lease has a next step, unless it waits for a slot that nothing stops it from waiting for, or for the lock |
| `LeaseTermination.LockIsGivenBack` | server/internal/gateway/http_pool.go:126-158 | whoever holds the gateway's lock is never held up, and its next step gives the lock back |
| `LeaseRegistry.StepKept` | server/internal/gateway/http_pool.go:39-269 | every enabled step of any actor, pool or registry keeps the whole invariant |
| `LeaseRegistry.ReachableInv` | server/internal/gateway/http_pool.go:39-269 | the invariant holds in every reachable state |
| `LeaseTheorems.SlotsAreHeld` | server/internal/gateway/http_pool.go:126-249 | slots in use are exactly the actors between send and receive, at most 32 over all live and retired pools of a row; a pool's counter is exactly its actors between entry and finishLease |
| `LeaseTheorems.OneOwner` | server/internal/gateway/http_pool.go:159-242 | no session is in two hands, in a hand and idle, or idle twice; a retired pool has no idle session |
| `LeaseTheorems.SessionMapExact` | server/internal/gateway/http_pool.go:159-217 | the session map is exactly idle plus recorded in hand, and contexts are attached exactly to leased sessions |
| `LeaseTheorems.FailedNeverLeasedAgain` | server/internal/gateway/http_pool.go:197-217 | a session released with an error is neither leased nor idle in any later state |
| `LeaseTheorems.ForgottenOnce` | server/internal/gateway/http_pool.go:251-269 | the cleanup of a pool runs at most once, and only when it is retired without leases and sessions |
| `LeaseTheorems.QuiescentRetiredIsForgotten` | server/internal/gateway/http_pool.go:220-269 | a retired pool of which every request and close has finished has been forgotten and cleaned up |
| `LeaseTheorems.ProviderDroppedIdle` | server/internal/gateway/http_pool.go:251-269 | a provider leaves the registry only with its last pool, and then no slot is held |
| `LeaseTheorems.SuccessorKept` | server/internal/gateway/http_pool.go:45-95 | in every reachable state and whatever step comes next, a registered pool stays the one found under its key, except for exactly three steps: Close's sweep, its own cleanup, and the registration of a successor, and the last two only once it is retired |
| `LeaseTheorems.LiveIsRegistered` | server/internal/gateway/http_pool.go:45-95 | until the gateway closes, every live pool is found under its key and is the only live one there |
| `LeaseTheorems.EstablishedNotStranded` | server/internal/gateway/http_pool.go:98-124 | an established lease can always be handed over or given back |
| `LeaseTheorems.LeaseHandedOrReturned` | server/internal/gateway/http_pool.go:98-195 | a finished request got at most one lease, and it was either handed to the caller and released once, or given back by the acquiring goroutine: never both, never neither |
| `LeaseTheorems.NoNewFlights` | server/internal/gateway/gateway.go:88-106 | once Close has left its critical section the in-flight count never grows |
| `LeaseTheorems.ClosedMeansNoSessions` | server/internal/gateway/gateway.go:88-106 | from the moment the wait group is down to zero after Close's critical section, nobody holds a session in any later state of the run; once its wait has returned, every pool of every later state is retired and has no session left |
| `LedgerModel.MultiplierIsLeastCeiling` | server/internal/store/store.go:127 | the scaled cost is the least integer that does not undercharge |
| `LedgerModel.MultiplierFitsInt64` | server/internal/store/store.go:127 | no intermediate value leaves int64 for the prices and multipliers the handlers accept |
| `LedgerStore.Store.Reserve` | server/internal/store/store.go:129-231 | replay, conflict, price, wallet and balance checks in order; a new call freezes its price with one ledger line, or nothing changes |
| `LedgerStore.Store.Finish` | server/internal/store/store.go:244-290 | settles a pending call only; anything but success posts one refund of the frozen amount |
| `LedgerStore.Store.RecoverPending` | server/internal/store/store.go:291-325 | the loop of batches and settlements computes the sweep, with arbitrary transactions of others before every query and every settlement |
| `LedgerStore.Store.Adjust` | server/internal/app/account.go:533-610 | a keyed adjustment with the wrapped int64 range test, replayed by key |
| `LedgerStore.Store.Redeem` | server/internal/app/billing.go:180-240 | a code is spent and credited in one transaction, or nothing happens |
| `LedgerStore.Store.FundTeam` | server/internal/app/teams.go:396-487 | both wallets move by one update with two ledger lines and one transfer row, replayed by key |
| `LedgerStore.Store.MoveCredits` | server/internal/app/teams.go:464-478 | the update itself: the lines cancel out and carry the new balances |
| `LedgerStore.Store.LockWallets` | server/internal/app/teams.go:430-456 | the locked rows give the user's balance, if there is a wallet, and the team's |
| `LedgerEffects.OpenEffect` | server/internal/app/account.go:150-190 | a new owner gets one wallet with the opening credit asked for and one line for it, of its origin's note and key; a known owner or a refused amount changes nothing |
| `LedgerEffects.ReserveNew` | server/internal/store/store.go:129-231 | a new call takes its price from the wallet it names, and no other, with one line that names the call; a short balance logs it as denied and moves nothing; lost rights leave no trace |
| `LedgerEffects.ReserveRepeated` | server/internal/store/store.go:186-199 | a repeated key is answered by the row of the first call: a conflict if wallet, tool or price differ, else what that row is |
| `LedgerEffects.FinishEffect` | server/internal/store/store.go:244-290 | a pending call is settled once: success keeps the frozen amount as cost, anything else returns exactly that amount to its wallet with one line; a call that is not pending keeps its status |
| `LedgerEffects.AdjustEffect` | server/internal/app/account.go:533-610 | an adjustment goes through exactly when it is valid, authorized, new under its key and in range: it moves the named wallet, and no other, by the amount asked for, with one line of that amount, note and key, and answers the new balance; a repeated one answers what the first did |
| `LedgerEffects.RedeemEffect` | server/internal/app/billing.go:180-240 | a code is marked and its face value reaches the user's wallet, and no other, with one line, exactly when it is unspent, in range and the user is authorized |
| `LedgerEffects.FundMoves` | server/internal/app/teams.go:396-487 | what leaves the user's wallet reaches the team's, with a line for each and a row that remembers the answer; a repeated key is answered from that row |
| `LedgerEffects.FundRefused` | server/internal/app/teams.go:402-478 | what a funding is refused for, in the order of the checks |
| `LedgerGrants.CreditsComeFromRequests` | server/internal/store/store.go:203-285 | over every run, wallets, frozen and spent credits together are what the accepted requests asked for: opening credits, adjustments and face values of codes, summed over the operations and not over the ledger |
| `LedgerProofs.ApplyKept` | server/internal/store/store.go:129-325 | every transaction keeps the books, whatever its outcome |
| `LedgerProofs.WrapRefusesOverflow` | server/internal/app/account.go:589-596 | the wrapped comparison refuses exactly the adjustments that leave the column's range |
| `LedgerTheorems.Conservation` | server/internal/store/store.go:203-285 | wallets, frozen and spent credits together are opening credits, adjustments and redeemed codes, after every run; transfers add nothing |
| `LedgerTheorems.LedgerExplainsBalances` | server/internal/store/store.go:188-217 | every balance is the sum of its ledger deltas, non-negative and within int64, and every balance_after is the prefix sum at its line |
| `LedgerTheorems.SettlesOnce` | server/internal/store/store.go:244-325 | exactly one operation settles a settled call, and its ledger lines are one reservation with one refund of the same amount unless it succeeded |
| `LedgerTheorems.AmountFrozen` | server/internal/store/store.go:186-231 | later price and multiplier changes never reach a call |
| `LedgerTheorems.RunEvolves` | server/internal/store/store_sqlite.go:159-307 | ledger and transfers are append-only and a settled call never changes |
| `LedgerTheorems.ReplayChangesNothing` | server/internal/app/account.go:560-600 | after an operation claimed its key or code, no later one with it changes anything, whatever happened in between |
| `LedgerTheorems.RetriedReserve` | server/internal/store/store.go:186-199 | a retried reservation gets the first call back while the price stands and a conflict once it differs |
| `LedgerRecovery.SweepCounts` | server/internal/store/store.go:291-325 | whoever races with it, the calls that were old and pending are split into those this sweep settled, those others settled and those still pending, and the total counts exactly its own |
| `LedgerRecovery.SweepEnds` | server/internal/store/store.go:291-325 | it queries at most one non-empty batch for every hundred old pending calls, and after their settlements it is over |
| `LedgerRecovery.FinishedBatchLowers` | server/internal/store/store.go:313-322 | a finished batch leaves fewer old pending calls than it found, by at least its size |
| `LedgerRecovery.RefusedOnlyOutOfRange` | server/internal/store/store.go:313-318 | only a refund outside the balance column stops it early, and that takes more issued credits than the column holds |
| `LedgerRecovery.RefundFits` | server/internal/store/store.go:267-285 | a refund fits the balance column while all credits ever issued do |
| `LedgerRecovery.SweepCompletes` | server/internal/store/store.go:310-312 | its empty query at the end means that no old pending call is left, and each was settled by it or by another |
| `SettlementRules.SettleResult` | server/internal/gateway/gateway.go:184-253 | the loops over rules and blocks decide as the declarative rules say |
| `SettlementMeaning.ChargedIff` | server/internal/gateway/gateway.go:184-253 | a result is charged exactly if the upstream did not fail and the verdict that counts is favourable: the script's if there is one, else the pattern's, else equality of the value at the path with an expected one; an absent or malformed policy charges |
| `SettlementRules.ToolResult.MarkUnsettled` | server/internal/gateway/gateway.go:293-303 | marks an uncharged result as an error and prefixes its text, once |
| `SettlementRules.MarkingKeepsContent` | server/internal/gateway/gateway.go:293-303 | marking keeps every block in place, and a second marking changes nothing |
| `GatewayCall.AnswerTellsCost` | server/internal/gateway/gateway.go:351-392 | no error costs exactly the reserved amount, or nothing after a recovery; an error nets to zero unless a charge committed without its acknowledgement, and exactly then |
| `GatewayCall.LostAcknowledgement` | server/internal/gateway/gateway.go:386-392 | a committed charge whose acknowledgement is lost is answered as an error and stays charged |
| `GatewayCall.ChargedButReportedFailed` | server/internal/gateway/gateway.go:386-392 | there is such a call |
| `CallVerdicts.UpstreamErrorIsFree` | server/internal/gateway/gateway.go:184-392 | a call that fails upstream is answered as an error under every policy, and nets to zero once its row is settled, by itself or by any recovery |
| `CallVerdicts.VerdictDecides` | server/internal/gateway/gateway.go:351-392 | with acknowledged commits and no recovery in between, a call is answered without error and costs its price exactly if the upstream did not fail and the verdict that counts is favourable |
| `CallVerdicts.RefusedCallsAreLogged` | server/internal/gateway/gateway.go:351-398 | a refused call moves no credits and is answered as an error; it leaves one denied row exactly if the refusal is one that is logged and its key and wallet allow it |
| `CallVerdicts.ShortCallsAreNoted` | server/internal/gateway/gateway.go:371-375 | a call that the balance does not cover moves nothing; its denied row gets the call's data |
| `CatalogCache.Gateway.ObserveCatalogRevision` | server/internal/gateway/catalog_revision.go:10-23 | a newer revision drops the cache and moves the version; an older one does nothing |
| `CatalogCache.Gateway.InvalidateLocal` | server/internal/gateway/gateway.go:115-120 | drops the cache and moves the version |
| `CatalogCache.Gateway.BeginFlight` | server/internal/gateway/gateway.go:484-492 | a discovery starts from the version it must still find at publication, unless the cache is good |
| `CatalogCache.Gateway.Publish` | server/internal/gateway/gateway.go:569-593 | a discovery publishes only if the version has not moved |
| `CatalogFreshness.ServedWhileFresh` | server/internal/gateway/gateway.go:470-493 | on every run a check serves a catalog exactly if an earlier step published it less than five seconds before and neither an invalidation nor a newer revision nor another publication lies in between; otherwise it misses |
| `CatalogFreshness.DiscoveryStartsIff` | server/internal/gateway/gateway.go:484-492 | a discovery that begins goes to the table exactly if no such catalog stands |
| `CatalogDiscovery.DiscoveryReadsAll` | server/internal/gateway/gateway.go:498-567 | left alone, a discovery reads the whole table, however many pages that takes, and completes with exactly the tools that it offers |
| `CatalogDiscovery.MissIsServed` | server/internal/gateway/gateway.go:462-617 | a request that misses launches a discovery, and after its publication is served exactly the tools that the table offers |
| `CatalogCache.PageFull` | server/internal/gateway/gateway.go:501-524 | a page has at most 128 rows, and one that is shorter takes all that are left |
| `CatalogCache.PageExact` | server/internal/gateway/gateway.go:501-524 | a page is exactly the rows after the cursor up to its last one |
| `CatalogCache.PageBindingsSound` | server/internal/gateway/gateway.go:525-566 | a page's bindings come from its rows, and no valid builtin row is missing |
| `CatalogProtocol.NamesDistinctExact` | server/internal/gateway/gateway.go:498-567 | the protocol's duplicate test is the one the name map makes over all bindings so far |
| `CatalogProofs.StepKept` | server/internal/gateway/gateway.go:462-617 | every step keeps the cache invariant |
| `CatalogTheorems.ServedSinceEntry` | server/internal/gateway/gateway.go:462-617 | every served row was read no earlier than the revision the request observed on entry, from that table, and no valid builtin row untouched since is missing |
| `CatalogTheorems.ServedExactly` | server/internal/gateway/gateway.go:462-617 | without a commit in between the served builtin rows are exactly the valid ones |
| `CatalogDuplicates.DuplicateIff` | server/internal/gateway/gateway.go:498-567 | on every run a page fails its discovery on a duplicate name exactly when it offers a tool already bound under the same key; that key had then moved from a row read earlier |
| `CatalogDuplicates.MovedKeyFails` | server/internal/gateway/gateway.go:498-567 | any commits between the first two pages that move a key to a row of the second, with a tool name shared by both providers, give a run that fails |
| `CatalogDuplicates.DuplicateHappens` | server/internal/app/admin.go:359-363 | two commits of one row each, over valid tables, end such a run |
| `ToolNames.ParseRemoteName` | server/internal/gateway/gateway.go:544-550 | splitting at the first double underscore and undoing the escape recovers key and name, for all strings |
| `ToolNames.RemoteNamesUnique` | server/internal/gateway/gateway.go:544-550 | two public names are equal exactly for the same key and name |
| `ToolNames.BuiltinNamesApart` | server/internal/app/admin.go:327 | a builtin key without a double underscore is never a remote tool's public name |
| `ToolNames.EscapeAt` | server/internal/gateway/gateway.go:544-550 | an underscore of the key comes out as `_u`, every other character as it is |
| `ToolNames.Collect` | server/internal/gateway/gateway.go:558-566 | the name loop fails exactly on a repeated name |
| `LocalClients.LocalClient.AtomicWrite` | cli/src/config.rs:267-302 | a write happens completely or, after the crash point, not at all |
| `LocalClients.LocalClient.PlanUpdates` | cli/src/clients.rs:105-179 | the planning loop checks ownership and collects updates and records as the specification says, or fails without writing |
| `LocalClients.LocalClient.BuildJournal` | cli/src/clients.rs:184-198 | the journal lists the old versions beside the new one for every record that changes |
| `LocalClients.LocalClient.WriteUpdates` | cli/src/clients.rs:205-210 | backups and files are written in order, cut off anywhere |
| `LocalClients.LocalClient.Write` | cli/src/clients.rs:101-217 | a whole run, stopped after any number of atomic writes, leaves exactly the specified disk |
| `JournalTheorems.FilesWhole` | cli/src/clients.rs:101-217 | at every crash point each client file is wholly old or wholly planned, and the planned one keeps foreign content and other slots |
| `JournalTheorems.JournalOwnsIff` | cli/src/clients.rs:184-249 | the journal still owns an owned value unless it is the record itself, an array, replaced by an entry which it does not list; exactly then it does not |
| `JournalTheorems.CrashSafeIff` | cli/src/clients.rs:101-249 | for every value a file can hold: at every crash point it is owned by the record on disk, or was unowned before and is left alone, exactly unless the job loses it in that way |
| `JournalTheorems.RecordsGenerated` | cli/src/clients.rs:184-217 | at every crash point an owned value was accepted before or generated by this run, or is the record's own array with only such items; other records stay |
| `JournalTheorems.Converges` | cli/src/clients.rs:105-217 | after any interrupted runs that lost no array, an uninterrupted one passes every ownership check and settles file and record exactly |
| `JournalTheorems.OthersKept` | cli/src/clients.rs:105-217 | runs for other names, cut off or not, leave a name's entry, record and all foreign content as they were |
| `JournalTheorems.OnlyGenerated` | cli/src/plugins.rs:719-831 | whatever crashed, every owned value was accepted at first or generated by one of the runs, or is the record's own array with only such items |
| `JournalTheorems.StuckIff` | cli/src/clients.rs:101-249 | every cut of a run leaves a disk on which the next job passes its checks, exactly unless the run strands an array of that job's names |
| `JournalTheorems.ArrayEntryStuck` | cli/src/clients.rs:242-249 | for Claude and Cursor there is a disk, with a record that a crash left, on which a cut run strands the entry |
| `BackupOrder.BackedUpBeforeReplaced` | cli/src/clients.rs:205-210 | wherever a run is cut off, a client file that is no longer what it was has its old contents in the backup, and a backup is only replaced by the file it stands for |
| `BackupOrder.UntouchedStays` | cli/src/clients.rs:150-210 | a client whose file the job does not change keeps its backup too, and a removal creates no file |
| `JobRefusals.PreparedIff` | cli/src/clients.rs:101-179 | a job goes through exactly if a client is selected, the record can be read, and every selected file and slot can be read and holds nothing the record does not own; else the first client in trouble gives the error |
| `HealBlock.HealPollutedBlock` | cli/src/plugins.rs:157-197 | the loops compute the repaired text, or panic on reversed markers |
| `HealBlock.SplitLines` | cli/src/plugins.rs:163-181 | the foreign flag splits the block's lines into ours and foreign |
| `HealBlock.PartitionConserves` | cli/src/plugins.rs:163-181 | every non-blank line goes to exactly one side, in order, and nothing is added |
| `HealMeaning.PartitionIs` | cli/src/plugins.rs:163-181 | everything from the first foreign header on is foreign, except markers; what comes before, and every marker, is ours, less the blank lines |
| `HealMeaning.VisibleLine` | cli/src/plugins.rs:163-181 | a line opens a foreign section exactly if, white space aside, it starts with a bracket but not with the prefix of our own tables |
| `HealTwice.HealConserves` | cli/src/plugins.rs:157-197 | a repair keeps the text before, then our lines, then the foreign ones, then the rest, every non-blank line once |
| `HealTwice.HealTwiceIff` | cli/src/plugins.rs:157-197 | a second repair changes nothing exactly when the block held nothing foreign, the end marker is alone on its line, or no line of the block keeps a carriage return |
| `HealLimits.SecondRepairDiffers` | cli/src/plugins.rs:157-197 | for every pair of markers there is a text that the second repair changes again |
| `HealLimits.PanicIff` | cli/src/plugins.rs:158-162 | the repair panics exactly when both markers occur and some end marker ends before every begin marker |
| `SpliceTheorems.SpliceExact` | cli/src/clients.rs:253-308 | splicing takes out exactly the recorded block and leaves the rest byte for byte |
| `SpliceTheorems.AppendThenSplice` | cli/src/clients.rs:127-138 | appending a block and splicing it out restores the text up to one final newline |
| `SpliceMeaning.SpliceBlock` | cli/src/clients.rs:253-308 | one proper block is taken out with its line ending exactly if the text parses with an entry of ours and the rest parses without one; else which error it is |
| `SpliceMeaning.SpliceUnmarked` | cli/src/clients.rs:253-308 | a text without markers is left as it is, if it parses and has no entry of ours |
| `SpliceMeaning.SpliceRefuses` | cli/src/clients.rs:253-308 | markers in any other number or place are refused |
| `SlotMarkers.MarkersOfSlots` | cli/src/plugins.rs:238-248 | no marker of one valid slot is the start of another slot's marker |
| `SlotMarkers.MarkerTexts` | cli/src/plugins.rs:716-717 | the texts of the markers of the gateway's own entry and of a plugin |
| `SlotMarkers.OtherBlocksKept` | cli/src/clients.rs:253-308 | taking one slot's block out leaves a block of another slot before it byte for byte |
| `SlotMarkers.FollowingBlocksKept` | cli/src/clients.rs:253-308 | and one after it |
| `HealThenSplice.PollutionHealed` | cli/src/plugins.rs:157-197 | foreign sections pushed before the end marker come out behind a canonical block, whose entry loses the blank lines and carriage returns that were written into it |
| `HealThenSplice.HealThenSpliceExact` | cli/src/clients.rs:253-308 | after the repair the splice extracts exactly the recorded block |
| `SkillPaths.SafeIsProper` | server/internal/marketplace/skill_files.go:38-57 | an accepted path is a list of non-empty, undotted segments without NUL |
| `SkillPaths.DirOfJoin` | server/internal/marketplace/skill_files.go:82-88 | path.Dir of a clean path drops its last segment and ends at a dot |
| `SafePaths.SafePathIff` | server/internal/marketplace/skill_files.go:38-57 | a path is accepted exactly if it is at most 128 bytes of valid text without two dots in a row, uses no control character and none of those that some file system refuses, and is made of names that are not empty, do not end in a dot or space, and are no device in any case and with any extension |
| `SkillFiles.CheckSizes` | server/internal/marketplace/skill_files.go:67-73 | the running total accepts exactly safe paths, bounded files and a bounded sum, in any map order |
| `SkillFiles.CollectAliases` | server/internal/marketplace/skill_files.go:74-81 | the alias loop fails exactly on two paths equal in lower case |
| `SkillFiles.CheckAncestors` | server/internal/marketplace/skill_files.go:82-88 | the ancestor loops fail exactly when one alias is a directory on the way to another |
| `SkillFiles.ValidateSkillFiles` | server/internal/marketplace/skill_files.go:59-90 | the verdict, and which check gives it, whatever orders the maps yield |
| `SkillAcceptance.VerdictIs` | server/internal/marketplace/skill_files.go:59-90 | the verdict by what the files are: 1 to 32 of them, a readable SKILL.md, safe paths of at most 8 MiB each and 32 MiB together, and no path that is, whatever the case of its letters, another one or a directory on the way to it |
| `SkillFiles.AcceptedPathsStandApart` | server/internal/marketplace/skill_files.go:59-90 | accepted paths never lie inside one another, as written or in lower case |
| `Exporter.RenderSkillFiles` | server/internal/marketplace/exporter.go:50-58 | adds exactly the skill's files under its plugin's directory, and reports whether there were any |
| `Exporter.GatherMembers` | server/internal/marketplace/exporter.go:91-117 | the member loop, its failures and its early stop |
| `Exporter.RenderEntry` | server/internal/marketplace/exporter.go:59-147 | what each kind of entry contributes, or why it is skipped |
| `Exporter.ExportCodexMarketplace` | server/internal/marketplace/exporter.go:35-177 | the exported tree and the reasons for what is missing |
| `ExportTheorems.PathOwner` | server/internal/marketplace/exporter.go:145-163 | each exported path is the manifest or a path of the one entry its plugin was rendered from |
| `ExportMeaning.EntryRendered` | server/internal/marketplace/exporter.go:59-147 | an entry is rendered exactly if nothing is wrong with it, and then with every file of its own or of its members at its place, its servers, its category and plugin.json; else each reason is named |
| `ExportComplete.EveryPluginIsThere` | server/internal/marketplace/exporter.go:35-177 | for the last rendered entry of each slug, every file it brings is in the export with its own content, and so is its plugin.json |
| `ExportComplete.NothingElseIsThere` | server/internal/marketplace/exporter.go:35-177 | every path of the export is the manifest's or belongs to what some rendered entry brings |
| `ExportComplete.SkippedWithReasons` | server/internal/marketplace/exporter.go:35-177 | every entry is rendered or named among the skips with each of its reasons, and nothing else is named |
| `ExportComplete.ManifestListsExported` | server/internal/marketplace/exporter.go:150-173 | the manifest lists each exported slug with its category, in byte order, and no other |
| `ExportReadBack.ExportedPathsStandApart` | server/internal/marketplace/exporter.go:50-173 | exports of validated skills never have a path inside another |
| `ExportReadBack.ExportReadsBack` | server/internal/marketplace/gitrepo.go:20-118 | checking out the tree built from an export yields exactly its paths with content and mode, and nothing else |
| `GitTree.InsertedIsFound` | server/internal/marketplace/gitrepo.go:33-45 | inserting a path changes the lookup of that path only |
| `GitTree.OneTrie` | server/internal/marketplace/gitrepo.go:32-45 | a map of paths has one trie, however it was put together |
| `GitTree.VisibleIff` | server/internal/marketplace/gitrepo.go:98-112 | every file survives the writing of tree entries exactly when no path is a proper prefix of another |
| `GitOrder.OrderedOnce` | server/internal/marketplace/gitrepo.go:87-96 | the entry order leaves one listing of given names |
| `GitOrder.SortedNames` | server/internal/marketplace/gitrepo.go:80-96 | names collected in any map order sort to that listing |
| `GitTreeOrder.BuiltTreesInOrder` | server/internal/marketplace/gitrepo.go:80-116 | every tree object of a build, read back, lists its entries in byte order with a slash after each directory name, as git requires |
| `GitObjects.ObjectRoundTrip` | server/internal/marketplace/gitrepo.go:22-31 | an object's header and content read back |
| `GitObjects.EntriesRoundTrip` | server/internal/marketplace/gitrepo.go:97-116 | serialized tree entries read back |
| `GitObjects.CommitRoundTrip` | server/internal/marketplace/gitrepo.go:46-54 | a commit's tree and parent lines read back |
| `GitObjects.TipRoundTrip` | server/internal/marketplace/registry.go:30-40 | the tip written to info/refs is the tip read from it |
| `GitObjects.TipExact` | server/internal/marketplace/registry.go:30-40 | a tip is read exactly when the text, less the white space around it, is forty hexadecimal digits up to its first tab or its end, and it is the digest they spell |
| `GitObjects.ObjectPathInjective` | server/internal/marketplace/gitrepo.go:29 | different digests have different object paths |
| `GitRender.Repo.Store` | server/internal/marketplace/gitrepo.go:22-31 | stores one object under the path of its digest |
| `GitRender.Repo.WriteTree` | server/internal/marketplace/gitrepo.go:79-118 | writes exactly the objects of the canonical rendering and returns its digest |
| `GitReadBack.ReadBack` | server/internal/marketplace/gitrepo.go:79-118 | an independent reader recovers the trie from the root digest, less directories hidden by a file of the same name |
| `GitReadBack.StoredAll` | server/internal/marketplace/gitrepo.go:22-31 | without collisions every stored object is held, whatever was stored after it |
| `GitMarketplace.BuildTrie` | server/internal/marketplace/gitrepo.go:32-45 | the loop builds the one trie of its paths, in any map order |
| `GitTexts.SegmentsOf` | server/internal/marketplace/gitrepo.go:34 | slashes around a path do not matter; between its segments there is one each |
| `GitTexts.SignedAt` | server/internal/marketplace/gitrepo.go:47-53 | a commit carries the time it was made with |
| `GitMarketplace.BuildGitMarketplace` | server/internal/marketplace/gitrepo.go:20-64 | returns exactly the objects, commit and reference files of that trie |
| `GitMarketplace.BuildIsDeterministic` | server/internal/marketplace/gitrepo.go:32-57 | root digest and repository do not depend on map iteration order |
| `GitMarketplace.MarketplaceReadBack` | server/internal/marketplace/gitrepo.go:46-64 | info/refs names a commit on the given parent whose tree reads back as the input exactly when no path lies inside another |
| `GitHistory.RunKeeps` | server/internal/marketplace/registry.go:42-112 | after any rebuilds every published object is held, the publications are linked, and the tip and fingerprint are the last one's |
| `GitRegistries.GitRegistry.EnsureBuilt` | server/internal/marketplace/registry.go:42-112 | the rebuild transaction: fresh or due, publishing or not, committed or rolled back when anything in it fails |
| `GitRegistries.GitRegistry.Publish` | server/internal/marketplace/registry.go:80-107 | the served tip becomes the parent and every built file is upserted |
| `GitRegistries.GitRegistry.File` | server/internal/marketplace/registry.go:115-129 | an object that is there is served without a rebuild; anything else after one, and not at all when it fails |
| `GitRegistries.RebuildIsLegal` | server/internal/marketplace/gitrepo.go:47-53 | the author and committer lines of a rebuild never read as another parent line, so its steps are those of the theorems |
| `GitTheorems.EveryPublicationReadsBack` | server/internal/marketplace/registry.go:42-143 | every commit ever published has the previous publication as its parent and reads back as what was exported then |
| `GitTheorems.TipIsLast` | server/internal/marketplace/registry.go:30-112 | the served tip is the last publication |
| `GitTheorems.LastDescendsFromAll` | server/internal/marketplace/gitrepo.go:46-59 | every earlier publication is an ancestor of the last, so old clones can fast-forward |
| `GitTheorems.HistoryOnlyGrows` | server/internal/marketplace/registry.go:80-107 | a rebuild appends to the history or leaves it |
| `GitTheorems.ObjectRowsAreImmutable` | server/internal/marketplace/registry.go:114-143 | an object row is the same after every later step |
| `GitTheorems.RebuildServesExport` | server/internal/marketplace/registry.go:73-111 | after a rebuild that was due and committed, the last publication has the fingerprint of the current export |
| `GitRefs.PublishedIff` | server/internal/marketplace/registry.go:42-112 | a rebuild publishes exactly one commit, of its export and on the last publication, exactly if it is due, gets through and finds an export with another fingerprint; nothing else changes the served files |
| `GitRefs.RebuiltWhenDue` | server/internal/marketplace/registry.go:42-112 | a call within a minute of the last rebuild changes nothing; any later one that gets through leaves the last publication with the fingerprint of what it exported |
| `GitRefs.ChangeIsPublished` | server/internal/marketplace/registry.go:42-112 | after a change of the marketplace the next call publishes it, whatever the clock says |
| `GitRefs.AllReferencesAgree` | server/internal/marketplace/gitrepo.go:54-62 | after any rebuilds, HEAD leads through its branch to the tip that info/refs names: the last publication |
| `PublishedExports.ValidatedFilesAreGood` | server/internal/marketplace/skill_files.go:59-90 | validated skill files are what the exporter needs |
| `PublishedExports.PublishedExportsReadBack` | server/internal/marketplace/registry.go:42-143 | every published export can be checked out exactly, after any further rebuilds |
| `RateLimit.RateLimits.AllowRequest` | server/internal/store/rate.go:15-43 | validation, reclamation of expired public rows and the upsert decide the answer and the stored row |
| `RateLimit.WindowBudget` | server/internal/store/rate.go:31-43 | the stored counter is the admissions into the stored window, and no window admits more than the limit |
| `RateLimit.WindowIsLatest` | server/internal/store/rate.go:31-43 | the stored window is the largest one seen: it never moves back |
| `RateLimit.AdmittedIff` | server/internal/store/rate.go:31-43 | a request is counted in the largest window seen, its own included, and admitted exactly when the admissions counted there are below the limit |
| `RateLimit.RowsAreApart` | server/internal/store/rate.go:31-43 | in every run each row answers its own requests as if there were no others |
| `RateLimit.CountedInOwnWindow` | server/internal/store/rate.go:31-43 | with ordered clocks a request is counted in its own window |
| `RateLimit.SlidingBound` | server/internal/store/rate.go:31-43 | no interval of one window length admits more than twice the limit |
| `RateLimit.ReclaimInvisible` | server/internal/store/rate.go:20-30 | reclamation changes no answer of a clock-ordered run when public windows are at most a minute |
| `RateLimit.ReclaimVisible` | server/internal/store/rate.go:20-30 | with a longer public window there is a run where it does |
| `RateLimit.ReclaimInvisibleIff` | server/internal/store/rate.go:20-43 | so it is invisible exactly for public windows of at most a minute |

## Left out

- LedgerStore.Store.Reserve: for prices above 10^12 or multipliers above 10^6, which no handler accepts, the product is not wrapped at 64 bits.
- RateLimit.RateLimits.AllowRequest: the reclaimed rows are any public rows that qualify, not the first hundred in index order that could be locked.
- LocalClients.LocalClient.Write: two CLI processes editing the same files at once are not modelled; a cut inside an atomic write is one before or after its rename, but for the temporary file it may leave.
- GitRegistries.GitRegistry.File: contents above the inline limit go through the file store in the code; here a row holds its content.
- GitRegistries.GitRegistry.EnsureBuilt: what the export yields, and whether it and the commit work, are parameters.
- LeaseTheorems.ClosedMeansNoSessions: a second concurrent call of Gateway.Close finds no pools and waits for the same count; it is no process of the model, and its return gives the first half of this lemma only.
- GitRender.Repo.WriteTree: the trie is a value, so the pointers between nodes and the digest cached in a blob are not modelled.
- GitReadBack.ReadBack: the reader takes a bound on the depth of directories; the result holds for every bound that reaches the deepest one.
- Exporter.ExportCodexMarketplace: entries come with their skill files resolved, and the JSON documents are functions of what they list.
- SkillPaths: UTF-8 validity is a parameter; reserved names are compared in ASCII upper case, which is exact for them.
- JournalTheorems: empty tables or objects left behind by a removal count as layout, not content; detection of installed clients is a parameter.
- SettlementRules: script evaluation, pattern matching and JSON paths into structured results are functions given by the host.
- ExportExecutableFiles, LoadExportInputs and LoadSkillFiles: plumbing around the exporter; modes enter as a set of paths.
- Skill directory installation (`install_skill_from`): not journaled, so it makes no crash-safety promise.
- The Redis metadata cache, tool metadata overrides and schema validation: a row's schema verdict is a field of the row.
- Device codes, invitations, memberships, settings, pagination, HTTP decoding, the web and desktop interfaces: no protocol behind them.
- SQL text, isolation internals and deadlocks; SHA-1, SHA-256, zlib, TOML, JSON and UTF-8 themselves.
