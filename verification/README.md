# Verified models of ethui's protocols

Dafny models of the parts of ethui that are protocols or algorithms, with proofs of what they
promise. `dafny verify dfyconfig.toml` checks everything.

Node, relay, user dialogs, clock, scheduler and file system are inputs: theorems hold for all of
their behaviours that the theorem names. Objects that the program updates in place are classes, and
each of their methods is proved equal to a step function. Lemmas say outright what each step does to
the state, and the claims are lemmas about those functions, over every run or every interleaving.

| Files | Subject |
|---|---|
| `NodeHistory`, `Tracker` | one epoch of the devnet tracker: reset, backfill, caught-up notice, live blocks, and the check of the last emitted hash |
| `Ledger`, `Database`, `Replay` | ERC20 balances from transfer events, the event tables, and the consumer |
| `NodeAnswers`, `Convergence`, `EndToEnd` | what the node answers when blocks are handled, and when stored data converges to a replay of its chain |
| `ProxyLinks`, `ProxyNesting` | proxy links in the contracts table, recursive removal, and the frontend's nesting of contracts |
| `Networks`, `Echo`, `Routing` | the networks actor and its numbering, its listening to its own announcements, and agreement between what peers are told and what they are served |
| `MethodFilter`, `WalletConnect`, `Proposals`, `Sessions` | proposals, sessions and requests as concurrent tasks over shared maps |
| `Sorting`, `Pagination` | keyset pagination over the transactions table |
| `ProjectRoots`, `Debounce` | the search for project directories and the debounce of contract updates |
| `Decimal`, `TraceAddress`, `Amount` | the trace-address column and typed amounts |
| `SyncWorker` | the table of synchronisation tasks |

## What does not hold

Where a promise is false of the code, the exact condition is proved beside it.

- Checking only the last emitted hash notices every revert only if block heights never decrease
  (`Tracker.LastCheckGuardsIffAscending`). README.md:33 promises syncing across reverts without a
  condition.
- The caught-up notice means a complete backfill only if the node answered for every block, because
  blocks that cannot be fetched are left out silently (`Tracker.CaughtUpMeansBackfilledIff`).
- Emitted and stored blocks are a stretch of the node's chain only if the stream had no gap, and a
  block mined between the height query and live delivery makes one
  (`Tracker.EpochMirrorsChainIffGapless`, `EndToEnd.StoredDataMirrorsChainIffGapless`,
  `Tracker.SkippedBlockIsNeverSent`).
- Traces are asked for by number and logs by hash, so a block replaced between emission and handling
  is stored with another one's events; what is stored is the block's own exactly if it is still on
  the chain when its logs are asked for (`NodeAnswers.ReplyIsEmittedIffStillThere`,
  `NodeAnswers.RevertBeforeHandlingStoresOther`).
- Stored data mirrors the newest epoch at every moment only if its blocks are not replaced before
  they are handled and the node has nothing to answer for blocks that an earlier epoch's consumer
  still handles (`Convergence.MirrorsIffHarmless`), and no second devnet on the chain id writes
  blocks, or resets after the first has blocks (`Convergence.ConvergesIffUndisturbed`).
- Transfers conserve recorded supply only if covered and without wrap-around
  (`Ledger.SupplyExactIffCovered`).
- Removal of contracts leaves no dangling back link only if every upsert recorded the link it names,
  and an upsert never gives an existing contract a forward link
  (`ProxyLinks.RemovalSafeIffFollowed`, `ProxyLinks.RunStaysFollowedIff`).
- Removing a network that is not the newest of its chain breaks the numbering
  (`Networks.RemovalKeepsNumberingIffNewest`).
- Announcements of two networks can echo forever (`Echo.DiesOutIffCalm`).
- A peer without a domain that switches its chain is told one chain and served another
  (`Routing.DomainlessPeerAgreesIff`).
- After the selection of a name that is not stored, adding a network can change the current one
  without anybody being told (`Routing.AdditionAgreesIff`, `Routing.UnknownNameAgreesIff`).
- The in-flight mark does not keep a pairing from settling twice, although the comment in
  crates/walletconnect/src/session.rs:119 gives that as its purpose: it does exactly if no delivery
  found the pairing before the first proposal removed it and still waits
  (`Proposals.SettlesAgainIffDelivered`).
- A page boundary between rows of equal key loses rows, in either direction
  (`Pagination.PagesAreCompleteIffCutsClean`, `Pagination.NewerPagesAreCompleteIffCutsClean`).
- One update message that cannot be sent stops all later passes (`Debounce.OneLossStopsAllPasses`),
  and a pass that fails is not made up for (`Debounce.ServedIffSentAndCompleted`).
- A typed minus sign does not apply to the fraction (`Amount.NegativeIsOppositeIff`), and one after
  the point is taken for a place of it (`Amount.MinusAfterPointSubtracts`).
- Paging down and paging up show rows that agree in all selected columns differently
  (`Pagination.DirectionsAgreeIffDistinct`).
- Synchronisation tasks end at their first failing request while the table keeps them, so a poll can
  wake nobody (`SyncWorker.PollWakesIffAlive`), and those of dropped or re-tracked pairs run on
  unreachable until then (`SyncWorker.NoOrphansIffNothingTouched`).

## Model

| member | source | states |
|---|---|---|
| `NodeHistory.BlockPersists` | crates/sync/devnet/src/tracker/worker.rs:190-203 | A hash lookup that succeeds at two moments of a node that only mines fresh hashes and drops suffixes means the block, and everything at or below it, stood unchanged in between. |
| `Tracker.ProvidersAgreeOnRange` | crates/sync/devnet/src/tracker/http.rs:72-95 | The HTTP range with its early exit and the WebSocket range without one are the same strictly increasing list: exactly the numbers after the fork block, or from 1, up to the synced height. |
| `Tracker.RunOnce` | crates/sync/devnet/src/tracker/worker.rs:119-187 | The whole epoch: a reset, then either a failure to become ready or the select loop, which with its local checkpoint and channel sends and ends exactly as the step function over its turns says. |
| `Tracker.SettledStays` | crates/sync/devnet/src/tracker/worker.rs:119-187 | Once an epoch has ended, by quit, failure or end of stream, no later turn changes what was sent. |
| `Tracker.RunsOnIffNothingEnds` | crates/sync/devnet/src/tracker/worker.rs:152-187 | Read off the turns alone: an epoch runs on exactly as long as there was no quit, no end of the stream, and no tick or block at which, after an earlier block, the node did not answer or no longer had the last block's hash; the checkpoint is then that hash. |
| `Tracker.EpochEndsAsItsTurnSays` | crates/sync/devnet/src/tracker/worker.rs:155-212 | The first such turn decides how the epoch ends: stopped exactly on a quit, failed with the stream's end exactly on that, as unreachable exactly when a query is not answered, as reverted exactly when it is answered and the last emitted hash is gone; what was sent are the items before that turn. |
| `Tracker.Run` | crates/sync/devnet/src/tracker/worker.rs:104-117 | A further epoch begins exactly when every one before it was not ready or ended by anything but a quit; the tracker has stopped exactly when the last one ended by a quit. |
| `Tracker.SentIsPrefixOfStream` | crates/sync/devnet/src/tracker/worker.rs:133-179 | Every epoch sends `Reset` followed by a prefix of the stream's items in order, and by all items yielded so far while it is running. |
| `Tracker.CaughtUpMeansBackfilledIff` | crates/sync/devnet/src/tracker/http.rs:78-95 | The messages of an epoch are a prefix of reset, answered backfill, notice, live blocks; what precedes the notice is exactly the requested range, in order, if and only if the node answered for every number in it. |
| `Tracker.ProtectedExtends` | crates/sync/devnet/src/tracker/worker.rs:205-212 | Emitting a header at or above all earlier ones, after the old checkpoint was found on the chain, makes the new checkpoint vouch for every emitted block. |
| `Tracker.EpochIsProtected` | crates/sync/devnet/src/tracker/worker.rs:152-187 | With ascending headers, in every reachable epoch state any later moment at which the last emitted hash is known to the node has every emitted block on the chain. |
| `Tracker.LastCheckGuardsEpoch` | crates/sync/devnet/src/tracker/worker.rs:190-203 | Whenever the query of the last emitted hash succeeds, on a tick or before a block, every block emitted since the reset is on the node's chain at that moment, if heights did not decrease so far. |
| `Tracker.DescentEscapesTheCheck` | crates/sync/devnet/src/tracker/worker.rs:190-212 | Any header below an earlier one admits a node history in which the query succeeds although an emitted block is gone. |
| `Tracker.LastCheckGuardsIffAscending` | crates/sync/devnet/src/tracker/worker.rs:190-212 | Over all node histories and schedules, checking one hash is sound for a stream of heights if and only if the heights never decrease. |
| `Tracker.QueriedEpochIsOnChain` | crates/sync/devnet/src/tracker/worker.rs:155-157 | If heights did not decrease, a tick that goes through means that all emitted blocks are on the chain at that moment. |
| `Tracker.BlocksAreSentInOrder` | crates/sync/devnet/src/tracker/worker.rs:134-179 | Messages are sent in the order of the node's time, and every block after the node had it. |
| `Tracker.EpochMirrorsChainIffGapless` | crates/sync/devnet/src/tracker/worker.rs:134-157 | After a tick that goes through, the emitted hashes are, in order, a stretch of the node's chain from the first requested block if and only if the stream had no gap; heights may even decrease. |
| `Tracker.SkippedBlockIsNeverSent` | crates/sync/devnet/src/tracker/worker.rs:134-148 | Concrete case: a block mined between the height query and live delivery is never sent, every query succeeds, and what was sent is no stretch of the chain. |
| `Ledger.SupplyExactIffCovered` | crates/db/src/queries/erc20.rs:72-98 | A recorded transfer changes the recorded supply by exactly minted less burned if and only if the sender's row covers the amount and the recipient does not wrap at 256 bits. |
| `Ledger.StepMovesBalances` | crates/db/src/queries/erc20.rs:72-98 | A covered transfer moves each owner's balance by what it received less what it paid, self-transfers included, and keeps all balances below 2^256. |
| `Ledger.ReplayConserves` | crates/db/src/queries/erc20.rs:72-98 | Replaying covered transfers leaves every owner with the initial balance plus inflow less outflow, and moves the supply by what left and entered the zero address. |
| `Database.TransferredRow` | crates/db/src/queries/erc20.rs:72-98 | A transfer fails exactly when a sender other than the zero address has no row; otherwise the sender's row goes down to zero at the least, the recipient's goes up modulo 2^256, a transfer to oneself does one after the other, and no other row changes. |
| `Database.UpsertedRow` | crates/db/src/queries/contracts.rs:107-156 | After an upsert the contract's row has code, ABI and name as given, whether or not it existed, a forward link only if it is new, and the implementation's row has the back link and is otherwise as it was, or empty. |
| `Database.AppliedToItsTable` | crates/db/src/queries/events.rs:8-44 | An event fails exactly if it is a transfer from an owner without a row; otherwise it writes to its own table only: a transaction row of its network unless one of that key is there, a contract without ABI and name, or a transfer. |
| `Database.WrittenIsPrefix` | crates/db/src/queries/events.rs:8-44 | The events written are all of a list, or those before the first whose write fails; what is stored is their effect. |
| `Database.StoredTransactions` | crates/db/src/queries/transactions.rs:39-41 | A transaction row is stored afterwards exactly if it was before or an event written brings it, and a row that was there keeps its content. |
| `Database.FirstTransactionStays` | crates/db/src/queries/transactions.rs:39-41 | A transaction event that is reached is stored, unless a row of its key is there already, and later events of the key do not replace it. |
| `Database.TransferIsLocal` | crates/db/src/queries/erc20.rs:9-98 | On the shared balances table a transfer fails exactly when the ledger's does, is the ledger's transfer on the rows of its own token, and touches no other token. |
| `Database.SavedTokenIsReplayed` | crates/db/src/queries/events.rs:8-44 | Saving a block's events leaves, for every token, the ledger's replay of the token's transfers among the events written, those before the first failure. |
| `Database.SavedEventsConserve` | crates/db/src/queries/erc20.rs:72-98 | So in the balances table, too, covered transfers leave each owner with the old balance plus inflow less outflow, and conserve supply. |
| `Database.Db.TruncateEvents` | crates/db/src/lib.rs:38-67 | Transactions, balances and token metadata go by chain id, contracts by chain id and dedup id; all other rows stay. |
| `Database.Db.SaveMissingMetadata` | crates/sync/devnet/src/tracker/consumer.rs:76-86 | Every token with a balance on the chain ends up with metadata, looked up exactly for those that had none. |
| `Database.Db.InsertContractWithAbi` | crates/db/src/queries/contracts.rs:107-156 | Upserts the contract without touching an existing row's links, then upserts the implementation setting only its back link. |
| `Database.Db.RemoveContract` | crates/db/src/queries/contracts.rs:194-213 | Deletes exactly the row of the address on that network. |
| `Database.Db.RemoveContracts` | crates/db/src/queries/contracts.rs:180-192 | Deletes exactly the contracts of one chain id and dedup id. |
| `Database.Db.ProcessErc20Transfer` | crates/db/src/queries/erc20.rs:72-98 | Debit with saturation, credit with wrap-around, zero address skipped, a sender without a row is an error that changes nothing. |
| `Database.Db.SaveEvents` | crates/db/src/queries/events.rs:8-44 | Writes events in order; the first failing one ends the list and what was written before stays. |
| `Database.FailureEndsTheList` | crates/db/src/queries/events.rs:8-44 | After a failing event the rest of the list has no effect. |
| `Replay.EthuiConsumer.constructor` | crates/sync/devnet/src/tracker/consumer.rs:28-36 | A fresh consumer has not caught up. |
| `Replay.EthuiConsumer.Process` | crates/sync/devnet/src/tracker/consumer.rs:45-100 | Reset truncates, a block saves the list of its trace and then log events, the notice and a lost connection write nothing; a message handled to its end leaves no token of the chain without metadata, and frontends are notified exactly then, of a block only after the backfill and if every event was saved. |
| `Replay.BlockIsOneList` | crates/sync/devnet/src/tracker/consumer.rs:61-71 | Handling a served block leaves exactly what saving the one list of its trace events followed by its log events leaves. |
| `Replay.TracesAreSavedFirst` | crates/sync/devnet/src/tracker/consumer.rs:70-71 | Every transaction of the traces before the first failing trace event is stored whatever the logs do, and no log event is written unless all trace events were. |
| `Replay.NetworksDoNotInterfere` | crates/db/src/queries/events.rs:8-44 | One network's part of the tables, after any interleaving of consumers on distinct chain ids, is what its own messages alone produce. |
| `Replay.ReplayConverges` | crates/db/src/lib.rs:38-67 | After a reset that reached the consumer, a network's stored data is the replay of its own later messages from empty tables, whatever was stored before and whatever other chains do. |
| `Replay.SiblingResetErases` | crates/db/src/lib.rs:38-67 | For every database a reset of a sibling on the same chain id erases the network's transactions and balances and keeps its contracts. |
| `Replay.StaleBlockOutlivesReset` | crates/sync/devnet/src/tracker/worker.rs:214-220 | From any database, a block that the previous epoch's consumer saves after the reset stays. |
| `Convergence.ConvergesIffUndisturbed` | crates/db/src/lib.rs:38-67 | The work after a network's reset leaves the replay of its own messages, from any database and for all answers of the nodes, if and only if no sibling on the chain id handles a block in it, nor a reset after a block of the network itself. |
| `Convergence.MirrorsIffHarmless` | crates/sync/devnet/src/tracker/consumer.rs:61-74 | With one devnet per chain id, the stored data is at every moment after a network's newest reset exactly the replay of the blocks its newest epoch emitted so far, whatever blocks contain and the node remembers, if and only if each of that epoch's blocks is still on the chain when its logs are asked for and the node has nothing to answer for any earlier epoch's block. |
| `Convergence.TwoWrongsCancel` | crates/sync/devnet/src/tracker/consumer.rs:61-74 | Only looking at the end is not enough: a stale block and a late one of the newest epoch can make up for each other. |
| `Convergence.UndisturbedWorkConverges` | crates/sync/devnet/src/tracker/consumer.rs:53-74 | The sufficient half: undisturbed work keeps the network's part of the tables equal to the replay of its own messages. |
| `NodeAnswers.ReplyIsEmittedIffStillThere` | crates/sync/devnet/src/tracker/consumer.rs:61-71 | Traces are asked for by number and logs by hash: the answers are the emitted block's, whatever blocks contain and whatever the node remembers, if and only if the block is still on the chain when its logs are asked for. |
| `NodeAnswers.RevertBeforeHandlingStoresOther` | crates/sync/devnet/src/tracker/consumer.rs:61-71 | Concrete case: a block reverted and replaced between emission and handling is stored with the transaction of the other block. |
| `EndToEnd.HandledBlocksAreTheirOwn` | crates/sync/devnet/src/tracker/consumer.rs:61-74 | Blocks found on the chain after they were handled had their own answers. |
| `EndToEnd.StoredDataMirrorsChainIffGapless` | crates/sync/devnet/src/tracker/worker.rs:119-187 | End to end: after a tick that goes through and follows the handling of what was sent, the stored data is the replay from empty of the emitted blocks, all on the node's chain, if heights did not decrease; and they are a stretch of the chain from the first requested block if and only if the stream had no gap. |
| `ProxyLinks.WritesKeepLinks` | crates/db/src/queries/contracts.rs:107-192 | After any run of contract upserts and per-network truncations every back link names a stored contract of the same network. |
| `ProxyLinks.RemoveContract` | bin/src/commands.rs:107-123 | The recursion ends even on cyclic links, by the number of remaining rows, and deletes exactly the rows on the forward path from the address within one network. |
| `ProxyLinks.PathContinues` | bin/src/commands.rs:107-123 | Deleting a row and continuing from its implementation deletes what the whole path from the row holds: a walk either avoids the deleted row or re-enters it with a shorter rest. |
| `ProxyLinks.RemovalSafeIffFollowed` | bin/src/commands.rs:107-123 | Removal from every start keeps all back links intact if and only if each back link is followed by a forward path. |
| `ProxyLinks.UpsertKeepsFollowedIff` | crates/db/src/queries/contracts.rs:107-156 | An upsert keeps removal safe if and only if it names no implementation, stores a new row, or names one the stored row's forward links already lead to. |
| `ProxyLinks.RunStaysFollowedIff` | crates/db/src/queries/contracts.rs:107-192 | Over a whole run of upserts and truncations removal stays safe at every moment if and only if every upsert records its link in that sense. |
| `ProxyLinks.LateProxyLeavesDanglingLink` | crates/db/src/queries/contracts.rs:121-153 | Concrete case where it fails: a contract stored first and recognised as a proxy later keeps no forward link, so removing it strands its implementation. |
| `ProxyNesting.ChainsMeetAtTheSameDepth` | gui/src/store/useContracts.ts:151-171 | Two chains of back links that share a contract share its depth and their root. |
| `ProxyNesting.Flatten` | gui/src/store/useContracts.ts:167-171 | Ends from every root although it has no bound, since it only extends a chain of distinct contracts; its result is the whole chain of `impl` links. |
| `ProxyNesting.LastListedChildWins` | gui/src/store/useContracts.ts:159-162 | Among the contracts naming one proxy the last listed becomes its implementation, and a contract that none names has none. |
| `ProxyNesting.RootsKeepTheOrder` | gui/src/store/useContracts.ts:159-165 | Contracts without a back link become roots in the order they are listed. |
| `ProxyNesting.Organize` | gui/src/store/useContracts.ts:151-176 | Throws exactly when a back link names no listed contract; otherwise one output per contract without a back link, in order, each the maximal chain below it. |
| `ProxyNesting.EachContractOccursOnce` | gui/src/store/useContracts.ts:167-176 | Across all output chains each contract occurs at most once, cycles elsewhere included. |
| `ProxyNesting.ShownIffReachableFromRoot` | gui/src/store/useContracts.ts:151-176 | A contract is shown if and only if a chain of `impl` links leads to it from a contract without a back link. |
| `ProxyNesting.WritesNeverDangle` | gui/src/store/useContracts.ts:159-165 | After any run of upserts and truncations the lookup of a back link never fails. |
| `Networks.Find` | crates/networks/src/actor/mod.rs:139-156 | A returned network is stored and matches the key; none is returned exactly when none matches. |
| `Networks.NetworksActor.constructor` | crates/networks/src/actor/mod.rs:31-56 | Without a stored file the actor starts from the built-in networks. |
| `Networks.NetworksActor.SetCurrent` | crates/networks/src/actor/mod.rs:183-216 | An unknown id or chain id is an error that changes nothing; otherwise the found name becomes current, and one notice is spawned exactly when the current network became another one. |
| `Networks.NetworksActor.Add` | crates/networks/src/actor/mod.rs:220-242 | Fails on a used name, a failed dev query, or a taken id of a network that is no devnet; otherwise stores the network numbered by the count on its chain. |
| `Networks.NetworksActor.Remove` | crates/networks/src/actor/mod.rs:271-296 | Removes the name; when it was current another stored network becomes current and is announced, or the call fails if none is left. |
| `Networks.NetworksActor.UpdateStatuses` | crates/networks/src/actor/mod.rs:300-308 | Each entry overwrites the stored network of its name, later entries last. |
| `Networks.LastUpdateWins` | crates/networks/src/actor/mod.rs:300-308 | A name ends with the network of its last update. |
| `Networks.UnlistedKeyStays` | crates/networks/src/actor/mod.rs:300-308 | A name without an update keeps its network, or stays absent. |
| `Networks.RunsKeepNumbering` | crates/networks/src/actor/mod.rs:183-308 | From the defaults, any run of additions, switches and status polls on current snapshots keeps keys equal to names, ids distinct, and each chain's dedup ids exactly 0 to k-1. |
| `Networks.SecondCheckNeverFires` | crates/networks/src/actor/mod.rs:220-242 | In every such run the check for a taken id never rejects a newly numbered network. |
| `Networks.LowestDedupIsZero` | crates/networks/src/actor/mod.rs:170-179 | On a numbered table the lowest dedup id of a known chain is 0, the id `switch_chain` uses when it stores a sticky affinity. |
| `Networks.RemovalKeepsNumberingIffNewest` | crates/networks/src/actor/mod.rs:271-296 | A removal keeps the numbering if and only if the removed network was the newest of its chain; otherwise the next network of that chain is given a taken id. |
| `Networks.RemovalLetsIdsCollide` | crates/networks/src/actor/mod.rs:220-296 | Concrete case: remove the older of two devnets on a chain, add a third, and two networks share an id, since devnets skip the check. |
| `Echo.StepDecreases` | crates/networks/src/init.rs:30-35 | Receiving or broadcasting one message that names the given stored network lowers the measure, and only the first receive that changes the current network creates another message. |
| `Echo.EchoDiesOut` | crates/networks/src/init.rs:30-35 | For every schedule of receiver and spawned tasks: if all outstanding messages name one stored network, the run is bounded, at most one message is created, and a drained run ends with that network current. |
| `Echo.StepMoves` | crates/networks/src/actor/mod.rs:83-98 | What receiving a message or running a spawned announcement does to current id, queue and pending tasks. |
| `Echo.CalmRunsEnd` | crates/networks/src/init.rs:30-35 | When whatever order tasks run in changes the current network at most once, every run is bounded, and a drained one ends on the one network it can end on. |
| `Echo.RestlessHasLongRuns` | crates/networks/src/init.rs:30-35 | Otherwise there are runs of any length. |
| `Echo.DiesOutIffCalm` | crates/networks/src/init.rs:30-35 | Over every schedule of receiver and spawned tasks there is a bound on the echo if and only if what is outstanding changes the current network at most once in whatever order the tasks run; with no task pending: if reading the queue changes it at most once. |
| `Routing.StepKeepsInvariant` | crates/connections/src/ctx.rs:49-95 | Every step of the application, selections of unknown names included, keeps the agreement invariant between unread messages, what peers were told and what they are served, unless it is a silent addition. |
| `Routing.RunsKeepInvariant` | crates/networks/src/init.rs:30-35 | The invariant holds in every reachable state of every interleaving without silent additions. |
| `Routing.PeersAgreeAtQuiescence` | crates/ws/src/peers.rs:93-132 | Once both receivers have read everything and no announcement is pending, each peer with a domain was last told the chain it is served, in every run in which no addition silently changed the current network; so was every other peer if none of those switched its own chain. |
| `Routing.StoredNamesAddOpenly` | crates/networks/src/actor/mod.rs:183-242 | An addition changes the current network silently only after a name that was not stored was selected. |
| `Routing.AdditionAgreesIff` | crates/networks/src/actor/mod.rs:70-81 | From an agreeing quiescent state, an addition keeps a peer without sticky affinity in agreement if and only if the selected name was stored, or what now is current has the chain served before. |
| `Routing.UnknownNameAgreesIff` | crates/networks/src/actor/mod.rs:183-242 | Selecting an unknown name goes unnoticed when the current network is the table's first; once a network is added under that name, such peers agree exactly if it has the same chain. |
| `Routing.DomainlessPeerAgreesIff` | crates/connections/src/ctx.rs:49-84 | A peer without a domain that switches its chain still agrees afterwards if and only if the switch did nothing: same chain or unknown chain. |
| `Routing.StepKeepsWellFormed` | crates/connections/src/commands.rs:12-31 | Every queued global message and pending announcement names a stored network, and every queued message a known chain. |
| `Routing.App.constructor` | crates/networks/src/actor/mod.rs:31-56 | The application starts with no peers and nothing queued. |
| `Routing.SelectMovesCurrent` | crates/networks/src/actor/mod.rs:183-216 | Choosing by id, chain or stored name makes a network of that id, chain or name current, and is an error exactly for an unknown id or chain; an unknown name leaves whichever network the table yields first; it counts as a change exactly if the current network is another one. |
| `Routing.SelectAnnouncesIffMoved` | crates/networks/src/actor/mod.rs:183-216 | A selection leaves one announcement of the new current network pending exactly if the current network became another one, and touches nothing else. |
| `Routing.StoredAffinityIsRead` | crates/connections/src/store.rs:30-46 | The affinity read back is the one set, of whatever kind, and no other domain's changes. |
| `Routing.ServedByTieElseCurrent` | crates/connections/src/ctx.rs:86-95 | A site with a sticky affinity is served its chain, everyone else the current network's. |
| `Routing.SiteSwitchIsItsOwn` | crates/connections/src/ctx.rs:49-68 | A site that is unset or sticky and asks for a known chain other than the one it is served is served it at once by a sticky affinity of its own; nobody else is served anything new, no other affinity and not the current network changes, and one message naming that site is sent. |
| `Routing.SiteSwitchReachesItsPeers` | crates/connections/src/ctx.rs:57-67 | When both receivers have handled that message, in either order, the current network is as before and exactly the site's peers have been told the chain. |
| `Routing.GlobalSwitchIsForAll` | crates/connections/src/ctx.rs:70-80 | A global site's request changes no affinity and sends one global message with the chain's lowest dedup id. |
| `Routing.GlobalSwitchReachesEveryone` | crates/connections/src/ctx.rs:70-80 | When both receivers have handled that message, in either order, the current network is the chain's of the lowest dedup id, one announcement of it is pending, everyone without a sticky affinity is served the chain, and exactly those peers have been told it. |
| `Routing.DomainlessSwitchIsOnlyAnnounced` | crates/connections/src/ctx.rs:57-68 | The request of a peer without a domain changes no affinity and is only announced. |
| `Routing.IdleSwitchDoesNothing` | crates/connections/src/ctx.rs:49-84 | A request changes nothing exactly if it is for the chain served already or an unknown one. |
| `Routing.EditStoresAndAnnounces` | crates/connections/src/commands.rs:12-31 | Setting an affinity by hand stores exactly it and announces it for that site alone, with the current network's id unless it is sticky; one to an unknown chain changes nothing. |
| `Routing.NetworksFollowUnlessSticky` | crates/networks/src/init.rs:22-46 | Handling a message leaves the current network alone if it is sticky and otherwise makes the network it names current, with an announcement pending exactly if that is another one. |
| `Routing.PeerHearsIff` | crates/ws/src/peers.rs:93-132 | A peer is told the chain of a message exactly if the chain is known and the message is sticky for the peer's own domain, or is not sticky and the peer's domain has no sticky affinity. |
| `Routing.PeersComeAndGo` | crates/ws/src/peers.rs:60-72 | A peer that connects starts from the chain it is served, one that disconnects is forgotten, and no other peer notices. |
| `Routing.App.StoreAffinity` | crates/connections/src/store.rs:38-46 | Unset removes the domain's entry, any other affinity replaces it. |
| `Routing.App.LowestDedupId` | crates/networks/src/actor/mod.rs:170-179 | The smallest dedup id stored for the chain, or 0 when there is none. |
| `Routing.App.SwitchChain` | crates/connections/src/ctx.rs:49-84 | Same chain: nothing; unknown chain: error; global affinity: a global message with the lowest dedup id; otherwise a sticky affinity is stored and announced. |
| `Routing.App.ConnectionsSetAffinity` | crates/connections/src/commands.rs:12-31 | A sticky affinity to an unknown chain is an error that changes nothing; otherwise the store changes and the domain's chain is broadcast. |
| `Routing.App.SetCurrent` | crates/networks/src/actor/mod.rs:183-216 | Changes the current network and leaves one pending announcement exactly when it became another one. |
| `Routing.App.NetworksReceiver` | crates/networks/src/init.rs:22-46 | Sticky messages are skipped, global and unset ones set the current network. |
| `Routing.App.BroadcastChainChanged` | crates/ws/src/peers.rs:93-132 | An unknown chain is told to nobody; otherwise exactly the peers whose affinity matches hear it. |
| `Routing.App.PeersReceiver` | crates/ws/src/init.rs:30-51 | Handles one message by broadcasting it. |
| `MethodFilter.FilterMethods` | crates/walletconnect/src/session.rs:242-264 | The loops over required and combined methods, with the local set of those seen, compute the filter. |
| `MethodFilter.KeepFirst` | crates/walletconnect/src/session.rs:255-263 | Keeps the first occurrence of each supported method, in order. |
| `MethodFilter.FilterIsExact` | crates/walletconnect/src/session.rs:242-264 | Refusal exactly when a required method is unsupported, listing those; otherwise the approved list is, without duplicates, exactly the supported ones among all requested. |
| `MethodFilter.FilterKeepsOrder` | crates/walletconnect/src/session.rs:242-264 | Methods are approved in the order they were first asked for, required ones first; a refusal lists the unsupported required methods as they were listed, repetitions included. |
| `WalletConnect.StepKeepsOneLiveProposal` | crates/walletconnect/src/pairing.rs:30-42 | A pairing is marked in flight exactly when a proposal task for it is live, and there is never more than one; every lock-granular step keeps this. |
| `WalletConnect.StepKeepsHandlers` | crates/walletconnect/src/session.rs:511-526 | At every interleaving the topics in the session map are a subset of those with handlers; stored topics and topics being removed never meet. |
| `WalletConnect.MissingHandlerMeansRemoved` | crates/walletconnect/src/session.rs:585-606 | A request that passed its checks and finds no handler belongs to a session that was removed in the meantime. |
| `Sessions.GoneNeverForwards` | crates/walletconnect/src/session.rs:537-611 | Once the handler of a used topic is gone and no task is about to store the topic, no later step of any run forwards a request on it. |
| `Sessions.DropMakesGone` | crates/walletconnect/src/session.rs:186-193 | Dropping the handler of a session being removed gets its topic there. |
| `Sessions.CheckedRequestOutlivesSession` | crates/walletconnect/src/session.rs:552-606 | Between the removal of a session and that of its handler, a request checked before is still forwarded. |
| `WalletConnect.StepKeepsAuthorised` | crates/walletconnect/src/session.rs:318-367 | Every step keeps that stored sessions and running tasks carry only method lists a user approved, and that every forwarded request was authorised. |
| `WalletConnect.RunsAreSafe` | crates/walletconnect/src/session.rs:68-202 | The three invariants hold in every state of every run from empty maps. |
| `WalletConnect.ForwardedOnlyAfterApproval` | crates/walletconnect/src/session.rs:537-611 | Every forwarded request comes after an approved dialog of the proposal its session was settled for; the list contains the method, is within the supported set, covers all required methods, has no duplicates; and the session had not expired when checked. |
| `Proposals.DeliverySettles` | crates/walletconnect/src/session.rs:394-533 | A delivery that found its pairing settles a session for any approvable proposal, whether or not the pairing still exists when it takes the mark. |
| `Proposals.PairedProposalSettles` | crates/walletconnect/src/session.rs:68-145 | A pairing made, its proposal delivered and approved, undisturbed, settles a session of the approved methods and uses the pairing up. |
| `Proposals.UnpairedIsNotFound` | crates/walletconnect/src/pairing.rs:138-146 | Giving up a pairing changes nothing else, and no later proposal finds it. |
| `Proposals.RefusalRejects` | crates/walletconnect/src/session.rs:316-354 | A dialog answered with no, or a required method that is not supported, touches no map but the mark, records no event and has the proposal remove its pairing next. |
| `Proposals.RefusalUndisturbed` | crates/walletconnect/src/session.rs:316-354 | From any state, a refusal not interrupted by other tasks ends with the pairing gone, the mark free and every session, handler and event as before. |
| `Proposals.RefusalEndsThePairing` | crates/walletconnect/src/session.rs:316-354 | In every interleaving, as long as a refused task is not cut short and its pairing not paired again: no approval, settlement, request or session comes from it, its next step is always enabled, and when it is done the pairing is gone. |
| `Proposals.FailureKeepsThePairing` | crates/walletconnect/src/session.rs:119-145 | A task that fails on the way, or whose proposal is malformed, frees the mark and keeps the pairing, so a redelivery can be handled. |
| `Sessions.RequestIsForwardedIff` | crates/walletconnect/src/session.rs:552-606 | Undisturbed, a request is forwarded exactly if its session exists, has not expired, allows the method and has its handler, and changes no map in any case. |
| `Sessions.SessionEndsWhenAsked` | crates/walletconnect/src/session.rs:186-193 | A deletion by the dApp and a disconnect by the user each remove the session with its handler and nothing else. |
| `Sessions.SessionTasksStart` | crates/walletconnect/src/session.rs:170-176 | A delivered request of a stored session waits for its checks, and an account switch asked for writes the address. |
| `Sessions.AccountSwitchChangesTheAddress` | crates/walletconnect/src/session.rs:728-741 | Writing a new account changes that session's address and nothing else, and does not bring back a session removed meanwhile. |
| `Proposals.LateDeliverySettlesAgain` | crates/walletconnect/src/session.rs:119-145 | Two deliveries that both found the pairing, handled one after the other, settle two sessions, for any approvable proposal: the mark does not make a pairing single-use. |
| `Proposals.SettlesAgainIffDelivered` | crates/walletconnect/src/session.rs:68-145 | A pairing neither stored nor in flight can settle a session without being paired again if and only if a delivery that found it earlier still waits for the mark, over all interleavings. |
| `Sessions.SharedMaps.constructor` | crates/walletconnect/src/pairing.rs:14-28 | All maps start empty. |
| `Sessions.SharedMaps.StartProposal` | crates/walletconnect/src/pairing.rs:30-35 | False exactly when the pairing is already in flight; afterwards it is. |
| `Sessions.SharedMaps.StoreSession` | crates/walletconnect/src/session.rs:511-530 | Adds handler and session and removes the pairing, keeping every session with a handler. |
| `Sessions.SharedMaps.HandleRequest` | crates/walletconnect/src/session.rs:552-606 | A request is forwarded exactly when its session exists, has not expired and allows the method; a session's handler is then always there. |
| `Sessions.SharedMaps.Disconnect` | crates/walletconnect/src/session.rs:626-656 | Session and handler go exactly when the session exists and the notification worked; otherwise nothing changes. |
| `Sessions.SharedMaps.DisconnectAll` | crates/walletconnect/src/session.rs:661-674 | A session whose notification fails stays, all others go with their handlers. |
| `Sessions.SharedMaps.SwitchAccount` | crates/walletconnect/src/session.rs:685-741 | Only the address of that one session changes, and only if the session exists and both messages to the dApp went out. |
| `Sessions.StepsMakeUpFunctions` | crates/walletconnect/src/session.rs:186-193 | Undisturbed, the lock-granular steps of a task do to the maps exactly what its function does. |
| `Pagination.OlderIsSlice` | crates/db/src/queries/transactions.rs:179-276 | A page below a cursor is the slice of the sorted filtered list right below it. |
| `Pagination.ListingDescends` | crates/db/src/queries/transactions.rs:190-201 | In the listing block numbers never increase and within one block positions never increase; it holds exactly the rows of the chain, with a block, that are from or to the address asked for. |
| `Pagination.OlderPage` | crates/db/src/queries/transactions.rs:190-201 | A page has at most the size asked for, in that order and each row once; every row is asked for and in a lower block than the cursor's, or in its block at a lower position; a row of that kind that is missing comes, with a full page, at or after every row of it. |
| `Pagination.NewerPage` | crates/db/src/queries/transactions.rs:139-151 | The mirror image: every row of a newer page is in a higher block than the cursor's, or in its block at a higher position, and a missing one comes, with a full page, at or before every row of it. |
| `Pagination.NextCursorIsLastRow` | gui/src/hooks/useAddressTxs.ts:20-36 | The next cursor is the block and position of the page's last row, and there is none exactly after a short or empty page. |
| `Pagination.OlderPageAdvances` | gui/src/hooks/useAddressTxs.ts:20-36 | A short page ends the query; a full one yields a cursor that starts strictly later in the list. |
| `Pagination.CollectOlderFollows` | gui/src/hooks/useAddressTxs.ts:8-43 | Following the cursor to the end terminates and collects what walking the sorted list from cut to cut collects. |
| `Pagination.FollowingIffCleanCuts` | gui/src/hooks/useAddressTxs.ts:20-36 | Walking from any position reaches the rest of the list exactly if no page boundary from there splits rows of equal key. |
| `Pagination.PagesAreCompleteIffCutsClean` | crates/db/src/queries/transactions.rs:179-276 | Following the cursor shows the whole sorted list of distinct rows, each once, if and only if all keys are below the i64 maximum pair and no page boundary splits equal keys; the list holds exactly the matching rows, each once. |
| `Pagination.DistinctKeysPageCompletely` | crates/db/src/queries/transactions.rs:230-276 | Distinct keys below the maximum are always enough, for any page size. |
| `Pagination.TiedRowsAreLost` | crates/db/src/queries/transactions.rs:15-26 | Concrete case: two rows stored without a position in one block share a key, and the boundary between them loses one. |
| `Pagination.NewerIsSlice` | crates/db/src/queries/transactions.rs:127-177 | Taking the oldest rows above a cursor and sorting them downwards is the slice of the sorted list right above it, unless the cut splits rows of equal key. |
| `Pagination.NewerPagesAreCompleteIffCutsClean` | crates/db/src/queries/transactions.rs:127-177 | Prepending successive newer pages from a cursor yields exactly the rows above it, newest first, if and only if no page boundary splits rows of equal key. |
| `Pagination.DistinctKeysCollectAllNewer` | crates/db/src/queries/transactions.rs:127-177 | Distinct keys are always enough, for any page size and cursor. |
| `Pagination.DirectionsAgreeIffDistinct` | crates/db/src/queries/transactions.rs:127-276 | Paging down, over distinct rows, and paging up, over all rows, are about the same list if and only if no matching row occurs twice in the selected columns. |
| `ProjectRoots.KeepingOneMore` | crates/sol-artifacts/src/actor/mod.rs:427-432 | One step of either loop keeps exactly the minimal directories met so far, if no ancestor comes after its descendant. |
| `ProjectRoots.WalkIsParentsFirst` | crates/sol-artifacts/src/actor/mod.rs:410-420 | The pre-order walk yields parents before what is in them. |
| `ProjectRoots.WalkFindsProjects` | crates/sol-artifacts/src/actor/mod.rs:389-425 | The walk yields a config directory exactly when it is reached without meeting a hidden or blacklisted directory, the root only being checked against the blacklist. |
| `ProjectRoots.AcceptedIffTrail` | crates/sol-artifacts/src/actor/mod.rs:17-44 | A path is accepted exactly if directories lead down from the root to one holding one of the four config files, none of them, the root included, has one of the twelve skipped names, and none below the root starts with a dot. |
| `ProjectRoots.ScanRoot` | crates/sol-artifacts/src/actor/mod.rs:407-438 | The set filled by one root's walk holds exactly its outermost project directories. |
| `ProjectRoots.SortedIsParentsFirst` | crates/sol-artifacts/src/actor/mod.rs:445-446 | Component-wise sorting puts ancestors before descendants. |
| `ProjectRoots.Merge` | crates/sol-artifacts/src/actor/mod.rs:444-453 | Sort and fold keep exactly the directories below no other one. |
| `ProjectRoots.MinimalOfAll` | crates/sol-artifacts/src/actor/mod.rs:444-453 | The outermost of the outermost of each root are the outermost over all roots. |
| `ProjectRoots.FindProjectRoots` | crates/sol-artifacts/src/actor/mod.rs:401-454 | The result is exactly the outermost accepted directories over all roots, in whatever order walks end: an antichain in which every accepted directory has an ancestor or itself. |
| `Debounce.SolArtifactsActor.TriggerUpdateContracts` | crates/sol-artifacts/src/actor/mod.rs:320-325 | Counts up and posts one message, or drops it when it cannot be sent. |
| `Debounce.SolArtifactsActor.UpdateContracts` | crates/sol-artifacts/src/actor/mod.rs:165-223 | Counts down and passes over the contracts exactly when the counter was 1; the database decides whether the pass gets to its end. |
| `Debounce.StepKeeps` | crates/sol-artifacts/src/actor/mod.rs:146-172 | Every step of the mailbox keeps the debounce invariant. |
| `Debounce.CounterCountsQueue` | crates/sol-artifacts/src/actor/mod.rs:165-172 | In every reachable state the counter is the number of queued updates plus those that could not be sent, and it never goes below zero. |
| `Debounce.OnePassPerBurst` | crates/sol-artifacts/src/actor/mod.rs:167-172 | Each maximal burst of updates asked for gets exactly one pass, when its last message is handled. |
| `Debounce.ServedIffSentAndCompleted` | crates/sol-artifacts/src/actor/mod.rs:165-223 | Once no update is queued, every update asked for was followed by a complete pass if and only if every message could be sent and the last pass got to its end. |
| `Debounce.OneLossStopsAllPasses` | crates/sol-artifacts/src/actor/mod.rs:320-325 | After one message that could not be sent no later run ever passes again. |
| `Debounce.LostMessageFreezesUpdates` | crates/sol-artifacts/src/actor/mod.rs:320-325 | Concrete case: the first update's message is lost, and nothing that follows is a pass. |
| `Decimal.ValueOfToString` | crates/db/src/queries/transactions.rs:17-22 | Writing a number in decimal and reading it back gives the number. |
| `Decimal.SplitOfJoin` | crates/db/src/queries/transactions.rs:17-22 | Splitting undoes joining of pieces that do not contain the separator. |
| `Decimal.JoinOfSplit` | gui/src/routes/home/_l/transfer/-common.tsx:19 | Joining undoes splitting, and no piece contains the separator. |
| `TraceAddress.ParsesBack` | crates/db/src/queries/transactions.rs:83-87 | Parsing the written indices gives the indices. |
| `TraceAddress.RoundTrip` | crates/db/src/queries/transactions.rs:83-87 | Reading back a stored trace address is the identity on null and on every non-empty list, maps the empty list to null, and never panics. |
| `TraceAddress.ReadsIffWritten` | crates/db/src/queries/transactions.rs:83-87 | A stored text reads as a list of indices if and only if it is those numbers with slashes between them, each in decimal digits after at most one plus sign and within 64 bits; any other text but the empty one makes reading panic. |
| `Amount.KeptIsFloor` | gui/src/routes/home/_l/transfer/-common.tsx:22-23 | Padding multiplies and slicing divides by powers of ten, rounding down. |
| `Amount.ParsedIsFloor` | gui/src/routes/home/_l/transfer/-common.tsx:13-27 | Every unsigned decimal of any length, with any number of decimals, parses to the floor of its value in base units; text without a digit is refused. |
| `Amount.ParsingIsMonotone` | gui/src/routes/home/_l/transfer/-common.tsx:13-27 | A larger amount never parses to fewer base units, however either is written. |
| `Amount.LaterPointsAreIgnored` | gui/src/routes/home/_l/transfer/-common.tsx:19 | Whatever follows a second point is ignored. |
| `Amount.NegativeIsOppositeIff` | gui/src/routes/home/_l/transfer/-common.tsx:19-25 | A minus sign gives the opposite of the unsigned result if and only if there is a whole part and the kept places of the fraction are zero. |
| `Amount.MinusOneHalfBecomesPlusFive` | gui/src/routes/home/_l/transfer/-common.tsx:19-25 | Concrete case: `-0.5` with one decimal parses to 5. |
| `Amount.PlusIsIgnored` | gui/src/routes/home/_l/transfer/-common.tsx:13-27 | A plus sign before a whole part changes nothing; without a whole part it is an error. |
| `Amount.MinusAfterPointSubtracts` | gui/src/routes/home/_l/transfer/-common.tsx:19-25 | A minus sign after the point takes one place of the fraction, and the places that remain are subtracted; with one decimal it is an error. |
| `SyncWorker.Worker.TrackAddr` | crates/sync/src/worker.rs:58-64 | Starts one task per tracked network and makes the table reach those. |
| `SyncWorker.Worker.UntrackAddr` | crates/sync/src/worker.rs:68-71 | Drops exactly the address's entries. |
| `SyncWorker.Worker.TrackNetwork` | crates/sync/src/worker.rs:75-83 | Nothing for an unsupported network; otherwise one task per tracked address. |
| `SyncWorker.Worker.UntrackNetwork` | crates/sync/src/worker.rs:87-90 | Drops exactly the network's entries. |
| `SyncWorker.Worker.PrioritizeAddr` | crates/sync/src/worker.rs:94-102 | Remembers the address and wakes the current pair's task if the table has one. |
| `SyncWorker.Worker.PrioritizeNetwork` | crates/sync/src/worker.rs:106-116 | Nothing for an unsupported network; otherwise as for an address. |
| `SyncWorker.TableIsProduct` | crates/sync/src/worker.rs:33-116 | After any run the table holds exactly tracked addresses times tracked, supported networks, so a poll signals an entry exactly when the current pair is tracked. |
| `SyncWorker.StateIsWhatMessagesSay` | crates/sync/src/worker.rs:58-116 | Over all runs: an address is tracked if and only if the last message about tracking it says so, so is a supported network, and the current address and chain are those polled last, unsupported chains not counting. |
| `SyncWorker.RunsIffNotDied` | crates/sync/src/worker.rs:184-202 | Over all runs, the table's task for a pair runs if and only if the table has one and it did not end at a failing request since it was started. |
| `SyncWorker.PollWakesIffAlive` | crates/sync/src/worker.rs:94-116 | A poll wakes a task if and only if the current pair is tracked and its task did not end by itself since it was started. |
| `SyncWorker.StepOrphansTouched` | crates/sync/src/worker.rs:118-129 | Each message orphans exactly the tasks of the pairs it tracks again or drops. |
| `SyncWorker.NoOrphansIffNothingTouched` | crates/sync/src/worker.rs:118-129 | The table still has every task started if and only if no message tracked a pair of the table again or dropped one. |

## Left out

- Tracker.RunOnce: `wait` before the loop is reduced to its outcome; its backoff of at most 6400 ms plus less than 25% jitter is not modelled.
- Tracker.Run: a quit during `wait` counts as not becoming ready, as in the code, and the next epoch's polling of the spent quit signal is not modelled; nor is the pause between epochs.
- Tracker.ProvidersAgreeOnRange: a fork block at the u64 maximum, whose successor overflows, is not modelled.
- EndToEnd.StoredDataMirrorsChainIffGapless: the node answers while messages are handled, and the consumer of the previous epoch has drained its channel before; `Convergence.MirrorsIffHarmless` is about both.
- NodeAnswers.ReplyIsEmittedIffStillThere: further requests of the expansion of traces, such as for contract code, are part of a block's content.
- Replay.EthuiConsumer.Process: fetching and decoding of traces and logs is the input `Reply`, and the frontend's message is reduced to whether there is one.
- Database: ERC721 and ERC1155 tables, migrations and SQL text; code, ABI, names and token metadata are opaque values; addresses are numbers with 0 as the zero address; writes do not fail for reasons of storage.
- Networks.Find: which of several matching networks is found depends on hash map order, which is an arbitrary function of the table.
- Networks.RunsKeepNumbering: the `update` command, which can rename and renumber at will, and removal, whose effect has its own lemmas.
- Routing.PeersAgreeAtQuiescence: removal and `update` of networks, and a receiver that lags behind the broadcast channel's capacity and loses messages; each command and its enqueue are one step, telling all peers of one message is one step although the store is read anew for each, as are a peer's being added and what it is first served.
- Routing.App.SwitchChain: the dialogs of RPC methods that lead to it, and adding unknown chains on request.
- Echo.DiesOutIffCalm: outstanding messages name stored networks; messages of a network removed meanwhile are dropped by the receiver and not modelled here.
- WalletConnect.ForwardedOnlyAfterApproval: cryptography, encoding and relay messages; session topics are taken to be fresh, as topics hashed from new key pairs are. The dialog's answer, the derived topic and the clock are inputs. Pings and ignored tags change nothing.
- Sessions.SharedMaps.SwitchAccount: building of account and namespace strings.
- ProxyNesting.Organize: names, aliases and code of contracts; the alias lookup is I/O.
- Pagination.OlderIsSlice: among rows of equal key the order of the database is taken to be that of a stable sort; i64 casts are the identity below 2^63.
- Pagination.NewerIsSlice: nothing is said about which of several tied rows a cut keeps, which the database decides.
- ProjectRoots.FindProjectRoots: directories that cannot be read are absent from the tree, names that are not valid text are not modelled, and a walk that panics is not. The comment at crates/sol-artifacts/src/actor/mod.rs:398 speaks of not searching below a config file; the code searches on and drops what it finds there, and the model follows the code.
- ProjectRoots: the field `project_roots`, which no code sets, so every update rescans all projects and nothing is ever unwatched.
- Debounce.SolArtifactsActor.UpdateContracts: the pass itself, which matches code against ABIs, is reduced to whether it gets to its end.
- Amount.ParsedIsFloor: text with exponents, hexadecimal digits, white space or letters, which JavaScript's number parsing also reads.
- Convergence.MirrorsIffHarmless: more than 2^256 messages after one reset, where the counting of blocks by balances wraps around.
- SyncWorker.Worker.TrackAddr: what a task fetches, and its timing; whether a request fails is an input, and the map's values are reduced to which pairs the table has a task for.
- Settings, onboarding, wallets, the Docker stack, Alchemy transfer sync, the ABI parser and all user interface code: delegation, field copying or library calls.
