# Felidae: a verified model of the replicated state machine

Felidae is a blockchain on which *oracles* vote on the content hashes of domains and *admins* vote on
the configuration of the chain. Both kinds of votes go through the same vote queue: votes are
collected, a value with a quorum becomes pending, and after a delay it takes effect. This project
models that state machine, the node's store and requests around it, the signing of transactions, and
the verification of light blocks, and proves properties of all their runs.

`dafny verify dfyconfig.toml` checks everything.

## Layers

* **The vote queue.** `VoteQueue.dfy` has the class with its four stores and the loops of casting,
  expiry and promotion, each method proved against a function of the old contents. `QueueLaws.dfy`
  proves laws of these functions, `QueueRuns.dfy` properties of every run of a queue, `Uniqueness.dfy`
  exactly when the winner of a cast does not depend on the order of the tally.
* **The keys.** `Keys.dfy`, on top of `Text.dfy`, `Digits.dfy`, `Rfc3339.dfy`, `DomainText.dfy` and
  `Hex.dfy`, proves that the textual and binary keys of the stores implement the maps that the queue
  is modelled with: round trips, order, prefix scans, disjointness.
* **The chain.** `ChainModel.dfy` states what every step of a block does to the state;
  `ChainStates.dfy` has the class that carries out observations, reconfigurations, transactions and
  blocks, method by method, and proves that it takes exactly those steps. `Configs.dfy` has the checks
  of configurations, `Domains.dfy` the names, `Times.dfy` the times.
* **Runs of the chain.** `Histories.dfy` defines runs and proves the invariant of all their states.
  On it rest `Provenance.dfy` (where canonical entries come from) and `AdminProvenance.dfy` (who
  approved a configuration), `ConfigChain.dfy` (the chain of configurations), `Agreement.dfy` (replicas
  agree), `SubdomainLimit.dfy`, `PendingChanges.dfy` (no timer reset, bounded wait) and `Delays.dfy`
  (when the wait is as long as the delay).
* **The other direction.** `Checks.dfy` spells out which observations and reconfigurations are cast,
  `Decisions.dfy` proves that no vote is lost and that a quorum decides, `Admission.dfy` when the limit
  lets a decision become pending, `CanonicalRuns.dfy` that enrolled names stay, `ConfigEffects.dfy` that
  approved configurations take effect, `Deliveries.dfy` which transactions and actions count, and
  `GenesisRequests.dfy` what the genesis request decides.
* **Where assumptions are needed.** `LimitFalls.dfy` and `ZoneDisagreement.dfy` state exactly when the
  subdomain limit can fall and when its check protects a domain; `LoweredQuorum.dfy`,
  `ZoneDisagreement.dfy` and `Delays.dfy` give runs in which a property fails without its assumption,
  built with `ObservationRuns.dfy` and `QuietSteps.dfy`.
* **The node.** `Store.dfy` has the store and its requests, `Ledgers.dfy` the committed blocks and
  the check of blockstamps, `Interleaving.dfy` the requests at the granularity of locks, and
  `Service.dfy` the same requests on objects, with a separate state object for every CheckTx.
* **Signing.** `Traversal.dfy` has message trees, `Signing.dfy` the traversals that sign, verify and
  strip them in place, `Messages.dfy` the messages that carry transactions and their conversions,
  `Authentication.dfy` signed transactions.
* **Light blocks.** `LightBlock.dfy` has the tally and the intersection of quorums.

## Assumptions

* Consensus delivers consecutive heights from 1, times that do not run backwards or before 1970, and a
  Commit after each FinalizeBlock. Only results about runs need this.
* The tally iterates a hash map, whose order is arbitrary: the winner of a cast is any value that has
  reached the quorum. Where results need a unique winner they assume that no installed configuration
  lowers the quorum, which is proved to be enough, and not superfluous.
* The root hash of a state is an arbitrary function of it. Digests and signatures are arbitrary
  functions too; where a result needs it, it assumes that a digest is injective or that a signer's
  signatures verify.
* A transaction arrives as the result of authentication: a transaction, or nothing when it failed.

## Where the code does something else than one might expect

* Transactions are not atomic: what the actions before a failing one did stays
  (`Deliveries.ActionsUpToFirstFailure`).
* A genesis request with an unreadable configuration still names the chain, after which no request can
  start it (`GenesisRequests.LaterRequestsFail`).
* Voting again removes the old vote from the primary store only; its index entry stays until the
  timeout (`QueueRuns.ReplacedVotesStayIndexed`). The index covers the votes but may hold more.
* A delay is measured from a timestamp cut to whole seconds, so a change that was not approved at a
  whole second can be promoted too early, by less than a second (`Delays.AlwaysWaitsIff`,
  `Provenance.DelayUpToASecond`).
* The comment on the limit check promises a global limit. It holds if oracles agree on zones
  (`SubdomainLimit.LimitHolds`). The check for a vote protects just the domains that have more labels
  than the zone the vote carries (`ZoneDisagreement.CheckProtectsIff`), so votes that disagree on the
  zone can exceed the limit (`ZoneDisagreement.LimitCanBeExceeded`).
* A quorum that is lowered can leave values waiting with the quorum reached, and then two values can
  win (`Uniqueness.LoweringCanSplitIff`) and replicas can diverge (`LoweredQuorum.ReplicasCanDiverge`).
  For the same reason the subdomain limit, which no proposal may lower, can fall
  (`LimitFalls.LimitCanFallIff`, `LoweredQuorum.LimitCanDecrease`).
* Index keys hold signed seconds but are compared as unsigned bytes: times before 1970 sort last
  (`VoteQueues.ScanIsFilterIff` gives the exact condition for the scan to be the filter).
* The height of a blockstamp is cut to 32 bits (`Ledgers.BlockstampCheck` is exact about it).
* At the root, the two listings of strict subdomains differ (`DomainText.ScanAtRoot`).
* A number of 2^63 or more, or an empty oracle endpoint, does not survive the conversion to a message
  (`Messages.ConfigRoundTrip`).
* When signing fails, the error is that of the last slot that cannot be filled, not of the first
  (`Signing.SigningFailsAtLastObjection`).
* The two-thirds threshold of the light block tally relies on the bound on the total voting power
  (`LightBlocks.ThresholdExactIffNoOverflow`).

## Model

| member | source | states |
|---|---|---|
| `VoteQueues.ScanIsFilterIff` | `crates/felidae-state/src/state/voting/vote_queue.rs:85-99` | the early-stopping scan of a time index collects exactly the entries that are due, unless an entry dated before 1970 is due while a later one is not; the condition is necessary and sufficient |
| `VoteQueues.IndexScan` | `crates/felidae-state/src/state/voting/vote_queue/keys.rs:58-77` | an index is listed completely, without repetition, in the order of the unsigned seconds in its keys |
| `VoteQueues.TakeDue` | `crates/felidae-state/src/state/voting/vote_queue.rs:88-99` | taking entries from the front of the index while they are due yields, each once, exactly the entries that no undue entry precedes |
| `VoteQueues.VoteQueue.DeleteVotes` | `crates/felidae-state/src/state/voting/vote_queue.rs:181-183` | an earlier vote of a party leaves the primary store only; the index keeps its entry |
| `VoteQueues.VoteQueue.DeleteIndexedVotes` | `crates/felidae-state/src/state/voting/vote_queue.rs:243-251` | the paired deletes take the same votes out of the primary store and of the index, and nothing else |
| `VoteQueues.VoteQueue.DeletePending` | `crates/felidae-state/src/state/voting/vote_queue.rs:282-290` | the paired deletes keep both pending stores alike |
| `VoteQueues.VoteQueue.TimeoutExpiredVotes` | `crates/felidae-state/src/state/voting/vote_queue.rs:82-112` | the timeout leaves both vote stores without the collected votes and the pending stores untouched |
| `VoteQueues.VoteQueue.PromotePendingChanges` | `crates/felidae-state/src/state/voting/vote_queue.rs:118-154` | promotion returns the key and value of every ripe change once, and removes just these from both pending stores |
| `VoteQueues.VoteQueue.TallyVotes` | `crates/felidae-state/src/state/voting/vote_queue.rs:217-221` | the tally counts, for every value voted for under a key, the votes for it |
| `VoteQueues.VoteQueue.TallyWinner` | `crates/felidae-state/src/state/voting/vote_queue.rs:222-228` | the winner is some value with votes that has the quorum; none exactly when no value has it |
| `VoteQueues.VoteQueue.Enqueue` | `crates/felidae-state/src/state/voting/vote_queue.rs:242-354` | a winning value clears the votes of its key, keeps an equal pending change with its timer, overwrites a different one, and becomes pending unless the limit check drops it or fails; a different change is gone even then |
| `VoteQueues.VoteQueue.Cast` | `crates/felidae-state/src/state/voting/vote_queue.rs:158-354` | the whole cast over the four stores: for a winner that the tally may report, the new contents and the success flag are those of the specification, whose laws are proved in QueueLaws and QueueRuns |
| `VoteQueues.VoteQueue.PendingForKey` | `crates/felidae-state/src/state/voting/vote_queue.rs:357-374` | the lookup returns the pending value of a key, nothing when there is none, and an error exactly when there are several |
| `QueueLaws.ExpireIsFilter` | `crates/felidae-state/src/state/voting/vote_queue.rs:82-112` | with the invariant and no time before 1970, expiry is the filter by age on the votes and on the index |
| `QueueLaws.ExpireKeepsValid` | `crates/felidae-state/src/state/voting/vote_queue.rs:100-109` | expiry keeps the representation invariant: one vote per key and party, one pending change per key, the index covers the votes, the pending stores mirror each other |
| `QueueLaws.PromotePartitions` | `crates/felidae-state/src/state/voting/vote_queue.rs:118-154` | the returned changes are exactly those at least as old as the delay; with what stays they make up the old pending set; their keys are pairwise different |
| `QueueLaws.PromoteKeepsValid` | `crates/felidae-state/src/state/voting/vote_queue.rs:140-151` | promotion keeps the representation invariant |
| `QueueLaws.CastKeepsValid` | `crates/felidae-state/src/state/voting/vote_queue.rs:158-354` | every cast keeps the representation invariant, whoever wins and whatever the limit check answers |
| `QueueLaws.AtMostOnePending` | `crates/felidae-state/src/state/voting/vote_queue.rs:366-370` | the lookup never meets several pending changes for a key |
| `QueueLaws.VotesCountParties` | `crates/felidae-state/src/state/voting/vote_queue.rs:217-221` | the number of votes counted for a value is the number of distinct parties behind it |
| `QueueLaws.OthersGainNothing` | `crates/felidae-state/src/state/voting/vote_queue.rs:170-197` | a new vote adds support to no other value or key |
| `QueueLaws.OnlyTheCastValueWins` | `crates/felidae-state/src/state/voting/vote_queue.rs:222-228` | if nobody had reached the quorum before, the only possible winner is the value just cast, and it wins exactly when it has the quorum: the iteration order of the tally does not matter |
| `QueueLaws.CastStaysBelowQuorum` | `crates/felidae-state/src/state/voting/vote_queue.rs:170-251` | after a cast nobody waits with the quorum reached, so winners stay unique |
| `QueueLaws.ExpireStaysBelowQuorum` | `crates/felidae-state/src/state/voting/vote_queue.rs:100-109` | expiry keeps winners unique |
| `Uniqueness.OtherValueMayWinIff` | `crates/felidae-state/src/state/voting/vote_queue.rs:217-228` | before a cast: another value may win exactly when it has the quorum, and a vote, among the votes of other parties |
| `Uniqueness.CastValueAloneWinsIff` | `crates/felidae-state/src/state/voting/vote_queue.rs:170-228` | before a cast: its value is the only possible winner if and only if no other value queued for the key has the quorum among the votes of other parties |
| `Uniqueness.WinnersAreUniqueIff` | `crates/felidae-state/src/state/voting/vote_queue.rs:170-228` | every cast for a key leaves its own value as the only possible winner if and only if no value queued for the key has the quorum |
| `Uniqueness.LoweredQuorumHasTwoWinners` | `crates/felidae-state/src/state/voting/vote_queue.rs:222-228` | for every two quorums, the second lower, and every two values: a run of casts, all undecided under the first quorum, after which either value may win one more cast under the second |
| `Uniqueness.LoweringCanSplitIff` | `crates/felidae-state/src/state/voting/vote_queue.rs:222-228` | after casts that were all undecided under one quorum, a cast under another can have two different winners if and only if the quorum was lowered |
| `QueueLaws.SomeWinnerIsLegal` | `crates/felidae-state/src/state/voting/vote_queue.rs:222-234` | some outcome of the tally is always possible |
| `QueueLaws.CastFrame` | `crates/felidae-state/src/state/voting/vote_queue.rs:158-354` | a cast leaves every other key alone in the votes and the pending changes, and a winner clears all votes for its key |
| `QueueLaws.CastPending` | `crates/felidae-state/src/state/voting/vote_queue.rs:253-351` | what is pending for the key after a cast: without a winner, or when the winner is pending already, what was; otherwise the winner at the second of the cast if the limit check admits it next to the other pending changes, and nothing if not |
| `QueueLaws.CastSucceeds` | `crates/felidae-state/src/state/voting/vote_queue.rs:292-318` | a cast of an entry below its zone, in a queue of such entries, reports no error |
| `QueueRuns.RunIsValid` | `crates/felidae-state/src/state/voting/vote_queue.rs:82-354` | every run of casts, expiries and promotions from the empty queue keeps the representation invariant |
| `QueueRuns.VotesAreStanding` | `crates/felidae-state/src/state/voting/vote_queue.rs:170-190` | every vote in a reachable queue was cast, and since then neither replaced by its party, nor expired, nor used up by a winner for the key |
| `QueueRuns.QueuedIffStanding` | `crates/felidae-state/src/state/voting/vote_queue.rs:170-197` | and no vote is lost: in every run the queue holds exactly the votes that were cast without deciding and have since been neither replaced by their party, nor used up by a winner for the key, nor expired |
| `QueueRuns.ReplacedVotesStayIndexed` | `crates/felidae-state/src/state/voting/vote_queue.rs:181-197` | a vote that its party replaced leaves the primary store but stays in the index, whatever is cast and decided later, until it times out or the party votes in the same second again |
| `QueueRuns.WinnersAreDecided` | `crates/felidae-state/src/state/voting/vote_queue.rs:204-251` | a winner has, at that moment, the standing votes of at least a quorum of distinct parties, none of which counted in an earlier decision |
| `QueueRuns.QuorumDecides` | `crates/felidae-state/src/state/voting/vote_queue.rs:204-234` | whenever the standing votes of a quorum of parties are for one value, the cast has a winner, and that value is one it may have |
| `QueueRuns.DecidesIffQuorum` | `crates/felidae-state/src/state/voting/vote_queue.rs:204-234` | a cast has a winner if and only if some value has the standing votes of at least a quorum, and at least one, of distinct parties |
| `QueueRuns.PendingWasDecided` | `crates/felidae-state/src/state/voting/vote_queue.rs:253-351` | every pending change in a reachable queue was decided by such a quorum at its timestamp and has been pending, unchanged, ever since |
| `QueueRuns.PendingStays` | `crates/felidae-state/src/state/voting/vote_queue.rs:266-279` | further wins of the same value do not touch a pending change, over any run without another winner or a ripe promotion |
| `QueueRuns.NobodyWaitsAtQuorum` | `crates/felidae-state/src/state/voting/vote_queue.rs:170-251` | over every run in which the quorum does not fall, no value waits with the quorum reached |
| `Domains.RegisteredDomain` | `crates/felidae-state/src/state/action/observe.rs:86-93` | the hierarchy lookup by depth succeeds exactly when the name is deeper than the zone, and yields the ancestor-or-self with one more label than the zone |
| `Domains.AncestorsCompare` | `crates/felidae-state/src/state/action/observe.rs:86-93` | two ancestors of one name are comparable, and equal when equally deep |
| `Domains.RegisteredIsBelowZone` | `crates/felidae-state/src/state/action/observe.rs:69-93` | for a strict subdomain of the zone the lookup cannot fail, and its result lies directly below that zone |
| `Hex.EncodeInjective` | `crates/felidae-state/src/state/action/observe.rs:147-147` | different oracle keys vote under different party names |
| `Hex.EncodeHasNoSlash` | `crates/felidae-state/src/state/action/observe.rs:147-147` | a party name has no separator of store keys |
| `DomainText.RoundTrip` | `crates/felidae-types/src/transaction.rs:263-282` | parsing the reversed dotted form gives back the labels of every name, the root included |
| `DomainText.ShowInjective` | `crates/felidae-types/src/transaction.rs:263-269` | different names have different stored forms |
| `DomainText.ShowHasNoSlash` | `crates/felidae-types/src/transaction.rs:263-269` | a stored form has no separator of store keys |
| `DomainText.NameRoundTrip` | `crates/felidae-types/src/transaction/convert.rs:57-71` | the ordinary dotted form of a name reads back as the name |
| `DomainText.ScanFindsStrictSubdomains` | `crates/felidae-state/src/state/canonical.rs:97-117` | for a name other than the root, a stored form starts with its form and a dot exactly when it is a strict subdomain, in the sense of section 3.1 of RFC 1034 |
| `DomainText.ScanAtRoot` | `crates/felidae-state/src/state/canonical.rs:31-41` | at the root the listing of names, which adds a dot, finds nothing, while the bare dot used by the listing of hashes is a prefix of every stored name |
| `Rfc3339.RoundTrip` | `crates/felidae-state/src/state/voting/vote_queue/keys.rs:101-122` | every second of the years 1 to 9999, written as section 5.6 of RFC 3339 does in UTC, reads back as itself |
| `Rfc3339.FromSeconds` | `crates/felidae-state/src/state/voting/vote_queue/keys.rs:14-19` | the calendar date and clock time of a second are valid and denote that second |
| `Keys.VoteRoundTrip` | `crates/felidae-state/src/state/voting/vote_queue/keys.rs:8-33` | the key of a vote reads back as its key, party and second |
| `Keys.PendingRoundTrip` | `crates/felidae-state/src/state/voting/vote_queue/keys.rs:101-122` | the key of a pending change reads back as its key and second, whatever the key contains |
| `Keys.VoteScan` | `crates/felidae-state/src/state/voting/vote_queue/keys.rs:47-56` | an exact prefix selects the votes for one key and no others |
| `Keys.PartyScan` | `crates/felidae-state/src/state/voting/vote_queue/keys.rs:35-45` | an exact prefix with a party selects the votes of that party for that key and no others |
| `Keys.PendingScan` | `crates/felidae-state/src/state/voting/vote_queue/keys.rs:124-133` | an exact prefix selects the pending changes for one key and no others |
| `Keys.PendingScanBelow` | `crates/felidae-state/src/state/voting/vote_queue.rs:381-403` | the open-ended prefix with a dot selects the pending changes of exactly the strict subdomains |
| `Keys.StoresAreDisjoint` | `crates/felidae-state/src/state/voting.rs:14-27` | no key of one store of one queue lies in another store or in the other queue |
| `Keys.QueuesAreDisjoint` | `crates/felidae-state/src/state/voting.rs:14-27` | the same for the queues of the oracles and of the admins and their four stores |
| `Keys.SubstoresAreDisjoint` | `crates/felidae-state/src/store.rs:58-82` | a key read without the prefix of its substore is the key that was written, is in no other substore, and prefix scans are unaffected by the substore |
| `Keys.IndexOrderIsTimeOrder` | `crates/felidae-state/src/state/voting/vote_queue/keys.rs:58-77` | index keys in byte order are in the order of the unsigned seconds, hence of time from 1970 on, whatever follows the time |
| `Keys.IndexRoundTrip` | `crates/felidae-state/src/state/voting/vote_queue/keys.rs:183-214` | an index key reads back as its second and the text after it |
| `Keys.VoteIndexRoundTrip` | `crates/felidae-state/src/state/voting/vote_queue/keys.rs:79-89` | the index key of a vote reads back as its second, key and party |
| `Keys.BuildVoteIndexKey` | `crates/felidae-state/src/state/voting/vote_queue/keys.rs:58-77` | the buffer filled step by step is the index key, and reads back |
| `Keys.IndexBytesInjective` | `crates/felidae-state/src/state/voting/vote_queue/keys.rs:58-77` | different votes have different index keys |
| `Keys.PendingIndexBytesInjective` | `crates/felidae-state/src/state/voting/vote_queue/keys.rs:135-147` | different pending changes have different index keys |
| `Keys.VoteStoreImplements` | `crates/felidae-state/src/state/voting/vote_queue.rs:181-190` | putting and deleting a vote by its textual key implements the map of votes |
| `Keys.VoteStoreScan` | `crates/felidae-state/src/state/voting/vote_queue.rs:205-215` | the scan for a key returns exactly the votes of the map for that key, with their values |
| `Keys.PendingStoreImplements` | `crates/felidae-state/src/state/voting/vote_queue.rs:282-346` | putting and deleting by textual key implements the map of pending changes |
| `Keys.PendingStoreScan` | `crates/felidae-state/src/state/voting/vote_queue.rs:357-365` | the scan for a key returns exactly the pending changes of the map for that key, with their values |
| `Keys.VoteIndexImplements` | `crates/felidae-state/src/state/voting/vote_queue.rs:192-197` | putting and deleting by binary key implements the index of votes |
| `Keys.PendingIndexImplements` | `crates/felidae-state/src/state/voting/vote_queue.rs:347-351` | putting and deleting by binary key implements the index of pending changes |
| `Keys.OtherKeysDoNotMatter` | `crates/felidae-state/src/store.rs:58-82` | writes outside the prefix of a store leave the map it implements alone |
| `Digits.PadHeight` | `crates/felidae-state/src/state/util.rs:3-8` | a height below 2^64 is padded to exactly twenty digits |
| `Digits.PaddedHeightsInOrder` | `crates/felidae-state/src/state/util.rs:3-8` | padded heights are in lexicographic order exactly when the heights are in numeric order |
| `Configs.IsAllZeros` | `crates/felidae-state/src/state/config.rs:126-129` | a key is a placeholder exactly when all its bytes are zero |
| `Configs.CheckVotingConfig` | `crates/felidae-state/src/state/config.rs:90-124` | accepts exactly 1 <= quorum <= total = number of authorized entries, and names the first condition that fails |
| `Configs.CheckConfig` | `crates/felidae-state/src/state/config.rs:20-86` | accepts exactly the newer, sound configurations that do not lower the subdomain limit; a placeholder is reported with its first index |
| `ChainStates.ChainState.InitChain` | `crates/felidae-state/src/state/abci/init_chain.rs:6-87` | the genesis request: the default or given configuration is installed once; a second request fails and changes nothing, an unreadable configuration leaves the chain id set |
| `ChainStates.ChainState.RecordAppHash` | `crates/felidae-state/src/state/app_hash.rs:7-20` | the hash is filed under the height before the current one |
| `ChainStates.ChainState.CheckBlockstamp` | `crates/felidae-state/src/state/action/observe.rs:37-64` | passes exactly when the block is not in the future, known, not older than the timeout, and the hash on file for the height before it, cut to 32 bits, is the one given |
| `ChainStates.ChainState.CheckSubdomainLimit` | `crates/felidae-state/src/state/action/observe.rs:162-226` | the count gathered from three reads is that of distinct names at or below the registered domain in canonical and pending; a counted name always passes, another one while there is room |
| `ChainStates.ChainState.Observe` | `crates/felidae-state/src/state/action/observe.rs:10-157` | an observation changes the state exactly as specified and succeeds exactly when every check passes and the cast reports no error; when a check fails the state is as before |
| `ChainStates.ChainState.Reconfigure` | `crates/felidae-state/src/state/action/reconfigure.rs:6-59` | a reconfiguration succeeds exactly when the admin, the time window, the configuration and the pending version allow it, and only then is cast |
| `ChainStates.ChainState.UpdateCanonical` | `crates/felidae-state/src/state/canonical.rs:120-144` | one name is set or deleted and no other changes |
| `ChainStates.ChainState.DeliverAction` | `crates/felidae-state/src/state/abci/deliver_tx.rs:30-36` | an action has the effect and result of the step it stands for |
| `ChainStates.ChainState.DeliverTx` | `crates/felidae-state/src/state/abci/deliver_tx.rs:5-39` | a transaction has no effect when not authentic, for another chain or empty; otherwise its actions take effect in order up to and including the first failing one, and what was done before stays |
| `ChainStates.ChainState.StartBlock` | `crates/felidae-state/src/state/abci/finalize_block.rs:60-66` | height and time are set and recorded, then votes expire in both queues under the configuration in force |
| `ChainStates.ChainState.DeliverTxs` | `crates/felidae-state/src/state/abci/finalize_block.rs:68-99` | the transactions of a block are delivered one after the other, whether or not they fail |
| `ChainStates.ChainState.PromoteConfigs` | `crates/felidae-state/src/state/abci/finalize_block.rs:101-123` | the loop over ripe configurations leaves the ripe one in force if it is newer than the current one |
| `ChainStates.ChainState.PromoteObservations` | `crates/felidae-state/src/state/abci/finalize_block.rs:125-134` | the loop over ripe observations leaves the canonical map with every ripe change made, under the configuration installed before it |
| `ChainStates.ChainState.FinalizeBlock` | `crates/felidae-state/src/state/abci/finalize_block.rs:10-147` | a block is exactly: start, deliveries, promotion of the configuration, promotion of observations, in this order |
| `ChainModel.UpdatesInAnyOrder` | `crates/felidae-state/src/state/abci/finalize_block.rs:126-134` | applying the promoted changes one by one, in whatever order they are listed, gives the same canonical map |
| `ChainStates.RipeListsChanges` | `crates/felidae-state/src/state/abci/finalize_block.rs:126-134` | the promoted changes name every ripe domain once, with its value |
| `ChainStates.AtMostOneRipe` | `crates/felidae-state/src/state/abci/finalize_block.rs:101-123` | at most one configuration is promoted in a block |
| `ChainModel.PartlyNext` | `crates/felidae-state/src/state/abci/deliver_tx.rs:30-36` | one more action either extends the accepted prefix or ends the transaction with its effects kept |
| `Deliveries.ForeignTransactionsHaveNoEffect` | `crates/felidae-state/src/state/abci/deliver_tx.rs:7-28` | in every state of a run a transaction that is not authentic, is for another chain than that of genesis, or has no action fails without any effect |
| `Deliveries.ActionsUpToFirstFailure` | `crates/felidae-state/src/state/abci/deliver_tx.rs:30-38` | of any other transaction an action is carried out exactly when all actions before it were accepted, and the transaction succeeds exactly when all were |
| `Deliveries.AcceptedIffChecked` | `crates/felidae-state/src/state/abci/deliver_tx.rs:30-36` | an action of a run is accepted exactly when it passes the checks spelled out in Checks, and changes nothing otherwise |
| `Deliveries.EveryTransactionHasItsTurn` | `crates/felidae-state/src/state/abci/finalize_block.rs:68-99` | in a block every transaction for the chain has at least one action carried out or refused, whatever became of the transactions before it |
| `GenesisRequests.FirstRequest` | `crates/felidae-state/src/state/abci/init_chain.rs:16-72` | the first request for height one starts the chain under its name with the configuration it gives, or the default one; one that fails leaves no configuration |
| `GenesisRequests.LaterRequestsFail` | `crates/felidae-state/src/state/abci/init_chain.rs:22-23` | once a request has named the chain, even if its configuration was unreadable, every later request fails without effect |
| `GenesisRequests.GenesisConfigInForce` | `crates/felidae-state/src/state/abci/init_chain.rs:26-72` | the configuration of genesis is in force, under the name of the chain, in every state until another one is installed |
| `GenesisRequests.FirstReconfigurationTakesEffect` | `crates/felidae-state/src/state/abci/init_chain.rs:28-52` | a chain started without a configuration gets a checked one in the very block in which its first reconfiguration passes the checks: a single vote decides and nothing waits |
| `Histories.StepKeepsInvariant` | `crates/felidae-state/src/state/abci/finalize_block.rs:60-134` | every step of a block keeps the invariant of the chain: queue representation, names strictly below their zones, queued configurations sound and newer than the current one, votes newer than the pending configuration |
| `Histories.InvariantHolds` | `crates/felidae-state/src/state/abci/finalize_block.rs:60-134` | every state of every run satisfies that invariant |
| `Histories.CastKeepsVotesNewer` | `crates/felidae-state/src/state/action/reconfigure.rs:36-56` | after any reconfiguration vote, all queued votes are newer than the pending configuration |
| `Histories.RipeConfigIsInstalled` | `crates/felidae-state/src/state/abci/finalize_block.rs:101-123` | a ripe configuration in a reachable state is newer and sound, is the only one, and leaves nothing pending |
| `Provenance.OracleQueueRuns` | `crates/felidae-state/src/state/voting.rs:10-19` | the oracle queue of every run of the chain is a run of a vote queue under the configuration in force |
| `Provenance.AdminQueueRuns` | `crates/felidae-state/src/state/voting.rs:22-29` | the same for the admin queue |
| `Provenance.DecidedIsApproved` | `crates/felidae-state/src/state/action/observe.rs:26-35` | a decision of the oracle queue is the approval of a quorum of distinct oracle keys, each authorized when it observed, with its latest observation, which was for this value, not expired and not used up by an earlier decision |
| `Provenance.PendingProvenance` | `crates/felidae-state/src/state/voting/vote_queue.rs:341-351` | every pending change of every run was so approved at its timestamp and has been pending since |
| `Provenance.CanonicalProvenance` | `crates/felidae-state/src/state/abci/finalize_block.rs:125-134` | every canonical entry of every run was so approved, then stayed pending, unreplaced, for at least the delay in force when it was promoted, and has not changed since |
| `CanonicalRuns.CanonicalStays` | `crates/felidae-state/src/state/abci/finalize_block.rs:125-134` | an enrolled name stays enrolled with its hash, and an absent one absent, until a change for this name is promoted |
| `CanonicalRuns.EnrolledIffPromotedLast` | `crates/felidae-state/src/state/canonical.rs:120-144` | in every state a name is enrolled with a hash if and only if the last change promoted for it was to this hash |
| `Decisions.ObservationsAreKept` | `crates/felidae-state/src/state/voting/vote_queue.rs:170-197` | no observation is lost: it stays among the votes until its oracle observes the name again, the name is decided, or it times out |
| `Decisions.ObservationDecidesIff` | `crates/felidae-state/src/state/voting/vote_queue.rs:204-234` | an observation decides if and only if, with it, a quorum of distinct oracles supports some value with standing observations |
| `Decisions.SupportedValueWins` | `crates/felidae-state/src/state/voting/vote_queue.rs:222-228` | while the oracle quorum is not lowered, the value that a quorum supports is the winner |
| `Decisions.ProposalsAreKept` | `crates/felidae-state/src/state/voting/vote_queue.rs:170-197` | no proposal of an admin is lost while it stands |
| `Decisions.ReconfigurationDecidesIff` | `crates/felidae-state/src/state/voting/vote_queue.rs:204-234` | a reconfiguration decides if and only if, with it, a quorum of distinct admins endorses some configuration with standing proposals |
| `Admission.WinnerIsPendingIff` | `crates/felidae-state/src/state/voting/vote_queue.rs:253-351` | a decision makes its value pending if and only if it is pending already, or the name is enrolled, or fewer names than the limit are counted at or below the ancestor with one more label than the zone; so updates and deletions of enrolled names are never dropped; what is pending then, and since when, is exact |
| `Admission.SupportedChangeTakesEffect` | `crates/felidae-state/src/state/abci/finalize_block.rs:125-134` | the way to the canonical map: a value that a quorum of oracles supports and that finds room is canonical after the first block at its timestamp plus the delay, unless another value wins before, and until another change for the name is promoted |
| `Provenance.DelayUpToASecond` | `crates/felidae-state/src/state/voting/vote_queue/keys.rs:14-19` | as timestamps are cut to whole seconds, the wait falls short of the delay by less than a second at most |
| `Delays.RipeMeansWaitedIff` | `crates/felidae-state/src/state/voting/vote_queue.rs:133-136` | for one entry: being ripe means having waited for the whole delay if and only if the entry was made at a whole second |
| `Delays.PromotedRun` | `crates/felidae-state/src/state/abci/finalize_block.rs:125-134` | for every time that is not a whole second and every delay: a run in which a change approved then is promoted too early |
| `Delays.AlwaysWaitsIff` | `crates/felidae-state/src/state/voting/vote_queue/keys.rs:101-109` | over all runs: every change approved at a time waits for the whole delay in force at its promotion if and only if the time is a whole second, or there is no delay, or no block can be late enough |
| `Delays.TimeNeverFalls` | `crates/felidae-state/src/state/time.rs:13-17` | block times never fall in a run |
| `PendingChanges.NoTimerReset` | `crates/felidae-state/src/state/voting/vote_queue.rs:266-279` | in every run, once a value is pending its timestamp stays until another value wins or it is promoted |
| `PendingChanges.PromotionOf` | `crates/felidae-state/src/state/abci/finalize_block.rs:125-134` | a promotion makes a pending change canonical exactly when it is ripe, and leaves it pending otherwise |
| `PendingChanges.PromotedInFirstRipeBlock` | `crates/felidae-state/src/state/voting/vote_queue.rs:118-154` | unless another value wins first, a pending change takes effect in the first block whose time is at least its timestamp plus the delay then in force |
| `PendingChanges.CheckedObservationsAreAccepted` | `crates/felidae-state/src/state/voting/vote_queue.rs:310-318` | in a run the subtraction of depths in a cast never fails: an observation that passes the checks is never lost to an error |
| `Checks.ObservationIsCastIff` | `crates/felidae-state/src/state/action/observe.rs:26-141` | in every run an observation is cast if and only if its key is that of an oracle in force, its blockstamp is recent and true, its name is strictly below its zone, and the change can be made: a deletion of a name that is enrolled or about to be, or an enrolment with room; any other observation changes nothing |
| `Checks.OracleVotesAreAuthorized` | `crates/felidae-state/src/state/action/observe.rs:26-35` | every vote of the oracle queue is by an oracle of the configuration in force |
| `PendingChanges.EveryEntryHasRegisteredDomain` | `crates/felidae-state/src/state/voting/vote_queue.rs:310-318` | in every state, every queued vote and pending change is strictly below its zone, and the lookup finds the ancestor directly below that zone |
| `ConfigChain.SkipGuardNeverFires` | `crates/felidae-state/src/state/abci/finalize_block.rs:112-119` | in a run, the guard that skips an older configuration never fires |
| `ConfigChain.ConfigStaysOrIsInstalled` | `crates/felidae-state/src/state/abci/finalize_block.rs:101-123` | the configuration in force changes only by the installation of the pending one |
| `ConfigChain.InstalledConfigsAreSound` | `crates/felidae-state/src/state/config.rs:20-86` | every configuration in force is that of genesis or satisfies 1 <= quorum <= total = number of authorized entries for admins and oracles, a non-zero limit, and has no placeholder keys |
| `Checks.ConfigsInForceAreChecked` | `crates/felidae-state/src/state/config.rs:20-129` | spelled out: every configuration in force that is not that of genesis has 1 <= quorum <= total = number of entries for both votings, a non-zero limit, and a non-zero byte in every key |
| `ConfigChain.VersionsGrow` | `crates/felidae-state/src/state/config.rs:43-49` | versions in force never decrease, and equal versions mean the same configuration |
| `ConfigChain.NoChangeWhilePending` | `crates/felidae-state/src/state/abci/finalize_block.rs:101-123` | as long as a configuration change is pending the configuration in force does not change |
| `AdminProvenance.DecidedByAdmins` | `crates/felidae-state/src/state/action/reconfigure.rs:14-22` | a decision of the admin queue is the approval of a quorum of distinct admin keys, each authorized when it voted (or there were no admins), with its latest vote, which was for this configuration, not expired and not used up |
| `ConfigChain.ConfigReplacesItsApprover` | `crates/felidae-state/src/state/action/reconfigure.rs:33-56` | each installed configuration was so approved under exactly the configuration that it replaces, and stayed pending since |
| `ConfigChain.AdminVotesAreAuthorized` | `crates/felidae-state/src/state/action/reconfigure.rs:14-22` | every reconfiguration vote was by an admin of the configuration in force, or there were none |
| `Checks.AdminVotesAreInTime` | `crates/felidae-state/src/state/action/reconfigure.rs:24-31` | every vote of the admin queue was delivered at a time within its window |
| `Checks.ReconfigurationIsCastIff` | `crates/felidae-state/src/state/action/reconfigure.rs:14-56` | in every run a reconfiguration is cast if and only if its key is that of an admin in force, or there is none, the time lies in its window, and its configuration is newer than the one in force and the pending one, sound, and does not lower the limit; any other reconfiguration changes nothing |
| `ConfigEffects.PromotionNeverGoesBack` | `crates/felidae-state/src/state/abci/finalize_block.rs:112-119` | in any state, promotion installs a ripe configuration if one is newer, and never an older one |
| `ConfigEffects.ChangesHaveWaited` | `crates/felidae-state/src/state/abci/finalize_block.rs:101-123` | every change of the configuration was approved by a quorum of admins, has been pending since, and has waited for the delay of the configuration that approved it |
| `ConfigEffects.DecisionReplacesPending` | `crates/felidae-state/src/state/voting/vote_queue.rs:281-351` | a decision of the admins leaves exactly its configuration pending, from the second of the decision on: it is always new |
| `ConfigEffects.InstalledInFirstRipeBlock` | `crates/felidae-state/src/state/abci/finalize_block.rs:101-123` | unless another configuration wins first, a pending one is in force after the first block at its timestamp plus the delay |
| `ConfigEffects.EndorsedConfigTakesEffect` | `crates/felidae-state/src/state/abci/finalize_block.rs:101-123` | the way into force: a configuration that a quorum of admins endorses, while the admin quorum is not lowered, is so installed |
| `ConfigChain.AdminsBelowQuorum` | `crates/felidae-state/src/state/voting/vote_queue.rs:222-251` | while the admin quorum is not lowered, no configuration waits with the quorum reached |
| `ConfigChain.PendingNeverLowersLimit` | `crates/felidae-state/src/state/config.rs:60-63` | under that assumption no pending configuration lowers the subdomain limit in force |
| `ConfigChain.LimitNeverDecreases` | `crates/felidae-state/src/state/config.rs:60-63` | under that assumption the subdomain limit never decreases from one configuration in force to a later one |
| `LoweredQuorum.LimitCanDecrease` | `crates/felidae-state/src/state/config.rs:60-63` | the assumption is needed: a run in which a configuration that raises the limit and lowers the admin quorum is installed, an older proposal then wins with the lowered quorum, and the limit falls from ten to one |
| `LoweredQuorum.ReplicasCanDiverge` | `crates/felidae-state/src/state/voting/vote_queue.rs:222-228` | two runs with the same genesis and the same inputs that end in different states, because a tally was iterated in different orders |
| `LimitFalls.LimitCanFallIff` | `crates/felidae-state/src/state/action/reconfigure.rs:33-56` | a reconfiguration that passes the checks can leave a configuration pending that lowers the limit if and only if a queued proposal with a lower limit has the quorum without the new vote |
| `LimitFalls.LimitFallsByWaitingProposal` | `crates/felidae-state/src/state/abci/finalize_block.rs:101-123` | over every run: whenever the limit falls, the configuration that lowers it had won a cast in which such a proposal was waiting, under the configuration that it replaces |
| `LoweredQuorum.OlderValueMayWin` | `crates/felidae-state/src/state/voting/vote_queue.rs:222-228` | after the quorum was lowered, an older value may win a cast for another value |
| `Agreement.OraclesBelowQuorum` | `crates/felidae-state/src/state/voting/vote_queue.rs:222-251` | while the oracle quorum is not lowered, no observation waits with the quorum reached |
| `Agreement.OneOutcome` | `crates/felidae-state/src/state/voting/vote_queue.rs:217-228` | from such a state every action has one outcome, whatever the tally order |
| `Agreement.OneOutcomeIff` | `crates/felidae-state/src/state/voting/vote_queue.rs:217-228` | a reconfiguration that passes the checks has one outcome if and only if, with its vote counted, no two configurations have the quorum |
| `Agreement.ReplicasAgree` | `crates/felidae-state/src/state/abci/finalize_block.rs:10-147` | two replicas with the same genesis and inputs go through the same states although each iterates its tallies in its own order, while quorums are not lowered |
| `SubdomainLimit.LimitHolds` | `crates/felidae-state/src/state/voting/vote_queue.rs:320-338` | if all accepted observations use one assignment of zones that is consistent on the names that can be voted for, and the limit is not lowered, then in every state no registered domain has more names at or below it in canonical and pending than the limit, also after several quorums in a block, overwrites, deletions and promotion |
| `SubdomainLimit.LimitHoldsUnderStableQuorum` | `crates/felidae-state/src/state/config.rs:60-63` | the same when, instead of the limit, only the admin quorum is known not to be lowered |
| `SubdomainLimit.CastStaysBounded` | `crates/felidae-state/src/state/voting/vote_queue.rs:281-351` | a cast keeps every registered domain within the limit |
| `SubdomainLimit.PromotionAddsNoName` | `crates/felidae-state/src/state/abci/finalize_block.rs:125-134` | promotion adds no name to those counted |
| `ZoneDisagreement.CheckProtectsIff` | `crates/felidae-state/src/state/voting/vote_queue.rs:296-338` | the limit check made for a vote keeps a domain above the name within the limit, whatever else is enrolled, if and only if the domain has more labels than the zone of the vote (or the limit is zero) |
| `ZoneDisagreement.LimitCanBeExceeded` | `crates/felidae-state/src/state/action/observe.rs:143-154` | a run under a constant limit of one in which two names become pending below one registered domain, as the second vote names that domain as the zone |
| `Stores.Store.PrepareCommit` | `crates/felidae-state/src/store.rs:134-159` | the working state is staged, replaced by a fresh view of the committed one, and its root returned; nothing is committed |
| `Stores.Store.InitChain` | `crates/felidae-state/src/abci.rs:57-67` | the genesis writes go to the working state alone |
| `Stores.Store.FinalizeBlock` | `crates/felidae-state/src/abci.rs:68-109` | the hash of the last commit is filed, except in the first block, the block is carried out on the working state and the result staged; the committed state stays |
| `Stores.Store.Commit` | `crates/felidae-state/src/store.rs:171-188` | the staged batch becomes the committed and the working state; without one it fails and changes nothing |
| `Stores.Store.CheckTx` | `crates/felidae-state/src/abci.rs:110-135` | a transaction is tried on a fork with the result that delivering it may have; nothing that existed before is modified |
| `Interleaving.CheckTxDoesNotInterfere` | `crates/felidae-state/src/abci.rs:110-135` | erasing all CheckTx requests from any interleaving with the locked parts of the other requests changes no other response and no part of the store; that the events touch separate state is proved on objects by the methods of Services.Service |
| `Interleaving.ForkKeepsSnapshot` | `crates/felidae-state/src/store.rs:198-209` | whatever requests run after a fork was taken, it holds the working state of that moment |
| `Interleaving.ForkIsSnapshot` | `crates/felidae-state/src/store.rs:198-209` | so a transaction is checked against the state in which its request arrived, however many blocks were executed and committed since, and checking it only gives up the fork |
| `Services.Service.ForkState` | `crates/felidae-state/src/store.rs:202-209` | the fork is a new object that shares nothing with the store and the other forks |
| `Services.Service.TryTx` | `crates/felidae-state/src/abci.rs:123-134` | checking a transaction modifies the objects of its fork alone; the shared store and the other forks stay as they were |
| `Services.Service.InitChain` | `crates/felidae-state/src/abci.rs:57-67` | the genesis request on the objects is the event of the interleaving, and leaves every fork alone |
| `Services.Service.ReadHeight` | `crates/felidae-state/src/abci.rs:72-78` | reading the height changes nothing shared |
| `Services.Service.ReadRoot` | `crates/felidae-state/src/abci.rs:82-83` | the root is read from the committed state |
| `Services.Service.RecordRoot` | `crates/felidae-state/src/abci.rs:84-89` | the root is filed in the working state, and no fork sees it |
| `Services.Service.Execute` | `crates/felidae-state/src/abci.rs:97-103` | a block modifies the objects of the working state alone; every fork stays as it was |
| `Services.Service.TakeState` | `crates/felidae-state/src/store.rs:135-141` | the working state is replaced by a new object; forks of the old one stay as they were |
| `Services.Service.StageBatch` | `crates/felidae-state/src/store.rs:151-158` | the batch is staged; nothing else changes |
| `Services.Service.TakeBatch` | `crates/felidae-state/src/store.rs:172-176` | the staged batch is taken, or the commit fails |
| `Services.Service.ApplyBatch` | `crates/felidae-state/src/store.rs:178-179` | the batch becomes the committed state |
| `Services.Service.RefreshState` | `crates/felidae-state/src/store.rs:181-182` | the working state becomes a new view of the committed one; forks stay as they were |
| `Interleaving.BlockIsAtomic` | `crates/felidae-state/src/abci.rs:68-147` | whatever CheckTx requests run in between, FinalizeBlock stages the result of the block and Commit installs exactly that; the first Commit includes the writes of InitChain |
| `Ledgers.FiledAfter` | `crates/felidae-state/src/state/app_hash.rs:7-20` | after every block all times up to it and the roots of all earlier blocks are on file, and nothing else |
| `Ledgers.BlockstampCheck` | `crates/felidae-state/src/state/action/observe.rs:37-64` | inside block h the check passes exactly for 1 <= b <= h, recent enough, with the root committed after block (b - 1) mod 2^32 + 1, which must be an earlier block: the 32-bit cast included |
| `Ledgers.BlockstampSound` | `crates/felidae-state/src/state/action/observe.rs:57-64` | up to height 2^32 it passes exactly for a strictly earlier block, recent enough, with the root committed after that very block: the shifts at recording and at checking cancel |
| `Ledgers.LedgerIsHistory` | `crates/felidae-state/src/abci.rs:68-147` | one run in the sense of Histories passes, in order, through all committed states, so all theorems about states of a run apply to committed states |
| `Ledgers.CommittedConfigsAdvance` | `crates/felidae-state/src/abci.rs:136-147` | between committed states configurations only advance in version, and only to sound ones |
| `Ledgers.FinalizedBlockExtendsLedger` | `crates/felidae-state/src/abci.rs:97-108` | a block carried out at the next height extends the ledger |
| `Traversal.SlotsOfRefilled` | `crates/felidae-traverse/src/lib.rs:22-62` | a mutable traversal changes the signatures in the order in which a reading traversal visits them, one for one |
| `Traversal.UnsignedIffAlike` | `crates/felidae-proto/src/transaction/sign.rs:116-125` | stripping forgets the bytes of signatures and nothing else |
| `Signing.UnsignAll` | `crates/felidae-proto/src/transaction/sign.rs:117-125` | the traversal clears every signature of the message in place and leaves keys and content |
| `Signing.Clone` | `crates/felidae-proto/src/transaction/sign.rs:75-76` | the copy has the same value and shares no slot |
| `Signing.HashOf` | `crates/felidae-proto/src/transaction/sign.rs:71-80` | the hash is that of the stripped message, and the message itself does not change |
| `Signing.FillSlot` | `crates/felidae-proto/src/transaction/sign.rs:93-109` | a blank slot is filled if the signer has its key; otherwise it stays and the error variable is overwritten |
| `Signing.SignSlots` | `crates/felidae-proto/src/transaction/sign.rs:90-110` | the traversal fills exactly the blank slots with a key; the error left is that of the last slot that cannot be filled |
| `Signing.SignParts` | `crates/felidae-traverse/src/lib.rs:22-62` | the parts of a message are visited in order, each once, and the error is handed on from one to the next |
| `Signing.SignInPlace` | `crates/felidae-proto/src/transaction/sign.rs:83-114` | signing signs every slot over the hash of the whole message or fails |
| `Signing.VerifySlots` | `crates/felidae-proto/src/transaction/sign.rs:131-141` | the traversal accepts exactly when every signature is valid for its key and the hash |
| `Signing.AuthenticateInPlace` | `crates/felidae-proto/src/transaction/sign.rs:40-45` | a message is stripped if all its signatures are valid over its hash, and refused unchanged otherwise |
| `Signing.SigningFailsAtLastObjection` | `crates/felidae-proto/src/transaction/sign.rs:91-113` | signing fails if and only if some slot is filled already or belongs to a key the signer lacks, with the error of the last such slot in traversal order |
| `Signing.HashIgnoresJustSignatures` | `crates/felidae-proto/src/transaction/sign.rs:67-80` | the hash does not change with signature bytes anywhere in the message; with an injective digest, messages hash alike if and only if they differ in nothing else |
| `Signing.SignThenAuthenticate` | `crates/felidae-proto/src/transaction/sign.rs:83-143` | signing succeeds exactly when all slots are blank and all keys at hand, and then authentication returns the message that was signed |
| `Signing.StrippedMessagesDoNotAuthenticate` | `crates/felidae-proto/src/transaction/sign.rs:146-150` | a stripped message does not authenticate again, unless it has no slot |
| `Messages.ConfigRoundTrip` | `crates/felidae-types/src/transaction/convert.rs:254-465` | a configuration comes back from its message if and only if its numbers are below 2^63 and every oracle has an endpoint |
| `Messages.ParsedConfigsAreRepresentable` | `crates/felidae-types/src/transaction/convert.rs:254-465` | a configuration read from a message is representable, so storing it again loses nothing |
| `Messages.TimeRoundTrip` | `crates/felidae-proto/src/lib.rs:82-104` | a time comes back from its timestamp |
| `Messages.ActionRoundTrip` | `crates/felidae-types/src/transaction/convert.rs:131-252` | an action comes back from its message if and only if its configuration, if it has one, is representable |
| `Messages.TransactionRoundTrip` | `crates/felidae-types/src/transaction/convert.rs:12-37` | a transaction comes back from its message if and only if all its configurations are representable |
| `Messages.ParsedTransactionsComeBack` | `crates/felidae-types/src/transaction/convert.rs:12-37` | a transaction read from a message is well-formed and representable, so it comes back from every later conversion |
| `Messages.ParsedTransactionsAreTheirMessages` | `crates/felidae-types/src/transaction/convert.rs:131-465` | reading a message confuses nothing: every identity, number, time, name, hash and blockstamp is that of the field that carries it; a hash has 32 bytes, or none for an absent name |
| `Authentication.SlotsAreSignatures` | `crates/felidae-traverse/src/lib.rs:57-62` | a traversal of a transaction visits the signatures of its actions in order, passing over absent ones |
| `Authentication.TransactionsAreSignedByTraversal` | `crates/felidae-types/src/transaction/authenticated.rs:36-45` | signing and authenticating a transaction are the traversals of its message tree |
| `Authentication.SigningNeedsJustTheKeys` | `crates/felidae-types/src/transaction/authenticated.rs:36-45` | signing a transaction fails only for lack of the key of some action, and then says so |
| `Authentication.SignedTransactionsAuthenticate` | `crates/felidae-types/src/transaction/authenticated.rs:27-45` | a transaction signed with all its keys always authenticates, and comes back as it was if and only if its configurations are representable |
| `Authentication.AuthenticatedActionsAreSigned` | `crates/felidae-types/src/transaction/convert.rs:160-239` | every action of an authenticated transaction has the identity of a key whose signature over the hash of the whole transaction was verified; an action without a signature is refused |
| `Authentication.AuthenticatesIff` | `crates/felidae-types/src/transaction/authenticated.rs:27-34` | a message authenticates as a transaction if and only if it reads as this transaction and every action has 64 bytes that verify for its key and the hash of the message |
| `Authentication.HashDeterminesTransaction` | `crates/felidae-proto/src/lib.rs:12-17` | authenticated messages with the same hash stand for the same transaction, whatever bytes their signatures have |
| `LightBlocks.VerifyLightBlock` | `crates/felidae-publish/src/verification.rs:14-133` | accepts exactly when sizes, height and hash fit, every signature for the block is valid, and the power tallied exceeds the threshold; a bad signature is reported at its first position; the tally does not overflow |
| `LightBlocks.ComputeTotal` | `crates/felidae-publish/src/verification.rs:51-54` | the total power of the validators |
| `LightBlocks.PowerIsSum` | `crates/felidae-publish/src/verification.rs:51-54` | the power of a set of positions is the sum of the powers of the validators at them |
| `LightBlocks.PowerOfAll` | `crates/felidae-publish/src/verification.rs:51-54` | the total is the power of all positions |
| `LightBlocks.ThresholdIsTwoThirds` | `crates/felidae-publish/src/verification.rs:55-55` | the floored threshold means more than two thirds, as long as twice the total does not overflow |
| `LightBlocks.ThresholdExactIffNoOverflow` | `crates/felidae-publish/src/verification.rs:53-55` | in 64-bit arithmetic the threshold means two thirds if and only if twice the total fits 63 bits |
| `LightBlocks.AcceptedIffTwoThirds` | `crates/felidae-publish/src/verification.rs:17-130` | a commit is accepted if and only if it has a slot for every validator, each of its signatures is valid for a vote of this chain at the height and for the hash of the header, with the round, parts and time of the commit, and three times the signed power exceeds twice the total |
| `LightBlocks.QuorumsIntersect` | `crates/felidae-publish/src/verification.rs:51-132` | two commits accepted against the same validators share signers with more than a third of the power, each with valid signatures for both; for different blocks these signed two different votes |

## Left out

- cnidarium storage, the Jellyfish Merkle tree and ICS-23 proofs: the store is a map, its root an arbitrary function of the state.
- P-256, Ed25519 and SHA-256: arbitrary functions, with the usual sign-and-verify law assumed where it is needed.
- Protobuf and JSON bytes: messages are values; encoding and decoding are inverse to each other and are not modelled.
- The stores of the queue are maps over tuples in the class; that the byte and string keys implement these maps is proved separately, and the two layers are not merged into one class.
- The vote index stores values that are never read; they are kept, but decoding them as the unit type is not modelled.
- CheckSubdomainLimit: the listings it reads are sets; the loops that fill them from a stream of keys are not modelled, but that prefix scans yield exactly these sets is proved in DomainText and Keys.
- The order in which a loop deletes or lists entries of equal age: sets are taken apart in an arbitrary order.
- Configurations are modelled in the form in which they are stored, with whole seconds; a genesis configuration with fractions of seconds or numbers of 2^63 and more is cut when it is stored.
- Domain names: labels are non-empty texts without dots and slashes; case folding and the length limits of section 3.1 of RFC 1034 are those of a library that is not part of this model.
- Validator uptime, tombstoning and the declaration of validators in InitChain and FinalizeBlock: they change nothing that the modelled state depends on.
- The app hash that InitChain returns, a digest of the request: nothing reads it.
- Info, Query, PrepareProposal, ProcessProposal, snapshots and vote extensions: they do not change the state.
- `Store::abort`, `put_raw` and the reconstruction of state from exported leaves: no request of the node uses them.
- Locks are modelled by the order of the locked parts; tracing, asynchrony and error texts are not modelled. An error of the chain is a constructor without its text.
- Reading errors of the store (a value that does not decode): stored values were written in the same form.
- The asynchronous signer: it signs like the synchronous one.
- The panic for more than 2^31 validators in the light block tally, and the sorting of the validator set.
- VerifyLightBlock: assumes that the total power fits 63 bits, which the type of a validator set guarantees.
- The deployer, command line, query routes, oracle server, proof of work, front end and Go archive.
- Liveness of voting with duplicate authorized entries, and that votes of a removed oracle or admin stop counting: the code does not provide this.
