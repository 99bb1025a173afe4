# globacl: a verified model

globacl is a distributed denylist. Deny, allow and rule records are committed by a small cluster of
`commitd` nodes, numbered per shard, and streamed through relays to edge agents that answer lookups
locally. This project models the parts of it whose correctness rests on more than one function, and
proves what they promise:

- the commit cluster (`Consensus`, `PendingStore`, `Cluster`, `ElectionSafety`, `SlotAgreement`, `Fencing`,
  `VoteAnswers`, `CommitAnswers`, `NodeSteps`, `Availability`): N nodes, a network that loses, delays, reorders and
  duplicates messages, restarts that keep what was persisted; election safety, agreement on a slot within an
  epoch, fencing of old leaders; what each handler answers, and that a reachable quorum can elect and commit;
- the source of truth (`SourceSpec`, `SourceOfTruth`, `Replay`, `Loading`, `History`, `Recovery`,
  `PersistFirst`, `Reload`, `Publisher`, `PublishedAhead`, `CompactionEffects`, `CommittedRecords`, `Rollback`,
  `RollbackRecords`, `OwnSnapshots`, `DecodedSnapshots`): sequencing, replay in any interleaving, the history
  window, crash recovery between any two durable writes, publisher-safe compaction and restarts, from a
  request to the checks it decides, forward-only rollback;
- the edge (`NegativeFilter`, `EdgeBase`, `RulePatterns`, `Spellings`, `RuleIndex`, `RuleVerdicts`,
  `ActiveState`, `EdgeRefinement`, `EdgeChecks`): interned, sorted and filtered tables under a delta overlay,
  and compiled rule indexes, against plain tables and a linear scan; which rule decides, and which texts mean
  the same pattern;
- distribution (`Relay`, `RelayProgress`, `Agent`, `Acks`): the relay's window and that it moves, the agent's
  prefix, the ack table;
- formats and arithmetic (`Bytes`, `Codec`, `WireFormat`, `Truncation`, `Text`, `Cidr`, `Arithmetic`,
  `StableSort`, `Calendar`).

State that the program changes in place is a class here, and its methods are proved to compute the
functions of the value that the theorems are about. Hash functions, clocks and the orders in which
hash maps yield their values are parameters or arbitrary choices, so every theorem holds for all of
them. Unsigned integers are natural numbers; widths are written out where they matter (lengths on the
wire, the 64-bit arithmetic of the filter, addresses, the 32-bit year).

Where the code does less than its callers might expect, the exact condition is proved, and an input that
fails it is shown:

- A mutation is appended to the log before it is checked. `PersistFirst.AppendedLogLoadsIff`: the log
  loads again exactly when the mutation did apply, or names a shard that does not exist.
  `PersistFirst.ClashIsFatal` is a run that ends with a log that no longer loads.
- A restart with a publisher may be refused. `Reload.PublisherReloadIff` and `Publisher.RestartsIff`: the
  disk loads exactly when there is no snapshot, or every log was rewritten up to precisely the lower of
  its published offset and its snapshot watermark, or no log was rewritten and the snapshot has
  everything logged. `PublishedAhead.CannotRestart` is a run that publishes after a compaction and then
  cannot restart.
- The edge still considers a base rule that its overlay has replaced. `RuleIndex.CheckAgreesIff` and
  `EdgeChecks.CheckAgreesThroughoutIff`: it differs from the scan exactly when the best such rule shows
  through; `EdgeChecks.CompactionKeepsCheckIff`: compacting the overlay then changes the answer.
  `RuleIndex.ReplacedRuleShowsThrough` is an instance.
- A rollback cannot put back a Delete record. `Rollback.RestoresIff` and `Rollback.SecondRestoreSilentIff`:
  it reaches its target, and repeating it is silent, exactly when every Delete record of the target is
  there already. `OwnSnapshots.OwnRollbackArrives`: the snapshots a node takes of itself hold none;
  `DecodedSnapshots.DeleteRecordIsMissed` is a decoded snapshot that is never reached.
- A shard log that was cut may not load. `Truncation.TornLogIff`: it loads exactly when the cut is between two
  mutations, and is never read as another list; `Truncation.TornAppendIsFatal`: after a torn append it does not.
- Two acks may share a key, and then replace each other. `Acks.RelaySharesKeysIff`: an ack shares its key with
  one of a shorter relay id exactly when its own has a colon; `Acks.ColonsCollide` is such a pair.
- `RuleIndex.IndexPanicsIff`: compiling rules ends the program exactly when one that is not a Delete
  record has an IPv4 prefix above 32; `DecodedSnapshots.WidePrefixStopsIndex` is a decoded snapshot that
  has one.

`dafny verify dfyconfig.toml` checks the whole project.

## Model

| member | source | states |
|---|---|---|
| Consensus.MutationTermAfterReplication | crates/globacl-commitd/src/app/commit.rs:407-483 | once the leader check has passed, the epoch check that follows it passes too and changes nothing |
| Consensus.CountVotes | crates/globacl-commitd/src/app/consensus.rs:63-95 | the vote loop counts granted votes until a reply with a higher term ends the election |
| Consensus.TallyCountsGrants | crates/globacl-commitd/src/app/consensus.rs:63-97 | an election that is not abandoned has one vote for itself and one for each peer that granted |
| Consensus.CountPrepared | crates/globacl-commitd/src/app/config.rs:160-214 | the ack loop, which stops early, reaches the quorum exactly when enough peers accept |
| Consensus.ConsensusNode.constructor | crates/globacl-commitd/src/app/config.rs:645-679 | a restarted node has its persisted term and vote and is at least in term 1; it is a follower, or the leader if it has no peers |
| Consensus.ConsensusNode.StartElection | crates/globacl-commitd/src/app/consensus.rs:41-61 | standing for election raises the term, votes for itself and persists both |
| Consensus.ConsensusNode.FinishElection | crates/globacl-commitd/src/app/consensus.rs:63-119 | a quorum in the same term makes a candidate the leader; a higher term makes it step down |
| Consensus.ConsensusNode.HandleRequestVote | crates/globacl-commitd/src/app/consensus.rs:206-269 | the term, vote, role and leader after a vote request, all persisted |
| Consensus.ConsensusNode.HandleHeartbeat | crates/globacl-commitd/src/app/consensus.rs:318-357 | a heartbeat of a higher term, or of this term and no other leader, is followed and persisted |
| Consensus.ConsensusNode.StepDownToTerm | crates/globacl-commitd/src/app/consensus.rs:359-373 | stepping down keeps the vote only within the term |
| Consensus.ConsensusNode.EnsureReplicationLeader | crates/globacl-commitd/src/app/commit.rs:430-483 | an empty, own or unknown leader, an older epoch and a second leader in the epoch are refused and change nothing |
| Consensus.ConsensusNode.EnsureMutationTerm | crates/globacl-commitd/src/app/commit.rs:407-428 | an older epoch is refused, a newer one clears the vote and the leader |
| PendingStore.WriteKeepsNewest | crates/globacl-commitd/src/app/storage.rs:268-311 | a pending slot refuses a mutation exactly when it holds a different one of the same or a newer epoch |
| PendingStore.LocalLogStatus | crates/globacl-commitd/src/app/config.rs:706-724 | the loop raises watermarks and log length by the cluster's pending mutations, and reports the largest watermark |
| PendingStore.RaisedIsMaximum | crates/globacl-commitd/src/app/config.rs:706-724 | a reported watermark is the largest of the applied and the pending numbers of its shard |
| PendingStore.RaisedCountsAhead | crates/globacl-commitd/src/app/config.rs:706-724 | the reported log length counts every pending mutation beyond the applied ones, once |
| PendingStore.StaleCandidateRefused | crates/globacl-commitd/src/app/consensus.rs:206-269 | a voter that has applied or prepared beyond what a candidate reports for some shard refuses it |
| PendingStore.PendingDir.WritePending | crates/globacl-commitd/src/app/storage.rs:268-311 | the file operation keeps or replaces the slot as WriteKeepsNewest says |
| PendingStore.PendingDir.RemovePending | crates/globacl-commitd/src/app/storage.rs:354-368 | removal empties the slot, whatever it held |
| Cluster.ClientRequestIsProposable | crates/globacl-commitd/src/app/commit.rs:176-182 | a client request becomes the next mutation of its shard, in the leader's term and under a new op id, or a duplicate, or an error |
| Cluster.RecoveryIsProposable | crates/globacl-commitd/src/app/consensus.rs:121-165 | recovery proposes the pending mutation itself under the new epoch, exactly when it is the next of its shard, discards one exactly when its shard has passed it, leaves one of another cluster alone, and fails on any other |
| Cluster.StepSound | crates/globacl-commitd/src/app/consensus.rs:41-119 | every step moves one node, persists its term and vote, lowers no term and changes no vote within a term |
| Cluster.TermsNeverDecrease | crates/globacl-commitd/src/app/config.rs:645-704 | over every run, restarts included, no node's term decreases |
| ElectionSafety.LocalElection | crates/globacl-commitd/src/app/consensus.rs:41-119 | how any step moves votes, roles and running counts of its node |
| ElectionSafety.QuorumsMeet | crates/globacl-commitd/src/app/config.rs:502-518 | any two quorums that the configuration allows share a node |
| ElectionSafety.ElectionInvKept | crates/globacl-commitd/src/app/consensus.rs:206-269 | every step keeps: one vote per node and term, votes remembered, honest counts, a quorum of votes behind every win |
| ElectionSafety.AtMostOneLeaderPerTerm | crates/globacl-commitd/src/app/consensus.rs:41-119 | over every run, two leaders of one term, at whatever times, are the same node |
| SlotAgreement.LocalApply | crates/globacl-commitd/src/app/commit.rs:225-252 | a step applies a mutation from its own commit or from the message it takes, and only the next of its shard |
| SlotAgreement.CommitIsFresh | crates/globacl-commitd/src/app/commit.rs:184-212 | a leader's own commit never meets an epoch, shard and number that was visible before |
| SlotAgreement.AgreementInvKept | crates/globacl-commitd/src/app/commit.rs:184-252 | every step keeps: all that any node holds, serves or sends for committing is what a leader made visible at that stamp |
| SlotAgreement.EpochSlotAgreement | crates/globacl-commitd/src/app/commit.rs:317-385 | over every run, two nodes that apply mutations of one epoch, shard and number apply the same mutation, by commit, recovery or catch-up |
| Fencing.LocalFence | crates/globacl-commitd/src/app/commit.rs:266-289 | what a step sends and counts for a commit: a prepare on a new connection, answers of epochs not left behind |
| Fencing.FencedInvKept | crates/globacl-commitd/src/app/commit.rs:327-354 | once a set of nodes is past a term, none of them ever answers a later prepare of that term or an earlier one |
| Fencing.FencedCommitNeverFinishes | crates/globacl-commitd/src/app/commit.rs:193-209 | once a quorum is past a term, a commit of it started from then on never has its quorum and cannot become visible |
| Fencing.AcceptedEpochsNeverDecrease | crates/globacl-commitd/src/app/commit.rs:430-483 | the epochs a node accepts for prepare or commit never decrease over its lifetime |
| VoteAnswers.UpToDateIff | crates/globacl-commitd/src/app/consensus.rs:223-233 | a candidate is up to date exactly when it reports every shard and has at least what the voter applied or prepared of it |
| VoteAnswers.OldCandidateUpToDateIff | crates/globacl-commitd/src/app/consensus.rs:229-232 | a candidate without watermarks is up to date exactly when the voter has no number above its last one and, having that one, no longer log |
| VoteAnswers.VoteGrantedIff | crates/globacl-commitd/src/app/consensus.rs:216-261 | a vote is granted exactly for a term not older, to an up-to-date candidate, if the term is newer or neither another leader nor another vote is known; the voter ends in that term with that vote |
| VoteAnswers.NewerTermGetsVote | crates/globacl-commitd/src/app/consensus.rs:216-261 | the first request of a newer term from an up-to-date candidate is granted, whomever the voter followed |
| VoteAnswers.HeartbeatAcceptedIff | crates/globacl-commitd/src/app/consensus.rs:326-349 | a heartbeat is followed exactly if its term is newer, or the same with no other leader known |
| VoteAnswers.ReplicationIsHeartbeat | crates/globacl-commitd/src/app/commit.rs:450-482 | a replication leader is followed under the condition of a heartbeat and to the same effect |
| VoteAnswers.ElectionWonIff | crates/globacl-commitd/src/app/consensus.rs:41-105 | without a newer term among the replies, a candidate wins exactly with the votes of a quorum |
| VoteAnswers.StepDownOutcome | crates/globacl-commitd/src/app/consensus.rs:359-373 | stepping down ends a role, never lowers the term, and keeps the vote within it |
| VoteAnswers.MutationTermIff | crates/globacl-commitd/src/app/commit.rs:407-428 | an epoch is refused exactly if older; a newer one becomes the term of a follower without vote or leader |
| VoteAnswers.RestartRemembers | crates/globacl-commitd/src/app/config.rs:645-679 | a restart remembers term and vote and no role; a node without peers leads at once |
| CommitAnswers.PrepareAnsweredIff | crates/globacl-commitd/src/app/commit.rs:317-354 | a prepare is answered exactly when authorized and its number is taken, or next with a free slot; the slot then holds that very mutation |
| CommitAnswers.CommitAppliedIff | crates/globacl-commitd/src/app/commit.rs:356-385 | a commit message is applied exactly when authorized, next in its shard, under an unused op id, and prepared as it is; then the watermark has its number and its file is gone; a refused one changes nothing |
| CommitAnswers.CatchUpAppliedIff | crates/globacl-commitd/src/app/consensus.rs:455-457 | a caught-up mutation is applied under the same conditions, without a file |
| CommitAnswers.PreparedThenCommitted | crates/globacl-commitd/src/app/commit.rs:317-385 | what a node answered for in the first round it applies in the second |
| CommitAnswers.FinishedIsVisibleIff | crates/globacl-commitd/src/app/commit.rs:202-212 | a commit with its quorum is applied, made visible and sent to the peers exactly when its mutation is still next under an unused op id |
| CommitAnswers.AbortEmptiesSlotIff | crates/globacl-commitd/src/app/commit.rs:387-395 | an authorized abort empties the slot and nothing else |
| NodeSteps.BeatAnswered | crates/globacl-commitd/src/app/consensus.rs:318-357 | a heartbeat is answered with the term after it, and followed and persisted exactly if its term is newer, or the same with no other leader |
| NodeSteps.LeaderStepsDown | crates/globacl-commitd/src/app/consensus.rs:359-373 | a leader that hears of a newer term, or fails to recover, follows nobody; the vote stays within the term |
| NodeSteps.NewerVoterEndsElection | crates/globacl-commitd/src/app/consensus.rs:78-82 | a voter in a newer term ends the candidacy |
| NodeSteps.GivenUpIsAborted | crates/globacl-commitd/src/app/commit.rs:281-289 | a commit without its quorum applies nothing and is aborted at the peers |
| NodeSteps.RestartKeepsDurable | crates/globacl-commitd/src/app/config.rs:645-679 | a restart keeps term, vote, tables and pending files, and forgets candidacies and commits under way |
| Availability.QuorumCanElect | crates/globacl-commitd/src/app/consensus.rs:41-119 | from any sound state, a node that is not behind a quorum can be elected by it alone, in its next term, and no store changes |
| Availability.QuorumCanCommit | crates/globacl-commitd/src/app/commit.rs:184-212 | from any sound state, a leader and ready peers that make a quorum can commit its next mutation alone: it becomes visible and all of them have applied it |
| SourceSpec.ApplyReplicatedApplied | crates/globacl-core/src/lib/source.rs:317-358 | exactly the next mutation of a shard under an unused op id is applied; a duplicate changes nothing |
| SourceSpec.CommitThenLookup | crates/globacl-core/src/lib/source.rs:200-246 | a prepared request applies, its key then answers with the request's reason, priority and number, and no other lookup changes |
| SourceOfTruth.SourceOfTruth.constructor | crates/globacl-core/src/lib/source.rs:15-28 | an empty source in epoch 1 with at least one shard |
| SourceOfTruth.SourceOfTruth.SetEpoch | crates/globacl-core/src/lib/source.rs:562-564 | the epoch is at least 1 |
| SourceOfTruth.SourceOfTruth.ApplyCommittedMutation | crates/globacl-core/src/lib/source.rs:595-636 | the tables and the watermark move together, or nothing does |
| SourceOfTruth.SourceOfTruth.InsertOpIndex | crates/globacl-core/src/lib/source.rs:581-593 | an op id keeps its first mutation; a different one is refused |
| SourceOfTruth.SourceOfTruth.ApplyReplicatedMutation | crates/globacl-core/src/lib/source.rs:317-358 | the in-place method computes the value-level operation; a failed call changes nothing |
| SourceOfTruth.SourceOfTruth.ApplyLoadedMutation | crates/globacl-core/src/lib/source.rs:574-579 | one loaded mutation moves the tables, the op index and the history together |
| SourceOfTruth.SourceOfTruth.ReplayAll | crates/globacl-core/src/lib/source.rs:30-48 | the loading loop computes the value-level replay |
| SourceOfTruth.SourceOfTruth.CompactMutationHistory | crates/globacl-core/src/lib/source.rs:520-544 | the three loops drop history up to the floor and raise the compacted watermarks, or refuse a floor above a watermark |
| SourceOfTruth.SourceOfTruth.ServeShard | crates/globacl-core/src/lib/source.rs:392-400 | the served stream, in history order |
| SourceOfTruth.LoadMutations | crates/globacl-core/src/lib/source.rs:30-48 | from_mutations sorts, replays and fails as its value-level form does |
| Replay.StepRepresents | crates/globacl-core/src/lib/source.rs:595-636 | applying the next mutation of a shard changes what that shard's keys hold and nothing else |
| Replay.WatermarksDetermineTables | crates/globacl-core/src/lib/source.rs:266-267 | two states at the same watermarks of the same logs have the same tables |
| Replay.InsertOpsPermuted | crates/globacl-core/src/lib/source.rs:581-593 | the order of a list matters neither to the op ids it leaves nor to whether they clash |
| Replay.ReplayInterleaving | crates/globacl-core/src/lib/source.rs:574-579 | any interleaving of the shard logs loads, and ends in the tables of its end watermarks |
| Replay.ShardCommutation | crates/globacl-core/src/lib/source.rs:212-214 | two interleavings that keep each shard's order end in the same entries, rules, watermarks and op index, and load both or neither |
| Replay.SortedInterleaves | crates/globacl-core/src/lib/source.rs:30-48 | the order by shard, number and op id used at load is one of those interleavings |
| History.CompactWindowed | crates/globacl-core/src/lib/source.rs:520-544 | compaction leaves each shard's history as the consecutive numbers above its new floor |
| History.ConstructorsWindowed | crates/globacl-core/src/lib/source.rs:30-180 | every constructor that succeeds gives a source whose history is such a window |
| History.EpochAfter | crates/globacl-core/src/lib/source.rs:562-564 | only setting the epoch changes it, to what is set or at least 1 |
| History.BadSnapshotIsRefused | crates/globacl-core/src/lib/source.rs:50-120 | a snapshot of another shape, or with a record of a shard that does not exist, is refused |
| History.WindowThroughout | crates/globacl-core/src/lib/source.rs:317-358 | in every state of every life the retained history of a shard is exactly floor + 1 to watermark |
| History.ServedStream | crates/globacl-core/src/lib/source.rs:392-400 | the stream above a position is the rest of the shard's run |
| History.CatchUpReachesWatermark | crates/globacl-core/src/lib/source.rs:392-405 | unless history is reported compacted, the served stream has no gap and brings a peer to the watermark |
| History.RetainsIff | crates/globacl-core/src/lib/source.rs:520-544 | memory retains exactly the numbers above the compacted watermark |
| History.HistoryCompactedIff | crates/globacl-core/src/lib/source.rs:402-405 | compaction is reported exactly to those who miss a number that is no longer there |
| Recovery.PreparedIsAcceptable | crates/globacl-core/src/lib/source.rs:200-246 | a prepared request is routed, next in its shard and under a new op id |
| Recovery.LoadTail | crates/globacl-core/src/lib/source.rs:50-89 | loading a tail on a state that stands for a prefix of the logs brings it up to date |
| Recovery.IdempotencyComplete | crates/globacl-commitd/src/app/commit.rs:117-126 | the op-id file and the logs together list every mutation ever logged, and nothing else |
| Recovery.TrimDisk | crates/globacl-commitd/src/app/storage.rs:33-41 | rewriting one shard's log in the middle of a compaction loses nothing that a load needs |
| Recovery.StepKeepsInv | crates/globacl-commitd/src/app/commit.rs:225-252 | each durable write of a commit or a compaction, and a crash, keeps memory and disk consistent with the logged mutations |
| Recovery.LoadRebuilds | crates/globacl-commitd/src/app/commit.rs:84-158 | a load after a crash succeeds and rebuilds exactly the tables, watermarks and op index |
| Recovery.CrashRecovers | crates/globacl-commitd/src/app/commit.rs:84-158 | in every life a crash between any two writes can be recovered from, losing nothing |
| Recovery.RetryReturnsOriginal | crates/globacl-core/src/lib/source.rs:200-210 | after any commits, compactions and restarts a retried op id returns the original mutation and takes no number |
| CommittedRecords.EntryCommitted | crates/globacl-core/src/lib/source.rs:200-246 | an entry request applies as the next mutation of the shard its key hashes to, and changes one record: the one under its key, which carries what was requested |
| CommittedRecords.EntryAnswered | crates/globacl-core/src/lib/source.rs:200-210 | a request is refused only for a blank op id; a known op id is answered with its mutation |
| CommittedRecords.RuleCommitted | crates/globacl-core/src/lib/source.rs:248-315 | a rule request applies as the next mutation of its shard, and changes one record: the rule under its key, with the request's action, priority, reason, expiry and creator and the number taken |
| CommittedRecords.RuleAnswered | crates/globacl-core/src/lib/source.rs:248-270 | a rule request is refused only for a blank op id or, under a new one, a pattern that does not compile |
| CommittedRecords.CompiledMatches | crates/globacl-core/src/lib/rules.rs:457-470 | a compiled rule matches exactly the addresses of its block, or the domains that end with its suffix after a dot |
| CommittedRecords.OnlyRuleDecides | crates/globacl-core/src/lib/source.rs:371-390 | with one rule committed, checks deny exactly what the request denies, until it expires, with its reason, priority and number |
| CommittedRecords.HighestRuleDecides | crates/globacl-core/src/lib/source.rs:371-390 | in any table, a committed rule decides what it denies if no other matching rule has its priority or a higher one |
| Reload.RetainedAcceptsIff | crates/globacl-core/src/lib/source.rs:91-180 | with consistent op ids, exactly the logs are accepted that hold of every shard the consecutive numbers from the floor to at least the snapshot's watermark, in any order |
| Reload.RetainLoopRebuilds | crates/globacl-core/src/lib/source.rs:135-166 | the loop over what the logs still hold ends at the last number logged, with the tables that the logs determine |
| Reload.PublisherReloadIff | crates/globacl-commitd/src/app/commit.rs:84-143 | of a disk whose logs were rewritten up to some point, load_source_of_truth makes a source if and only if there is no snapshot, that point is the lower of offset and snapshot, or the logs are complete and the snapshot is up to date |
| Reload.PublisherReloadRebuilds | crates/globacl-commitd/src/app/commit.rs:84-143 | a load with a publisher that succeeds rebuilds the tables, watermarks and op index of everything logged, and the window that the logs still had |
| PersistFirst.OpConflict | crates/globacl-core/src/lib/source.rs:581-593 | two different mutations under one op id never load |
| PersistFirst.ReplayBounds | crates/globacl-core/src/lib/source.rs:574-579 | a replay that succeeds has consistent op ids and no number beyond its shard's count |
| PersistFirst.AppendedLogLoadsIff | crates/globacl-commitd/src/app/commit.rs:225-240 | a log with a mutation appended loads again if and only if the apply that follows the append succeeds, or no load reads that log |
| PersistFirst.ClashIsFatal | crates/globacl-commitd/src/app/consensus.rs:455-457 | it happens: a run in which a catch-up stream delivers a second mutation under a logged op id, after which the log does not load |
| Publisher.CompactionWatermarks | crates/globacl-commitd/src/app/storage.rs:43-62 | the two loops: at most the published offset, at least what was compacted before |
| Publisher.AdvanceLoop | crates/globacl-commitd/src/app/propagation.rs:44-52 | the loop that raises the offsets |
| Publisher.AdvanceIsMaximum | crates/globacl-commitd/src/app/propagation.rs:44-52 | an offset ends at the largest number of its shard, whatever the order of the batch |
| Publisher.BatchIsComplete | crates/globacl-commitd/src/app/propagation.rs:21-42 | a batch holds every mutation not yet published, and its offsets are the watermarks |
| Publisher.StepKeepsInv | crates/globacl-commitd/src/app/storage.rs:33-62 | commits, publishes that end or fail, compactions one durable write at a time and restarts keep the order floor, offset, watermark, and a disk that a load can use |
| Publisher.UnpublishedIsKept | crates/globacl-commitd/src/app/propagation.rs:13-58 | in every run, restarts included, floor <= published <= watermark, what is unpublished is in memory and in the log, what is published was sent |
| Publisher.RestartsIff | crates/globacl-commitd/src/app/commit.rs:84-158 | at any point of any run, restarts included, a load succeeds if and only if there is no snapshot, or the logs start at the lower of offset and snapshot, or they are complete and the snapshot is up to date |
| Publisher.RestartLosesNothing | crates/globacl-commitd/src/app/bootstrap.rs:217-225 | a restart that loads has the tables, watermarks and op ids that memory had |
| PublishedAhead.CannotRestart | crates/globacl-commitd/src/app/commit.rs:127-143 | it happens: publish 1, commit 2, compact, publish 2, and the node cannot restart |
| CompactionEffects.CompactedToFloor | crates/globacl-core/src/lib/source.rs:520-544 | a compaction raises the compacted watermarks to the floor, and is refused exactly for a floor above a watermark or of another shape |
| CompactionEffects.TrimEmpties | crates/globacl-commitd/src/app/storage.rs:33-41 | without a publisher each rewrite of a compaction empties a log |
| CompactionEffects.CutsPublished | crates/globacl-commitd/src/app/storage.rs:43-62 | with a publisher a compaction decides to cut exactly what is published |
| CompactionEffects.FloorIs | crates/globacl-commitd/src/app/storage.rs:43-62 | a compaction never goes back, and forward exactly as far as snapshot and offset allow |
| CompactionEffects.TrimsToFloor | crates/globacl-commitd/src/app/storage.rs:33-41 | its rewrites leave of a log, and then of the history, exactly what is above that floor |
| CompactionEffects.BatchInOrder | crates/globacl-commitd/src/app/propagation.rs:21-42 | a batch goes out in the order of commit time, shard and number |
| CompactionEffects.FailedBatchIsRetried | crates/globacl-commitd/src/app/propagation.rs:44-58 | a batch that fails moves no offset and is begun again as it was |
| CompactionEffects.EndedBatchIsPublished | crates/globacl-commitd/src/app/propagation.rs:44-58 | a batch that ends moves every offset to the watermark, with everything sent |
| Rollback.NextRestoreOpId | crates/globacl-core/src/lib/rules.rs:513-526 | the search ends with the first unused name at or after its start |
| Rollback.OpNamesDiffer | crates/globacl-core/src/lib/rules.rs:513-526 | different indices give different op ids, padded or not |
| Rollback.DeleteLoop | crates/globacl-core/src/lib/source.rs:428-443 | the loops that delete what the target does not have |
| Rollback.PutLoop | crates/globacl-core/src/lib/source.rs:445-460 | the loops that put back what differs |
| Rollback.RestoreSnapshot | crates/globacl-core/src/lib/source.rs:407-497 | the whole rollback, or an error for a snapshot of another shape |
| Rollback.EmitApplies | crates/globacl-core/src/lib/source.rs:638-698 | a direct commit is the next mutation of its shard under a new op id, and keeps the meaning of its record |
| Rollback.RestoreOutcome | crates/globacl-core/src/lib/source.rs:407-497 | one mutation for every key that differs and none for the others; replaying the plan as a peer gives the planned state |
| Rollback.RestoresIff | crates/globacl-core/src/lib/source.rs:445-460 | entries and rules end semantically equal to the target if and only if every Delete record of the target is live already |
| Rollback.EmitsNothingIffSame | crates/globacl-core/src/lib/source.rs:445-460 | a rollback emits nothing exactly when the tables already are the target's |
| Rollback.SecondRestoreSilentIff | crates/globacl-core/src/lib/source.rs:407-497 | a second rollback succeeds, and emits nothing exactly when every Delete record of the target was live before the first |
| Rollback.PlanMovesForward | crates/globacl-core/src/lib/source.rs:638-698 | applying a plan raises each watermark by the shard's share of it and appends it to the history |
| Rollback.RestoreMovesForward | crates/globacl-core/src/lib/source.rs:407-497 | a rollback's op ids are fresh and distinct, and no watermark falls |
| RollbackRecords.RestorePlanned | crates/globacl-core/src/lib/source.rs:638-698 | every mutation of a rollback is urgent, dated, stamped, routed and named, and is a record of the target or a marked deletion of one that the target lacks |
| RollbackRecords.RestoreNumbered | crates/globacl-core/src/lib/rules.rs:513-526 | under an unused prefix they are named in order from zero |
| RollbackRecords.SixDigitsAre | crates/globacl-core/src/lib/rules.rs:513-526 | an index has six digits, or as many as it needs |
| OwnSnapshots.BuiltClean | crates/globacl-core/src/lib/source.rs:30-180 | a source built from nothing, from logs or on a snapshot of a clean source has keyed tables without Delete records |
| OwnSnapshots.CleanThroughout | crates/globacl-core/src/lib/source.rs:595-636 | whatever a node does, over any restarts, its tables are keyed and hold no Delete record |
| OwnSnapshots.OwnRollbackArrives | crates/globacl-commitd/src/app/routes.rs:471-488 | a rollback to any snapshot the node took of itself reaches it, and a second one emits nothing |
| DecodedSnapshots.DeleteRecordIsMissed | crates/globacl-core/src/lib/source.rs:445-460 | a decoded snapshot with a Delete record is not reached from an empty source, and a second rollback emits again |
| DecodedSnapshots.WidePrefixStopsIndex | crates/globacl-core/src/lib/active_state.rs:616-640 | a decoded snapshot that validates may hold a rule whose prefix ends the program when it is indexed |
| StableSort.SortStable | crates/globacl-core/src/lib/active_state.rs:361-362 | sorting keeps the order of elements that the comparison cannot tell apart |
| NegativeFilter.MayContainParts | crates/globacl-core/src/lib/active_state.rs:585-597 | the probing loop says yes exactly when all eight bits are set |
| NegativeFilter.InsertParts | crates/globacl-core/src/lib/active_state.rs:577-583 | the inserting loop sets the eight bits |
| NegativeFilter.FromPairs | crates/globacl-core/src/lib/active_state.rs:547-575 | the filter has 20 bits an entry, at least 64, in whole words |
| NegativeFilter.NoFalseNegatives | crates/globacl-core/src/lib/active_state.rs:546-613 | whatever the hashes, the filter never says no for a key it was built from |
| NegativeFilter.MayContainIff | crates/globacl-core/src/lib/active_state.rs:547-597 | the filter says yes exactly when each of the key's eight bits is a bit of some key it was built from |
| NegativeFilter.FilterSize | crates/globacl-core/src/lib/active_state.rs:547-575 | it has the least whole words that hold 20 bits an entry, and none for no entries |
| NegativeFilter.BitIndexIs | crates/globacl-core/src/lib/active_state.rs:606-611 | the bits are enhanced double hashing: wrapping every step is wrapping once |
| EdgeBase.SymbolTable.InternValue | crates/globacl-core/src/lib/active_state.rs:510-519 | interning returns the id of the value and never changes another's |
| EdgeBase.DedupeLoop | crates/globacl-core/src/lib/active_state.rs:364-374 | the dedupe loop |
| EdgeBase.DedupeKeepsNewest | crates/globacl-core/src/lib/active_state.rs:364-374 | on an ordered list it leaves exactly the newest entry of every key, the later one on a tie |
| EdgeBase.ShrinkEntry | crates/globacl-core/src/lib/active_state.rs:474-487 | a compact entry interns its four strings in order |
| EdgeBase.ShrinkExpands | crates/globacl-core/src/lib/active_state.rs:493-506 | compact entries expand back to the entries they came from, however many more symbols follow |
| EdgeBase.FromEntries | crates/globacl-core/src/lib/active_state.rs:361-389 | sort, dedupe, intern, sort by symbol id, build the filter |
| EdgeBase.BuildHolds | crates/globacl-core/src/lib/active_state.rs:361-389 | the base stands for exactly the newest entry of every key, and has as many entries as keys |
| EdgeBase.BinarySearchMisses | crates/globacl-core/src/lib/active_state.rs:438-452 | a search that finds nothing means that no entry has the key |
| EdgeBase.LookupAnswers | crates/globacl-core/src/lib/active_state.rs:423-452 | a lookup through filter, symbols and binary search answers as the plain table does |
| EdgeBase.DecisionAnswers | crates/globacl-core/src/lib/active_state.rs:395-421 | and its decision is the table's decision |
| ActiveState.ActiveState.constructor | crates/globacl-core/src/lib/active_state.rs:106-119 | a state from a snapshot has its tables in the base and an empty overlay |
| ActiveState.ActiveState.ApplyMutation | crates/globacl-core/src/lib/active_state.rs:121-171 | the overlay and the watermark after a mutation; an old or early one changes nothing |
| ActiveState.ActiveState.LookupRaw | crates/globacl-core/src/lib/active_state.rs:173-199 | overlay first, then base |
| ActiveState.ActiveState.EntriesLen | crates/globacl-core/src/lib/active_state.rs:241-254 | the count is the number of entries a snapshot would hold |
| ActiveState.ActiveState.CompactDeltaOverlay | crates/globacl-core/src/lib/active_state.rs:300-316 | the overlay is rebuilt into the base, in some order of the hash maps |
| ActiveState.AllRules | crates/globacl-core/src/lib/active_state.rs:699-710 | the buckets together list every indexed rule and no other |
| ActiveState.LookupReadsContents | crates/globacl-core/src/lib/active_state.rs:173-199 | a lookup is a lookup in base minus removals plus additions |
| ActiveState.MaterializedLists | crates/globacl-core/src/lib/active_state.rs:318-332 | a snapshot lists exactly those contents, each key once, as many as there are |
| ActiveState.MaterializedRulesList | crates/globacl-core/src/lib/active_state.rs:334-342 | and exactly the live rules, without the removed and the replaced ones |
| ActiveState.CompactionPreserves | crates/globacl-core/src/lib/active_state.rs:300-316 | compaction keeps contents, live rules and watermarks |
| ActiveState.CompactionKeepsLookups | crates/globacl-core/src/lib/active_state.rs:300-316 | compaction changes no lookup at any time |
| EdgeRefinement.OverlaidContents | crates/globacl-core/src/lib/active_state.rs:141-168 | the overlay does to the contents what the source does to its tables |
| EdgeRefinement.OverlaidSound | crates/globacl-core/src/lib/active_state.rs:141-168 | additions and removals stay disjoint |
| EdgeRefinement.DeliveryTracks | crates/globacl-core/src/lib/active_state.rs:121-171 | the next mutation of a shard is applied, an older one ignored, a later one reported as a gap |
| EdgeRefinement.SnapshotUpToDate | crates/globacl-core/src/lib/active_state.rs:106-119 | a state loaded from a source's snapshot stands at the snapshot's watermarks |
| EdgeRefinement.UpToDateThroughout | crates/globacl-core/src/lib/active_state.rs:121-171 | under any deliveries and compactions the edge holds exactly a prefix of every shard's log |
| EdgeRefinement.EdgeRefinesSource | crates/globacl-core/src/lib/source.rs:360-369 | every lookup at the edge is the decision of a source that replayed each shard to the edge's watermark |
| EdgeChecks.EdgeCheckAgreesIff | crates/globacl-core/src/lib/active_state.rs:201-224 | the edge's check agrees with the source's exactly when the point lookup denies or no replaced rule shows through |
| EdgeChecks.BaseUnique | crates/globacl-core/src/lib/active_state.rs:699-710 | the table of rules that an index holds is read off the index |
| EdgeChecks.CheckAgreesThroughoutIff | crates/globacl-core/src/lib/source.rs:371-390 | the same at any point of any life, against a source at the edge's watermarks |
| EdgeChecks.CompactionKeepsCheckIff | crates/globacl-core/src/lib/active_state.rs:300-316 | a check before and one after a compaction agree exactly when the point lookup denies or no replaced rule showed through; none does afterwards |
| EdgeChecks.CompactionInLifeIff | crates/globacl-core/src/lib/active_state.rs:300-316 | the same for a compaction anywhere in a life |
| RulePatterns.CandidatesAreLabelSuffixes | crates/globacl-core/src/lib/rules.rs:440-447 | the suffix candidates of a domain are the domain and what follows each of its dots |
| RulePatterns.SameAddressesSameRuleKey | crates/globacl-core/src/lib/source.rs:248-315 | two IPv4 rule requests of a tenant with the same address set get the same rule key |
| RulePatterns.PreparedIsIndexable | crates/globacl-core/src/lib/source.rs:248-315 | a prepared rule has a prefix that the index has a bucket for |
| Spellings.CanonicalDomainIff | crates/globacl-core/src/lib/rules.rs:427-438 | a text is read as a domain exactly when it is that domain in any case, with padding, a wildcard or trailing dots |
| Spellings.KindForIff | crates/globacl-core/src/lib/rules.rs:449-455 | which names mean which kind of rule, in any case and padding |
| Spellings.LowerIs | crates/globacl-core/src/lib/rules.rs:427-438 | lower case changes the 26 letters and nothing else |
| Spellings.SpacesAre | crates/globacl-core/src/lib/rules.rs:427-438 | the white space that trimming drops |
| Spellings.ParseU8Iff | crates/globacl-core/src/lib/rules.rs:392-412 | an octet is its decimal form, leading zeros and a plus sign allowed, and nothing else |
| Spellings.ParseAddrIff | crates/globacl-core/src/lib/rules.rs:392-412 | a text is an address exactly when it is four octets between dots |
| Spellings.BareAddressIsHost | crates/globacl-core/src/lib/rules.rs:372-390 | an address without a prefix is the block of that address |
| Spellings.PrefixedAddressIsBlock | crates/globacl-core/src/lib/rules.rs:372-390 | an address with a prefix is the block of the addresses that agree with it so far; a prefix above 32 is refused |
| RuleIndex.ConsiderAllIsBest | crates/globacl-core/src/lib/active_state.rs:713-727 | considering rules in turn ends at an unexpired one that none outranks |
| RuleIndex.BestDeterminesVerdict | crates/globacl-core/src/lib/rules.rs:472-478 | the verdict, priority and number do not depend on the order or on ties |
| RuleIndex.CompileRules | crates/globacl-core/src/lib/active_state.rs:616-653 | the compiling loops: Delete records skipped, one bucket per prefix and network or suffix, sorted |
| RuleIndex.CompileFiles | crates/globacl-core/src/lib/active_state.rs:616-653 | every other rule is filed in its own bucket and nowhere else |
| RuleIndex.IndexPanicsIff | crates/globacl-core/src/lib/active_state.rs:616-640 | compiling ends the program exactly when a rule that is not a Delete record has a prefix above 32 |
| RuleIndex.ConsiderMatches | crates/globacl-core/src/lib/active_state.rs:655-697 | the query loops over prefixes and suffixes |
| RuleIndex.CandidatesAreMatches | crates/globacl-core/src/lib/active_state.rs:655-697 | a query considers exactly the rules on file that match by the linear test and are not removed |
| RuleIndex.ScanRules | crates/globacl-core/src/lib/source.rs:383-389 | the linear scan |
| RuleIndex.EdgeScan | crates/globacl-core/src/lib/active_state.rs:213-223 | the overlay's rules, then the index |
| RuleIndex.CheckAgreesIff | crates/globacl-core/src/lib/active_state.rs:201-224 | for every query and order, index plus overlay and linear scan agree if and only if no replaced rule shows through |
| RuleIndex.ReplacedRuleShowsThrough | crates/globacl-core/src/lib/active_state.rs:215-222 | it happens: a deny rule replaced by a weaker allow rule of its key still denies at the edge |
| RuleIndex.CheckAgreesWithoutOverride | crates/globacl-core/src/lib/active_state.rs:344-357 | they agree whenever the overlay adds no key that the base holds |
| RuleVerdicts.ScanVerdict | crates/globacl-core/src/lib/rules.rs:472-478 | the scan denies exactly if some matching unexpired deny rule has a priority that none exceeds, with the reason, priority and number of the latest such rule |
| RuleVerdicts.EdgeVerdict | crates/globacl-core/src/lib/active_state.rs:719-742 | the edge does so for its live rules and those that its overlay replaced |
| RuleVerdicts.SourceVerdict | crates/globacl-core/src/lib/source.rs:371-390 | a check at the source is the point lookup if that denies, and that verdict otherwise |
| RuleVerdicts.EdgeCheckVerdict | crates/globacl-core/src/lib/active_state.rs:201-224 | a check at the edge, the same way |
| Cidr.ParseAddrLoop | crates/globacl-core/src/lib/rules.rs:392-412 | exactly four parts, each a number up to 255 |
| Cidr.ParseFormatAddr | crates/globacl-core/src/lib/rules.rs:414-417 | every address is read back from its dotted form |
| Cidr.BlockIsInterval | crates/globacl-core/src/lib/rules.rs:419-425 | a block matches the run of 2^(32 - prefix) addresses from its network |
| Cidr.CanonicalIsFixedPoint | crates/globacl-core/src/lib/rules.rs:372-390 | a canonical pattern parses to its block and prints as itself |
| Cidr.CanonicalIffSameAddresses | crates/globacl-core/src/lib/rules.rs:457-465 | two accepted patterns have the same canonical form if and only if they match the same addresses |
| Relay.RelayCache.Apply | crates/globacl-relay/src/app/sources.rs:333-357 | the cache after a mutation, a duplicate or a gap |
| Relay.RelayCache.ApplyBundle | crates/globacl-relay/src/app/sources.rs:136-140 | the repair loop keeps what it applied before an error |
| Relay.RelayCache.Rebuild | crates/globacl-relay/src/app/sources.rs:144-156 | a rebuilt cache is empty at the snapshot's watermarks |
| Relay.RelayCache.ServeShard | crates/globacl-relay/src/app/sources.rs:359-387 | the filtered stream, or nothing below the base |
| Relay.DeliveryKeepsWindow | crates/globacl-relay/src/app/sources.rs:109-156 | any committed mutation, and any repair, keeps the cache a window of the committed logs |
| Relay.WindowThroughout | crates/globacl-relay/src/app/sources.rs:323-357 | in every life each shard's cache is exactly base + 1 to watermark |
| Relay.ServesRun | crates/globacl-relay/src/app/sources.rs:359-387 | an unfiltered answer from the base on is the consecutive run after from_seq up to the watermark |
| Relay.BundleIsComplete | crates/globacl-relay/src/app/sources.rs:389-415 | the length check never fails: a bundle is withheld exactly below the base |
| RelayProgress.CommittedOutcome | crates/globacl-relay/src/app/sources.rs:333-357 | the next mutation is applied and raises its shard by one, an older one is a duplicate, a later one a gap that names the number expected |
| RelayProgress.DeliveredIsReached | crates/globacl-relay/src/app/sources.rs:109-142 | after a delivery whose gap an honest bundle closed, the shard has reached the mutation's number and no other has moved |
| RelayProgress.RebuiltIsReached | crates/globacl-relay/src/app/sources.rs:144-156 | a gap answered by a snapshot starts the cache over there and takes the mutation if it is next |
| RelayProgress.LifeNeverFalls | crates/globacl-relay/src/app/sources.rs:109-142 | without a rebuild no watermark falls and the base stays |
| RelayProgress.DeliveredIsServed | crates/globacl-relay/src/app/sources.rs:359-387 | in a life whose gaps were closed, a mutation delivered once is served ever after |
| RelayProgress.ServesPriority | crates/globacl-relay/src/app/sources.rs:359-387 | an answer for one priority is the unfiltered one without the others |
| Agent.ApplyLoop | crates/globacl-agent/src/app/poll.rs:56-80 | the apply loop ends at the first gap or error |
| Agent.AnswerKeepsUpToDate | crates/globacl-agent/src/app/poll.rs:10-112 | a stream, a bundle or a snapshot of an honest relay keeps the agent on the committed logs |
| Agent.AgentStaysAtPrefix | crates/globacl-agent/src/app/poll.rs:10-157 | in every life the agent holds exactly a prefix of every shard's committed log |
| Agent.PollCatchesUp | crates/globacl-agent/src/app/poll.rs:56-90 | a relay's answer from its base on applies to its end and brings the shard, and no other, to the relay's watermark |
| Agent.BundleCatchesUp | crates/globacl-agent/src/app/poll.rs:116-157 | after a gap the relay's bundle is taken and brings the shard, and no other, to the number asked for or to the relay's watermark |
| Agent.BadStreamChangesNothing | crates/globacl-agent/src/app/poll.rs:56-90 | a stream with a mutation of an unknown shard changes nothing, whatever came before it |
| Agent.SettledSmall | crates/globacl-agent/src/app/poll.rs:82-84 | an overlay of 1024 records or more is emptied, a smaller one left alone |
| Agent.OverlayStaysSmall | crates/globacl-agent/src/app/poll.rs:82-90 | at every point of every life the overlay has fewer than 1024 records |
| Acks.AckStore.constructor | crates/globacl-commitd/src/app/propagation.rs:163-182 | the table loaded from the log, line by line |
| Acks.AckStore.Apply | crates/globacl-commitd/src/app/propagation.rs:123-137 | an older ack or the same one changes nothing; any other is logged and stored |
| Acks.AckStore.Merge | crates/globacl-commitd/src/app/propagation.rs:228-243 | merging applies each ack and counts the lines it logged |
| Acks.TableIsReplay | crates/globacl-commitd/src/app/propagation.rs:163-182 | the table in memory is always the replay of its log |
| Acks.StoredIsMaximum | crates/globacl-commitd/src/app/propagation.rs:123-137 | the number stored for a key is the largest ever offered, in an ack that was offered |
| Acks.MergeTwice | crates/globacl-commitd/src/app/propagation.rs:228-243 | merging the same peer table again changes neither table nor log |
| Acks.MutualMergeAgrees | crates/globacl-commitd/src/app/propagation.rs:228-243 | two nodes that merge each other's tables agree on every number |
| Acks.OfferOutcome | crates/globacl-commitd/src/app/propagation.rs:123-137 | an ack is stored unless a later one or the same one is there; an equal number goes to the newcomer |
| Acks.KeysEqualIff | crates/globacl-core/src/lib/http.rs:300-302 | two acks share a key exactly when they are of one shard and their relay and agent, joined by a colon, read the same |
| Acks.KeyIdentifies | crates/globacl-core/src/lib/http.rs:300-302 | among relay ids without a colon a key names one relay, agent and shard |
| Acks.RelaySharesKeysIff | crates/globacl-core/src/lib/http.rs:300-302 | an ack shares its key with one of a shorter relay id exactly when its relay id has a colon |
| Acks.ColonsCollide | crates/globacl-commitd/src/app/propagation.rs:123-137 | it happens: an ack of another relay and agent takes the place of the first |
| Bytes.LittleEndianBack | crates/globacl-core/src/lib/codec.rs:212-243 | an integer within its width is read back |
| Bytes.Utf8Back | crates/globacl-core/src/lib/codec.rs:200-210 | every string passes the strict UTF-8 check and is read back |
| Bytes.TakePutString | crates/globacl-core/src/lib/codec.rs:200-210 | a length-prefixed string is consumed exactly, whatever follows |
| Truncation.FromUtf8Iff | crates/globacl-core/src/lib/codec.rs:200-210 | bytes are read as a string exactly when they are its UTF-8 form |
| Truncation.CutStreamIsRefused | crates/globacl-core/src/lib/snapshots.rs:260-277 | a stream cut short anywhere is refused |
| Truncation.TornLogIff | crates/globacl-core/src/lib/snapshots.rs:290-305 | a log cut anywhere loads exactly when the cut is between two mutations |
| Truncation.LogCutBetween | crates/globacl-core/src/lib/snapshots.rs:290-305 | and then reads as the mutations before it |
| Truncation.TornAppendIsFatal | crates/globacl-core/src/lib/snapshots.rs:290-305 | a log whose last append was torn does not load |
| WireFormat.ForeignIsRefused | crates/globacl-core/src/lib/codec.rs:188-198 | nothing is decoded without its own magic and version 1 |
| WireFormat.EncodingsAreHeaded | crates/globacl-core/src/lib/snapshots.rs:12-258 | every encoding begins with them |
| WireFormat.MutationIsLaidOut | crates/globacl-core/src/lib/snapshots.rs:220-240 | a mutation is its fields in this order and these widths |
| WireFormat.SnapshotIsLaidOut | crates/globacl-core/src/lib/snapshots.rs:12-30 | a snapshot is three counts, watermarks, entries, and a counted list of rules |
| WireFormat.OlderSnapshotReads | crates/globacl-core/src/lib/snapshots.rs:32-76 | a snapshot that ends with its entries reads as one without rules |
| Codec.EntryRoundTrip | crates/globacl-core/src/lib/codec.rs:72-115 | decoding an entry consumes exactly what was written, whatever follows |
| Codec.RuleRoundTrip | crates/globacl-core/src/lib/codec.rs:85-134 | decoding a rule consumes exactly what was written, whatever follows |
| Codec.MutationRoundTrip | crates/globacl-core/src/lib/snapshots.rs:220-245 | every mutation within the widths is read back |
| Codec.OlderMutationReads | crates/globacl-core/src/lib/codec.rs:136-186 | an encoding that ends with the entry reads with the default priority, time and rule |
| Codec.EncodeFrames | crates/globacl-core/src/lib/snapshots.rs:247-258 | the framing loop |
| Codec.DecodeStreamLoop | crates/globacl-core/src/lib/snapshots.rs:260-277 | the stream decoder's cursor loop |
| Codec.StreamRoundTrip | crates/globacl-core/src/lib/snapshots.rs:247-277 | every stream is read back |
| Codec.ReadLogLoop | crates/globacl-core/src/lib/snapshots.rs:290-305 | the log reader's cursor loop |
| Codec.LogRoundTrip | crates/globacl-core/src/lib/snapshots.rs:279-305 | reading a log returns precisely the mutations appended to it, in order |
| Codec.CompactionFilters | crates/globacl-core/src/lib/snapshots.rs:340-388 | compacting a log filters the list that it holds |
| Codec.SnapshotRoundTripIff | crates/globacl-core/src/lib/snapshots.rs:12-76 | a snapshot is read back if and only if it has a watermark for every shard, and is refused otherwise |
| Calendar.CivilIsCorrect | crates/globacl-commitd/src/app/object_store.rs:547-559 | every day count gives a valid date whose day number it is |
| Calendar.CivilFollowsCalendar | crates/globacl-commitd/src/app/object_store.rs:547-559 | consecutive counts give consecutive calendar dates; day 0 is 1 January 1970 |
| Calendar.YearCastIff | crates/globacl-commitd/src/app/object_store.rs:557-558 | the cast keeps the year exactly when an i32 holds it |
| Calendar.UtcComponentsBack | crates/globacl-commitd/src/app/object_store.rs:537-545 | the components are in range and name the instant they came from |

## Left out

- ActiveState.AllRules: yields the rules as a set with no promise about order, because hash maps promise none.
- Cluster.StepSound: a single-node cluster, which leads without an election, is not part of the state machine; Recovery covers its commit path.
- ElectionSafety.AtMostOneLeaderPerTerm: a vote request may report any log status, because safety does not depend on it; PendingStore.StaleCandidateRefused states what the comparison refuses.
- Fencing.FencedCommitNeverFinishes: a prepare answers on the connection of its request; the transport is modelled as numbered connections whose messages may be lost, late or repeated.
- Recovery.CrashRecovers: snapshot installation from a leader is not a step, because it replaces the whole state with separate writes; a publisher is treated in Reload and Publisher.
- Consensus.ConsensusNode.FinishElection: ends with the win; the recovery that follows is Cluster.RecoveryIsProposable and commits as any other, a recovery that fails is the step FailRecovery, and the acks a leader fetches are in Acks.
- SlotAgreement.EpochSlotAgreement: a handler is one atomic step, though it may first check the leader on its own and then wait for the state lock; a term that changes between that check and the lock is not modelled.
- PersistFirst.AppendedLogLoadsIff: a mutation of an existing shard is routed there by its hash, as every prepared one is.
- OwnSnapshots.OwnRollbackArrives: the snapshot has the shard count the node runs with; a rollback to any other is refused.
- Calendar.CivilIsCorrect: states the year before the cast to i32; Calendar.YearCastIff says when the cast keeps it.
- Codec.MutationRoundTrip: numbers are natural numbers within the field widths, and a string's length is truncated to u32 as the cast does.
- Cidr.BlockIsInterval: masking is arithmetic modulo a power of two instead of a bit mask.
- NegativeFilter.NoFalseNegatives: the two 64-bit hashes of a key are any pair of numbers; FNV and splitmix64 are not computed.
- RuleIndex.CheckAgreesIff: asks for prefixes up to 32, as every prepared rule has; RuleIndex.IndexPanicsIff says what a larger one does.
- Cross-term agreement on a slot, leader completeness and liveness of catch-up or repair: the protocol does not provide them, since votes compare watermarks but not epochs and recovery re-stamps pending mutations.
- Overflow of 64-bit terms and sequence numbers, and symbol tables beyond 2^32 values, which end the program.
- Storage faults and torn writes: files are written by atomic rename or whole appends; Truncation.TornLogIff says how a torn append would read.
- Timers, timeouts and retries: elections, heartbeats, polls and publishes happen at any time.
- HTTP, NATS and S3 transport, JSON, environment configuration, metrics, audit records and access control.
- Ed25519, SHA-256, HMAC and SigV4: signatures are not part of this model; an agent's answer with a bad signature is no answer.
- Snapshot manifests, archived snapshots, delta bundle files on disk and the object store.
- canonicalize_domain is modelled but not proved idempotent: it strips one wildcard per call, so it is not.
- The control gateway, the Go and TypeScript clients, the user interface, the demo and the benchmark.
