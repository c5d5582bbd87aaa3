# DiemBFT trust and vote core, in Dafny

This project models the part of Diem on which safety rests, and proves what it keeps over whole runs:

- weighted quorums and aggregated signatures (`Validators`);
- the safety rules that decide what a validator may sign (`SafetyRules`), when they sign, exactly
  (`SigningRules`), runs of honest validators against an adversary who controls the network and every
  other validator (`Protocol`), commit safety under the three-chain and the two-chain rule
  (`CommitSafety`), and the run in which the two-chain rule commits two branches (`TimeoutEpochs`);
- vote aggregation in a round (`PendingVotes`, `VoteCollection`, `VoteCertificates`,
  `TimeoutCertificates`), the voter side of a replica (`RoundManager`) and replicas that run it
  against each other's collectors (`Replicas`);
- epoch-change proofs (`EpochChange`), the light client's ratchet (`TrustedState`), its safety against
  arbitrary proofs (`LightClient`) and its progress against a node that pages its answers
  (`FullNode`, `CatchUp`);
- the two sides joined: what the validators of a reachable world can sign, over all epochs, is the one
  chain that light clients rely on (`LedgerSafety`);
- initialising the safety rules page by page and repeating requests (`MetricsSafetyRules`), crash recovery (`Recovery`),
  block retrieval (`BlockRetrieval`), event-by-version answers (`Events`) and text and byte forms
  (`Codecs`).

`dafny verify dfyconfig.toml` checks everything.

## How the system is represented

- A hash is the value it was computed from, so a block id contains the block and its ancestors. A
  waypoint value is the record of the ledger-info fields that are hashed. The transaction accumulator
  is the sequence of its leaves.
- A signature names its key and its message and is valid exactly if both fit. Unforgeability is a
  hypothesis on what the adversary may present: a signature under an honest key was made by its holder.
- Objects that the Rust code updates in place are classes (`SafetyRulesService`, `PendingVotesService`,
  `RoundManagerService`, `RecoveryStore`); each method is proved equal to a function on values, and
  the theorems are about that function. Loops of the source are loops here.
- Storage failures, the clock, the network, execution results and the contents of the key store are
  parameters of the operations, chosen by the caller.
- Named hypotheses of the run theorems: at most f of the voting power of an epoch is faulty
  (`Validators.FaultBound`). Commit safety under the two-chain rule has one more,
  `CommitSafety.TcsHarmless`, and `SafeIffRejectsGaps` says that it cannot be weakened.
- An epoch votes for blocks it has executed (`Config.coupled`) or orders blocks before it executes them.
  The theorems about certificates, collectors and replicas, and the order of committed blocks, are for
  both; that the transactions of one block are a prefix of another's is for coupled epochs, since
  ordering votes say nothing about them.
- `Protocol.Step` lets an epoch-change proof install only the validator set of its epoch. That is a
  hypothesis of the runs of `Protocol` and a theorem in `LedgerSafety`: `OpenRunIsRun` shows that
  validators who start from the genesis waypoint and learn the sets from proofs install no others.
- Across epochs the theorems of `LedgerSafety` rest on `Lawful`, what is behind an honest vote in the
  executor and the block store: after the block that ends an epoch nothing is executed and the next set
  stays the same (execution/executor/src/block_executor.rs:81-87); the first block of an epoch grows
  from the genesis block made of a ledger info that ended the previous one
  (consensus/src/persistent_liveness_storage.rs:97-118); and an epoch's validator set is named by a
  ledger info that ended the previous epoch. That all such ledger infos agree is proved. In two-chain
  epochs `Lawful` includes `TcsHarmless`. All epochs are coupled.
- `Protocol.ConfigExists`, `LedgerSafety.OpenRunExists`, `LightClient.ChainExists` and
  `FullNode.ExampleIsValid` show that the hypotheses can be met.

## Where the code does less than one may expect

- `ThresholdExact`: the quorum threshold is computed from an unchecked 64-bit product and is "all but f"
  exactly if twice the total power fits in 64 bits; `ThresholdWraps` is a total for which it is 1.
- `CatchesUpIff`: a light client does not always catch up with an honest node. When the node truncates
  its page and the page installs exactly the epoch that the latest ledger info ends, the client tries
  to extend to that ledger info with a consistency proof that stops at the page, and fails, as
  long as that stays the latest ledger info. `Doomed` says which clients end there; `LostClient` gives
  one for every page size. With the node's page size of 100 they are the clients for whom the first
  epoch sent and the epoch that the latest ledger info ends are 100 apart, or a multiple of 99 more.
  At an epoch boundary the first entry of a page is one the client already has, so pages of a single
  entry take it nowhere.
- `TwoBranchesCommitted`: nobody compares the epoch of a two-chain timeout certificate with the epoch
  it is used in. `verify_tc` does not (consensus/safety-rules/src/safety_rules_2chain.rs:137-148);
  a sync info is checked for the other kind of timeout certificate only
  (consensus/consensus-types/src/sync_info.rs:163-165), the block store keeps what it carries
  (consensus/src/block_storage/sync_manager.rs:91-92) and hands it to the rules
  (consensus/src/round_manager.rs:600-604). For all rounds h and r with h + 2 <= r there is a run of one
  honest validator in which epoch 2 relies on a certificate of epoch 1, of round r and with a highest
  certificate of round h, and commits two branches. A certificate whose round follows that of its
  highest certificate is harmless in any epoch. `SafeIffRejectsGaps`: of all guards on the round and
  the highest certified round of certificates of other epochs, exactly those make two-chain commits
  safe, over all configurations and runs, that reject every certificate with such a gap. (The guards
  compared reject the last two rounds of the 64-bit range, after which nothing can be committed.)
- `SignsFallingVersion`: the version that an agreed genesis claims is compared with nothing, and the rules
  sign a vote that collectors refuse because its version falls. `SentVotesVerify`: that is the only way
  in which a vote of a replica in the set fails the check.
- `CollectedTcFails`: verifying votes does not ensure that a two-chain timeout carries a certificate
  below its round, and two verified votes can complete a timeout certificate that nobody accepts.
  `TwoChainTimeoutCertVerifies`: it is accepted exactly if the timeouts stored so far and the one in
  the completing vote all carry certificates below the round.
- `AcceptedWithoutCount` and `DecidedWithoutCountIff`: without an event count an answer that has no
  upper bound is accepted whatever came after it, and the empty answer is accepted for every key.
- `ProcessBlockRetrieval`: a request for no blocks is answered "id not found" even if the id is stored.
- `OtherTextsAccepted`: other texts than the printed one parse to a waypoint. `WaypointPrintsBackIff`:
  an accepted text prints back exactly if its version has no plus sign and no redundant leading zero,
  its hex digits are lower case and nothing follows its second part.

## Model

| member | source | states |
|---|---|---|
| Validators.NewIff | types/src/validator_verifier.rs:83-101 | a verifier exists for exactly the sets whose power fits in 64 bits, with that total, and only without validators is its quorum zero |
| Validators.ThresholdExact | types/src/validator_verifier.rs:85-99 | for every validator map with power, the computed threshold is total minus floor((total-1)/3) if and only if twice the total does not wrap |
| Validators.ThresholdWraps | types/src/validator_verifier.rs:92-96 | a concrete validator set whose threshold is one unit of power |
| Validators.CheckVotingPower | types/src/validator_verifier.rs:224-244 | the in-order accumulation adds up the power of the authors as they come, repeats included, and stops at an unknown one; for distinct authors it answers the order-free question about their set and never exceeds the total |
| Validators.QuorumsIntersect | types/src/validator_verifier.rs:85-99 | two accepted signer sets share more than f of the power |
| Validators.HonestReachQuorum | types/src/validator_verifier.rs:224-244 | the remaining validators reach quorum alone if and only if the others hold at most f |
| Validators.PowerUnion | types/src/validator_verifier.rs:284-291 | power is additive over union and intersection of address sets |
| Validators.VerifyAggregatedStructSignature | types/src/validator_verifier.rs:171-182 | the loop accepts exactly a known quorum of valid signatures and reports the first failing check |
| Validators.BatchVerifyAggregatedSignatures | types/src/validator_verifier.rs:186-220 | if a passing batch has no invalid signature in it, batch verification with fallback gives the same answer and the same error as one-by-one verification |
| SafetyRules.SafetyRulesService.GuardedConstructAndSignVote | consensus/safety-rules/src/safety_rules.rs:373-409 | new state and answer for every outcome of the checks, of reading the storage, of signing and of writing the storage |
| SafetyRules.SafetyRulesService.GuardedConstructAndSignVoteTwoChain | consensus/safety-rules/src/safety_rules_2chain.rs:46-88 | new state and answer for every outcome of the checks, of reading the storage, of signing and of writing the storage |
| SafetyRules.SafetyRulesService.GuardedSignTimeout | consensus/safety-rules/src/safety_rules.rs:434-459 | new state and answer for every outcome, also when the key fails after the safety data was stored |
| SafetyRules.SafetyRulesService.GuardedSignTimeoutWithQc | consensus/safety-rules/src/safety_rules_2chain.rs:17-44 | new state and answer for every outcome, also when the key fails after the safety data was stored |
| SafetyRules.SafetyRulesService.GuardedInitialize | consensus/safety-rules/src/safety_rules.rs:275-371 | new waypoint, safety data, epoch state and signer, and the answer, for every proof and for a failure of any storage operation on the way |
| SafetyRules.InitializeEffect | consensus/safety-rules/src/safety_rules.rs:275-371 | entering an epoch changes the safety data only to a fresh one of a later epoch, and the epoch state and signer only to those of the epoch that the safety data is in |
| SigningRules.ProposalGoodIff | consensus/safety-rules/src/safety_rules.rs:81-111 | a proposal passes the checks if and only if it is of the epoch, rests on a good certificate, is signed by its proposer or is a NIL block, follows its parent in round and time, is empty after the end of an epoch and does not follow a committed end, and was executed on its parent's state; the vote data describes it |
| SigningRules.TcGoodIff | consensus/consensus-types/src/timeout_2chain.rs:123-152 | a two-chain timeout certificate passes if and only if its certificate is good and below its round, and a quorum signed, each for the round of a certificate, none above the one it carries |
| SigningRules.VoteSignedIff | consensus/safety-rules/src/safety_rules.rs:373-409 | three-chain rule: a vote is signed if and only if there is a key, the proposal is good and it repeats the vote of the round or is above the last voted round on a parent not below the preferred round; what the vote commits, by rounds, and what is remembered |
| SigningRules.SignsFallingVersion | consensus/consensus-types/src/vote_data.rs:51-72 | under every validator set the rules sign a vote that fails that check, for a block on a genesis that claims a higher version |
| SigningRules.VoteTwoChainSignedIff | consensus/safety-rules/src/safety_rules_2chain.rs:46-88 | two-chain rule: the same, for a round right after the parent's or right after that of a timeout certificate whose highest certificate is not above the parent |
| SigningRules.TimeoutSignedIff | consensus/safety-rules/src/safety_rules.rs:434-459 | a timeout is signed if and only if it is of the epoch, above the preferred round and not below the last voted round; only that round is remembered |
| SigningRules.TimeoutTwoChainSignedIff | consensus/safety-rules/src/safety_rules_2chain.rs:17-44 | the same with a certificate: the round follows the certificate's or a timeout certificate's, and the certificate is not below the highest one voted on |
| SigningRules.VoteReleasedIff | consensus/safety-rules/src/safety_rules.rs:387-409 | with a failing storage or key: a repeated vote needs neither, a new one both, and nothing is stored without a vote |
| SigningRules.TimeoutReleasedIff | consensus/safety-rules/src/safety_rules.rs:447-458 | a timeout is stored before it is signed, so that a failing key leaves the round closed to votes |
| SigningRules.EnteredIff | consensus/safety-rules/src/safety_rules.rs:275-330 | field by field, when the waypoint moves, when the safety data is reset and when the set is installed, whatever fails on the way |
| SigningRules.SignerIff | consensus/safety-rules/src/safety_rules.rs:331-371 | which signer the rules have in the epoch and which error says why not |
| Protocol.StepKeepsWorldInv | consensus/safety-rules/src/safety_rules.rs:81-251 | every step of every honest validator keeps the invariant on all logs: what was signed passed the checks, rounds voted in go up, the preferred round and the certificate round are never undercut, the last vote is remembered |
| Protocol.RunKeepsWorldInv | consensus/safety-rules/src/safety_rules.rs:81-251 | the invariant holds in every reachable state, across epochs, restarts and storage failures |
| Protocol.OneVoteEntryPerRound | consensus/safety-rules/src/safety_rules.rs:225-245 | a validator signs at most one vote in a round of an epoch |
| Protocol.ReleasedVotesAreLogged | consensus/safety-rules/src/safety_rules.rs:387-409 | every vote that leaves the rules is in the log, also one that is sent a second time |
| CommitSafety.CertificatesAgree | consensus/safety-rules/src/safety_rules.rs:225-245 | two certificates of one round certify the same block, execution result and commit decision |
| CommitSafety.CertifiedDescends | consensus/safety-rules/src/safety_rules.rs:162-200 | three-chain rule: every certified block at or above a committed one is on a branch of certified blocks that starts from it |
| CommitSafety.TimeoutAfterCommit | consensus/safety-rules/src/safety_rules_2chain.rs:93-117 | two-chain rule: a timeout certificate of the epoch, at or above a commit certificate's round, carries a certificate at least as high as what was committed |
| CommitSafety.CertifiedDescendsTwoChain | consensus/safety-rules/src/safety_rules_2chain.rs:119-169 | two-chain rule: if every timeout certificate that a vote relied on is of its epoch, or its round follows that of its highest certificate, every certified block at or above a committed one is on a branch of certified blocks that starts from it |
| CommitSafety.CommittedBlocksOnOneChain | consensus/safety-rules/src/safety_rules_2chain.rs:46-169 | in every reachable state, of two blocks committed in an epoch one extends the other and, in coupled epochs, its transactions extend the other's, under the three-chain rule always and under the two-chain rule if no harmful timeout certificate was relied on |
| CommitSafety.OneCertificatePerRound | consensus/safety-rules/src/safety_rules.rs:373-409 | in every reachable state, whatever timeout certificates were used and whether or not execution is decoupled, certificates of one round agree |
| CommitSafety.CommitsIffConsecutive | consensus/safety-rules/src/safety_rules.rs:162-182 | in every reachable state a certificate commits a block past the genesis round if and only if the rounds from it up to the certified block are consecutive, three of them or two according to the rule, whatever the kinds of the blocks |
| CommitSafety.CertifiedFollows | consensus/consensus-types/src/block.rs:240-283 | in every reachable state a certified block is not before its parent in time, and later exactly if it is a proposal inside the epoch; after a block that ends the epoch it carries no transactions, and it does not build on a certificate that commits such an end |
| CommitSafety.LedgerInfosOnOneChain | types/src/epoch_state.rs:33-43 | in every reachable state, any two ledger infos that an epoch's validator set vouches for describe one ledger, one accumulator a prefix of the other, with the same condition on the two-chain rule |
| TimeoutEpochs.TwoBranchesCommitted | consensus/safety-rules/src/safety_rules_2chain.rs:137-148 | for all h and r with h + 2 <= r, up to the end of the 64-bit range, a run of one honest validator, built step by step, in which epoch 2 relies on a timeout certificate of epoch 1, of round r and highest certified round h only, and commits two blocks that do not extend each other |
| TimeoutEpochs.SafeIffRejectsGaps | consensus/safety-rules/src/safety_rules_2chain.rs:46-169 | for every guard on the round and the highest certified round of timeout certificates of other epochs: two-chain commits are safe over all configurations, runs and epochs if and only if the guard rejects every certificate whose round does not follow its highest certified round |
| PendingVotes.PendingVotesService.Insert | consensus/src/pending_votes.rs:77-221 | the whole new state and the answer, for every vote |
| PendingVotes.RunKeepsInv | consensus/src/pending_votes.rs:77-221 | over every run, signatures belong to stored votes and timeout signers are authors whose stored vote carries a timeout |
| VoteCollection.SignersPartitionVoters | consensus/src/pending_votes.rs:89-139 | over every run, the signers of a ledger info are exactly the authors whose stored vote is for it; signer sets are disjoint and cover all voters |
| VoteCollection.PowerConserved | consensus/src/pending_votes.rs:89-139 | the powers behind all ledger infos add up to the power of all voters |
| VoteCollection.QuorumCertExact | consensus/src/pending_votes.rs:111-152 | with known authors, a certificate for a ledger info has been returned if and only if its stored votes reach quorum |
| VoteCollection.NoErrors | consensus/src/pending_votes.rs:141-152 | with known authors no insertion is ever an error |
| VoteCollection.SingleCollectorAgrees | consensus/src/pending_votes.rs:89-139 | one collector never certifies two ledger infos, however many authors are faulty |
| VoteCollection.TimeoutsCollected | consensus/src/pending_votes.rs:154-221 | over every run, a stored timeout is in the certificate under collection unless the vote's ledger info reached quorum |
| VoteCollection.AnswerExact | consensus/src/pending_votes.rs:77-221 | over every run with known authors, the answer to every vote: equivocation, duplicate, quorum certificate, timeout certificate of either kind with its signers, or the power behind the ledger info |
| VoteCollection.TimeoutCertExact | consensus/src/pending_votes.rs:154-221 | over every run, a timeout certificate of either kind has been returned if and only if the timeouts under collection reach quorum |
| VoteCollection.AnswerFromStoredVotes | consensus/src/pending_votes.rs:77-221 | until a certificate is returned every stored timeout is collected, so that the stored votes alone decide the next answer |
| VoteCertificates.QuorumCertVerifies | consensus/src/pending_votes.rs:117-139 | a quorum certificate aggregated from verified votes passes verification |
| VoteCertificates.TimeoutCertVerifies | consensus/src/pending_votes.rs:154-186 | a timeout certificate aggregated from verified votes of one round passes verification |
| VoteCertificates.TwoChainTimeoutCertVerifies | consensus/src/pending_votes.rs:188-221 | a two-chain timeout certificate aggregated from verified votes of one round passes verification if and only if, before the completing vote is inserted, the collected timeouts and the one in that vote carry certificates below the round |
| VoteCertificates.OneKindOfTimeout | consensus/consensus-types/src/vote.rs:173-207 | in every run of votes that verify, no validator is collected for both kinds of timeout certificates |
| VoteCertificates.CollectedTcFails | consensus/src/pending_votes.rs:188-221 | two verified votes that complete a timeout certificate which fails verification |
| VoteCertificates.ReplicasAgree | consensus/src/pending_votes.rs:77-221 | replicas that collect any verified votes in any order never certify different ledger infos in one round of a reachable state, whatever timeout certificates were used |
| VoteCertificates.EquivocationIsReal | consensus/src/pending_votes.rs:89-109 | equivocation is answered only if the author was heard voting for something else before |
| VoteCertificates.HonestNeverEquivocates | consensus/src/pending_votes.rs:89-109 | no collector in a reachable state answers an honest validator's vote as equivocation |
| TimeoutCertificates.VerifyTwoChain | consensus/consensus-types/src/timeout_2chain.rs:123-151 | the loop accepts exactly a quorum of valid signatures whose highest signed round is that of a valid certificate below the round |
| TimeoutCertificates.HighestSignedRound | consensus/consensus-types/src/timeout_2chain.rs:131-145 | an answer exists if and only if all signatures are valid, and is the maximum signed round |
| RoundManager.RoundManagerService.HandleProposal | consensus/src/round_manager.rs:527-623 | new state and vote sent for every outcome of execution, of the request to the rules and its repetition, and of the database |
| RoundManager.RoundManagerService.HandleLocalTimeout | consensus/src/round_manager.rs:443-502 | new state and timeout vote sent: the round's vote again, or a vote for the NIL block of the round on the highest certificate, with every failure on the way |
| RoundManager.RunKeepsInv | consensus/src/round_manager.rs:443-623 | over every run of events, whatever was sent, recorded or saved is guarded by the safety data and consistent |
| RoundManager.VoterNeverEquivocates | consensus/src/round_manager.rs:443-623 | in every run of proposals, timeouts, failures, repeated requests, new rounds, epochs and restarts, the votes sent in a round carry one ledger info |
| RoundManager.ProposalVotedIff | consensus/src/round_manager.rs:527-623 | a vote is sent for a proposal if and only if it is acceptable and executed, nothing was voted for in the round, and the rules and the database say yes; what is recorded and saved |
| RoundManager.TimeoutRepeatsVote | consensus/src/round_manager.rs:457-502 | a local timeout in a round that was voted in sends that vote again, with a timeout, if and only if it has one or the rules sign it |
| RoundManager.TimeoutVotesNil | consensus/src/round_manager.rs:457-502 | a local timeout in any other round votes for the NIL block on the highest certificate, exactly when that certificate allows it |
| RoundManager.VoteHeld | consensus/src/liveness/round_state.rs:271-279 | a recorded vote stays recorded until the round ends or the replica restarts, and whatever is sent meanwhile repeats it |
| RoundManager.RoundsGrow | consensus/src/liveness/round_state.rs:227-241 | rounds only go up, to that of the certificates |
| RoundManager.RestartRecordsRecovered | consensus/src/round_manager.rs:791-802 | after a restart the recorded vote is the one recovery returned, if it is of the round entered, and otherwise none |
| Replicas.HandleRefines | consensus/src/round_manager.rs:443-623 | every event of the voter code, with its requests repeated after initializing where the wrapper does so, is a sequence of steps of the safety rules, and every vote it sends was signed by them |
| Replicas.SystemRunRefines | consensus/src/round_manager.rs:443-623 | in every run of replicas the rules behind them are in a reachable state, and every vote ever sent is in the log of its author |
| Replicas.CollectorsAgree | consensus/src/pending_votes.rs:77-221 | replicas that run the voter code and collect whatever arrives never certify different ledger infos in one round |
| Replicas.ReplicasNeverEquivocate | consensus/src/pending_votes.rs:89-109 | a vote sent by the voter code is never answered as equivocation |
| Replicas.SentVotesVerify | consensus/src/round_manager.rs:443-623 | in every run of replicas a vote that was sent, for a proposal, a NIL block or with a timeout of either kind, passes the check of collectors if and only if its author is in the set and the version does not fall from an agreed genesis |
| EpochChange.Verify | types/src/epoch_change.rs:66-118 | the loop with its changing verifier computes the acceptance of a proof, with the same error |
| EpochChange.AcceptedIff | types/src/epoch_change.rs:66-118 | a proof is accepted if and only if, after its stale entries, it is an unbroken chain whose last entry is not stale; that entry is returned and installs a set |
| EpochChange.RejectedIff | types/src/epoch_change.rs:66-118 | what is not accepted is empty, or ends with a stale entry, or has a first entry after the stale ones that the set then trusted does not sign or that installs no set; the error says which |
| EpochChange.StalePrefixIrrelevant | types/src/epoch_change.rs:77-90 | stale entries in front of a non-empty proof never change the answer |
| EpochChange.PathIndependent | types/src/epoch_change.rs:77-117 | whoever trusts the set installed by an entry of an accepted proof accepts it with the same result, except after the last entry, where it is stale |
| EpochChange.ProofSplits | types/src/epoch_change.rs:77-117 | an accepted proof cut after its first non-stale entry gives two accepted proofs that meet |
| EpochChange.ProofsConcatenate | types/src/epoch_change.rs:77-117 | accepted proofs that meet concatenate to an accepted proof |
| EpochChange.WaypointCommitsTo | types/src/waypoint.rs:126-148 | two ledger infos have the same waypoint exactly if epoch, state, version, time and next validator set agree |
| EpochChange.WaypointVerifies | types/src/waypoint.rs:61-79 | a ledger info passes the check against a waypoint if and only if it has that waypoint |
| TrustedState.StartsAligned | types/src/trusted_state.rs:80-96 | a state is built exactly from an epoch-ending ledger info and the accumulator it commits to |
| TrustedState.RatchetMonotone | types/src/trusted_state.rs:174-296 | a ratchet keeps waypoint and accumulator at one version, never lowers the version and only appends to the accumulator |
| TrustedState.VersionChangeRaisesVersion | types/src/trusted_state.rs:262-294 | a version change keeps the validator set and strictly raises the version |
| TrustedState.EpochAdvanceRaisesEpoch | types/src/trusted_state.rs:212-260 | an epoch change strictly raises the epoch, also in the fallback to the epoch change itself |
| TrustedState.AdvanceIff | types/src/trusted_state.rs:174-260 | an epoch change is accepted, with this new state, if and only if the proof is accepted from what the client trusts, the latest ledger info is vouched for by the new set or left aside for a later page, and the leaves lead to the target |
| TrustedState.VersionChangeIff | types/src/trusted_state.rs:272-293 | a new version is accepted, with this new state, if and only if the trusted set signed it in its epoch and the leaves lead to it |
| TrustedState.NoChangeIff | types/src/trusted_state.rs:272-277 | nothing changes if and only if no epoch change is needed and the latest ledger info is the one the client trusts |
| LightClient.RatchetStaysOnChain | types/src/trusted_state.rs:174-296 | from a canonical state any proof leads to a canonical state, without trust in the initial accumulator |
| LightClient.AcceptedLatestOnChain | types/src/trusted_state.rs:174-296 | the latest ledger info of every accepted answer is on the chain, also if it changes nothing, unless the client fell back to the last epoch change because more are to come and the latest is of a later epoch |
| LightClient.RunStaysOnChain | types/src/trusted_state.rs:161-296 | every sequence of arbitrary proofs reaches only canonical waypoints and validator sets, and moves forward |
| LightClient.HonestQuorumsVouch | types/src/epoch_state.rs:33-43 | if honest keys sign one chain and at most f of the power is faulty, whatever a quorum signs is on the chain |
| LightClient.HonestChainIsSafe | types/src/trusted_state.rs:161-296 | under that fault bound every run of the client stays on the chain |
| LightClient.ClientsAgree | types/src/trusted_state.rs:161-296 | the accumulators of two clients are prefix-comparable after any runs, and in one epoch they trust one set |
| LedgerSafety.ClientsOfEpochAgree | types/src/trusted_state.rs:262-294 | two clients that move forward inside an epoch on ledger infos of a reachable world have prefix-comparable accumulators, whatever they trusted before |
| LedgerSafety.SuffixUnchanged | execution/executor/src/block_executor.rs:81-87 | every certified descendant of a block that ends the epoch has its state and names its next validator set |
| LedgerSafety.EndsAgree | consensus/src/persistent_liveness_storage.rs:97-118 | all ledger infos that end an epoch agree on the state and on the next validator set |
| LedgerSafety.OrderedAcrossEpochs | consensus/consensus-types/src/quorum_cert.rs:64-98 | the transactions of anything signed in an epoch are a prefix of those of anything signed in a later epoch |
| LedgerSafety.SignedIsChain | types/src/epoch_state.rs:33-43 | all that the validators of a reachable world can sign, over all epochs, together with genesis, is one chain in the sense light clients need |
| LedgerSafety.ClientsOfRunAgree | types/src/trusted_state.rs:161-296 | clients that start from the genesis waypoint and are fed any proofs of a reachable world, through any number of epochs, have prefix-comparable accumulators and trust the epoch's set |
| LedgerSafety.OpenRunIsRun | consensus/safety-rules/src/safety_rules.rs:275-371 | validators that learn every set from epoch-change proofs of the adversary's choice install only the set of the epoch |
| LedgerSafety.OneLedger | types/src/trusted_state.rs:161-296 | the agreement of clients over such runs |
| LedgerSafety.OpenRunExists | consensus/safety-rules/src/safety_rules_2chain.rs:46-88 | a run from the genesis waypoint that is lawful at every state and in which an epoch ends |
| FullNode.GetEpochIs | storage/diemdb/src/ledger_store/mod.rs:67-96 | the epoch of a version is the first that ends at or after it |
| CatchUp.SyncOutcome | storage/diemdb/src/lib.rs:907-957 | one answer of an honest node fails if and only if the client is blocked; otherwise the client is up to date or at the end of a later epoch |
| CatchUp.CatchesUpIff | types/src/trusted_state.rs:212-293 | for every page size, a client reaches the latest ledger info in finitely many answers if and only if it is not lost |
| CatchUp.OnTrackArrives | types/src/trusted_state.rs:212-293 | one answer for every epoch it is behind, plus one, is enough |
| CatchUp.LostNeverArrives | storage/diemdb/src/lib.rs:934-948 | a lost client is never up to date, after any number of answers |
| CatchUp.LostClient | storage/diemdb/src/lib.rs:370-412 | for every page size an honest node and a client that is lost |
| MetricsSafetyRules.PerformInitialize | consensus/src/metrics_safety_rules.rs:36-65 | the loop ends, since the waypoint version grows up to the ledger version, in the state and with the answer of asking page by page |
| MetricsSafetyRules.AgainMovesWaypoint | consensus/src/metrics_safety_rules.rs:50-61 | another page is asked for only if the waypoint moved forward to the version reported |
| MetricsSafetyRules.InitializedMonotone | consensus/src/metrics_safety_rules.rs:36-65 | waypoint version and epoch never go down, and the loop never gives up while the waypoint moves |
| MetricsSafetyRules.Retry | consensus/src/metrics_safety_rules.rs:67-82 | new state and answer: the first call, or initializing and a second call when the first found the rules behind |
| MetricsSafetyRules.RetriedExact | consensus/src/metrics_safety_rules.rs:67-82 | after the errors "not initialized", "incorrect epoch" and "waypoint out of date" the answer is that of the rules once initialized, or the error of initializing; every other answer stands |
| MetricsSafetyRules.FoundBehindIff | consensus/src/metrics_safety_rules.rs:67-82 | the rules answer one of the three errors exactly if they have no signer, or are in another epoch than the request, or need a validator set to check its certificate and have none |
| MetricsSafetyRules.RequestMeetsEpoch | consensus/src/metrics_safety_rules.rs:67-82 | against an honest node, a request of the epoch that initializing leads to is never refused with any of the three errors that start it over, if the validator is in the set and its key is found |
| MetricsSafetyRules.HonestNodeInitializes | consensus/src/metrics_safety_rules.rs:36-65 | against an honest node with pages of two or more, if the node is not behind the epoch the rules voted in they enter the epoch after the first page that reaches it, given in closed form, and otherwise the waypoint ends at the node's last epoch change |
| MetricsSafetyRules.EntersNodesEpochIff | consensus/src/metrics_safety_rules.rs:47-61 | that epoch is the node's if and only if no page ends between the epoch the rules voted in and the node's |
| Recovery.RecoveryStore.FindRoot | consensus/src/persistent_liveness_storage.rs:87-145 | what is left in the vectors and what is found, for every input |
| Recovery.RecoveryStore.FindBlocksToPrune | consensus/src/persistent_liveness_storage.rs:283-304 | the blocks and certificates kept, in order, and the ids reported |
| Recovery.RootExact | consensus/src/persistent_liveness_storage.rs:120-145 | the root is found if and only if it, a certificate for it and a commit of it are stored; only the root is taken out and the rest is sorted |
| Recovery.RootIs | consensus/src/persistent_liveness_storage.rs:87-145 | in the middle of an epoch the root is the stored block that the ledger ends with, with the first certificates stored for it, and nothing is added; at its end it is the genesis block of the next epoch, with its certificate added |
| Recovery.EpochEndHasRoot | consensus/src/persistent_liveness_storage.rs:97-118 | a ledger that stopped at an epoch's end always has a root, the next epoch's genesis |
| Recovery.GenesisContinues | consensus/consensus-types/src/quorum_cert.rs:69-97 | the genesis block of an epoch continues state, version and time of the ledger info that ended the previous one, in round 0 of the next epoch, and its certificate passes under every validator set |
| Recovery.KeptIsTree | consensus/src/persistent_liveness_storage.rs:283-304 | without any assumption on rounds, every kept block hangs off the root or an earlier kept block |
| Recovery.NothingLost | consensus/src/persistent_liveness_storage.rs:283-304 | kept and reported ids together are the ids of the input |
| Recovery.PruneIdempotent | consensus/src/persistent_liveness_storage.rs:283-304 | a second pass prunes nothing and preserves order |
| Recovery.KeepsExactlySubtree | consensus/src/persistent_liveness_storage.rs:283-304 | if keys grow along parent links, a block is kept if and only if a stored path leads from the root to it |
| Recovery.Recover | consensus/src/persistent_liveness_storage.rs:192-250 | the composition of finding the root and pruning, with the root's metadata, and with votes and timeout certificates of other epochs dropped |
| Recovery.RecoversLiveness | consensus/src/persistent_liveness_storage.rs:229-249 | the vote and the two timeout certificates that survive a restart are exactly the stored ones of the epoch of the root |
| Recovery.RecoversSubtree | consensus/src/persistent_liveness_storage.rs:192-250 | a restart keeps exactly the stored blocks below the root |
| Recovery.RecoversTree | consensus/src/persistent_liveness_storage.rs:192-250 | a restart keeps exactly the certificates of the root and of kept blocks, the root's own among them |
| Recovery.RecoveryLosesNothing | consensus/src/persistent_liveness_storage.rs:192-250 | every stored block is the root, kept or reported, exactly once |
| Events.AcceptsExactlyTheAnswer | types/src/contract_event.rs:454-567 | with the true count the right answer is accepted at every version, and no other |
| Events.AcceptedWithCount | types/src/contract_event.rs:454-567 | which answers pass for any claimed number of events, true or not: the right one if its upper bound is among them, else the last of them if it is old enough, else none |
| Events.AcceptedLowerBoundIsLatest | types/src/contract_event.rs:454-567 | an accepted lower bound is the latest event at or below the version |
| Events.AcceptedWithoutCount | types/src/contract_event.rs:468-477 | without a count, exactly which answers are accepted |
| Events.DecidedWithoutCountIff | types/src/contract_event.rs:468-477 | without a count the right answer is the only accepted one if and only if the key has no events |
| BlockRetrieval.ProcessBlockRetrieval | consensus/src/round_manager.rs:758-777 | the stored chain from the requested id, cut at the target, the length or a missing block, with a status that says which |
| BlockRetrieval.AnswerUnique | consensus/src/round_manager.rs:758-777 | store and request determine the answer |
| BlockRetrieval.AnswerPasses | consensus/consensus-types/src/block_retrieval.rs:102-134 | an honest answer passes the requester's check if and only if each block is valid on its own |
| BlockRetrieval.AcceptedIff | consensus/consensus-types/src/block_retrieval.rs:102-133 | whoever answers, what passes the check is as long as asked or ends at the target if it says so, and is a chain from the id asked for of well-formed blocks, proposed by validators on good certificates; and everything of that kind passes |
| BlockRetrieval.VerifiedResponsesAgree | consensus/consensus-types/src/block_retrieval.rs:102-134 | responses that pass the check agree on every block both contain, whoever sent them |
| Codecs.WaypointRoundTrip | types/src/waypoint.rs:96-124 | printing then parsing a waypoint is the identity |
| Codecs.WaypointParsesIff | types/src/waypoint.rs:107-124 | a text is accepted, and for which waypoint, exactly: its first two parts between colons are the number, within 64 bits, and the hash, up to a plus sign, leading zeros and the case of letters |
| Codecs.WaypointPrintsBackIff | types/src/waypoint.rs:96-124 | parsing then printing gives the text back if and only if it has no plus sign, no redundant leading zero, no upper-case digit and no third part |
| Codecs.OtherTextsAccepted | types/src/waypoint.rs:108-124 | for every waypoint, texts with a plus sign in front and anything behind parse to it |
| Codecs.NewIdentifier | types/src/diem_id_identifier.rs:79-107 | the loop accepts exactly the identifiers of allowed length in bytes and allowed characters, and says which check failed first and on which character |
| Codecs.IdentifierLength | types/src/diem_id_identifier.rs:79-107 | the length in bytes of an accepted identifier is its number of characters |
| Codecs.DiemIdFromStr | types/src/diem_id_identifier.rs:63-73 | the parser splits at the first at-sign and accepts two valid identifiers; without an at-sign it says so, and it reports a length only if one is wrong |
| Codecs.DiemIdRoundTrips | types/src/diem_id_identifier.rs:52-73 | a string parses to a DiemID if and only if that DiemID is valid and prints as the string |
| Codecs.NewFromAddress | types/src/event.rs:62-68 | the two getters give back address and creation number |
| Codecs.EventKeyUnique | types/src/event.rs:43-51 | a key is determined by its creator and creation number |

## Left out

- Ed25519, BCS, hashing and the Merkle accumulator: replaced by ideal values as described above.
- Commit votes of decoupled execution (`guarded_sign_commit_vote`): in decoupled epochs the theorems are about ordering votes and the certificates made of them; the signatures on executed ledger infos that follow are not part of this model, nor do clients follow decoupled epochs.
- Proposal signing and leader election: they do not take part in the safety argument.
- The block store, the sync manager and the requester's retrieval loop: a certificate's commit info stands for what is committed.
- Wall-clock deadlines: a timeout is an event that may happen at any time.
- The executor and the block store: what they guarantee behind an honest vote is the hypothesis `LedgerSafety.Lawful`, described above.
- Commits of the genesis round in `CommitSafety`: a certificate of round 0 carries no signatures, and the root of a block tree is never behind it; `LedgerSafety` covers ledger infos of that round.
- The empty block info: its executed state is the empty accumulator, since the sequence that stands for an accumulator has no all-zero hash; nothing reads that field.
- Validators.CheckVotingPower: sums without a width; the 64-bit sum of the source cannot wrap for distinct authors, which is what every caller passes.
- Codecs: the serde forms of these types, which reuse the text and byte forms.
- FullNode: the iterators over the database are sequences, and a corrupted database is not modelled.
- Network, RPC, REST, configuration, metrics and logging.
