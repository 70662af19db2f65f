# IEUM node core: a Dafny model and its proofs

This project models the consensus and ledger core of the IEUM blockchain node, together
with the stateful components around it, and proves what they promise for all inputs and
all runs.

* **Consensus.** `Bft` is the propose, prevote, precommit state machine with its locks,
  `Runtime` the node around it (candidate block, deferred votes, timeouts, certificates,
  sync). `Safety` and `NodeSteps` hold the invariant of one node, `Agreement` the network:
  honest nodes take runtime steps, everybody else may send anything that does not forge an
  honest signature. The main result is that no run produces two verifying certificates for
  one height with different blocks; `ChainAgreement`, `Locks`, `Deferral`,
  `DeferredVotes`, `Sync`, `SyncRuns` and `EventRuns` build on the same invariant.
  `Rotation` says whose turn it is, `Proposals` what is proposed and accepted, `Deadlines`
  when a round times out, `Finality` what is stored and handed out.
* **Ledger.** `Ledger` executes transfers and system events, `Chain` replays and snapshots,
  `Statements` and `StatementRuns` say what each account has gained and lost.
* **Archive.** `Calendar` and `FileNames` carry the arithmetic that `Archive` relies on to
  find its newest checkpoint.
* **Components.** `Rlp` and `RawTransaction`, `PoolList` (the mempool as a plain list),
  `Chunks`, `ChunkRounds` and `RoundRobin` (snapshot download), `Emission` and `Shares`,
  `Lottery`, `PeerSelection` and `PeerPreferences`.
* **Objects.** The source updates these things in place. `BftMachine`, `RuntimeMachine`,
  `Chain.Blockchain`, `ArchiveMachine`, `MempoolMachine` and `ChunkMachine` hold classes
  with the source's fields, and each method is proved to leave exactly the state that the
  specification function of the same name computes.

`Basics`, `Arithmetic`, `Weights`, `Sorting` and `Bytes` are shared theory.

Reading conventions. Signature checks, hashes, text encoding, key recovery, serialized
sizes and the clock are function values or parameters, so every theorem holds for any of
them. Assumptions about them are named predicates: `Crypto.Sound` (text encoding is
injective and a message check verifies the signature over the message bytes),
`Agreement.Unforged` (a signed vote payload of an honest node was signed by it),
`Chain.HexHashes` (block hashes are 64 hex digits) and `ChainAgreement.CollisionFree` (no
two blocks of the two chains at hand collide).
`Agreement.Assumptions` adds a fixed validator set with distinct ids, positive powers and a
total that fits u64, of which at most a third is Byzantine. `DemoNetwork` shows a network
and a run that meet all of this. `signed`, `log` and `completed`
are journals the source does not keep; they only record what happened.

Where the code does not do what one would expect, the exact condition is proved:
`Quorum.SaturatingIsExactIff`, `Messages.ProposalBytesInjective`, `Ledger.FeeOverflowIff`,
`Locks.AdvanceLosesBlockIff`, `Archive.DirectoryWithinLimitIff`,
`FileNames.NamesInOrderIff`, `Rlp.ReencodesIff`, `PoolList.SaturatingGuardIff`,
`RoundRobin.NextPeerCompleteIff`, `Chunks.PartitionIff`, `DeferredVotes.ReplayCleanIff` (with
the failing input in `DemoRefusal.RefusalLeavesPlayable`) and
`History.RestoredScheduleDiffersIff`.

## Model

| member | source | states |
|---|---|---|
| Messages.VoteBytesInjective | src/consensus.rs:248-267 | the signed bytes of two votes whose voters fit their 64-bit length prefix are equal exactly when height, round, voter, type and hash are |
| Messages.OwnVoteBytesInjective | src/consensus.rs:248-267 | for votes of one validator the same holds without any bound on texts |
| Messages.ProposalBytesInjective | src/consensus.rs:110-124 | the signed bytes of a proposal whose texts fit their length prefix determine its fields, except that no valid round and round 2^32-1 coincide |
| Messages.ProposalIsNoVote | src/consensus.rs:110-124 | a proposal signature can never serve as a vote signature |
| Quorum.SaturatingImpliesExact | src/consensus.rs:571-581 | the saturating two-thirds test never accepts what the exact test refuses |
| Quorum.SaturatingIsExactIff | src/consensus.rs:571-581 | both tests agree on all reachable powers if and only if twice the total fits u64; beyond that no quorum exists |
| Quorum.QuorumsShareHonest | src/consensus.rs:571-581 | two quorums share a validator outside any set with at most a third of the power |
| Quorum.ListPowerIsTotal | src/consensus.rs:208-244 | the list total used by certificates is the table total when ids are distinct |
| Quorum.VerifyCertificate | src/consensus.rs:208-244 | the counting loop accepts exactly certificates with a correct block hash and matching, signed, registered precommits of more than two thirds |
| Bft.StartRoundInv | src/consensus.rs:433-451 | a new round keeps the invariant; the lock survives within a height and is released by a higher one |
| Bft.UnlockUnreachable | src/consensus.rs:478-500 | the unlock test fails in every state where lock and valid value agree, and a proposal is accepted exactly when it is well formed, in turn and for the lock |
| Bft.HandleProposalInv | src/consensus.rs:478-500 | an accepted proposal keeps the state-machine invariant |
| Bft.HandleInv | src/consensus.rs:502-569 | every vote, accepted or refused, keeps the state-machine invariant: lock equals valid value, tallies are backed by recorded votes, the phase means its quorum |
| Bft.HandleFrame | src/consensus.rs:502-569 | an accepted vote adds exactly its voter to one tally and moves the phase only on a quorum; a refused one changes no tally |
| Bft.RecordConflictInv | src/consensus.rs:519-542 | a recorded double vote is evidence that verifies |
| Bft.EquivocationCaught | src/consensus.rs:502-542 | two votes of one validator for different hashes of one round and type always leave evidence, in whichever order they arrive and whatever they are for |
| BftMachine.OneProposer | src/consensus.rs:453-457 | for every height and round there is exactly one proposer, whatever order the validator map lists |
| Rotation.FirstProposer | src/consensus.rs:453-457 | in round 0 of height 1 the sole proposer is the validator with the least id |
| Rotation.TimeoutPassesTurn | src/consensus.rs:453-457 | after a timeout the sole proposer is the next validator in text order, the least one after the greatest |
| Rotation.HeightPassesTurn | src/consensus.rs:453-457 | from height 1 on each height starts with the validator after the one the height before started with |
| Rotation.EveryoneOnce | src/consensus.rs:453-457 | in any run of as many rounds of a height as there are validators each of them is sole proposer exactly once |
| BftMachine.RankIsPosition | src/consensus.rs:453-457 | the number of smaller ids is the position in the sorted id list |
| BftMachine.BftConsensus.New | src/consensus.rs:402-431 | construction succeeds exactly for a non-empty list with distinct ids and positive powers, and starts in the initial state with the u64 sum of the powers |
| BftMachine.BftConsensus.StartRound | src/consensus.rs:433-451 | in-place round start is the specified transition and leaves everything unchanged on error |
| BftMachine.BftConsensus.OnTimeout | src/consensus.rs:604-611 | the next round of the same height, or an error at the last round number |
| BftMachine.BftConsensus.ExpectedProposer | src/consensus.rs:453-457 | indexing the sorted ids finds the unique proposer |
| BftMachine.BftConsensus.ProposeHash | src/consensus.rs:459-476 | accepts a hash only in the propose phase from the proposer; otherwise nothing changes |
| BftMachine.BftConsensus.HandleProposal | src/consensus.rs:478-500 | the in-place proposal handler is the specified transition |
| BftMachine.BftConsensus.QuorumFor | src/consensus.rs:571-581 | summing the counted voters in any order decides the quorum |
| BftMachine.BftConsensus.Handle | src/consensus.rs:502-569 | the in-place vote handler is the specified transition, including what it records on refusal |
| BftMachine.BftConsensus.TakeEvidence | src/consensus.rs:599-602 | hands out the evidence list and empties it |
| Safety.SignKeepsJournal | src/consensus_runtime.rs:309-333 | signing the expected hash keeps: one hash per height, round and type, and no switch after a precommit |
| Safety.OwnCertificateValid | src/consensus_runtime.rs:210-228 | whenever a node finalizes, the certificate built from its separate precommit list verifies |
| Safety.ReceiveProposalKeeps | src/consensus_runtime.rs:145-169 | any proposal keeps the node invariant |
| Safety.RespondOutcome | src/consensus_runtime.rs:171-231 | a received vote can only fail in the state machine, the signer or the execution of the block; a hash mismatch or bad own certificate never happens |
| Safety.ReceiveVoteKeeps | src/consensus_runtime.rs:171-231 | any vote that forges no honest signature keeps the node invariant, and the signed journal only grows |
| NodeSteps.ReplayKeeps | src/consensus_runtime.rs:251-274 | replaying deferred votes keeps the node invariant |
| NodeSteps.EnterNextHeightKeeps | src/consensus_runtime.rs:440-452 | moving on keeps the invariant, even from a finalized round whose block could not be executed |
| NodeSteps.SyncKeeps | src/consensus_runtime.rs:399-437 | applying any list of certificates keeps the node invariant |
| NodeSteps.StepKeeps | src/consensus_runtime.rs:145-452 | every call into the runtime keeps the node invariant |
| Agreement.RunInv | src/consensus_runtime.rs:145-452 | in every state of every run all honest nodes satisfy the invariant |
| Agreement.Agreement | src/consensus.rs:433-581 | at most a third Byzantine: two verifying certificates for one height name the same hash, in the same or in different rounds, whoever assembled them |
| Agreement.AgreementOverTime | src/consensus.rs:433-581 | the same for certificates that appear at different moments of a run |
| DemoNetwork.SafetyIsInhabited | src/consensus_runtime.rs:145-230 | a network with a Byzantine validator meets every assumption and has a run in which an honest node locks, finalizes and stores a verifying certificate |
| Agreement.HonestSignsOnce | src/consensus_runtime.rs:145-230 | over its whole run an honest node signs at most one hash per height, round and vote type |
| Agreement.EvidenceNeverNamesHonest | src/consensus.rs:174-186 | double-vote evidence that verifies never names an honest validator |
| Agreement.RecordedEvidenceVerifies | src/consensus.rs:519-542 | every evidence item an honest node records verifies |
| History.StepHistory | src/consensus_runtime.rs:145-452 | after every call the stored certificates match the chain height by height, verify, and every block was on schedule when taken |
| ChainAgreement.ChainsAgree | src/consensus_runtime.rs:171-230 | in every state of every run two honest chains agree at every common height |
| ChainAgreement.SameHeightSameLedger | src/chain.rs:186-216 | unless blocks of their two chains collide, honest nodes of equal height hold the same blocks, balances, nonces and events |
| Locks.LockedIsValidOnRuns | src/consensus.rs:552-560 | locked value and round equal valid value and round in every reachable state |
| Locks.ProposalKeepsLock | src/consensus_runtime.rs:145-169 | a locked node accepts no proposal but its locked block |
| Locks.ProposesLock | src/consensus_runtime.rs:119-126 | the proposal of a locked node is the locked block with the round it was locked in |
| Locks.AdvanceLosesBlockIff | src/consensus_runtime.rs:440-452 | advancing forgets the locked block exactly when the tip is below the current height and the round is 0; the lock itself is never lost |
| Locks.StepKeepsLock | src/consensus_runtime.rs:145-452 | every call keeps the lock within a height, and every call of the driver also keeps the locked block |
| Locks.LockPermanent | src/consensus.rs:486-499 | along every run a lock stays while the height stays, and everything signed at that height is for the locked hash |
| Locks.AlwaysReady | src/consensus_runtime.rs:186-191 | along every run in which nodes advance only after storing the finalized block, a locked node still has the block it is locked on |
| Locks.AlwaysProposesLock | src/consensus_runtime.rs:119-126 | along every such run the own next proposal of a locked node is the locked block with the round it was locked in |
| Proposals.UnlockedProposesGiven | src/consensus_runtime.rs:112-143 | on every run the proposal of a node that is not locked is the block it was given, for the current round and without a valid round |
| Proposals.ProposesIff | src/consensus_runtime.rs:112-143 | a proposal is made exactly in the propose phase, in turn, with a verifying signature, and it is for the locked block or else the given one |
| Proposals.TakesProposalIff | src/consensus_runtime.rs:145-169 | a proposal is taken up exactly when its block extends the tip, is dated between the tip and 30 seconds from now and carries the right events, and it comes verified from the proposer of the round without going against a lock |
| Proposals.ProposalAccepted | src/consensus_runtime.rs:112-169 | what one node proposes becomes the candidate of every node in the same round that is not locked on something else, and a prevote for it is its answer |
| Deadlines.StepTimed | src/consensus_runtime.rs:276-291 | every call leaves the deadline alone, or consensus has moved or was woken up and the deadline is the time of the call plus the configured time of the phase |
| Deadlines.DeadlineMeaning | src/consensus_runtime.rs:513-515 | along every run of a node its deadline is the configured time of its phase after the phase began |
| Deadlines.TickOnRuns | src/consensus_runtime.rs:276-284 | along every run a tick does nothing before the propose, prevote or precommit time has passed since the phase began, nor when finalized; the first one after starts exactly the next round of the height, without candidate and votes and with everything else kept, or reports the last round |
| Deadlines.NodeTrace | src/consensus_runtime.rs:145-452 | every honest node of every network run has such a run of calls behind it |
| Deadlines.EntersNextHeight | src/consensus_runtime.rs:399-452 | a sync that takes over a block, and advancing after a stored block, leave the node at round 0 of the height after the tip, with nothing carried over |
| Finality.QuorumFinalizes | src/consensus_runtime.rs:210-229 | the vote that completes the precommits stores the candidate with a verifying certificate, or the ledger refuses the block and nothing is stored |
| Finality.HandedOutOnce | src/consensus_runtime.rs:394-396 | at any moment of any run the certificates handed out and those still waiting are, in order and each once, the ones the node finalized itself; synced ones are never among them |
| DeferredVotes.VoteVerdict | src/consensus_runtime.rs:171-231 | whatever the signer does, a received vote is reported as deferrable exactly when it is signed, registered, of the current round and ahead of its phase; any other failure leaves phase and tallies alone unless the vote completes the prevotes while the signer refuses the precommit, or the node was past the prevotes |
| DeferredVotes.ReplayLeavesTooEarly | src/consensus_runtime.rs:251-274 | whatever was deferred, a successful replay leaves only signed votes of registered validators for the current round that the phase then reached does not accept, unless the signer refuses the precommit while one listed vote completes the prevotes and another waits for that |
| DeferredVotes.ReplayCleanIff | src/consensus_runtime.rs:251-274 | every list of credible votes is replayed like that if and only if the signer signs this one precommit, or no vote completes the prevotes now, or no vote waits for that |
| DemoRefusal.RefusalLeavesPlayable | src/consensus_runtime.rs:251-274 | the failing input: a node whose signer refuses is left with a vote that its phase accepts |
| DeferredVotes.StepBounded | src/consensus_runtime.rs:233-249 | every call keeps at most 1,024 deferred votes, no two of them saying the same |
| DeferredVotes.DeferredBounded | src/consensus_runtime.rs:233-274 | so it is in every state of every run |
| DeferredVotes.DeferLosesOldest | src/consensus_runtime.rs:233-249 | deferring puts the vote on the list and loses nothing but the oldest vote of a full list |
| Deferral.ArrivalOrderSettles | src/consensus_runtime.rs:233-274 | under defer and replay, every arrival order and timing of one proposal and up to 1,024 non-equivocating votes ends in the phase that the set of votes determines |
| DemoNetwork.DeferralIsInhabited | src/consensus_runtime.rs:233-274 | a waiting node and votes in any arrival order meet the hypotheses of confluence |
| Deferral.Confluence | src/consensus_runtime.rs:233-274 | two arrivals of the same proposal and votes in different orders and at different times end in the same phase and finalized hash |
| Sync.ResponseShape | src/consensus_runtime.rs:345-365 | a request at or below the tip returns a non-empty contiguous run from the requested height, within 128 certificates and, beyond the first, 1.5 MB |
| Sync.ResponseMaximal | src/consensus_runtime.rs:345-365 | the response ends before the tip only at 128 certificates or where one more would exceed 1.5 MB |
| Sync.SyncOneIff | src/consensus_runtime.rs:405-432 | a certificate goes through exactly when it verifies and repeats a block of the chain or brings the next one in time, on schedule and executable; a valid one against the chain is a violation of finality |
| Sync.SyncNext | src/consensus_runtime.rs:399-437 | the server's next certificate extends a client on a prefix by exactly that block and starts the height after it |
| Sync.SyncReachesTip | src/consensus_runtime.rs:345-437 | repeated requests bring a client on any prefix to the server's chain in at most as many rounds as blocks are missing |
| SyncRuns.HonestNodesLinked | src/consensus_runtime.rs:399-437 | two honest nodes of one run with the same schedule and no colliding blocks meet what sync asks for, once the client is not ahead and its clock not behind |
| SyncRuns.SyncReachesTipOnRuns | src/consensus_runtime.rs:345-437 | so on every run repeated requests bring the client to the complete ledger of the server |
| RuntimeMachine.ConsensusRuntime.WithSigner | src/consensus_runtime.rs:79-104 | builds and starts the consensus object at round 0 of the height after the tip, and fails exactly when the validator list is refused |
| RuntimeMachine.ConsensusRuntime.MakeProposal | src/consensus_runtime.rs:112-143 | proposes the valid block if there is one, only in turn, only with a verifying signature |
| RuntimeMachine.ConsensusRuntime.ReceiveProposal | src/consensus_runtime.rs:145-169 | the in-place step is the specified one |
| RuntimeMachine.ConsensusRuntime.ReceiveVote | src/consensus_runtime.rs:171-231 | the in-place step is the specified one, through precommit and finalization |
| RuntimeMachine.ConsensusRuntime.DeferVote | src/consensus_runtime.rs:233-249 | the in-place step is the specified one and never lets the list outgrow 1,024 votes |
| RuntimeMachine.ConsensusRuntime.ReplayDeferredVotes | src/consensus_runtime.rs:251-274 | the loop reaches the fixpoint and ends because every productive sweep leaves fewer votes |
| RuntimeMachine.ConsensusRuntime.TimeoutIfDue | src/consensus_runtime.rs:276-287 | the in-place step is the specified one |
| RuntimeMachine.ConsensusRuntime.RestartPhaseTimeout | src/consensus_runtime.rs:289-291 | gives the current phase its full time from now on and changes nothing else |
| RuntimeMachine.ConsensusRuntime.TakeFinalized | src/consensus_runtime.rs:394-396 | hands out the waiting certificates and empties the list |
| RuntimeMachine.ConsensusRuntime.AdvanceAfterFinalization | src/consensus_runtime.rs:440-452 | the in-place step is the specified one |
| RuntimeMachine.ConsensusRuntime.ApplySyncCertificates | src/consensus_runtime.rs:399-437 | the loop over certificates is the specified fold, then the next height starts |
| RuntimeMachine.ConsensusRuntime.CertificatesFrom | src/consensus_runtime.rs:345-365 | the selecting loop is the specified response |
| Events.ValidateSchedule | src/scheduled_event.rs:207-216 | accepts exactly schedules of valid events with distinct ids |
| Events.DueMembers | src/scheduled_event.rs:218-227 | due events are exactly the unexecuted ones that have come of age, ordered by time and id |
| Events.DueIgnoresListing | src/scheduled_event.rs:218-240 | nodes that list the same events in any order demand the same block |
| EventRuns.ExactlyOnce | src/consensus_runtime.rs:517-585 | on every chain grown from genesis a scheduled event is executed if and only if the tip time has reached it, and stands in exactly one block |
| EventRuns.FiresInFirstBlock | src/consensus_runtime.rs:517-585 | a block carries a scheduled event exactly when the event falls due after its predecessor and not after itself, so in the first block that reaches it |
| EventRuns.ExactlyOnceOnRuns | src/consensus_runtime.rs:517-585 | both hold for every honest node in every state of every run |
| Ledger.MoveFundsTotal | src/chain.rs:368-405 | a transfer with its 80/20 fee split makes and loses no money whoever sends, receives and produces |
| Ledger.FeeOverflowIff | src/chain.rs:389-393 | given an account that can sign, the fee multiplication can overflow for some distribution of the supply if and only if 2000 times the supply less one exceeds u128 |
| Ledger.PayFromFoundationTotal | src/chain.rs:328-344 | a payment from the foundation conserves the supply, whatever it is, and with a supply within u128 fails only for lack of funds |
| Ledger.SupplyConserved | src/chain.rs:275-427 | along every run of accepted and refused blocks the balances add up to the genesis supply, whatever it is |
| Ledger.OverflowUnreachable | src/chain.rs:346-427 | no run from genesis refuses a block for a credit overflow, nor for the fee multiplication if 2000 times the supply fits u128 |
| Statements.TransferMoves | src/chain.rs:346-409 | an accepted transfer changes every balance by exactly its part: amount and fee from the sender, the amount to the recipient, the fee less a fifth to the producer, a fifth rounded down to the foundation, added up where parties coincide; the nonce of the sender alone counts up |
| Statements.TransferAcceptedIff | src/chain.rs:346-409 | with a supply within u128 a transfer is accepted exactly when it is signed, positive, in turn and covered and 2000 times its fee fits u128 |
| Statements.EventMoves | src/chain.rs:275-344 | an executed event pays every address exactly what its kind of action names for it in any spelling, and the foundation loses exactly what others gain |
| Statements.EventAcceptedIff | src/chain.rs:275-344 | with a supply within u128 an event is executed exactly when it is valid, due, new, and no payment in order exceeds what the foundation then holds |
| Statements.ValidEventPays | src/scheduled_event.rs:69-185 | a valid event names positive amounts for at most 10,000 payees, exactly 4 or 100 for the built-in rewards, and only a checkpoint names none |
| Statements.Statement | src/chain.rs:186-216 | after any accepted blocks a balance is the balance before plus what each transfer and event in them says, and a nonce has counted the transfers of its account |
| Statements.NonceSharedIff | src/chain.rs:363-369 | two transfers of one sender on one chain share a nonce exactly when the number of its transfers from one to the other is a multiple of 2^64 |
| Statements.OnlyOwnerSpends | src/chain.rs:346-409 | without a transfer signed for it the balance of an address other than the foundation never falls |
| Statements.SameAccountIff | src/chain.rs:429-438 | two valid prefixed addresses are one account exactly when they agree up to the case of letters, and reading is idempotent |
| StatementRuns.StatementOnRuns | src/chain.rs:186-216 | the account statement from genesis holds for every honest node in every state of every run |
| StatementRuns.PaidOnce | src/consensus_runtime.rs:517-585 | on every chain grown from genesis a scheduled event has contributed exactly what its action names to each balance once the tip time has reached it, and nothing before |
| StatementRuns.PaidOnceOnRuns | src/consensus_runtime.rs:517-585 | so it is for every honest node in every state of every run |
| StatementRuns.NoEventTwice | src/chain.rs:290-293 | no event id, scheduled or built in, stands twice on a chain |
| StatementRuns.BootstrapPaysValidators | src/consensus_runtime.rs:548-568 | a bootstrap reward in a block on schedule names exactly the active validators, one reward each |
| StatementRuns.BootstrapOnRuns | src/consensus_runtime.rs:548-583 | on every run a bootstrap reward on an honest chain is the only one and pays the validators |
| Chain.GenesisSelfReplaying | src/chain.rs:35-46 | a fresh chain replays to itself |
| Chain.RebuildIsIdentity | src/chain.rs:218-254 | every chain grown by apply_block from genesis replays to itself |
| Chain.HeightIsIndex | src/chain.rs:186-216 | the block at position i has height i, links to its predecessor and hashes correctly |
| Chain.RestoreAlike | src/chain.rs:79-109 | a snapshot of a chain restores to a chain with the same balances, nonces, events, tip and state hash |
| History.RestoredScheduleDiffersIff | src/consensus_runtime.rs:517-585 | the schedule check on a restored chain and on the original differ exactly for blocks that go back in time but fit otherwise |
| Chain.SnapshotSimulates | src/chain.rs:79-109 | a restored chain accepts exactly the same later blocks, refuses the others for the same reason and stays alike |
| Chain.ApplyTransactions | src/chain.rs:346-410 | the loop over transfers is the specified fold |
| Chain.ApplySystemEvents | src/chain.rs:275-326 | the loop over events is the specified fold |
| Chain.Blockchain.ApplyBlock | src/chain.rs:186-216 | installs the new state, or changes nothing and names the reason |
| Chain.Blockchain.VerifyAndRebuild | src/chain.rs:218-254 | succeeds exactly when the stored blocks replay from genesis, and then holds the replayed state |
| Calendar.YearOfEraFinds | src/archive.rs:321-325 | the closed form for the year of an era finds the year that contains the day |
| Calendar.PeriodIsCalendarMonth | src/archive.rs:317-330 | for every timestamp the arithmetic gives the year and month reached by counting Gregorian days one by one |
| Calendar.PeriodMonotone | src/archive.rs:317-330 | months never run backwards as time grows |
| FileNames.UsualNamesSortable | src/archive.rs:112-115 | up to year 9999 and below height 10^12 every later checkpoint is sortable after an earlier one |
| FileNames.NamesInOrderIff | src/archive.rs:112-115 | for all months and heights a later checkpoint has the greater name if and only if the shorter number does not exceed the leading digits of the longer one (for months: stays below them) |
| FileNames.HeightsBreak | src/archive.rs:112-115 | the name for height 10^12 sorts before the name for height 10^12-1 of the same month |
| FileNames.YearsBreak | src/archive.rs:112-115 | the name for January of year 10000 sorts before the name for December of year 9999 |
| Archive.FreeBackupName | src/archive.rs:255-267 | a backup name is never one that exists |
| Archive.RollsIff | src/archive.rs:85-104 | a block of another month or one that does not fit closes the active file, nothing else does, and the block is appended to the file then open |
| Archive.MonthsApart | src/archive.rs:72-122 | over every run each backup and the active file hold blocks of one month, and a backup is named after it |
| Archive.AppendAllSucceedsIff | src/archive.rs:72-104 | a run of appends goes through exactly when the chain accepts every block and no record exceeds the limit |
| Archive.BackupsReadBack | src/archive.rs:163-179 | reading the backups in any directory order and sorting by height returns the archived blocks in order |
| Archive.RecoveryTheorem | src/archive.rs:72-161 | over every run, backups and active blocks are exactly the appended blocks and active blocks stay within the limit; if the names of the archived blocks sort before that of the last of them, the greatest checkpoint replayed with the active blocks is the running chain |
| Archive.UsualBlocksSortable | src/archive.rs:112-115 | blocks in order of time up to year 9999 and below height 10^12 always sort like that |
| Archive.DirectoryWithinLimitIff | src/archive.rs:85-93 | the directory with its period file stays within the limit exactly when the new record leaves room for that file |
| ArchiveMachine.ArchiveStore.AppendFinalized | src/archive.rs:72-104 | the file operations leave exactly the specified disk, and a refused block changes nothing |
| ArchiveMachine.ArchiveStore.RollOver | src/archive.rs:106-122 | checkpoint, backup and removal of the active files are the specified transition |
| ArchiveMachine.ArchiveStore.UniqueBackupPath | src/archive.rs:255-267 | the search over part numbers ends at the first free name |
| ArchiveMachine.ArchiveStore.LoadLatestSnapshot | src/archive.rs:138-148 | loads the checkpoint with the greatest name whatever the listing order |
| ArchiveMachine.ArchiveStore.ReadBackupBlocks | src/archive.rs:163-179 | returns the blocks of all backups sorted by height |
| Rlp.DecodeItem | src/raw_transaction.rs:141-166 | a decoded item consumes at least one byte and at most all of them |
| Rlp.DecodeList | src/raw_transaction.rs:126-139 | the offset loop ends and returns the fields of the list |
| Rlp.ListRoundTrip | src/raw_transaction.rs:126-224 | decoding the list encoding of any byte strings that fit memory returns them |
| Rlp.UintRoundTrip | src/raw_transaction.rs:177-193 | integers survive their minimal encoding, whatever follows it |
| Rlp.DroppedIsMinimal | src/raw_transaction.rs:177-193 | cutting the leading zero bytes leaves the shortest big-endian form |
| Rlp.ReencodesIff | src/raw_transaction.rs:141-202 | a decoded string encodes back to the bytes it was read from exactly when those were in shortest form |
| RawTransaction.HexRoundTrip | src/raw_transaction.rs:7-9 | hex text decodes to the bytes it encodes |
| RawTransaction.HexDecodesIff | src/raw_transaction.rs:7-9 | text decodes to bytes exactly when it is their hex encoding up to the case of letters |
| RawTransaction.PrefixIgnored | src/raw_transaction.rs:7-9 | a 0x in front of the text makes no difference |
| RawTransaction.AcceptedIff | src/raw_transaction.rs:7-69 | raw bytes are accepted exactly when their nine fields are a signed order for this chain: 20-byte recipient, no call data, numbers in range, v of 35 or 36 plus twice the chain id, r and s from which the sender is recovered |
| RawTransaction.EmbeddedIff | src/raw_transaction.rs:7-97 | a transaction passes verify_embedded for a chain exactly when some raw text decodes to it on that chain |
| RawTransaction.OneChainOnly | src/raw_transaction.rs:77-97 | an embedded proof is good for one chain id only |
| RawTransaction.WalletRoundTrip | src/raw_transaction.rs:7-69 | whatever order a wallet signs, the node reads back nonce, recipient, amount and fee and recovers the sender from the same bytes |
| RawTransaction.SigningBytesInjective | src/raw_transaction.rs:41-51 | the signed bytes determine the order and the chain id |
| PoolList.EvictFacts | src/mempool.rs:64-76 | eviction makes room and drops nothing that pays more than something it keeps |
| PoolList.EvictMinimal | src/mempool.rs:64-76 | nothing is evicted without need: with the last evicted transaction still in there was no room |
| PoolList.AddFacts | src/mempool.rs:31-82 | an accepted transaction is in, its replaced rival and only cheapest others are out, ids and nonces stay unique, limits hold |
| PoolList.ReplacesIff | src/mempool.rs:42-56 | a transaction replaces its rival exactly when it raises the fee by a tenth rounded down and at least one unit, or pays the greatest fee there is |
| PoolList.RetainKeepsSublist | src/mempool.rs:109-118 | clearing and adding again keeps exactly the valid sublist in order |
| PoolList.DrainTakesTop | src/mempool.rs:99-107 | drained and remaining transactions are the pool, and every drained one ranks before every remaining one |
| PoolList.TiesInOrderOfArrival | src/mempool.rs:99-107 | equally ranked transactions leave in order of arrival |
| PoolList.SaturatingGuardIff | src/mempool.rs:64-66 | the saturating byte guard is the exact one for all sizes if and only if the limit is below the largest usize |
| MempoolMachine.IndexAnswers | src/mempool.rs:33-43 | the id set and the nonce index answer for the whole list |
| MempoolMachine.Mempool.Add | src/mempool.rs:31-82 | keeps all three indexes equal to what the list determines, within both limits; a refused add changes nothing |
| MempoolMachine.Mempool.Drain | src/mempool.rs:99-107 | returns the top of the ranking and keeps the rest, indexes included |
| MempoolMachine.Mempool.RetainValid | src/mempool.rs:109-118 | leaves exactly the valid sublist in order, indexes included |
| MempoolMachine.Mempool.Remove | src/mempool.rs:124-136 | removes one transaction from list and indexes together |
| Chunks.RunInv | src/snapshot_scheduler.rs:54-136 | on every run over distinct missing chunks pending, in-flight and completed chunks partition the missing ones, the cap and the retry limits hold |
| Chunks.AssignmentBound | src/snapshot_scheduler.rs:54-136 | for distinct missing chunks each chunk is assigned at most peers times retries often on every run |
| Chunks.LooseRun | src/snapshot_scheduler.rs:54-136 | for any list of missing chunks: cap and retry limits hold, and assignments made plus entries waiting equal failures counted plus entries listed |
| Chunks.AssignmentBoundAny | src/snapshot_scheduler.rs:54-136 | for any list each chunk is assigned at most peers times retries plus the number of times it is listed |
| Chunks.DoneIff | src/snapshot_scheduler.rs:105-107 | for distinct chunks done means that every missing chunk was delivered |
| Chunks.DoneDelivers | src/snapshot_scheduler.rs:105-107 | for any list, when nothing is waiting or in flight everything listed has been delivered |
| Chunks.PartitionIff | src/snapshot_scheduler.rs:54-136 | waiting, in-flight and completed chunks partition the listed ones in every state of every run if and only if the list names no chunk twice |
| RoundRobin.SeesAllIff | src/snapshot_scheduler.rs:121-136 | a round looks at every peer if and only if the cursor does not wrap inside it or wraps to a multiple of the peer count |
| RoundRobin.NextPeerCompleteIff | src/snapshot_scheduler.rs:121-136 | next_peer gives up only when all peers are exhausted, for all failure counts, if and only if the round looks at every peer |
| RoundRobin.EveryPeerSeenIff | src/snapshot_scheduler.rs:121-136 | it looks at every peer if the cursor does not wrap inside the round or wraps to a multiple of the peer count; for distinct peers only then |
| RoundRobin.PicksFirst | src/snapshot_scheduler.rs:121-136 | the peer taken is the first from the cursor on that may try again, and the cursor stops right behind it |
| ChunkRounds.AssignRound | src/snapshot_scheduler.rs:54-119 | one call takes back exactly the assignments that have run out of time and counts each against its peer, leaves the younger ones alone, and stops handing out only at the cap, with an empty queue or at a chunk the round robin gave up on |
| ChunkRounds.GaveUpMeansExhausted | src/snapshot_scheduler.rs:121-136 | giving up on a chunk means that every peer has used up its tries for it, if the round sees every peer |
| ChunkRounds.DeliveredIff | src/snapshot_scheduler.rs:80-88 | a delivery counts exactly when the chunk is in flight with that peer, and changes nothing else |
| ChunkMachine.SnapshotScheduler.New | src/snapshot_scheduler.rs:30-52 | accepts any list of missing chunks and refuses fewer than two peers and zero limits |
| ChunkMachine.SnapshotScheduler.Assign | src/snapshot_scheduler.rs:54-78 | requeue and assignment loop are the specified transition, for whatever order the overdue chunks are visited in |
| ChunkMachine.SnapshotScheduler.Complete | src/snapshot_scheduler.rs:80-88 | completes exactly the current assignment |
| ChunkMachine.SnapshotScheduler.Fail | src/snapshot_scheduler.rs:90-103 | counts the failure and requeues exactly the current assignment |
| ChunkMachine.SnapshotScheduler.IsDone | src/snapshot_scheduler.rs:105-107 | yes means that everything listed was delivered, for any list; for distinct chunks it is answered as soon as that is so |
| ChunkMachine.SnapshotScheduler.NextPeer | src/snapshot_scheduler.rs:121-136 | the loop with the wrapping cursor is the specified round |
| Emission.BudgetsSumToTotal | src/node_emission.rs:46-59 | for any total and any number of years the yearly budgets add up to the total, and none is negative |
| Emission.BudgetHalves | src/node_emission.rs:46-59 | before the last year each budget is twice the next, up to one unit |
| Emission.DailyWithinYear | src/node_emission.rs:61-69 | paying the daily budget on every day of a year stays within that year and leaves less than a unit per day |
| Emission.YearContains | src/node_emission.rs:37-69 | the reward year of a moment contains it, and its days cover it without a day to spare |
| Emission.PoolSpends | src/node_emission.rs:88-94 | the pool is the daily budget, or all that is left of the programme when that is less |
| Emission.SharesFitU128 | src/node_emission.rs:46-59 | the products of the budget formula fit u128 |
| Emission.RemainingBudget | src/node_emission.rs:71-73 | what has been distributed and what remains add up to the cap |
| Emission.SettleDailyRewards | src/node_emission.rs:81-130 | the payment loop is the specified settlement |
| Emission.SettlementPaysThePool | src/node_emission.rs:81-130 | a settlement pays exactly the pool despite flooring and saturation, or nothing |
| Shares.SettlementIsFair | src/node_emission.rs:96-127 | peers are paid in text order, absent exactly when their amount is zero; each but the last gets the floored share of its weight of points and main-node bonus (of u128 where the product saturates), the last no less than its share and at most one unit more per other peer |
| Shares.HeavierGetsMore | src/node_emission.rs:96-127 | of two peers before the last the heavier is never paid less |
| Shares.SettlementPaysIff | src/node_emission.rs:81-94 | something is paid exactly from height 100 on, within the reward period, while there are nodes and budget |
| Emission.SettlementIgnoresOrder | src/node_emission.rs:81-130 | settlement does not depend on the order of distinct peers |
| Emission.CapHolds | src/node_emission.rs:71-130 | no sequence of settlements exceeds the cap |
| Lottery.IntegerSqrt | src/traffic_rewards.rs:438-453 | the binary search returns the floor root for every u64 |
| Lottery.PickIffInterval | src/traffic_rewards.rs:419-427 | the draw selects an index exactly when the cursor lies in its interval |
| Lottery.PickIndex | src/traffic_rewards.rs:419-427 | the scanning loop is that draw and always finds an index |
| Lottery.DrawLottery | src/traffic_rewards.rs:393-436 | the drawing loop is the specified lottery |
| Lottery.HashDecides | src/traffic_rewards.rs:393-436 | each payment goes to the node still in the draw into whose interval of floored point roots the hash of the round falls modulo their sum, and is an equal part of the pool |
| Lottery.WinnerCount | src/traffic_rewards.rs:393-436 | there are as many winners as asked for or as there are nodes, unless the pool has not a unit for each |
| Lottery.WinnersDistinct | src/traffic_rewards.rs:393-436 | no peer wins twice, and every winner is paid to its own address |
| Lottery.UnpaidBelowDraws | src/traffic_rewards.rs:404-408 | never more than the pool is paid, and less than one unit per draw stays unpaid |
| Lottery.LotteryIgnoresOrder | src/traffic_rewards.rs:402-403 | the draw does not depend on the order of distinct peers |
| PeerSelection.FillSlots | src/traffic_rewards.rs:165-198 | the slot-filling loop is the specified pass |
| PeerSelection.SelectBalancedPeers | src/traffic_rewards.rs:79-163 | validates the policy and returns the specified selection in whatever order the hash map lists its values |
| PeerSelection.SelectionGuarantees | src/traffic_rewards.rs:79-198 | distinct peers with enough uptime within the bootstrap cap, at most the target many, fewer only when every other candidate is barred; the strict passes respect country and network caps |
| PeerSelection.PassNoEnvy | src/traffic_rewards.rs:96-198 | no pass takes a peer over a better ranked one unless that one is selected, barred or over a cap |
| PeerSelection.UniqueKeepsFirst | src/traffic_rewards.rs:84-95 | of several usable candidates with one id the first one counts |
| PeerPreferences.SelectionNoEnvy | src/traffic_rewards.rs:97-198 | the nearby pass prefers low latency, the diversity pass rare countries and networks, the load pass and the last resort low load, ties as in the source; whoever was passed over or left out while slots stayed empty was excluded by id, uptime, bootstrap, country or network limits |
| PeerPreferences.LoadIsShare | src/traffic_rewards.rs:66-73 | the load is the floored share of capacity in use in basis points, and full from the capacity on |
| PeerSelection.SelectionIgnoresOrder | src/traffic_rewards.rs:76-78 | for distinct ids the selection does not depend on the order of the input |

## Left out

- Liveness of consensus: a lock is never released within a height and blocks are not executed before they are voted on, so only safety is proved.
- Crash and restart: the lock lives in memory only, so the runs have none; `consensus_wal.rs` is not connected to the runtime.
- `replace_bootstrap_validators`, `apply_sync_batch`, `force_timeout_for_test` and `import_certificate_history`: they replace or bypass the state the invariants rest on.
- Integer limits of heights: block heights are u64 in the messages, but height plus one is not wrapped; the nonce counter wraps as in a release build.
- Totals of voting power beyond u64: the safety theorems assume that the total fits; `BftConsensus.New` wraps it as a release build does.
- One clock reading per call: the source reads the clock several times within one call, for instance when it checks a proposal and when it signs; different calls have different times.
- Messages of the driver: `main.rs` ends the process on a replay error; the model lets the node continue from the state it is in.
- Cryptography, key recovery, serialization, compression, the file system, HTTP, peer-to-peer transport and the external signer: function values, abstract files or nothing.
- Interrupted writes: every file operation of the archive succeeds as a whole, so no temporary file stays behind; `compact_old_backups` and `status` are not part of this model.
- MempoolMachine.Mempool.Add: the corrupted-index error of the source is unreachable in a valid pool and has no branch; with a byte limit of exactly the largest usize the sizes of all transactions together must fit usize, as everything in memory does, see `PoolList.SaturatingGuardIff`.
- Chunks.AssignmentBound: is for distinct chunks; `Chunks.AssignmentBoundAny` covers lists with repetitions, where a chunk can be waiting and in flight at once and `Chunks.RunInv` does not apply.
- Emission.SettleDailyRewards: the shipped list of main nodes holds four empty strings and so names nobody, the theorems hold for any list; the seed digest of the source is computed and never used; the 128-bit sum of weights is unbounded here and fits for up to 2^50 nodes (`Emission.WeightsFit`).
- Lottery.DrawLottery: the 64-bit sum of roots is unbounded here and fits for up to 2^32 nodes (`Lottery.RootsFit`).
- PeerSelection.SelectionGuarantees: country and network caps are not claimed for the relaxed pass, which ignores them by design.
- Traffic receipts, receipt verification and the rest of `traffic_rewards.rs`, governance, upgrades, evidence store, peer guard, account security and metrics: small guards that would add only easy members.
