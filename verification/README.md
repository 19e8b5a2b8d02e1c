# A verified model of the sequencer

The repository is the glue of a BFT rollup sequencer: an application actor under Simplex
consensus, reth as execution layer, Celestia as data availability layer, and the tasks that
carry a block from one to the other and back. This project models that glue in Dafny and
proves what it keeps over whole runs. `dafny verify dfyconfig.toml` checks all of it.

## The parts

**The application actor, alone and in a network.** `Application` is the actor: its state as
a value with one function per message, and the actor as a class whose methods are proved
against those functions. `ApplicationRuns` has what one actor keeps over any messages,
`ApplicationAnswers` what it answers and when. `Network` puts N actors side by side, fed one sequence of finalized digests and exchanging
blocks by relay in any interleaving; `Chain` has linkage and block timing, `DepartedProposer`
a network in which linkage fails, `Relay` what the relays send, `Leader` the rotation,
`Runtime` the lossy broadcast channels and the loops that read them.

**The finality pipeline of one validator.** `Batching`, `Submitting`, `Finality` and
`FinalityOrder` are its stages. `Forkchoice` has the pointers and the updates as the source
writes them, one after the other. `Pipeline` is the step system in which the application,
the callback, the batch loop, the tracker and the confirmation handler interleave and a
forkchoice update is split into read, request, answer and write; `Causality`, `HandOff`,
`Conservation`, `Ordering`, `LostUpdates` and `Delivery` are about its runs. `FirmAgreement` joins the
network and the pipelines.

**The index and the DA sync.** `IndexJson` is the text of one entry, for every reader of JSON
(`JsonText`), `BlockIndex` the append-only file with its two maps, `DaSync` the scan, stable
sort (`Sorting`) and skip loop, `Restart` a sync that stops, reopens its file and goes on.

**Small algorithms.** `Base64Url` (with `ByteShifts`) and `Jwt`; `Retry` with both backoffs (`Powers`).

## Assumptions

- reth is a node that knows some blocks. It answers as they are, numbers a child one above
  its parent, and builds on the parent, timestamp and fee recipient it is given
  (`Network.HonestReth`). Whether it imports, executes or takes a forkchoice state is free
  at every request.
- Consensus is a sequence of finalized digests, the same for all, and a validator processes
  them in order: a dropped finalization is excluded. Relayed blocks may be dropped or come
  too late. Agreement needs each extending block to be delivered before its finalization,
  and the result says exactly what a missing one does (`missed`).
- Hashes identify blocks; SHA-256 digests of block hashes are a free constructor.
- Clocks, ticks, retrieval results and submission outcomes are inputs.
- A forkchoice update is not atomic. Membership of the pointers is proved without any
  atomicity; their order is proved for updates that run alone, and for overlapping ones it
  is proved exactly when a pointer moves back. Tracking runs in spawned tasks, so order
  results assume the tasks run in spawn order and Celestia heights do not fall.
- The finality results are about runs that did not begin with a DA sync: the sync fills
  neither `executed_blocks` nor the head for blocks it skips.

## What the proofs found

- A validator that misses a block it should have accepted never catches up, and that is
  the only way logs depart (`Network.Agreement`).
- `finalize` checks only the height. The log of a validator that missed nothing is a chain
  exactly when its blocks were proposed from the tip of a reference log
  (`Chain.LogsAreChains`); a proposer that took another block in place of a missed one
  breaks the chain of others (`DepartedProposer.DepartedProposerBreaksTheChain`).
- The clock is read twice, and the check holds for every proposal exactly when the second
  reading is not below the first (`Chain.StampedInTimeExactlyOnASteadyClock`).
- Peers' frames are not checked. Forgetting stale blocks shows in the log exactly when a
  digest comes back with a second block of the expected height
  (`ApplicationRuns.CleanupShowsExactlyWhen`).
- A duplicate among the first keys of the validator list leaves every n-th height without
  a leader, so its blocks are never posted (`Leader.LeadersPerHeight`).
- The finality tracker's failure counter is never reset, because a header session never
  ends well: tracking stops for good after ten sessions, whatever lies between them
  (`Retry.RunFinalityTracker`).
- The batch loop is not restarted. As long as it runs, every reachable node can still get all
  it leads posted, confirmed and firm; once ten submissions in a row have failed, nothing is
  posted any more (`Delivery.DeliversExactlyWhen`, `Delivery.NothingMoreIsPosted`).
- An index file cut inside a line swallows the next insert as well
  (`BlockIndex.InsertAfterACut`); a sync that stops inside a line and is restarted ends with
  the right maps and a file that lacks an entry (`Restart.RestartedFileMisses`).
- Overlapping forkchoice updates can take the finalized pointer back to genesis, and can
  put it above head (`LostUpdates.FinalizedFallsBack`, `LostUpdates.FinalizedPassesHead`):
  the first exactly at a write of a stale pointer (`Ordering.MovesBackExactlyWhenStale`), the
  second exactly at a firm write above the head it read (`Ordering.PassesHeadExactlyWhen`).

## Model

| member | source | states |
|---|---|---|
| Application.Application.WaitForRethSync | crates/consensus/src/application.rs:330-381 | the ten-attempt loop computes `SyncFrom`: synced, behind or diverged |
| Application.Application.Propose | crates/consensus/src/application.rs:423-475 | new state and digest of a proposal, null in each of its failing cases |
| Application.Application.CompleteProposal | crates/consensus/src/application.rs:505-534 | relays the block, stores it with its payload and remembers the height |
| Application.Application.Verify | crates/consensus/src/application.rs:537-554 | accepts every digest but the null one and remembers it |
| Application.Application.CleanupStaleBlocks | crates/consensus/src/application.rs:574-587 | removes exactly the pending blocks below the height from both maps |
| Application.Application.Finalize | crates/consensus/src/application.rs:563-628 | whole new state: unknown and wrong-height digests are forgotten, a fitting one is applied, emitted and moved past |
| Application.Application.HandleReceiveBlock | crates/consensus/src/application.rs:633-672 | a known block changes nothing; a new one is stored, and marked verified only if imported |
| Application.Application.ProcessMessage | crates/consensus/src/application.rs:675-702 | one message does what its handler states |
| Application.Application.ProcessMailbox | crates/consensus/src/application.rs:705-720 | the mailbox loop is the fold of the messages |
| ApplicationRuns.SyncsOnFirstDecisiveAnswer | crates/consensus/src/application.rs:330-381 | synced if and only if the first decisive answer among ten names the actor's own last hash |
| ApplicationRuns.SyncFailsExactlyWhen | crates/consensus/src/application.rs:330-381 | and failed if and only if the first decisive one is another hash at or above the last block, or none of the ten decides |
| ApplicationAnswers.ProposesExactlyWhen | crates/consensus/src/application.rs:423-475 | a proposal is real if and only if nothing was proposed at this height or above, reth is at the last block, the clock is late enough and reth builds |
| ApplicationAnswers.ProposalIsWhatRethBuilt | crates/consensus/src/application.rs:505-534 | field by field what a real proposal relays and stores; any other leaves the actor as it was |
| ApplicationAnswers.VotersAcceptRealProposals | crates/consensus/src/application.rs:423-554 | any actor accepts what any proposer answers if and only if the proposer relayed a block for it; an accepted digest is verified from then on |
| ApplicationAnswers.VerifiedExactlyWhenVouchedFor | crates/consensus/src/application.rs:519-672 | over every run the verified digests are those of genesis, real proposals, accepted votes and newly imported blocks |
| ApplicationAnswers.FinalizedExactlyWhen | crates/consensus/src/application.rs:563-628 | accepted if and only if pending at the expected height; then nothing below the new height is pending and nothing else is lost |
| ApplicationAnswers.FirstFrameDecides | crates/consensus/src/application.rs:633-672 | over every run the first frame with an unknown digest decides its block and payload until that digest is finalized or proposed or its height is passed |
| ApplicationRuns.RunsKeepKeysPaired | crates/consensus/src/application.rs:519-672 | whatever frames carry, the two pending maps keep equal keys over every run, so each accepted block had a payload applied |
| ApplicationRuns.AppliedAreEmitted | crates/consensus/src/application.rs:519-672 | with frames whose block is the one their payload describes, payload q applied is the payload of block q emitted |
| FirmAgreement.EmittedWereApplied | crates/consensus/src/application.rs:563-672 | and so for every validator of every network |
| ApplicationRuns.OneProposalPerHeight | crates/consensus/src/application.rs:423-534 | over every run real proposals come at strictly increasing heights, one each, each relayed once |
| ApplicationRuns.CleanupIsInvisible | crates/consensus/src/application.rs:574-628 | when digests determine blocks, the actor with cleanup and re-insertion emits, relays and answers as one that never cleans up |
| ApplicationRuns.LogsPartExactlyWhen | crates/consensus/src/application.rs:574-672 | per message: the logs part if and only if it finalizes a digest that the cleaned actor took back at the expected height while the uncleaned one holds a lower block; otherwise state and response stay in step |
| ApplicationRuns.CleanupShowsExactlyWhen | crates/consensus/src/application.rs:574-672 | per run, with no assumption on frames: the logs agree throughout if and only if no message does that |
| ApplicationRuns.CleanupShowsWhenDigestsAreAmbiguous | crates/consensus/src/application.rs:574-672 | a run with two blocks under one digest in which the logs part |
| Network.GreedyGrows | crates/consensus/src/application.rs:597-628 | the reference log of a prefix of the finalizations is a prefix |
| Network.GreedyBlocks | crates/consensus/src/application.rs:597-628 | the reference log has one finalized block per height, from the initial height up without gaps |
| Network.RunsKeepNetInv | crates/consensus/src/application.rs:451-672 | in every interleaving each actor's height, last hash and pending blocks fit its log |
| Network.Agreement | crates/consensus/src/application.rs:605-672 | an actor's log is the reference log if, and for distinct digests only if, it missed nothing |
| Network.LogsAreComparable | crates/consensus/src/application.rs:605-628 | any two such logs: one is a prefix of the other |
| Chain.LogsAreChains | crates/consensus/src/application.rs:432-534 | for a validator that missed nothing: heights are consecutive and each parent is the block before, if and only if the proposals of its blocks were made from the tip of a reference log |
| Chain.LogsOfSoundProposersAreChains | crates/consensus/src/application.rs:432-534 | in particular when whoever proposes has missed nothing; the others may lag or depart |
| Chain.BlocksWereProposed | crates/consensus/src/application.rs:505-672 | every block held, relayed or emitted in a network was proposed in it |
| Chain.LinkedExactlyWhenBuiltOnReference | crates/consensus/src/application.rs:597-628 | a reference log is linked if and only if each of its blocks was built on a reference log |
| DepartedProposer.DepartedProposerBreaksTheChain | crates/consensus/src/application.rs:432-628 | a network in which a departed proposer breaks the chain of a validator that missed nothing |
| Chain.ProposalIsStampedAfterParent | crates/consensus/src/application.rs:397-475 | a proposal carries its proposer's second clock reading, late enough for its parent if the clock is steady |
| Chain.SteppingBackBreaksTheCheck | crates/consensus/src/application.rs:397-475 | for both modes and all readings that step back, a proposal stamped too early for its parent |
| Chain.StampedInTimeExactlyOnASteadyClock | crates/consensus/src/application.rs:397-475 | for both modes and all pairs of readings: every honest proposal is late enough for its parent if and only if the second is not below the first |
| Chain.LogTimestampsAdvance | crates/consensus/src/application.rs:408-415 | along every linked log of a validator that missed nothing timestamps rise by at least the height difference in Vanilla mode and never fall in Subsecond mode |
| Relay.RelayedHeightsRise | crates/consensus/src/application.rs:511-534 | no validator ever relays two blocks of one height |
| Relay.RelaySendsOnePerHeight | crates/consensus/src/runtime.rs:481-505 | and its relay task, however it lags, sends them in height order without repetition |
| Leader.LeadersPerHeight | crates/consensus/src/leader.rs:19-38 | never two leaders; one at every height if and only if the list starts with as many distinct keys as it has |
| Leader.LeaderOfHeight | crates/consensus/src/leader.rs:19-38 | with distinct keys the leader of a height is the validator at the height modulo their number |
| Leader.OneTurnPerRotation | crates/consensus/src/leader.rs:19-38 | any n consecutive heights give each of n distinct validators exactly one |
| Leader.ValidatorIndex | crates/consensus/src/runtime.rs:171-175 | the first position of the key, or nothing exactly when it is not listed |
| Runtime.CallbackSeesAPrefix | crates/consensus/src/runtime.rs:432-475 | the callback sees a gap-free prefix; a loop nobody stopped ends only when all is seen or it lagged |
| Runtime.PollProgresses | crates/consensus/src/runtime.rs:454-475 | a poll delivers the next value, ends a loop that lags or has seen a closed channel, and otherwise waits, for every count seen and sent |
| Runtime.EnoughPollsDeliverAll | crates/consensus/src/runtime.rs:454-475 | from any run of a loop that has not lagged, as many polls as values are outstanding deliver everything sent |
| Runtime.StoppedForGood | crates/consensus/src/runtime.rs:454-475 | a loop that has ended delivers nothing more |
| Runtime.RelayTakesInOrder | crates/consensus/src/runtime.rs:481-505 | the relay sends an order-preserving selection and accounts for every loss |
| Runtime.RelaySendsOnce | crates/consensus/src/runtime.rs:481-505 | distinct proposals are sent at most once |
| Runtime.RelayPollProgresses | crates/consensus/src/runtime.rs:597-625 | a poll of the relay sends the next value or, after lagging, skips to the oldest one left and goes on |
| Runtime.EnoughPollsRelayAll | crates/consensus/src/runtime.rs:597-625 | enough polls after any run send everything the channel still holds |
| Runtime.RunFinalizationLoop | crates/consensus/src/runtime.rs:454-475 | the loop delivers what the transition system delivers |
| Runtime.RunBlockRelay | crates/consensus/src/runtime.rs:597-625 | the same for the relay loop, which goes on after lagging |
| Batching.EstimateSize | crates/sequencer/src/simplex_sequencer.rs:856-870 | the loop computes header, framing and per-transaction sizes |
| Batching.BlockMeasured | crates/sequencer/src/simplex_sequencer.rs:856-870 | the estimate is 132 bytes, 32 for each transaction and the length of all transaction bytes |
| Batching.BatchState.HandleReceivedBlock | crates/sequencer/src/simplex_sequencer.rs:563-587 | appends, adds the size, and submits exactly when the limit is reached |
| Batching.BatchState.SubmitBatch | crates/sequencer/src/simplex_sequencer.rs:875-895 | an empty batch succeeds, a failed one is put back whole with its size |
| Batching.BatchState.RestoreFailedBatch | crates/sequencer/src/simplex_sequencer.rs:920-928 | the recorded size is recomputed from the blocks |
| Batching.RunBatchSubmissionLoop | crates/sequencer/src/simplex_sequencer.rs:590-647 | the loop follows the transition system; landed ++ left is what it took off its queue |
| Batching.BatchesConserveBlocks | crates/sequencer/src/simplex_sequencer.rs:563-928 | received = landed batches ++ pending, in order, after any failures; recorded size is the true one |
| Batching.BatchesStayBounded | crates/sequencer/src/simplex_sequencer.rs:563-928 | pending size is at most the limit plus one block per consecutive failure; attempts at most limit plus ten blocks |
| Batching.RunsStepOn | crates/sequencer/src/simplex_sequencer.rs:590-647 | over every run: which events submit, what a submission that goes through or fails leaves, the tenth failure in a row ends the loop, and an ended one does nothing |
| Batching.TickLandsEverything | crates/sequencer/src/simplex_sequencer.rs:615-647 | over every run a tick whose submission goes through leaves nothing pending: landed = received, what was pending as the last batch |
| Submitting.CreateBlobsForBlocks | crates/celestia/src/client.rs:489-508 | parallel blobs and infos, or nothing if and only if some block has no blob |
| Submitting.BuildSubmissions | crates/celestia/src/client.rs:525-532 | record i joins info i and blob i, up to the shorter list |
| Submitting.SubmitBlocks | crates/celestia/src/client.rs:471-532 | exactly when a batch succeeds, within three attempts one and two seconds apart; each record matches the block at its position, at the height of the first attempt that went through |
| Finality.FinalityTracker.Track | crates/celestia/src/finality.rs:71-79 | inserts or replaces the entry of the hash |
| Finality.FinalityTracker.OnCelestiaFinality | crates/celestia/src/finality.rs:84-121 | retain-and-sort computes the specified tracker and confirmations, whatever the visiting order |
| Finality.HeaderConfirmsTheDue | crates/celestia/src/finality.rs:84-121 | one header confirms exactly the due entries, once each, in block-height order, and keeps the rest |
| Finality.HeightIsTheLastHeader | crates/celestia/src/finality.rs:84-89 | the finalized height is that of the last header |
| Finality.TrackedIsPendingOrConfirmed | crates/celestia/src/finality.rs:71-121 | over every run tracked = pending plus confirmed, never both, nothing confirmed twice |
| FinalityOrder.InOrderKeepsOrder | crates/celestia/src/finality.rs:71-103 | tracked in order, confirmations of the whole run are sorted by block height |
| FinalityOrder.SortedWheneverInOrder | crates/celestia/src/finality.rs:71-103 | all header schedules give sorted confirmations if and only if the submissions are tracked in order |
| Forkchoice.ExecutionClient.UpdateForkchoice | crates/execution/src/client.rs:368-405 | the state is sent, and the copy changes exactly when reth takes it |
| Forkchoice.ExecutionClient.ApplyBuiltPayload | crates/execution/src/client.rs:204-253 | import, then head and safe to the payload with the finalized of the copy |
| Forkchoice.ExecutionClient.StartBuilding | crates/execution/src/client.rs:462-477 | sends parent as head and safe with the finalized of the copy, and leaves the copy |
| Forkchoice.ExecutionClient.InitForkchoice | crates/execution/src/client.rs:154-194 | retries until reth takes genesis, at most thirty times |
| Forkchoice.Sequencer.ExecuteAndUpdateForkchoice | crates/sequencer/src/simplex_sequencer.rs:678-720 | both copies move to the block together or not at all |
| Forkchoice.Sequencer.ProcessFinalizedBlock | crates/sequencer/src/simplex_sequencer.rs:650-675 | executed and handed off only after both steps went through |
| Forkchoice.Sequencer.HandleFinalityConfirmation | crates/sequencer/src/simplex_sequencer.rs:778-853 | finalized moves exactly when the block was executed and reth takes it |
| Causality.FirmImpliesExecuted | crates/sequencer/src/simplex_sequencer.rs:650-853 | in every interleaving tracked, pending and confirmed are executed, executed is in the log taken so far, and the skip is never reached |
| Causality.ForkchoiceIsSound | crates/execution/src/client.rs:246-405 | in every interleaving all states held, sent or in flight: head = safe, head finalized by consensus, finalized executed |
| Causality.BatchKeepsOrLands | crates/sequencer/src/simplex_sequencer.rs:590-647 | a step of the batch loop keeps all its blocks or lands all of them as one batch |
| HandOff.LedBlocksAreHandedOff | crates/sequencer/src/simplex_sequencer.rs:590-749 | posted ++ pending ++ queued ++ being handed over = the executed blocks this validator leads, once, in height order, while the batch loop runs |
| HandOff.HandedOffByOneValidator | crates/consensus/src/runtime.rs:417-475 | a block its leader executed is in that leader's hands once and in nobody else's |
| Conservation.SubmissionsAreConserved | crates/celestia/src/client.rs:525-593 | each posted block has one submission, which is waiting for its task, pending or confirmed, and only one of these |
| Ordering.ConfirmationsRiseInRuns | crates/celestia/src/finality.rs:84-103 | with tasks and Celestia heights in sequence, confirmations of the whole run rise strictly in block height |
| Ordering.MovesBackExactlyWhenStale | crates/sequencer/src/simplex_sequencer.rs:705-853 | for every interleaving of the updates: finalized falls exactly at a soft write with a stale finalized, head exactly at a firm write with a stale head |
| Ordering.AdvancesExactlyWhenNothingIsStale | crates/sequencer/src/simplex_sequencer.rs:678-853 | over a whole run both pointers only advance if and only if no write is stale |
| Ordering.PassesHeadExactlyWhen | crates/sequencer/src/simplex_sequencer.rs:705-853 | for every interleaving and step: finalized ends above head if and only if the step is a firm write above the head it read, or writes nothing and it was above already |
| Ordering.NeverPassesHeadExactlyWhen | crates/sequencer/src/simplex_sequencer.rs:705-853 | over a whole run finalized is never above head if and only if no firm update writes above the head it read |
| Ordering.FinalizedTrailsHead | crates/sequencer/src/simplex_sequencer.rs:678-853 | without stale heads, whatever else overlaps, finalized is in the log prefix ending at head |
| Ordering.ForkchoiceAdvances | crates/sequencer/src/simplex_sequencer.rs:678-853 | with each update alone: finalized never falls, head rises with each soft update, finalized is in the log prefix ending at head |
| LostUpdates.FinalizedFallsBack | crates/sequencer/src/simplex_sequencer.rs:707-848 | a run in which a soft update undoes a firm one |
| LostUpdates.FinalizedPassesHead | crates/sequencer/src/simplex_sequencer.rs:707-848 | a run that leaves finalized above head |
| LostUpdates.SoftAlone | crates/sequencer/src/simplex_sequencer.rs:650-749 | the steps of one block, uninterrupted, come to what the sequential handler states, for each answer of reth |
| LostUpdates.ApplyAlone | crates/consensus/src/application.rs:605-628 | the steps of one finalization, uninterrupted, come to what `ApplyBuiltPayload` states, then the block is emitted |
| LostUpdates.BuildAlone | crates/execution/src/client.rs:462-477 | a build request sends the last block with the finalized of the copy and changes nothing else |
| LostUpdates.FirmAlone | crates/sequencer/src/simplex_sequencer.rs:778-853 | the same for one confirmation: skipped, refused or written |
| Delivery.EverythingLedIsDelivered | crates/sequencer/src/simplex_sequencer.rs:590-853 | from every reachable node whose batch loop runs, the rest of the log is executed, all it leads posted and confirmed, and the last new confirmation is the finalized block, if reth and Celestia answer well from then on |
| Delivery.NothingMoreIsPosted | crates/sequencer/src/simplex_sequencer.rs:610-647 | once the batch loop has ended, posted, pending and queued blocks never change |
| Delivery.DeliversExactlyWhen | crates/sequencer/src/simplex_sequencer.rs:590-853 | some continuation delivers everything if and only if the loop runs or nothing led is left to post |
| FirmAgreement.EmittedArePlaced | crates/consensus/src/application.rs:605-628 | every emitted log has block q at height initial + q, named by its hash |
| FirmAgreement.EmittedLogsAreAllowed | crates/consensus/src/application.rs:605-628 | emitted logs satisfy all that the pipeline assumes of its blocks |
| FirmAgreement.ForkchoiceNeverForks | crates/execution/src/client.rs:246-405 | two validators that missed nothing: whatever their forkchoice states ever point at, soft or firm, is one block per height |
| IndexJson.HexRoundTrip | crates/types/src/serde_helpers.rs:39-57 | byte strings survive encoding, two hex digits each |
| IndexJson.HexPositions | crates/types/src/serde_helpers.rs:39-57 | each byte is two lower-case digits, high half first |
| IndexJson.HexDecodeAccepts | crates/types/src/serde_helpers.rs:51-57 | exactly the strings of hex digits of even length decode |
| IndexJson.JsonRoundTrip | crates/celestia/src/index.rs:32-44 | every entry reads back as itself, with one such reader |
| IndexJson.EntryText | crates/celestia/src/index.rs:32-44 | the line of an entry: four named fields in order, decimal heights, the hash as 64 digits after 0x, the commitment in hex |
| IndexJson.DecimalPositions | crates/celestia/src/index.rs:32-44 | which digit stands at each place of a height |
| IndexJson.HexNumberPositions | crates/celestia/src/index.rs:32-44 | and of a hash, in lower case |
| IndexJson.FromJsonReadsEntries | crates/celestia/src/index.rs:128-141 | that reader accepts only closed JSON texts, so it is one of the readers meant below |
| JsonText.MergedIsNotClosed | crates/celestia/src/index.rs:128-141 | a text of one object, cut anywhere, with another run into it is never one closed JSON text |
| IndexJson.CutTextIsNoEntry | crates/celestia/src/index.rs:128-141 | no reader of JSON takes an entry cut short anywhere for an entry |
| IndexJson.MergedTextIsNoEntry | crates/celestia/src/index.rs:128-141 | nor a cut or whole entry with another run into it |
| BlockIndex.LookupsAgreeWithTheLog | crates/celestia/src/index.rs:145-180 | by height a last-wins scan; by hash one too, exactly when the hash's height was not reused |
| BlockIndex.LookupByHashAgrees | crates/celestia/src/index.rs:174-180 | with heights and hashes one-to-one, by hash always |
| BlockIndex.JsonIsALineFormat | crates/celestia/src/index.rs:122-160 | for every reader of JSON, the written text has what the file results need: no newline, reads back, fails when cut or merged |
| BlockIndex.ReopenedFileHasEverything | crates/celestia/src/index.rs:63-142 | replaying the untouched file gives the in-memory maps |
| BlockIndex.CutFileRecoversAPrefix | crates/celestia/src/index.rs:105-142 | replaying the file cut at any byte recovers a prefix of the inserts, namely those whose text survived |
| BlockIndex.InsertAfterACut | crates/celestia/src/index.rs:105-166 | an insert after a cut is recovered if and only if the cut fell on a line boundary |
| BlockIndex.BlockIndex.Open | crates/celestia/src/index.rs:63-99 | memory is what a replay of the file gives |
| BlockIndex.BlockIndex.Replay | crates/celestia/src/index.rs:105-119 | the line loop recovers the file's entries in order and skips what does not parse |
| BlockIndex.BlockIndex.ParseAndInsert | crates/celestia/src/index.rs:128-141 | a malformed line changes nothing and is reported; any other goes into both maps |
| BlockIndex.BlockIndex.Insert | crates/celestia/src/index.rs:145-166 | file and maps together; a failed write leaves the maps and at most part of a line |
| BlockIndex.BlockIndex.LatestHeight | crates/celestia/src/index.rs:180-183 | the greatest indexed height, or nothing for an empty index |
| DaSync.GetBlocksInRange | crates/celestia/src/client.rs:395-410 | fails if and only if some height fails; otherwise each height's blocks in posting order, heights in order |
| DaSync.SyncIndexesFirstPosted | crates/sequencer/src/simplex_sequencer.rs:257-396 | each height keeps its earlier entry, or takes the block posted first in Celestia order |
| DaSync.SyncDescribesTheBlock | crates/sequencer/src/simplex_sequencer.rs:288-326 | after a sync the entry of a new height, found by height and by hash, has the first posted block's height, hash and Celestia height and an empty commitment |
| DaSync.SyncExecutesInHeightOrder | crates/sequencer/src/simplex_sequencer.rs:257-396 | execution goes through strictly increasing heights |
| DaSync.SyncIsResumable | crates/sequencer/src/simplex_sequencer.rs:288-396 | within one opened index: stopping after any number of blocks and starting over writes the same entries as one uninterrupted sync |
| DaSync.SyncIsResumableOverMore | crates/sequencer/src/simplex_sequencer.rs:288-396 | and if more was posted meanwhile, each height ends as one sync over everything would leave it |
| DaSync.SyncSingleBlock | crates/sequencer/src/simplex_sequencer.rs:288-326 | nothing is indexed when execution or the write fails; a failed write leaves at most part of the line |
| DaSync.SyncOrSkip | crates/sequencer/src/simplex_sequencer.rs:373-396 | indexed heights are skipped, others synced |
| DaSync.SyncBlockBatch | crates/sequencer/src/simplex_sequencer.rs:373-396 | the loop stops at the first failure with exactly the entries of the blocks before it, and perhaps part of a line; what it reports |
| DaSync.SyncFromCelestia | crates/sequencer/src/simplex_sequencer.rs:332-370 | index and file after a sync: untouched when there is nothing to scan or the scan fails, otherwise the plan for what the range holds, all or up to the first failure, and perhaps part of a line |
| Restart.ReopenedIsAnEarlierState | crates/celestia/src/index.rs:63-119 | after a stop anywhere, even inside a line, the reopened file gives a state the sync went through |
| Restart.RestartedSyncCompletes | crates/sequencer/src/simplex_sequencer.rs:219-244 | reopening and syncing again ends with the maps of one uninterrupted sync |
| Restart.RestartedSyncOverMore | crates/sequencer/src/simplex_sequencer.rs:219-244 | the same through the file when more was posted meanwhile |
| Restart.TornBlockIsNext | crates/sequencer/src/simplex_sequencer.rs:288-396 | the block of a torn line is the first the second sync adds, unless its text was whole |
| Restart.RestartedFileMisses | crates/celestia/src/index.rs:145-166 | what the file then holds: everything if the stop was on a line boundary, otherwise the second sync's first entry is missing and the torn one with it |
| Restart.StopAndRestart | crates/sequencer/src/simplex_sequencer.rs:219-244 | the two openings and syncs in sequence |
| Sorting.StableSortIsStable | crates/sequencer/src/simplex_sequencer.rs:257-283 | equal heights stay in posting order |
| Sorting.StableSortSorts | crates/celestia/src/finality.rs:101-102 | the result is sorted and a permutation |
| Base64Url.Base64UrlEncode | crates/execution/src/jwt.rs:60-85 | the loop with its table, on bytes as bits, computes the encoder's letters |
| ByteShifts.Indices | crates/execution/src/jwt.rs:71-79 | the shifts and masks are the divisions of the specification |
| Base64Url.EncodeIsRfc4648 | crates/execution/src/jwt.rs:60-85 | for every byte string the text is the bit-level definition of sections 3.2, 4 and 5 of RFC 4648 |
| Base64Url.EncodedLength | crates/execution/src/jwt.rs:60-85 | length is four thirds rounded up |
| Base64Url.DecodeInvertsEncode | crates/execution/src/jwt.rs:60-85 | a reference decoder inverts the encoder |
| Base64Url.EncodedIsUrlSafe | crates/execution/src/jwt.rs:60-85 | only letters of the URL-safe alphabet, so no dot and no padding |
| Base64Url.AlphabetIsTheTable | crates/execution/src/jwt.rs:61 | the literal alphabet is table 2 of section 5 of RFC 4648 |
| Jwt.HmacSha256 | crates/execution/src/jwt.rs:88-125 | the in-place pads and two hashes are HMAC as section 2 of RFC 2104 defines it |
| Jwt.HmacInPadBytes | crates/execution/src/jwt.rs:88-125 | byte by byte: the key or its digest, zero-padded to 64 bytes, XORed with 0x5c and 0x36 |
| Jwt.FillKeyBlock | crates/execution/src/jwt.rs:90-96 | long keys hashed, short ones zero-padded to one block |
| Jwt.XorInto | crates/execution/src/jwt.rs:98-108 | each byte of the pad XORed with the key block's |
| Jwt.TokensAreAccepted | crates/execution/src/jwt.rs:24-57 | a token exactly for 32-byte hex secrets; it splits into three parts that decode to the header text, claims that read back as the time, and a signature the key holder accepts |
| Jwt.PrefixesAreIgnored | crates/execution/src/jwt.rs:28-29 | any number of 0x prefixes makes no difference |
| Retry.BackoffIsExact | crates/celestia/src/client.rs:597-600 | for all 64-bit inputs the saturating formula is the exact one, exponent 0 for no failures |
| Retry.BackoffGrows | crates/celestia/src/client.rs:597-600 | monotone in the failures and never above the cap |
| Retry.WithRetry | crates/celestia/src/retry.rs:45-85 | first success or last failure, at most max(1, limit) calls, and each delay |
| Retry.TotalDelay | crates/celestia/src/retry.rs:78-81 | after k failures and another attempt base * k(k+1)/2 was slept, if the product fits |
| Retry.DelayWraps | crates/celestia/src/retry.rs:78-81 | a product that does not fit wraps to a shorter delay, and only then |
| Retry.RunHeaderSubscription | crates/celestia/src/client.rs:258-277 | headers ahead of the first error are processed; a session never ends well |
| Retry.RunFinalityTracker | crates/celestia/src/client.rs:220-255 | exactly ten sessions are processed, with the backoff of each failure between them |
| Retry.SessionsInOrder | crates/celestia/src/client.rs:220-255 | what the tracker processes is the headers of its sessions one after another |
| Retry.TrackerSleeps | crates/celestia/src/client.rs:220-255 | those backoffs are 5 to 60 seconds, 375 seconds in all |

## Left out

- JSON-RPC, gRPC, header streams, file handles and DNS: each is a success, a failure or an input sequence.
- Simplex, the peer-to-peer layer, the elector and the signature schemes: only the finalized digests and relay delivery remain.
- SHA-256, keccak, ed25519, secp256k1 and bech32: uninterpreted, injective where a result needs it.
- reth's EVM, mempool and payload validation; payload fields that travel unread (state root, bloom, gas).
- Configuration, key loading, the CLI, docker scripts and logging.
- Real time: ticks are events and clock readings inputs; latencies are not modelled.
- Start-up of consensus after a DA sync: it always begins at height 1, so nothing is claimed about continuity.
- 64-bit wrap-around of block heights, sizes and timestamps outside the index and the backoffs, where widths are modelled: the results are about chains that stay below 2^64.
- Capacities of the mpsc channels and of the mailbox: a full channel only delays its sender, and delays are arbitrary here. The lossy broadcast channels are modelled with their capacity.
- Ordering.ForkchoiceAdvances: is about the sequencer's copy of the forkchoice. The execution client's copy is also written by the application, which runs ahead of the callback, so its head goes back and forth by design; `Causality.ForkchoiceIsSound` covers both copies.
- HandOff.LedBlocksAreHandedOff: is about batch mode. Without batching a block whose submission fails is let go by the source, so only its being posted at most once and in order is stated, in `Conservation.SubmissionsAreConserved`.
- DaSync.SyncSingleBlock: execution and the forkchoice updates of the sync are one success or failure; the head they leave behind is not claimed.
- Relay.RelaySendsOnePerHeight: is about what the relay task broadcasts; frames that the rate limit or the serializer drops afterwards are simply not delivered.
- IndexJson.JsonRoundTrip: is about one reader, which takes the fields in the order in which they are written. The results about files hold for every reader that reads entries back and accepts only closed JSON texts, as serde_json does; that it does is assumed.
