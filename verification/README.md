# sophon-miner: a verified model of what may be mined and published

sophon-miner mines blocks for many Filecoin miners at once. A wrong pair of
published blocks is a slashable consensus fault, so this project models the
code that decides what to mine on and what may be published, together with the
protocols around it, and proves what they keep over every run. `dafny verify
dfyconfig.toml` checks everything.

| files | component |
|---|---|
| `Chain.dfy` | headers, CIDs, tipsets; the three consensus faults |
| `LocalFilter.dfy`, `MysqlFilter.dfy` | the two slash filters, as objects and as functions on their stores |
| `PublishGate.dfy` | `broadCastBlock` as a step machine over either store, with the history of accepted blocks |
| `GateSafety.dfy` | fault safety, write-once and the relation of the two stores, over all runs |
| `GateInterleaving.dfy` | every interleaving of the broadcasts of different miners equals every serial order |
| `GateLimits.dfy` | blocks that are left out by an earlier block, with the exact condition, for both stores |
| `GateOffset.dfy` | time-offset mining over the MySQL store: when runs are free of it, and exactly when not |
| `Broadcast.dfy` | `broadCastBlock` as a method over a filter object, connected to the step machine |
| `MiningLoop.dfy`, `Miner.dfy` | base selection, one mining pass, the whole loop; on values, and on objects that share one `MiningBase` |
| `MinerRuns.dfy` | the loop's passes, their puts and their broadcasts together, as one run of the gate |
| `MinerRows.dfy`, `MysqlHistory.dfy` | what a pass, and any sequence of puts, leaves in the table, column by column |
| `Handshake.dfy` | `Start`, `Stop` and the mining goroutine as interleaved steps over two channels |
| `Reorg.dfy` | `ReorgOps` |
| `Recorder.dfy`, `RecorderKeys.dfy`, `RecorderDatastore.dfy`, `RecorderObject.dfy`, `Cleaners.dfy` | the mine recorder: history refinement with errors and restarts, key encoding, the object over a datastore of string keys that may fail at any call, concurrent cleaners |
| `Participation.dfy`, `Participant.dfy` | F3 participation: a flat machine over the node's answers, and the object with its three nested loops |
| `CountWinners.dfy` | the fan-out and fan-in of `CountWinners` with its 100-slot semaphore |

Each imperative part appears twice: as a class or method that changes its
fields the way the program does, and as functions on values. The method's
contract equates the two, and the theorems are proved about the functions.

## Assumptions

- A CID names one header (`CidOf(header)`), key and string forms of tipset keys
  and addresses are injective, and `TipSet.Equals` is equality of content.
- A created header carries a ticket, and miner, height, parents and ticket are
  those of the block template. The mining loop's own puts (`Mining`, `Timeout`,
  `ChainForked`, `Error`) carry none and are never in state `Success`; the puts
  of a mining pass are proved to be such.
- Two broadcasts of the same miner do not overlap (`live` holds one per miner)
  and the `PutBlock` after an accepted submit does not fail. The program has
  neither a lock nor a retry for this. Every other call of a filter may fail:
  the two checks, and the `Error` puts after a refusal or a failed submit. A put
  of the mining loop that fails is a put that does not happen. A put, with the
  query it starts with, is one step.
- A block counts as published when some node accepted it. A node that accepts
  a block and then reports an error is not distinguished from one that refuses.
- Heights, timestamps and counters are unbounded integers. Where the width
  matters (lease arithmetic, the watermark bytes) it is written out.
- `waitFunc` injects no null rounds and does not fail, as in production
  (`miner/multiminer.go:110`).
- `Duration()` of the backoff advances its counter by one and `Reset()` zeroes
  it. A failed F3 call is classified by the first error text the code matches.
- Nodes, stores, clocks and schedulers answer in any way at all; their answers
  are inputs of the runs.

## Findings

- **Time-offset mining with the MySQL store.** The same-parents query is
  unordered and skips a row without a CID. The mining loop writes such a row,
  with the same parents, for the very round it is about to publish, so a noted
  round is never protected (`MiningPutIsNote` ties the row to the passes of the
  loop): `OffsetFaultPassesMysql` is a run that publishes two
  blocks on the same parents. A block is *exposed* when its parents are those
  of a published one and some row on them has no CID, or none is left. A run
  that checks no exposed block is free of the fault (`UnexposedRunIsOffsetFree`),
  an exposed one can be published unless it grinds (`OffsetIsPublishedIff`), and
  runs would be free of it, for non-empty parents, if the mining loop's own puts
  named no parents (`QuietRunIsOffsetFree`).
- **A late block can be left out by an earlier one.** Both stores compare a new
  block with its base's height only, so a block of a lower height published
  after one that should have had it as a parent passes: `LateBlockGrinds`.
  `AcceptIsForkFreeIff` and `AcceptIsFaultFreeIff` give the exact condition.
- **A lost `Error` put opens a height again** in the MySQL store. At most one
  block per (miner, epoch) passes HasBlock if and only if HasBlock never lets a
  block through where a put was lost: `OnePassPerEpochIff`,
  `LostPutAllowsSecondPass`.
- **A head can get stuck.** If head T was mined, another head is selected but
  its beacon fails, and T comes back, T is never mined for its next null round:
  `ReturningHeadIsStuck`; `NullRoundProgressIff` is the exact condition.
- **Starting again after a Stop that timed out can panic** with the close of a
  nil channel, or be refused. It can if and only if the loop that Stop left
  behind has still to clear `stop` or `stopping`: `ForgettingIsSafeIff`.
- **The recorder's watermark may go back** when a slow cleaner finishes after a
  faster one: `WatermarkMayFall`. Some interleaving of the calls under way can
  lower it if and only if a cleaner at work has been overtaken, or two calls
  can still write different deadlines: `WatermarkCanFallIff`. It cannot as long
  as no record is put while another call can still write
  (`SerialRecordsNeverFall`). What is cleaned stays clean all the same.
- **An error in the very first cleaning** of the recorder can leave expired
  records below the watermark, and what is left there is left for good
  (`ExpiredRecordIsLeft`, `LeftForGood`). For timely records none is if and only
  if the Record that writes the first watermark finds no earlier one below its
  own deadline: `NothingBelowWatermarkIff`. Errors in later cleanings leave nothing
  below it.
- **F3 gives up early.** Each failure advances the backoff counter twice, once
  for the logged duration and once for the slept one, so a ticket is given up
  after half as many failures as configured, plus one: `RetriesAreBounded`,
  `GivesUpExactly`.
- The comment of `ReorgOps` (`miner/util.go:112-114`) says the last element of
  each slice is the common ancestor. The code never appends it; the model
  follows the code.

## Model

| member | source | states |
|---|---|---|
| LocalFilter.LocalSlashFilter.HasBlock | node/modules/slashfilter/local.go:31-35 | a block of this miner is recorded at this height, or the datastore's error |
| LocalFilter.LocalSlashFilter.PutBlock | node/modules/slashfilter/local.go:37-54 | only `Success` is recorded, the parents index first; an error stops the put there, and any other state changes nothing |
| LocalFilter.LocalSlashFilter.MinedBlock | node/modules/slashfilter/local.go:56-134 | clear if and only if no access fails, the parents index holds no other block on these parents and the own block at the base height, if any, is among the parents |
| MysqlFilter.MysqlSlashFilter.HasBlock | node/modules/slashfilter/slashfilter.go:118-129 | the row of (miner, height) exists and its cid is not empty, or the database's error |
| MysqlFilter.MysqlSlashFilter.PutBlock | node/modules/slashfilter/slashfilter.go:131-171 | the new table column by column; fails, changing nothing, exactly for a database error or a timeout without a row |
| MysqlFilter.MysqlSlashFilter.MinedBlock | node/modules/slashfilter/slashfilter.go:92-216 | the verdict for whichever matching row the unordered query answers and whichever query fails; never clear when one fails or the own block at the base height is left out of the parents |
| MysqlHistory.RowRemembers | node/modules/slashfilter/slashfilter.go:131-171 | after any sequence of puts each column of a row is read off the puts made for it: the first that is no timeout decides the winning time, the last one parent epoch and state, the last with parents the parents, the last with a ticket the CID |
| GateSafety.PutRecords | node/modules/slashfilter/slashfilter.go:131-171 | for both stores: a put touches only its own (miner, height), a ticketed success sets the CID, a ticketless put keeps it |
| Broadcast.SubmitBlock | miner/multiminer.go:565-584 | the submission succeeds if and only if the own node or one of the others accepts |
| Broadcast.BroadCastBlock | miner/multiminer.go:541-596 | how far the call gets and exactly what it leaves in the filter object, for every store and every failure of a check, a put or a node |
| Broadcast.BroadcastIsRun | miner/multiminer.go:541-596 | that outcome, failed `Error` puts included, is what the step machine does from every state without a broadcast of this miner, and the block is submitted exactly when the course is `Sent` |
| Broadcast.RowOfBroadcast | miner/multiminer.go:541-596 | past HasBlock the row holds the block's CID and parents, whether it was published, and its base's height, to which the null rounds are added unless the block was refused; no other row changes |
| Broadcast.IndexesOfBroadcast | miner/multiminer.go:541-596 | the local store records the CID in both indexes if the block was published, and nothing otherwise |
| GateSafety.StepKeepsInv | miner/multiminer.go:541-596 | every step of every interleaving keeps the invariant that ties running broadcasts, history and store |
| GateSafety.NoDoubleForkNoGrinding | miner/multiminer.go:541-596 | over every run of either store: no double fork, and no later block leaves out an earlier own block it was built on the height of |
| GateSafety.LocalRunIsFaultFree | node/modules/slashfilter/local.go:31-103 | over every run of the local store none of the three faults is committed by a later block against an earlier one |
| GateSafety.RunWritesOnce | node/modules/slashfilter/slashfilter.go:131-171 | a CID recorded at any point of a run, whatever puts are mixed in, is unchanged at its end |
| GateSafety.OnePassPerEpochIff | miner/multiminer.go:541-596 | over every run of the MySQL store at most one block per (miner, epoch) passes HasBlock if and only if HasBlock never lets one through where an `Error` put was lost |
| GateSafety.OnePassPerEpoch | node/modules/slashfilter/slashfilter.go:118-171 | so at most one ever does, even after failed submits, as long as no put fails |
| GateSafety.LostPutAllowsSecondPass | miner/multiminer.go:553-555 | for every two blocks of one height, a run in which the put of the refused first one is lost and the second passes |
| GateSafety.RunKeepsMirror | node/modules/slashfilter/local.go:37-54 | in every MySQL run each entry of a mirrored local epoch index has a row with the same CID |
| GateSafety.LocalRefusalImpliesMysqlRefusal | node/modules/slashfilter/slashfilter.go:118-213 | a HasBlock hit or a parent-grinding refusal of the mirrored local store is also one of the MySQL store, with the same verdict, for every query answer |
| GateInterleaving.ProjectedRun | node/modules/slashfilter/local.go:32-51 | projecting a run onto one miner is exactly the run of that miner's own steps |
| GateInterleaving.MergedRunIsLegal | miner/multiminer.go:463-465 | every interleaving of per-miner runs is a run |
| GateInterleaving.InterleavingsAgree | miner/multiminer.go:463-465 | two schedules with the same steps per miner end with the same store, the same broadcasts under way and the same decisions |
| GateInterleaving.InterleavingIsSerial | miner/multiminer.go:463-465 | every interleaving ends as every serial order of the miners does |
| GateLimits.AcceptIsForkFreeIff | node/modules/slashfilter/slashfilter.go:183-213 | over every run of either store: publishing one more block keeps the history free of double forks and grinding in both directions if and only if no published block was built on its height without it, which for a block nothing published has as a parent means that no own block was built on its height |
| GateLimits.AcceptIsFaultFreeIff | node/modules/slashfilter/local.go:67-100 | over every run of the local store the same for all three faults |
| GateLimits.RisingHeightsAreFaultFree | node/modules/slashfilter/local.go:67-100 | a run whose accepted heights rise per miner commits no double fork and no grinding in either direction, for either store, and over the local store no time-offset either |
| GateLimits.LateBlockGrinds | node/modules/slashfilter/local.go:67-100 | for either store and every such pair of blocks the run that publishes the lower one last passes the gate and grinds |
| GateOffset.OffsetCheckIsExact | node/modules/slashfilter/slashfilter.go:92-116 | in every reachable state, for every block at its MinedBlock: the query refuses it for every row it may answer if and only if some row has its parents and none of them has an empty CID |
| GateOffset.OffsetIsPublishedIff | node/modules/slashfilter/slashfilter.go:92-116 | in every reachable state a block at its MinedBlock can be published as a time-offset block if and only if it is exposed and leaves out no own block at its base height |
| GateOffset.UnexposedRunIsOffsetFree | node/modules/slashfilter/slashfilter.go:92-116 | over every run of the MySQL store in which no exposed block is checked, no two published blocks of a miner are on the same parents |
| GateOffset.QuietRunIsOffsetFree | node/modules/slashfilter/slashfilter.go:160-164 | the same, for non-empty parents, over every run whose mining-loop puts name no parents |
| GateOffset.RunKeepsRows | node/modules/slashfilter/slashfilter.go:131-171 | over every run a row's CID is of a block of its own miner and height |
| GateOffset.MiningRowDefeatsOffsetCheck | miner/multiminer.go:939-945 | after the round's own Mining put the query may always answer a row that clears the block |
| GateOffset.NotedRoundIsAccepted | miner/multiminer.go:939-945 | so a noted round is published over whatever blocks on its parents are recorded |
| GateOffset.OffsetFaultPassesMysql | node/modules/slashfilter/slashfilter.go:92-116 | for every two blocks of a miner on the same parents, some run of the MySQL store publishes both |
| MiningLoop.SelectionIsPrepared | miner/multiminer.go:598-661 | for every sequence of heads and beacons: a base is returned only after the wait and then the successful beacon fetch of exactly its round in this call, and it is the last work |
| MiningLoop.SelectionReturnsIff | miner/multiminer.go:608-655 | after the wait and the beacon fetch the next candidate is returned if and only if height and null rounds have not moved, whatever tipset it is; otherwise the selection starts over with it |
| MiningLoop.SelectionFails | miner/multiminer.go:608-655 | an unanswered head or beacon ends the call, with the candidate it was for kept as last work |
| MiningLoop.PassIsCoherent | miner/multiminer.go:328-361 | in spite of the late refresh each block's epoch is the round of its proofs, the ticket they used is that of the published parents, and no miner gets two blocks in a round |
| MiningLoop.EveryWinGetsItsBlock | miner/multiminer.go:395-411 | each miner that won and whose block the node made gets exactly one block, with the ticket of its own attempt, nobody else gets any, and the blocks keep the order of the wins |
| MiningLoop.PassRefreshesIff | miner/multiminer.go:328-361 | the blocks are on the new head if and only if it has the base's height and smallest ticket, and on the base otherwise |
| MiningLoop.PassCases | miner/multiminer.go:304-324 | when a pass does nothing, has no base, repeats the last base or mines, and what it keeps in each case |
| MiningLoop.BlocksAreOnClock | miner/multiminer.go:1069-1084 | if heads are timed by their height then so is every block of every run |
| MiningLoop.NeverTheSameBaseTwice | miner/multiminer.go:317-321 | over every run, no pass mines on the (tipset, nulls) pair that the previous mining pass ended with |
| MiningLoop.NullRoundProgressIff | miner/multiminer.go:475-477 | on a newly seen head that stays, winless passes mine rounds H+1, H+2, ... without gap or repeat if and only if the last mined base was not that very head without nulls |
| MiningLoop.NothingAfterAWin | miner/multiminer.go:310-361 | whatever head a winning pass ends on, refreshed or not, nothing more is mined on it while it stays |
| MiningLoop.ReturningHeadIsStuck | miner/multiminer.go:317-321 | a concrete family of runs in which a returning head is not mined any more |
| MinerObject.Miner.GetBestMiningCandidate | miner/multiminer.go:777-791 | returns the very object held as last work, replaced only when the head differs |
| MinerObject.Miner.SelectOnce | miner/multiminer.go:608-655 | one turn of the selection: stop, fail, or wait and fetch for the candidate's round |
| MinerObject.Miner.GetLatestBase | miner/multiminer.go:598-661 | the loop does what `Select` says, and a returned base is the very object held as last work |
| MinerObject.Miner.RunAttempt | miner/multiminer.go:687-945 | ties each way an attempt ends to its puts and its proofs; that the proofs fit the block is `MiningLoop.PassIsCoherent`, what the puts leave in the table is `MinerRows.AttemptLeaves` |
| MinerObject.Miner.MineOneForAll | miner/multiminer.go:663-754 | one entry per winning miner and exactly the puts of all attempts, whatever the order |
| MinerObject.WinsAlongAreWins | miner/multiminer.go:663-754 | in every finishing order the winners are distinct and are exactly the attempts that won |
| MinerObject.Miner.CreateBlock | miner/multiminer.go:1065-1084 | ties the object's block to `NewBlock`; that its epoch, parents and date are the right ones is `MiningLoop.PassIsCoherent` and `MiningLoop.BlocksAreOnClock` |
| MinerObject.Miner.RefreshBase | miner/multiminer.go:328-361 | the shared base takes the new head only at the same height with the same smallest ticket; a fork puts one `ChainForked` per winner |
| MinerObject.Miner.MineOn | miner/multiminer.go:323-477 | the mining half of a pass on the one shared base, with the null round after a winless pass; every created win has its one block, in the order of the wins |
| MinerObject.Miner.MineOnce | miner/multiminer.go:304-480 | one turn of the loop is `Pass`, through the aliased base object |
| MinerObject.Miner.Mine | miner/multiminer.go:281-481 | the loop over any answers is `Passes`, so every theorem about passes holds of it |
| MinerObject.PassPutsAreAllowed | miner/multiminer.go:699-726 | whatever a pass puts is allowed between the broadcasts and submits nothing, so the gate's theorems hold with it |
| MinerObject.LaunchesDoNotOverlap | miner/multiminer.go:463-465 | the broadcasts started for one pass are of different miners and all can start |
| MinerRows.AttemptLeaves | miner/multiminer.go:687-748 | an attempt that won leaves a row with the base's parents, the round's parent epoch, the time of the win and no CID, in state Mining, Error or Timeout as it ended; one that did not leaves none |
| MinerRows.AttemptsLeave | miner/multiminer.go:663-754 | the same for all attempts of a pass, in every order in which they finish, and no other row changes |
| MinerRows.ForkLeaves | miner/multiminer.go:342-350 | a forked head marks each winner's row and moves its parent epoch to the base's height, keeping the other columns |
| MinerRows.PassLeaves | miner/multiminer.go:323-361 | in every pass the rows are those of the attempts, marked as forked if and only if the head has the base's height and another smallest ticket |
| MinerRows.MiningPutIsNote | miner/multiminer.go:939-945 | for every block of a pass on an unrefreshed base the pass has put the row by which `GateOffset.NotedRoundIsAccepted` gets past the check |
| MinerRuns.ScheduleIsRun | miner/multiminer.go:281-596 | for every run of the loop, whatever it, the stores and the nodes are answered: every schedule of its puts and broadcasts that keeps each miner's own order is one run of the gate, and leaves in the filter what the passes do one after the other |
| MinerRuns.ScheduleIsFaultFree | miner/multiminer.go:281-596 | if the rounds mined rise, every such schedule is free of double forks and grinding in both directions, and over the local store of time-offset blocks |
| MinerRuns.PassesAreSound | miner/multiminer.go:304-477 | over every run of the loop each block has a ticket, the round of its pass and its own miner, and lies above its base |
| MinerRuns.RowOfBlock | miner/multiminer.go:463-596 | the row of a published block names the epoch before the block's, null rounds included |
| MinerRuns.RunRises | miner/multiminer.go:304-596 | rising rounds give each miner rising submitted heights |
| Handshake.StepKeepsInv | miner/multiminer.go:191-299 | every step of Start, Stop and all loops keeps the invariant on channels, loops and caller, also with older loops that still have to close their own channel |
| Handshake.HandshakeIsSafe | miner/multiminer.go:191-299 | in every disciplined interleaving from the start: no close of a nil or closed channel, no refused Start, at most one loop that is not done, and none once Stop returned nil or was safely forgotten |
| Handshake.NeverTwoLoopsMine | miner/multiminer.go:191-299 | whatever the callers do, disciplined or not, two loops never mine at once, because a Start that finds `stop` set is refused |
| Handshake.StopCanReturn | miner/multiminer.go:224-240 | a waiting Stop returns nil once the loop takes its remaining steps, and leaves the miner startable |
| Handshake.ForgettingIsSafeIff | miner/multiminer.go:224-240 | after a Stop that ended with an error what follows can panic, or go wrong at all, if and only if the loop left behind has still to clear a field |
| Handshake.ClosedChannelIsSafe | miner/multiminer.go:234-239 | in particular it is safe once the channel of that Stop is closed |
| Handshake.OldLoopLeftBehind | miner/multiminer.go:224-240 | a Stop can expire while its loop is still clearing the channels |
| Handshake.NewLoopTakesNil | miner/multiminer.go:288-299 | from every state with such a loop some continuation panics: the old loop clears `stopping` within the next Stop, and the new loop closes nil |
| Handshake.ForgettingCanPanic | miner/multiminer.go:191-240 | a disciplined run from the start to an expired Stop after which forgetting it can panic |
| Reorg.ReorgOps | miner/util.go:119-146 | both chains follow parent links to just below one shared tipset that every common ancestor is an ancestor of; they are disjoint; a lookup fails if and only if there is no common ancestor; it terminates |
| Reorg.StepKeepsCommon | miner/util.go:124-143 | moving the taller side keeps every common ancestor common |
| Reorg.SegmentsAreApart | miner/util.go:119-146 | nothing on one chain is an ancestor of the other input |
| Reorg.UpFalls | miner/util.go:124-143 | every ancestor n links away is at least n lower |
| Recorder.CoverMap | node/modules/mine-recorder/mod.go:229-238 | the right-biased merge |
| RecorderObject.DefaultRecorder.constructor | node/modules/mine-recorder/mod.go:64-68 | a restart keeps what is persisted and forgets the latest epoch |
| RecorderObject.DefaultRecorder.Record | node/modules/mine-recorder/mod.go:70-88 | whatever call fails, the string-keyed datastore holds what the whole history makes, and an error is returned if and only if some call of the datastore failed |
| RecorderObject.DefaultRecorder.CleanExpireNow | node/modules/mine-recorder/mod.go:147-171 | cleans only for a new latest epoch, which it keeps even if the cleaning fails |
| RecorderObject.DefaultRecorder.CleanBeforeNow | node/modules/mine-recorder/mod.go:173-215 | deletes exactly the epochs from the watermark to the deadline and moves the watermark, or sets it when there is none; an error leaves the watermark and only deletes in that range |
| RecorderObject.DefaultRecorder.DeleteEpoch | node/modules/mine-recorder/mod.go:189-205 | the query for one epoch's prefix and its deletes, one by one, remove exactly that epoch's records, or some of them before an error |
| RecorderObject.DefaultRecorder.Query | node/modules/mine-recorder/mod.go:117-145 | the limit error, an error if and only if a call of the datastore failed, or one record per retained epoch of the range, in ascending order, each with its miner, its epoch in decimal and all that was recorded |
| Recorder.WatermarkIsBounded | node/modules/mine-recorder/mod.go:147-215 | over every history with errors and restarts the watermark never passes the highest epoch minus the expiry |
| Recorder.WatermarkIsMax | node/modules/mine-recorder/mod.go:147-215 | and is exactly that as long as every cleaning ends |
| Recorder.RetainedIsExact | node/modules/mine-recorder/mod.go:70-88 | over every history with errors and restarts, what has not expired is exactly the merge of all records ever made |
| Recorder.NothingBelowWatermarkIff | node/modules/mine-recorder/mod.go:173-215 | over every timely history, with errors and restarts: nothing is left below the watermark if and only if the Record that wrote the first watermark found nothing below its own deadline |
| Recorder.NothingBelowWatermark | node/modules/mine-recorder/mod.go:173-215 | so nothing is as long as every cleaning ends, and then nothing is stored without a watermark |
| Recorder.LeftForGood | node/modules/mine-recorder/mod.go:173-215 | what is left below the watermark is left there in every timely continuation |
| Recorder.ExpiredRecordIsLeft | node/modules/mine-recorder/mod.go:173-182 | a family of histories in which a first cleaning cut off by an error leaves an expired record below the watermark |
| Recorder.QueryAnswersWindow | node/modules/mine-recorder/mod.go:117-145 | after every history a query of epochs that have not expired answers their merged records |
| Recorder.QueryAnswersHistory | node/modules/mine-recorder/mod.go:117-145 | after every timely history whose cleanings end a query of any epochs answers the merged records of exactly the retained ones |
| Recorder.ExpectedIsAnswer | node/modules/mine-recorder/mod.go:117-145 | the list read off the history names exactly the retained epochs of the range, rising, and each record is the merge of the history except for its miner and epoch |
| Recorder.MergedIsLatest | node/modules/mine-recorder/mod.go:70-88 | the merge has exactly the keys recorded for the miner and epoch, each with the value recorded last |
| RecorderKeys.DecimalIsInjective | node/modules/mine-recorder/mod.go:52-54 | epoch texts are injective and hold no slash |
| RecorderKeys.PrefixMatchesOneEpoch | node/modules/mine-recorder/mod.go:189-205 | the prefix delete of an epoch reaches exactly that epoch's records, never the watermark |
| RecorderKeys.KeysAreDistinct | node/modules/mine-recorder/mod.go:52-54 | record keys are injective in (miner, epoch) and never the watermark's key |
| RecorderKeys.MostSignificantFirst | node/modules/mine-recorder/mod.go:217-226 | the first of the bytes is the most significant one |
| RecorderKeys.WatermarkRoundTrip | node/modules/mine-recorder/mod.go:217-226 | the big-endian bytes round-trip both ways, for every int64 and every eight bytes |
| RecorderDatastore.PutRefines | node/modules/mine-recorder/mod.go:104-115 | writing a record's key in the shared datastore changes that record only |
| RecorderDatastore.PrefixDeleteRefines | node/modules/mine-recorder/mod.go:189-205 | deleting what the prefix query finds deletes exactly one epoch of the abstract store |
| RecorderDatastore.WatermarkRefines | node/modules/mine-recorder/mod.go:207-211 | writing the watermark's bytes moves the watermark only, and they read back the same |
| Cleaners.StepKeepsInv | node/modules/mine-recorder/mod.go:147-215 | every read, delete and write step of every cleaner keeps the invariant |
| Cleaners.CleanersAreSafe | node/modules/mine-recorder/mod.go:147-215 | from every store with a watermark, in every interleaving: everything from the first to the highest watermark is empty, nothing in the expiry window is deleted, and each new latest epoch started exactly one cleaner |
| Cleaners.CleaningIsExact | node/modules/mine-recorder/mod.go:147-215 | in every interleaving nothing appears that was not put and nothing in the expiry window is lost; once all calls have ended the latest epoch is the highest one put, and if it is a new one exactly what has not expired is left from the first watermark on |
| Cleaners.WatermarkCanFallIff | node/modules/mine-recorder/mod.go:147-215 | in every state: without a further record some interleaving of the calls under way lowers the watermark if and only if a cleaner at work has been overtaken or two calls can still write different deadlines |
| Cleaners.SerialRecordsNeverFall | node/modules/mine-recorder/mod.go:147-215 | so from every store it never goes back as long as no record is put while another call can still write |
| Cleaners.SerialCleanersNeverFall | node/modules/mine-recorder/mod.go:173-215 | nor, whatever else they could write, as long as no two cleaners are between their read and their write at once |
| Cleaners.WatermarkMayFall | node/modules/mine-recorder/mod.go:207-211 | and from every store, two records of new epochs put one after the other have a run in which it goes back |
| Participation.RunOutcome | f3participant/participation.go:87-121 | for every answer sequence `run` has ended if and only if an answer found the context cancelled (nil) or reported F3 disabled (an error) |
| Participation.TicketsAreChained | f3participant/participation.go:123-143 | every participation uses the ticket acquired last and every renewal passes it |
| Participation.CallsAreInOrder | f3participant/participation.go:123-245 | over every run each call is the one its log asks for: which errors give the ticket up, which are polled again, when the manifest is fetched or kept, when a lease is slept on or renewed |
| Participation.ErrorsDecideTheTicket | f3participant/participation.go:180-198 | an expired, too early or invalid ticket is passed on for a new one in the next call, an issuer mismatch or a node that is not ready is polled again with the same one |
| Participation.RetriesAreBounded | f3participant/participation.go:199-206 | in every run at most half the configured attempts, plus one, unexpected errors are retried since the last successful poll, although the manifest fetch shares the counter |
| Participation.GivesUpExactly | f3participant/participation.go:199-206 | with nothing but unexpected errors exactly that many are retried, and the next gives the ticket up |
| Participation.WaitsAreGood | f3participant/participation.go:207-242 | every wait is on a lease longer than the renewal window with the manifest of its own network |
| Participation.WaitsArePositive | f3participant/participation.go:233-238 | over every sequence of uint64 leases, at every wait of the run the instances left do not wrap, the wait is the product in int64 or 100 ms for zero, and it is positive, and the exact product, for a non-negative alignment without overflow |
| Participation.TryParticipateEnds | f3participant/participation.go:165-245 | with strictly falling validity, unexpected errors and a manifest still to come, it ends, by a lexicographic measure |
| Participation.ParticipationTerminates | f3participant/participation.go:165-245 | the same from any poll, with no bound on the first lease |
| Participation.DueIsLogged | f3participant/participation.go:233-242 | the waits the answers lead to are the machine's logged waits |
| ParticipantObject.Participant.TryGetTicket | f3participant/participation.go:123-143 | returns with a ticket, cancelled, or disabled, where the machine is |
| ParticipantObject.Participant.GetManifest | f3participant/participation.go:145-163 | returns a manifest, cancelled, or disabled; the shared counter ends where the machine's does, and with the lease's own manifest one wait is owed |
| ParticipantObject.Participant.Participate | f3participant/participation.go:172-211 | what one poll's answer does to ticket, counter and phase, and the wait it leaves |
| ParticipantObject.Participant.WaitToRenew | f3participant/participation.go:233-241 | the wait computed in int64, with 100 ms for zero, is slept unless the context is done |
| ParticipantObject.Participant.TryParticipate | f3participant/participation.go:165-245 | follows the machine through polls, retries, cached manifests and waits until the ticket is given up; what the machine does next after each answer is `Participation.CallsAreInOrder` |
| ParticipantObject.Participant.RunLoop | f3participant/participation.go:87-121 | the nested loops end as the flat machine does, with its result, having slept exactly its lease waits |
| CountWinners.WinRound | miner/miningmgr.go:136-140 | the round is one above the epoch whenever the tipset found is not above it, and above both in any case |
| CountWinners.MoveKeepsPool | miner/miningmgr.go:206-220 | the channel's fill is always the number of workers between send and receive |
| CountWinners.SemaphoreHolds | miner/miningmgr.go:197-252 | in every interleaving, for any miners and epochs, at most 100 lookups are in flight and nothing is sent after the close |
| CountWinners.CallReturns | miner/miningmgr.go:197-252 | no call deadlocks or runs for ever: every run is at most as long as there are tasks, and until the channel is closed some goroutine can step |
| CountWinners.ResultIsExact | miner/miningmgr.go:176-252 | the result is the unknown addresses and then exactly one count for each chosen miner, exact in the sense of the next rows |
| CountWinners.ResultReports | miner/miningmgr.go:176-252 | whatever the interleaving, the result is one entry for each unconfigured address as often as it was asked for, and then one count for each miner asked for, each of which reports its lookups |
| CountWinners.ExactCountReports | miner/miningmgr.go:220-240 | a count lists every win of the range with its number and every reported failure with its message, nothing else, and its total is the sum of the wins |
| CountWinners.UnknownIsExact | miner/miningmgr.go:185-192 | the first part of the result names each unconfigured address as often as it was asked for, with no wins |
| CountWinners.CollectIsExact | miner/miningmgr.go:209-245 | when the workers of a miner are done, its total is the sum of its list, which covers every epoch with an entry once |
| CountWinners.ExactListIsApart | miner/miningmgr.go:220-240 | the epochs of a list are distinct and lie in [start + 1, end + 1] |
| CountWinners.ExactListHasEveryWin | miner/miningmgr.go:220-240 | no win in the range is missing |

## Left out

- Time-offset safety of all runs over the MySQL store: it does not hold of the code; `GateOffset` has the exact conditions and the failing runs.
- Overlapping broadcasts of one miner, and a failing recording put after an accepted submit: assumptions, see above.
- GateSafety.LocalRunIsFaultFree: says nothing of an earlier block that leaves out a later one, because the code allows it; `AcceptIsFaultFreeIff` has the exact condition.
- Broadcast.BroadcastIsRun: a broadcast whose put after an accepted submit fails is no run of the gate; the method `BroadCastBlock` covers it.
- Broadcast.BroadCastBlock: contract of one undisturbed call; interleavings are those of `PublishGate`.
- MinerRuns.ScheduleIsRun: a broadcast ends before the next put or broadcast of the same miner; a slower one, and the runs of `PublishGate` that it makes, are covered by `GateSafety` alone.
- MinerObject.Miner.MineOneForAll: takes the miners in some order; puts of different miners commute by `InterleavingsAgree`. The goroutine of a timed-out attempt that is still computing, and the late `Mining` put it may make, are not part of the pass that timed out; such a put is any `Note` step of the gate.
- Cleaners.CleanersAreSafe: the query for one epoch and the deletes of what it found are one step, and none of them fails; no record is put into an epoch that is being cleaned, by assumption. Errors are part of `RecorderObject`.
- Two concurrent records of the same miner and epoch: `Record` reads and writes without a lock, so one of them may be lost; the recorder object is sequential.
- The JSON text of records: a stored value is a map of strings; one that does not decode is an error.
- Participation.RunOutcome: the pause of half a second between two loops of `run` is not a step of its own; a context that ends during it is one that ends at the next answer.
- Handshake: a loop that is told to stop in the middle of a pass is `Running` until it looks at the channel again; the sleeps it cuts short are not modelled.
- `CountWinners` before the fan-out: the head lookup and its height check (`miner/miningmgr.go:163-174`).
- `f3participant/multiparticipation.go`: only map membership, and a new participant is started through the nil result of the lookup (lines 100-107).
- VRF, signatures, CBOR, win counts, proofs, message selection: uninterpreted data in headers and answers.
- Node, gateway, auth and wallet clients; gorm and leveldb internals; `ListBlock`.
- Miner manager and `minerWPPMap` bookkeeping, warm-up, sync status, metrics, tracing, journal, logging, the sleeps until the next epoch.
- Command line, configuration, repo and migration, dependency injection, generated code.
