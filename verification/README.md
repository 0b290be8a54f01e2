# Verified model of the settlement, sync, queue and report cores

This project models the parts of the node where an error would cost money, split a chain, lose
work or pass a crashing build, and proves what those parts are for.

- **Settlement and escrow close** (`EscrowLedger`, `SettleOutbox`, `FairWindow`, `Settlement`,
  `EventAccounting`, `SettleProtocol`, `SettleSafety`, `RefundOrder`, `SettleHistory`,
  `SettlePull`). The coordinator's outbox, the origin node's escrow ledger with its table of applied
  events, any number of pullers, the HTTP relay and the operator form one state machine. Each read
  or write of shared state is one action, so a run is any interleaving, with crashes and lost
  replies anywhere. The node's own code is the class `SettlePull.Node`: its methods are the loops of
  the pull and of the close drain, other parties act between its steps, and its log is a run of the
  state machine, so every theorem about runs holds of it.
- **Follower block sync** (`FollowerSync`). Planning a pull from a peer's headers, staging, and
  importing a contiguous tail, as methods over the chain and the stage table.
- **Work queue** (`WorkQueue`, `WorkLease`). Items, leases, retries and completion for one runner as
  a class, and for many interleaved claimers as a state machine.
- **Report and gate** (`StableSort`, `ReportPipeline`, `ReportGate`). The in-place sort, collapse,
  partition, severity counts, verdict and the two gates.
- **Smaller algorithms** (`LogCollapse` and `WorkerLog`, `LogTail`, `RateLimiter`,
  `ArtifactCleanup`, `PoolProgress`). `Text` and `Sums` hold shared definitions.

Each imperative part is a method proved against a specification function; the laws are lemmas about
that function or about all runs. Nondeterministic values (`*`) stand for failures of the database,
the network and the file system, and for clock readings.

## What turned out false or narrower

- The coordinator sorts only `finalize` last, so a fetch has every pending pay row of a campaign beside
  a `close` row exactly when the rows it leaves out are all final (`SettleOutbox.HoldsPaysIff`).
  `RefundOrder.RefundAfterPayouts` covers `close` under that condition. The coordinator never
  enqueues a `close` row (`RefundOrder.OnlyCoordinatorKinds`), so on its runs the order holds without it
  (`RefundOrder.RefundAfterAllPayouts`).
- Completion writes carry no owner check. No completion breaks lease exclusion by itself
  (`WorkLease.FinishNeverOverlaps`), but one that hands a row back under another holder's lease leads to
  two leases exactly when the row can still be taken (`WorkLease.UncleanOverlapsIff`). Exclusion holds
  when every trap is reported within its own lease (`WorkLease.TrapsInLeaseExclusion`), which a runner
  can check.
- A done item stays done exactly until a trap is reported on it (`WorkLease.DoneStaysIff`); when every
  completion is recorded within its own lease, settled items are final (`WorkLease.RecordsInLeaseFinal`).
- A campaign with a failed work item and no time budget never completes
  (`WorkQueue.FailedNeverCompletes`).
- Sanitizing a worker log twice equals sanitizing it once exactly when every run of the input settles
  (`WorkerLog.SanitizeTwiceIff`). Where every HTML summary reads as a plain line, that can only fail for a run whose length has "502" in it, so never for the 120 and 40
  lines that the program's callers pass (`WorkerLog.ShortLogsOnce`). `WorkerLog.LongBurstChanges` shows a
  failure with 502 lines; no caller reaches it.
- `crash_count` is no maximum of the snapshots; it follows `unique_crashes`
  (`PoolProgress.CrashCountFollows`, `PoolProgress.CrashCountFallsIff`). Which terminal status a campaign ends
  in depends on the order of snapshots (`PoolProgress.StatusDependsOnOrder`).
- The gate passes a campaign that has a crash exactly when the query over the whole campaign failed, the
  campaign is healthy and its crashes all lie beyond the rows read; never when it has no more findings
  than the limit (`ReportGate.UnsoundPassIff`). A clean verdict is not a pass
  (`ReportGate.CleanWithoutPassIff`). Campaigns of both kinds exist (`ReportGate.BuriedIsMissed`).
- The comment on the genesis case of the sync promises a bootstrap of an empty follower
  (main.go:5524-5525). For a chain that has a genesis block that branch is dead, and the exits for
  bad JSON, a bad hash or a bad signature are dead for rows staged under the same policy;
  `FollowerSync.Follower.CollectTail` has `assert false` there.

## Model

| member | source | states |
|---|---|---|
| EscrowLedger.EventIdInjective | internal/chain/fuzz_settle_applied.go:16-23 | Two outbox rows never share a durable event id, whatever characters a campaign id contains. |
| EscrowLedger.PayRunKeeps | internal/chain/fuzz_settle_once.go:96-138 | Paying a run or a floor run moves money from the escrow to the miner and creates none; the rows stay consistent. |
| EscrowLedger.PayCrashBonusKeeps | internal/chain/fuzz_settle_once.go:140-174 | The same for the unique-crash bonus. |
| EscrowLedger.PayBountyKeeps | internal/chain/fuzz_settle_once.go:176-230 | The same for a bounty, whose slice is split between the miner and the platform fee account. |
| EscrowLedger.CloseEscrowKeeps | internal/chain/fuzz_settle_once.go:232-260 | Closing refunds exactly what is left: money is conserved and the closed escrow locks nothing. |
| EscrowLedger.ReopenKeeps | internal/chain/fuzz_escrow.go:342-405 | Reopening for a settle drain re-locks the unspent runs pool out of the wallet, and conserves money. |
| EscrowLedger.OpenEscrowKeeps | internal/chain/fuzz_escrow.go:68-191 | Opening an escrow conserves money. |
| EscrowLedger.ApplyOnceKeeps | internal/chain/fuzz_settle_once.go:17-80 | Whatever ApplyFuzzSettleOnce answers, balances plus locked money stay the same. |
| SettleOutbox.EnqueueReplaySafe | internal/poolfuzz/settle_outbox.go:53-133 | Enqueueing is replay safe: one id for each intent, no existing row changes, repeating the call changes nothing and answers the same id. |
| SettleOutbox.QueueFacts | internal/poolfuzz/settle_outbox.go:152-183 | A campaign's queue holds exactly its pending rows, each once, finalize rows after all others and otherwise in id order. |
| SettleOutbox.CountZero | internal/poolfuzz/settle_outbox.go:135-150 | The pending count is zero exactly when no row of the campaign is pending. |
| SettleOutbox.ListForCampaignIsWindow | internal/poolfuzz/settle_outbox.go:152-183 | A scoped fetch returns pending rows without repetition, a prefix of the campaign's queue. |
| SettleOutbox.WindowFinalizeLast | internal/poolfuzz/settle_outbox.go:152-183 | A fetched window that contains a finalize contains every other pending row of its campaign. |
| SettleOutbox.HoldsPaysIff | internal/poolfuzz/settle_outbox.go:152-183 | A window holds every pending pay row of a campaign exactly when the queue rows it leaves out are all final, so always when it has room for as many rows as the count says. |
| FairWindow.RotateFacts | internal/poolfuzz/settle_outbox.go:191-209 | The rotated window lists distinct campaigns of the scan, as many as fit. |
| FairWindow.RotateNoStarvation | internal/poolfuzz/settle_outbox.go:191-209 | Among any n consecutive 30 s slots each of n campaigns is in the window of one. |
| FairWindow.GroupByCampaign | internal/poolfuzz/settle_outbox.go:300-314 | The queues hold each campaign's rows in order, and the order lists each campaign once. |
| FairWindow.FairWindow | internal/poolfuzz/settle_outbox.go:293-372 | The fair window keeps of every campaign a prefix of its rows, is full when it can be, and leaves no campaign out when it has room for all. |
| FairWindow.ListPending | internal/poolfuzz/settle_outbox.go:212-291 | The global fetch returns a window in the same sense, within the limit, and a non-empty one whenever something is pending. |
| Settlement.SettledStable | fuzz_settle_pull.go:241-248 | Once a row is paid or can never be paid, no later ledger operation, reopening included, makes it payable again. |
| Settlement.TerminalSettles | fuzz_settle_pull.go:121-132 | Every ledger answer on which the puller acknowledges a row means the row is paid or has a permanent reason not to be. |
| Settlement.RejectedMeans | fuzz_settle_pull.go:243-248 | An error that drains a row leaves the ledger unchanged and gives a permanent reason, and is never given for a finalize. |
| Settlement.DrainSettles | fuzz_settle_pull.go:213-239 | A row the action table drains without a ledger call is settled already. |
| EventAccounting.ApplyOnceAccounted | internal/chain/fuzz_settle_once.go:17-80 | The event table and the escrow counters agree one to one after every call, also a refused or replayed one. |
| SettleProtocol.FinalsLastFacts | fuzz_settle_pull.go:84-95 | Ordering a batch loses and adds no row. |
| SettleProtocol.StepInv | fuzz_settle_pull.go:58-165 | Every action of every party keeps the protocol invariant: acknowledged rows are settled, recorded events are faithful, batches in flight hold real rows. |
| SettleProtocol.ExecuteInv | fuzz_settle_pull.go:58-165 | The invariant holds in every state of every run. |
| SettleSafety.NoPayoutLost | fuzz_settle_pull.go:96-163 | On every run, with crashes between pay and ACK, concurrent pulls and reopening: a row has left the outbox only if it was paid under its own event id or the ledger holds the permanent reason it cannot be; a finalize only if the escrow was closed. |
| SettleSafety.MoneyConserved | internal/chain/fuzz_escrow.go:461-467 | On every run balances plus locked money never change, and each bounty pool equals bounty paid plus crash bonus plus refunded plus remaining. |
| SettleSafety.IntentCreditedAtMostOnce | fuzz_settle_pull.go:259-271 | On every run a settle intent is credited at most once, however often it is enqueued, fetched again or pulled by several pullers, and exactly when it shows as paid. |
| SettleSafety.OneBountyOneBonus | internal/chain/fuzz_settle_once.go:17-80 | On every run a campaign pays one bounty and one crash bonus at most, and for runs at most its rate times the recorded run events. |
| RefundOrder.RefundAfterPayouts | fuzz_settle_pull.go:84-133 | In a pass during which nobody else touches the escrow, finalize or close is applied only after every pay row of the campaign in the batch is settled; and every such row enqueued before the fetch is settled too, for a finalize always and for a close when the batch held every pending one. |
| RefundOrder.ExecuteGrows | fuzz_settle_pull.go:58-165 | No run takes back a recorded event, a payment or the fact that an escrow was closed. |
| RefundOrder.OnlyCoordinatorKinds | internal/poolfuzz/relay_settler.go:58-109 | On every run in which only the coordinator's kinds are enqueued, the outbox holds rows of those kinds only, so never a close row. |
| RefundOrder.RefundAfterAllPayouts | internal/poolfuzz/settle_replay.go:52-113 | On every such run, what a quiet pass is about to refund on is a finalize, and every pay row of the campaign enqueued before the fetch is settled. |
| SettleHistory.EmptyMeansSettled | fuzz_campaigns.go:1176-1189 | When the exact count of a campaign was zero at some moment, every row enqueued until then is settled from then on. |
| SettlePull.Node.HandleRow | fuzz_settle_pull.go:98-132 | One turn of the row loop does what the protocol's look and pay steps do, whatever others do in between. |
| SettlePull.Node.HandleBatch | fuzz_settle_pull.go:96-133 | The loop ends with the protocol's acknowledgement list and failed set; its two counters are exactly the turns that found an escrow here and those that handed the row back, and the first is zero only when no row of the batch had an escrow here. |
| SettlePull.Node.AckAll | fuzz_settle_pull.go:153-163 | An acknowledgement that returns nil has removed every id given. |
| SettlePull.Node.Order | fuzz_settle_pull.go:84-95 | Pay rows first, finalize and close last, each group in the order fetched. |
| SettlePull.Node.PullWindow | fuzz_settle_pull.go:58-166 | At most 32 passes; each pass that continues acknowledges a row; nil from a pull scoped to a local escrow means the coordinator was seen empty for it during the call. |
| SettlePull.Node.PullLocal | fuzz_settle_pull.go:39-56 | Nil means each locally open escrow listed was seen empty since the call began. |
| SettlePull.Node.Pull | fuzz_settle_pull.go:20-37 | The same for the whole pull, from the moment the local list was read. |
| SettlePull.Node.DrainBeforeClose | fuzz_campaigns.go:1114-1173 | True only after at least two attempts and an exact zero count at a moment of the call, so every row of the campaign enqueued until then is settled. |
| SettlePull.Node.TryClose | fuzz_campaigns.go:1089-1112 | Only a cancelled or completed status closes anything. If this call closed the escrow, every row the coordinator held at the zero count is settled in the ledger it leaves. |
| FollowerSync.Follower.StageBlocks | main.go:5128-5153 | Only fetched blocks that pass the hash and signature checks are staged, all of them when no insert fails; no row staged before is lost. |
| FollowerSync.Follower.Import | internal/chain/import.go:32-120 | An import appends exactly the given block, or changes nothing; it does so exactly when the block links to the tip and nothing else refuses it. |
| FollowerSync.Follower.DropStale | main.go:5483-5498 | The rows at or below the local height are dropped, from the stage too when no delete fails; the rest of the window is kept in order. |
| FollowerSync.Follower.SplitStale | main.go:5483-5498 | In a window in index order the rows at or below the local height are a prefix; the two lists are that prefix and the rest. |
| FollowerSync.Follower.SkipSiblings | main.go:5503-5519 | What remains begins with the first row that links to the tip; without one nothing is skipped. |
| FollowerSync.Follower.CollectTail | main.go:5520-5583 | The rows collected are the longest run that continues the tip, and none are only when the first row does not link. |
| FollowerSync.Follower.ImportRow | main.go:5598-5655 | The precondition is the claim that each import call gets a block whose index is the height plus one and whose parent is the tip. |
| FollowerSync.Follower.ImportTail | main.go:5590-5655 | The old chain stays a prefix, the blocks added are the rows given in order and passed every check, and a row leaves the stage only when its block is on the chain. |
| FollowerSync.Follower.ApplyStagedTail | main.go:5457-5668 | The blocks imported are those of the window's linked tail, all of it unless an import is refused, and then the reason given is the one that applies to the first block left out; exact heights, tip, ok flag and reason of the result; progress whenever a linking row lies in the window. |
| FollowerSync.Follower.ApplyWindow | main.go:5475-5668 | The same for any window of staged rows in index order. |
| FollowerSync.Follower.TailFound | main.go:5503-5583 | Skipping and collecting find the linked run that starts at the first linking row of the window, and none exactly when no row links. |
| FollowerSync.PlanPull | internal/p2p/manager.go:485-610 | A fork is reported exactly when no header of the peer's window extends the tip; otherwise the hashes are the first linked run, as long as the depth limit and the window allow. |
| FollowerSync.Follower.RunExecute | main.go:5282-5348 | A detected fork or a failed fetch changes neither chain nor stage; otherwise the old chain stays a prefix and only checked blocks are added. |
| FollowerSync.Follower.AnyRun | main.go:5282-5348 | Over any sequence of pulls, applies and runs the old chain stays a prefix of the new one, which is linked and extended by checked blocks only. |
| WorkQueue.Queue.EnsureItems | fuzz_runner.go:178-213 | Input numbers are exactly 1..n, at most the budget; existing rows are untouched. |
| WorkQueue.Queue.Claim | fuzz_runner.go:215-254 | The lowest claimable item is leased and nothing else changes; none is claimed exactly when none is claimable. |
| WorkQueue.Queue.Execute | fuzz_runner.go:434-458 | A recorded execution uses up at least one attempt; no other row changes. |
| WorkQueue.Queue.Tick | fuzz_runner.go:142-170 | A tick that ends below its batch without an error has left nothing claimable; done and failed rows never change. |
| WorkQueue.Queue.Ticks | fuzz_runner.go:79-170 | Over any number of ticks at most max*budget executions are recorded; at that number every item of the budget is done or failed and nothing is claimable at any time. |
| WorkQueue.RecordFalls | fuzz_runner.go:434-458 | A status write keeps the queue invariant (open rows below the attempt limit, failed rows at it) and lowers the attempts left. |
| WorkQueue.PotentialZero | fuzz_runner.go:178-254 | No attempts are left exactly when all items of the budget exist and are done or failed. |
| WorkQueue.CompletesIffAllDone | fuzz_runner.go:622-688 | Without a time budget a campaign completes exactly when every item of its budget is done. |
| WorkQueue.FailedNeverCompletes | fuzz_runner.go:679-688 | One failed item keeps a campaign without a time budget open for ever. |
| WorkLease.TakeKeepsInv | fuzz_runner.go:240-253 | The conditional update keeps lease exclusion, even with a stale clock reading and a stale select. |
| WorkLease.FinishKeepsInvIff | fuzz_runner.go:434-458 | About the invariant only: a completion, which has no owner check, keeps it if and only if it does not hand the row back while someone else holds an unexpired lease on it. |
| WorkLease.FinishNeverOverlaps | fuzz_runner.go:434-458 | No completion, whenever it is reported, gives an item two unexpired leases by itself. |
| WorkLease.UncleanOverlapsIff | fuzz_runner.go:215-254 | After a completion that does hand such a row back, steps with clean completions can reach two unexpired leases on one item if and only if the row can still be taken: its attempts are below the limit or some claimer has it selected. |
| WorkLease.CleanNeverOverlaps | fuzz_runner.go:215-254 | From any state of the invariant, steps with clean completions never reach two unexpired leases on one item. |
| WorkLease.TrapsInLeaseExclusion | fuzz_runner.go:434-458 | When every trap below the attempt limit is reported within its reporter's lease, no item has two unexpired leases in any state of any interleaving. |
| WorkLease.DoneStaysIff | fuzz_runner.go:434-446 | One step leaves a done row done exactly when it is not a trap reported on that row. |
| WorkLease.RecordsInLeaseFinal | fuzz_runner.go:434-458 | When every completion is recorded within its reporter's lease, exclusion holds in every state of every interleaving, and done and failed rows never change again. |
| WorkLease.OwnLeaseIsClean | fuzz_runner.go:434-458 | Completing within one's own lease always meets that condition. |
| WorkLease.LeaseExclusion | fuzz_runner.go:215-254 | In every state of every interleaving with clean completions no item has two unexpired leases. |
| WorkLease.ClaimsAloneExclusive | fuzz_runner.go:215-254 | Over selects and updates alone exclusion needs no condition. |
| WorkLease.OverlapReached | fuzz_runner.go:215-254 | A run in which a second claimer takes over an expired lease while the first still works. |
| WorkLease.StaleTrapBreaksExclusion | fuzz_runner.go:434-446 | From that state a stale trap leads, by clean steps, to two unexpired leases on one item. |
| WorkLease.StaleTrapReopensDone | fuzz_runner.go:434-446 | From that state a stale trap reopens an item that was done. |
| StableSort.SortIsTheStableSort | fuzz_campaigns.go:2263-2289 | The sort's result is the only sequence that is ordered and keeps ties in their order. |
| StableSort.SortMultiset | fuzz_campaigns.go:2263-2289 | The result is a permutation. |
| StableSort.SortInPlace | fuzz_campaigns.go:2263-2289 | The in-place shifting loop computes that sort. |
| ReportPipeline.OrderIsStrictWeak | fuzz_campaigns.go:2266-2286 | More severe, then crash before no crash, then newer, is a strict weak order. |
| ReportPipeline.SortFindings | fuzz_campaigns.go:2263-2289 | The findings are sorted in place in that order. |
| ReportPipeline.Collapse | fuzz_report_product.go:394-413 | The rows shown are the non-crashes and the first of each crash bucket; the counts are the buckets and the rows left out. |
| ReportPipeline.ShownKeepsOthers | fuzz_report_product.go:394-413 | Collapsing keeps every non-crash row in order. |
| ReportPipeline.CrashesIn | fuzz_report_product.go:394-413 | Crash rows in are unique buckets plus duplicates. |
| ReportPipeline.ShownCrashes | fuzz_report_product.go:394-413 | One crash row is shown for each bucket. |
| ReportPipeline.BucketRepresented | fuzz_report_product.go:394-413 | In the sorted list every crash is shown by a row of its bucket that is at least as severe. |
| ReportPipeline.BucketsDistinct | fuzz_report_product.go:394-413 | No two crash rows shown share a bucket. |
| ReportPipeline.ShownOrdered | fuzz_report_product.go:394-413 | The rows shown stay sorted. |
| ReportPipeline.Partition | fuzz_report_product.go:320-364 | Each group shows its first rows up to its limit, and the group counts add up to all rows. |
| ReportPipeline.ScoreZeroMeansNoCrash | fuzz_report_product.go:415-438 | The severity score is zero exactly when no finding is of crash class. |
| ReportGate.Judge | fuzz_campaigns.go:2296-2448 | The reassigned verdict and pass flag meet their exact conditions. |
| ReportGate.CountAndScore | fuzz_campaigns.go:2297-2306 | The score is zero exactly when the findings that the counts cover hold no crash. |
| ReportGate.PassesIff | fuzz_campaigns.go:2427-2448 | The gate passes exactly when the findings that its counts cover (the whole campaign, or the rows read when that query failed) hold no crash, the campaign has runs, and a pool campaign has no sync error and no unmirrored crash hint; the verdict is then clean. |
| ReportGate.GroupRows | fuzz_campaigns.go:2454-2458 | Visible plus hidden rows are the rows shown, which are the rows fetched minus duplicates; the clamp at zero never acts. |
| ReportGate.BuildReport | fuzz_campaigns.go:2221-2458 | The whole report over the first rows of the campaign, newest first, up to the limit: sorted rows, tallied groups, counts of the whole campaign or of the rows read, and a verdict and pass that meet the exact conditions. |
| ReportGate.UnsoundPassIff | fuzz_campaigns.go:2237-2300 | A campaign with a crash passes exactly when the whole-campaign query failed, the campaign is healthy and its crashes all lie beyond the rows read; a campaign with no more findings than the limit passes exactly when it is crash-free and healthy. |
| ReportGate.CleanWithoutPassIff | fuzz_campaigns.go:2308-2318 | A clean verdict fails the gate exactly when the whole-campaign query went through and the healthy campaign's crashes are all of low or unclassified severity and beyond the rows read. |
| ReportGate.BuriedIsMissed | fuzz_campaigns.go:2120-2128 | For every limit there are campaigns whose one crash, of any severity, lies beyond the rows read. |
| ReportGate.EndpointIgnoresHealth | fuzz_campaigns.go:2808-2832 | Of all reports, the endpoint passes by default and the embedded gate does not exactly those without a counted crash whose campaign is unhealthy and has no negative run count. |
| LogCollapse.Sanitize | main.go:3540-3678 | The loop with three counters equals grouping the lines into maximal runs of one class. |
| LogCollapse.RunStartIsMaximal | main.go:3629-3673 | Those runs are of one class and maximal. |
| LogCollapse.OneCounter | main.go:3629-3673 | At most one counter is ever nonzero, and one is exactly while a collapsible run is open. |
| LogCollapse.UnchangedIffStable | main.go:3540-3678 | A text is unchanged exactly when no two neighbours share a collapsible class and every HTML line renders to itself. |
| LogCollapse.CalmIffAllSettle | main.go:3540-3678 | The result has no HTML line and no two neighbours of one collapsible class exactly when every run of the input settles. |
| LogCollapse.TwiceIffSettles | main.go:3540-3678 | Collapsing twice is collapsing once exactly when every run of the input settles: a CUDA or finding run unless its length and last line spoil its summary, an HTML run when its summary is no HTML line and not of a neighbour's class. |
| WorkerLog.SanitizeWorkerLogLines | main.go:3540-3678 | The worker-log instance of that loop. |
| WorkerLog.SanitizeTwiceIff | main.go:3540-3678 | Sanitizing a worker log twice equals sanitizing it once exactly when every run of the input settles in that sense. |
| WorkerLog.HtmlNeverStandsStill | main.go:3551-3655 | No line that reads as HTML renders to itself. |
| WorkerLog.CudaSummaryClass | main.go:3567-3578 | The summary of a CUDA run reads as CUDA, unless its last line has the page tag and its length has "502" in it; then it reads as HTML. |
| WorkerLog.FindingSummaryClass | main.go:3579-3603 | The same for a detector finding run and the campaign id it keeps. |
| WorkerLog.ShortLogsOnce | main.go:3829-3840 | For fewer than 502 lines, more than any caller passes, sanitizing twice equals sanitizing once when every HTML summary reads as a plain line. |
| WorkerLog.LongBurstChanges | main.go:3540-3678 | 502 equal CUDA lines that mention a page tag collapse to a line that the second pass replaces; no caller passes so many. |
| WorkerLog.BurstLineExists | main.go:3625-3628 | Such a line exists. |
| LogTail.LinesAfterCut | main.go:3255-3266 | Cutting a file anywhere, also inside CRLF, the lines after the cut are the file's last lines. |
| LogTail.TailRefines | main.go:3236-3276 | The result is a suffix of the simple form, and equals it exactly when the file fits, enough lines were found, or the whole file is blank. |
| LogTail.TailLastLines | main.go:3236-3276 | The method computes that result. |
| RateLimiter.Limiter.AllowRate | main.go:4756-4802 | The method changes both tables and answers as the step function says. |
| RateLimiter.LimiterSafe | main.go:4756-4802 | Over every request stream with a nondecreasing clock and a fixed positive limit for each key: at most limit admissions in a second, slot counts up to 3*limit+1, refusal for 15 s after a trip, at most 4096 keys. |
| ArtifactCleanup.RemoveExpired | fuzz_artifacts.go:139-150 | The age pass removes only expired files, and keeps exactly the others when no removal fails. |
| ArtifactCleanup.EvictLoop | fuzz_artifacts.go:159-168 | The loop stops at the first position where the total fits, or at the end. |
| ArtifactCleanup.EvictOldest | fuzz_artifacts.go:152-169 | Without failures the evicted files are the shortest oldest-first prefix that reaches the cap; a total still too large means every file left resisted removal. |
| ArtifactCleanup.OldestFirst | fuzz_artifacts.go:153-158 | The eviction order is by age, ties by path. |
| ArtifactCleanup.Cleanup | fuzz_artifacts.go:139-170 | Initial bytes equal deleted plus remaining bytes even when removals fail; without failures nothing expired remains and the total is within a positive cap. |
| PoolProgress.Campaign.Apply | fuzz_pool_progress.go:353-427 | One sync merges an accepted snapshot or leaves the row alone, and triggers the close exactly for a terminal result. |
| PoolProgress.CountersAreMaxima | fuzz_pool_progress.go:378-400 | After any list of snapshots each counter is the maximum of its start value and the accepted snapshots. |
| PoolProgress.OrderAndRepetitionIrrelevant | fuzz_pool_progress.go:378-400 | Two lists of arrivals that carry the same snapshots, in any order, any number of times and at any times, leave the same counters. |
| PoolProgress.CrashCountFollows | fuzz_pool_progress.go:384-388 | crash_count equals unique_crashes once that has risen, and is untouched before. |
| PoolProgress.CrashCountFallsIff | fuzz_pool_progress.go:384-388 | It falls exactly when unique_crashes rises to less than it. |
| PoolProgress.TerminalStays | fuzz_pool_progress.go:397-419 | A terminal status never returns to a non-terminal one, and the completion time is set once. |
| PoolProgress.LastDecisionWins | fuzz_pool_progress.go:397-402 | The last snapshot that decides a status sets the final one. |
| PoolProgress.StatusDependsOnOrder | fuzz_pool_progress.go:397-402 | Two orders of the same snapshots end in different terminal statuses. |

## Left out

- Floating-point fee and split arithmetic: the 5% and 1% shares are integer divisions; the split of a
  budget into pools at open time is a parameter.
- Other writers of the ledger: order fees, the fee leg of opening, rollback of an unstarted escrow, and
  transfers between accounts. The economic invariant check, which reads other tables, is a boolean.
- Loss of the coordinator's tables, and outbox rows of older schemas: the outbox starts empty.
- `EscrowLedger.OpenEscrowKeeps`: the fee leg of opening, the minimum budget, the computation of the split
  and the final invariant check are not part of the model; the pools and the rate are parameters.
- `FairWindow.RotateNoStarvation`: the list of campaigns is fixed over the slots; campaigns that come
  and go, and those beyond the 512 that the scan reads, are not covered.
- `FairWindow.ListPending`: one read of the outbox; the program queries each campaign separately, so rows
  can change between its queries.
- `SettlePull.Node.TryClose`: the progress sync before the drain, which writes the campaign row and
  mirrors finding rows.
- Event ids that an administrator passes are any that do not have the outbox form.
- Local status reads that fail: the program treats them as "not local"; the model takes reads to succeed.
- Token back-off of the ticker, response size limits and the order of the local escrow list.
- White space and letter case are ASCII only; strings are sequences of characters, not bytes.
- Concurrent appliers of the staged tail: one applier runs at a time, although the program admits three
  sync operations at once. The hash function, signature check and JSON decoding are parameters.
- `FollowerSync.Follower.Import`: other reasons to refuse a block (payload, rewards, order escrow) are a
  free choice, and ledger effects of an imported block are not modelled.
- Database errors before the stage is read, and the genesis import of an empty follower.
- Retention, which deletes old work items; guided scheduling, coverage and finding rows of an execution.
- `WorkQueue.Queue.Execute`: the execution itself is a free outcome.
- Rendering of issues, families and summaries in the report: a row stands for its issue. Crash
  classification and bucket keys are parameters. Integers read from a summary are given as integers.
- Directory walking and the recount of kept files after a cleanup; symbolic links.
- HTTP handlers, authentication, HTML and CSV output, telemetry, wallet caches and time estimates: no deep
  state.
