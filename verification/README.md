# Verified models of OceanBase's log service

OceanBase is a distributed database. This project models the parts of its log
service (`src/logservice`) whose correctness spans many steps, restarts, threads
or servers, together with four smaller components around it, and proves what
they promise. Each source component has one or more modules:

| module | component |
|---|---|
| `PoolDisk`, `PoolTrim`, `PoolManager` | the server's pool of log blocks: resize, restart, trim, and power failure at any write |
| `PoolProtocol` | block creation, recycling and resize running concurrently |
| `TenantLedger` | the log disk reserved for tenants |
| `FlashbackNet`, `FlashbackProgress`, `Flashback` | the four-stage flashback of a tenant's log streams |
| `GcHandler`, `GcReplication`, `GcCluster` | the replicated garbage-collection state of a log stream |
| `GcRounds` | the rounds that remove replicas their leader no longer lists |
| `TimeoutList` | the handshake timeout list of the socket hook |
| `Pread` | parallel reads from external storage |
| `ProcessRead` | streaming the rows of a remote query |
| `LogHandler` | appending while the handler changes role, goes offline, online and down |
| `Heartbeat` | the root service epoch under concurrent heartbeats |

How things outside a component are modelled:

- **Disk and power.** A disk is a value changed by atomic writes (rename, unlink,
  allocation, meta record). A device performs a given number of further writes
  and then loses power; all statements hold for every such number.
- **Threads.** Code that runs under a lock is one step. Code between locks is
  split into steps, and theorems are about every interleaving: a run is a
  sequence of enabled steps, or a class whose step methods may be called in any
  order and keep `Valid()`.
- **Network, clocks, other services.** Their answers are function parameters that
  may differ at every call, so a theorem for all parameters is one for all
  behaviours. A stage that ends on a timeout gets a number of passes.

## What the code does differently from what it says

- `ObLSMeta::set_gc_state` stores an invalid SCN with every state but
  `LS_OFFLINE`, so the offline SCN is cleared on `WAIT_GC`. It is kept exactly
  while the state is `LS_OFFLINE` (`OfflineScnExact`).
- A failure to store `LS_OFFLINE` is swallowed; a leader that missed the store
  writes a second `OFFLINE_LS` log, and replicas can keep different offline SCNs
  for good (`StoreFailureDisagrees`). This is the only way: without such a log
  they agree (`ReplicasAgree`), and wherever a leader has missed the store they can
  come to disagree (`MissedStoreDisagrees`).
- Restart moves tenants' temporary blocks into the pool before it has scanned the
  pool, to ids counted from 0. Over all possible power failures this loses no
  block exactly when there is no such block, or one and id 0 is free
  (`ReclaimSafeIsExact`).
- A shrink checks only the tenants' reservation. It fails half-way exactly when
  the blocks in use exceed the new size, goes back to the old recorded size, and
  leaves a pool that fails the integrity check unless the pool was empty
  (`Resize`, `LostExactly`). What it freed is missing ever after, so that a later
  shrink can fail with nothing in use (`FailureStarvesTheNext`).
- Updating a tenant to size 0 releases its reservation at once although its palf
  still holds disk (`ZeroUpdateOversells`); no other update does
  (`UpdateBoundIsExact`).
- `pread` promises to report the failure of any task, but looks at the first
  only; the promise holds exactly when one task is made (`FailureReportIsExact`).
  It also announces tasks of at least 2 MiB; the true minimum is 1 MiB
  (`MinimumIsOneMib`). All tasks get 2 MiB exactly if the last one does
  (`ConstructTasks`); with threads enough, exactly for multiples of 2 MiB
  (`MinimumForMultiples`).
- The flashback's sync check passes a log stream none of whose members has reached
  the flashback point, if all of them answered that they end before it, without
  looking at its learners; if some member has reached it, all members and all
  learners must have (`CheckPassed`, proved in `CheckLists` and `Run`).
  `LearnersAreSkipped` shows a check that passes while every learner lags behind.
- An acknowledgement is matched by log stream and mode version, not by flashback
  point (`Accept` in `FlashbackNet`). Success means that every listed server acknowledged
  this very point if no acknowledgement of that stream and version for another
  point came in (`DoneAtPoint`); without that a flashback succeeds whatever points
  are acknowledged, so that a server has acknowledged this one just when its own
  point is this one (`ForeignPointsSuffice`).

## Model

| member | source | states |
|---|---|---|
| `PoolManager.LogBlockMgr.ResizeThenRestart` | src/logservice/ob_server_log_block_mgr.cpp:951-1085 | a resize that may lose power at any write, followed by any number of interrupted restarts, ends at the old or at the requested size, never between, with no block overwritten and the integrity check satisfied; it does end there if one of the restarts has power for 5 * blocks + 6 writes |
| `PoolManager.LogBlockMgr.RestartUntilLoaded` | src/logservice/ob_server_log_block_mgr.cpp:574-606 | restarts repeated until one completes finish the recorded resize, whatever each of them had done before losing power; one completes as soon as one of them has power for 5 * blocks + 6 writes |
| `PoolManager.LogBlockMgr.DoLoad` | src/logservice/ob_server_log_block_mgr.cpp:574-606 | a completed load is in NORMAL status at the recorded target with pool plus tenant blocks equal to it; an interrupted one leaves the next the same task, and had less power than a bound on the writes of a load, in blocks; in NORMAL status it is refused exactly when the reclaim meets an occupied id |
| `PoolManager.LogBlockMgr.Rebuild` | src/logservice/ob_server_log_block_mgr.cpp:574-606 | reclaim, scan and trim leave one range and the recorded task, whether or not power is lost, keep the number of blocks exactly when the reclaim meets no occupied id, and take at most one write per rename and one more |
| `PoolManager.LogBlockMgr.Resize` | src/logservice/ob_server_log_block_mgr.cpp:174-222 | success means the aligned new size; a refusal leaves everything as it was; not supported exactly when the reservation is larger; it runs out of blocks exactly when the blocks in use exceed the new size and the reservation does not; power runs out only before 2 writes per block and 4 more |
| `PoolManager.LogBlockMgr.ResizeTo` | src/logservice/ob_server_log_block_mgr.cpp:187-222 | the same for a size in whole blocks that the reservation allows |
| `PoolManager.LogBlockMgr.DoResize` | src/logservice/ob_server_log_block_mgr.cpp:951-989 | the pool after success, each failure, and a power failure between the two meta writes; power runs out only before 2 writes per block and 4 more |
| `PoolManager.LogBlockMgr.ChangePool` | src/logservice/ob_server_log_block_mgr.cpp:951-989 | the blocks of a resize without its meta writes: how many there are after success, each failure and a power failure, with no space lost |
| `PoolManager.LogBlockMgr.DoExpand` | src/logservice/ob_server_log_block_mgr.cpp:991-1029 | a failed allocation leaves the pool unchanged and the temporary directory removed; a power failure leaves a prefix of the new ids |
| `PoolManager.LogBlockMgr.AllocateBlocks` | src/logservice/ob_server_log_block_mgr.cpp:1087-1109 | allocates exactly ids 0 to cnt, or fails for lack of space, losing no space |
| `PoolManager.LogBlockMgr.MoveBlocks` | src/logservice/ob_server_log_block_mgr.cpp:1182-1210 | moves every temporary block to the end of the range, one rename at a time, overwriting nothing |
| `PoolManager.LogBlockMgr.FreeBlocks` | src/logservice/ob_server_log_block_mgr.cpp:1142-1159 | unlinks from the front of the range and gives the space back; fails only with the pool empty |
| `PoolManager.LogBlockMgr.UpdateMeta` | src/logservice/ob_server_log_block_mgr.cpp:844-865 | the record in memory changes even if the write does not happen |
| `PoolManager.LogBlockMgr.ContinueResize` | src/logservice/ob_server_log_block_mgr.cpp:711-732 | from any consistent disk it arrives at the recorded target, or loses power and leaves the same task; it loses power only if the device had fewer writes left than the resize may take |
| `PoolManager.LogBlockMgr.ScanAndTrim` | src/logservice/ob_server_log_block_mgr.cpp:614-668 | afterwards the pool is one range of the same cardinality and the temporary directory is gone |
| `PoolManager.LogBlockMgr.Trim` | src/logservice/ob_server_log_block_mgr.cpp:670-709 | a lossless compaction: same number of blocks at every power failure, one contiguous range at the end, no rename onto an occupied id |
| `PoolManager.LogBlockMgr.CloseGap` | src/logservice/ob_server_log_block_mgr.cpp:683-706 | each rename of the trim loop has a free target and keeps the number of blocks |
| `PoolManager.LogBlockMgr.FirstGap` | src/logservice/ob_server_log_block_mgr.cpp:630-655 | finds the first id that does not follow its predecessor, or none |
| `PoolManager.LogBlockMgr.ReclaimTenantTmp` | src/logservice/ob_server_log_block_mgr.cpp:1276-1315 | tenants' temporary blocks land on ids 0, 1, ...; lossless under `ReclaimSafe`, which it keeps |
| `PoolManager.LogBlockMgr.LoadedStartsRun` | src/logservice/ob_server_log_block_mgr.cpp:574-606 | a loaded manager is an initial state of the concurrent protocol |
| `PoolManager.LogBlockMgr.CrashThenRestart` | src/logservice/ob_server_log_block_mgr.cpp:574-606 | the power fails at any moment of any concurrent run in which no shrink failed after freeing blocks; restarts, one of which has power for 5 * blocks + 6 writes, then end at the old size or, if a resize was running, at the requested one |
| `PoolManager.EnoughForLoad` | src/logservice/ob_server_log_block_mgr.cpp:574-606 | no load from a consistent disk takes more than 5 * blocks + 6 writes, where blocks is the larger of the recorded sizes |
| `PoolTrim.TrimStep` | src/logservice/ob_server_log_block_mgr.cpp:683-706 | the target of each rename is free and one more block is consecutive afterwards |
| `PoolTrim.MovesKeepSize` | src/logservice/ob_server_log_block_mgr.cpp:683-706 | a rename onto a free id keeps the number of blocks, so no stage of the trim loses any |
| `PoolTrim.TrimPlan` | src/logservice/ob_server_log_block_mgr.cpp:670-709 | the stages of the trim lead from the scanned set to one contiguous range |
| `PoolDisk.ReclaimSafeIsExact` | src/logservice/ob_server_log_block_mgr.cpp:1276-1315 | the exact condition under which reclaiming, cut by a power failure anywhere, loses no block |
| `PoolDisk.ReclaimOnceLossless` | src/logservice/ob_server_log_block_mgr.cpp:1276-1315 | the exact condition for a reclaim that is not interrupted |
| `PoolDisk.LowerAlignFacts` | src/logservice/ob_server_log_block_mgr.cpp:1212-1274 | rounding down to whole blocks |
| `PoolProtocol.RunKeepsInv` | src/logservice/ob_server_log_block_mgr.cpp:237-309 | in every interleaving, failed resizes included, an unconsumed id is a pool file or a pending rename into the pool, never both, and free, used and lost blocks add up to what the resize has reached |
| `PoolProtocol.InvStep` | src/logservice/ob_server_log_block_mgr.cpp:874-918 | every claim, rename, unlink, end and failure of a resize keeps this invariant |
| `PoolProtocol.NoRenameOverwrites` | src/logservice/ob_server_log_block_mgr.cpp:272-309 | no rename into the pool meets an existing file, also after failed resizes |
| `PoolProtocol.ClaimsAreUnique` | src/logservice/ob_server_log_block_mgr.cpp:874-918 | no id is claimed twice from the same end |
| `PoolProtocol.RangeOnlyAdvances` | src/logservice/ob_server_log_block_mgr.cpp:874-918 | both ends of the range only grow |
| `PoolProtocol.WaiterIsServed` | src/logservice/ob_server_log_block_mgr.cpp:237-270 | a creation waiting for a file that is not there yet is never stuck: the rename that brings it is enabled |
| `PoolProtocol.TenantsAreServed` | src/logservice/ob_server_log_block_mgr.cpp:237-309 | in every reachable state, resize or not, a block can be created exactly while those in use and lost are fewer than the size reached, and recycled while one in use is not just being created |
| `PoolProtocol.ResizeGoesOn` | src/logservice/ob_server_log_block_mgr.cpp:951-1085 | a running resize is never stuck: a step or its end is enabled, or the recycling that brings the file it waits for |
| `PoolProtocol.ResizeWorks` | src/logservice/ob_server_log_block_mgr.cpp:951-1085 | and it ends after a bounded number of its own steps, whatever happens in between |
| `PoolProtocol.ShrinkStarves` | src/logservice/ob_server_log_block_mgr.cpp:898-918 | a shrink finds no free block, and fails, exactly when the blocks in use and those lost before exceed the size it still has to come down from |
| `PoolProtocol.LostExactly` | src/logservice/ob_server_log_block_mgr.cpp:972-985 | free and used blocks account for the recorded size exactly as long as no shrink has failed after freeing blocks |
| `PoolProtocol.NothingLost` | src/logservice/ob_server_log_block_mgr.cpp:174-222 | while tenants stay within their reservation during shrinks, no shrink fails and nothing is lost |
| `PoolProtocol.ShrinkNeverStarves` | src/logservice/ob_server_log_block_mgr.cpp:1069-1085 | in every such run a running shrink always finds a free block |
| `PoolProtocol.FailureStarvesTheNext` | src/logservice/ob_server_log_block_mgr.cpp:972-985 | a run in which a shrink starves with nothing in use, because an earlier one failed: a premise about the present state alone is not enough |
| `PoolProtocol.ResizeEndsAtTarget` | src/logservice/ob_server_log_block_mgr.cpp:951-989 | when a resize ends, free plus used blocks are the aligned new size exactly if no earlier shrink failed after freeing blocks |
| `PoolProtocol.DiskTotal` | src/logservice/ob_server_log_block_mgr.cpp:755-761 | the number of blocks on disk in the middle of any interleaving |
| `PoolProtocol.CrashLeavesConsistentDisk` | src/logservice/ob_server_log_block_mgr.cpp:574-606 | a power failure in any reachable state leaves a disk between the two recorded sizes exactly if the losses are covered by what the running resize still has to do |
| `PoolProtocol.CrashWithoutFailure` | src/logservice/ob_server_log_block_mgr.cpp:574-606 | so it always does as long as no shrink has failed after freeing blocks |
| `TenantLedger.Ledger.CreateTenant` | src/logservice/ob_server_log_block_mgr.cpp:311-330 | grants a reservation exactly when it and all outstanding ones fit the pool together; the one number kept remains their sum |
| `TenantLedger.Ledger.AbortCreateTenant` | src/logservice/ob_server_log_block_mgr.cpp:332-343 | takes back one grant; the source's assertion on the remaining reservation is proved |
| `TenantLedger.Ledger.UpdateTenant` | src/logservice/ob_server_log_block_mgr.cpp:345-457 | changes one grant exactly when the grants then fit the pool and palf accepts; the grant becomes the new size if that is 0 or no less than palf's, and stays otherwise; a grant that covered what palf holds still does, unless it is set to 0; what palf is told |
| `TenantLedger.Ledger.RemoveTenant` | src/logservice/ob_server_log_block_mgr.cpp:459-477 | removal with the granted size is never refused |
| `TenantLedger.Ledger.Resize` | src/logservice/ob_server_log_block_mgr.cpp:187-205 | the pool never becomes smaller than the outstanding grants |
| `TenantLedger.Host.Handle` | src/logservice/ob_server_log_block_mgr.cpp:311-477 | every event handled by the ledger's methods is a step of the histories the theorems are about |
| `TenantLedger.Host.Drive` | src/logservice/ob_server_log_block_mgr.cpp:311-477 | a server driven through any list of events ends in its history, and never oversells |
| `TenantLedger.InvStep` | src/logservice/ob_server_log_block_mgr.cpp:311-477 | every event keeps: reservation equals the recorded sizes, is within the pool, and covers each palf |
| `TenantLedger.NeverOversold` | src/logservice/ob_server_log_block_mgr.cpp:311-477 | over every history the disk palfs may still use is at most the reservation, and that at most the pool |
| `TenantLedger.ReleaseIsCovered` | src/logservice/ob_server_log_block_mgr.cpp:332-343 | the assertion on aborting never fires and removal is never refused |
| `TenantLedger.UpdateBoundIsExact` | src/logservice/ob_server_log_block_mgr.cpp:345-457 | an update breaks its tenant's bound exactly when it sets size 0 while palf holds disk |
| `TenantLedger.RestingUpdate` | src/logservice/ob_server_log_block_mgr.cpp:345-457 | in every history, a tenant whose palf is at rest gets any nonzero size from palf's on, exactly, as long as the pool has it |
| `TenantLedger.ShrinkReleases` | src/logservice/ob_server_log_block_mgr.cpp:345-457 | in every history, a shrink keeps the reservation until palf reports that it is done, and repeating the update then releases exactly the difference, whatever happens to other tenants meanwhile |
| `TenantLedger.StaleReport` | src/logservice/ob_server_log_block_mgr.cpp:345-457 | a report on options that have changed since, or of a palf at rest, changes nothing |
| `TenantLedger.ZeroUpdateOversells` | src/logservice/ob_server_log_block_mgr.cpp:345-457 | a history in which size 0 oversells the pool |
| `Flashback.Service.Run` | src/logservice/ob_log_flashback_service.cpp:69-123 | in terms of the answers actually received: success means that in one full pass each operator's own leader answered at the operator's version in PREPARE_FLASHBACK mode, then every operator's own lists passed the sync check, then every leader answered in FLASHBACK mode, and then every member and learner on each operator's list acknowledged the version of its mode operator; on every outcome no command goes out before the stages it depends on, every answer in another mode is followed at once by the mode command at the version answered, a leader that stays is asked in every pass, and every listed server that has not acknowledged has been told to truncate; on failure one stage used all its passes without meeting what it waits for |
| `Flashback.Service.StopAndSync` | src/logservice/ob_log_flashback_service.cpp:69-123 | stages 1 and 2 of this, in order, each over all log streams |
| `Flashback.Service.SwitchAndTruncate` | src/logservice/ob_log_flashback_service.cpp:69-123 | stages 3 and 4 of this; what stages 1 and 2 received still stands for every command sent |
| `Flashback.Service.ChangeModeStage` | src/logservice/ob_log_flashback_service.cpp:193-234 | success means that in one pass every operator got the mode, or FLASHBACK, as the answer of its leader at its version; the commands sent are exactly those the answers call for; a stable leader is asked in every later pass; succeeds if some pass but the last begins with all streams settled, whatever earlier passes met |
| `Flashback.Service.MotivateMode` | src/logservice/ob_log_flashback_service.cpp:330-364 | a pass succeeds only if every operator does, and does so if none believes in a wrong leader of a settled stream; it sends exactly the commands the answers call for |
| `Flashback.Service.SwitchMode` | src/logservice/ob_log_flashback_service.cpp:459-500 | the leader known or found is asked; if it answers, it is kept, and either it is in the mode or FLASHBACK, or it is sent the command at the version it answered; it is forgotten exactly if it does not answer |
| `FlashbackProgress.ModeTurnFacts` | src/logservice/ob_log_flashback_service.cpp:459-500 | what one turn of a mode operator means for its stage: commands exactly as answers call for, a stable leader known and asked |
| `Flashback.Service.CheckStage` | src/logservice/ob_log_flashback_service.cpp:144-191 | success means that every operator's own lists passed the check in one pass, with refetched lists and remembered servers; succeeds if some pass but the last begins with one stable leader per stream and all servers listed since the stage began in sync, or all of them answering and all members ending before the point |
| `Flashback.Service.MotivateCheck` | src/logservice/ob_log_flashback_service.cpp:330-364 | the same for one pass, keeping what earlier passes established |
| `Flashback.Service.SwitchCheck` | src/logservice/ob_log_flashback_service.cpp:415-457 | success: the leader answered in this call that it is in FLASHBACK mode, which is always success, or the operator's last received lists passed; always success for a ready stream whose leader is not mistaken |
| `Flashback.Service.FetchLists` | src/logservice/ob_log_flashback_service.cpp:419-431 | exactly when the lists are unknown the leader known or found is asked; FLASHBACK ends the check, another answer gives the lists, and a leader that does not answer is forgotten |
| `Flashback.Service.CheckLists` | src/logservice/ob_log_flashback_service.cpp:427-445 | both halves of the rule on the operator's lists: if some member has reached the point, every member and learner has been seen in sync; if none has, every member was seen short in this call, and learners do not matter; each half is enough if it is what the servers answer throughout the call; the lists are kept exactly if every server asked answered |
| `Flashback.Service.CheckList` | src/logservice/ob_log_flashback_service.h:170-207 | success means all listed servers are known in sync, by answers received; the count of short servers reaches the list's length only if all answered in this call that they end before the point and none is remembered in sync, and does if that is what they answer |
| `Flashback.Service.ExecStage` | src/logservice/ob_log_flashback_service.cpp:236-284 | success means that every member and learner on each operator's list, the last it received, acknowledged its stream and version in this stage; succeeds if leaders are stable from some pass on and all listed servers acknowledge between the next pass and a later one |
| `Flashback.Service.ExecPass` | src/logservice/ob_log_flashback_service.cpp:236-284 | one pass of it, after which every listed server that has not acknowledged has been asked |
| `Flashback.Service.MotivateExec` | src/logservice/ob_log_flashback_service.cpp:330-364 | one pass, with acknowledgements arriving between operators |
| `Flashback.Service.ExecTurn` | src/logservice/ob_log_flashback_service.cpp:502-527 | one operator's turn after the acknowledgements that have arrived |
| `Flashback.Service.SwitchExec` | src/logservice/ob_log_flashback_service.cpp:502-527 | fetches the lists when the leader answers, and asks exactly the listed servers that have not acknowledged; success when none is left |
| `Flashback.Service.TruncateList` | src/logservice/ob_log_flashback_service.h:304-330 | every server that has not acknowledged is asked, and no other |
| `Flashback.Service.HandleResp` | src/logservice/ob_log_flashback_service.cpp:548-566 | only the first operator of that stream and version takes an acknowledgement |
| `Flashback.Service.Hear` | src/logservice/ob_log_flashback_service.cpp:529-566 | the acknowledgements of one moment: each is counted by the first operator of its stream and version, and nothing else changes |
| `Flashback.Service.Deliver` | src/logservice/ob_log_flashback_service.cpp:529-566 | every acknowledgement that has arrived by now is counted, and the lists of those who acknowledged only grow |
| `FlashbackNet.DoneAtPoint` | src/logservice/ob_log_flashback_service.cpp:548-566 | after a successful flashback, where no acknowledgement of a stream's version for another point came in, every server on its lists acknowledged this point |
| `FlashbackNet.PointIsAcked` | src/logservice/ob_log_flashback_service.cpp:529-546 | the same for one operator |
| `Flashback.ForeignPointsSuffice` | src/logservice/ob_log_flashback_service.cpp:529-566 | the converse: for every assignment of points to servers there is a run of the whole flashback that succeeds, in which a server has acknowledged this point just when that is its point |
| `Flashback.LearnersAreSkipped` | src/logservice/ob_log_flashback_service.cpp:435-445 | for all lists with members that end before the point, a check that succeeds although no learner was ever seen in sync or short |
| `FlashbackNet.AllPassedLater` | src/logservice/ob_log_flashback_service.cpp:69-123 | what a stage has established stands, whatever is received later |
| `FlashbackProgress.Completes` | src/logservice/ob_log_flashback_service.cpp:502-546 | an operator with lists is complete once every server listed since the stage began has acknowledged and all that came in is counted |
| `GcHandler.Handler.SetGcState` | src/storage/ls/ob_ls_meta.cpp:339-361 | which pairs of state and SCN are accepted, and that the old SCN is always replaced |
| `GcHandler.Handler.UpdateAfterLog` | src/logservice/ob_garbage_collector.cpp:1010-1071 | which log moves which state where; a failed store changes nothing |
| `GcHandler.Handler.TryCheckAndSetWaitGc` | src/logservice/ob_garbage_collector.cpp:768-818 | deletion is allowed exactly if the offline SCN is readable, recycling not delayed, and the archive ignored or past the SCN or, without archive, the tenant dropping, restored or cloned, or the delay over; and the state after it |
| `GcHandler.Handler.CheckWhenArchiveIsOff` | src/logservice/ob_garbage_collector.cpp:820-891 | the dropping, restore, clone and delay gates |
| `GcHandler.Handler.HandleGcLsOffline` | src/logservice/ob_garbage_collector.cpp:1135-1182 | when a round submits the offline log, when it asks for deletion, and the state it leaves, whether or not storing LS_OFFLINE and, apart from it, storing WAIT_GC succeeds |
| `GcReplication.RunKeepsInv` | src/logservice/ob_garbage_collector.cpp:948-1071 | over every run of submits, callbacks, redelivered replay, role changes and restarts: SCNs grow, every OFFLINE_LS log follows a BLOCK_TABLET_TRANSFER_IN log, and an offline SCN comes from the stream |
| `GcReplication.InvStep` | src/logservice/ob_garbage_collector.cpp:570-631 | every step keeps this invariant |
| `GcReplication.StateNeverMovesBack` | src/logservice/ob_garbage_collector.cpp:570-631 | a replica's state never moves backward over any run |
| `GcReplication.DeletionIsGated` | src/logservice/ob_garbage_collector.cpp:1642-1714 | a status entry is deleted only after a round of its replica, at or past LS_OFFLINE, with no restart since; after a check in LS_OFFLINE with the offline SCN readable, recycling not delayed, and the archive ignored or past the SCN or, without archive, the tenant dropping, restored or cloned, or the delay over; and after both logs |
| `GcReplication.GateWasPassed` | src/logservice/ob_garbage_collector.cpp:768-891 | a remembered gate was passed at an earlier step of the run |
| `GcReplication.DeletesFromLedRound` | src/logservice/ob_garbage_collector.cpp:1135-1182 | a deletion in progress comes from a round of that replica, with no restart since |
| `GcReplication.OneOfflineExactly` | src/logservice/ob_garbage_collector.cpp:948-1071 | in every run the stream holds at most one OFFLINE_LS log exactly if no leader that had applied one without storing LS_OFFLINE wrote another |
| `GcReplication.OfflineScnExact` | src/logservice/ob_garbage_collector.cpp:1049-1071 | then a replica holds the SCN of that log exactly while in LS_OFFLINE |
| `GcReplication.ReplicasAgree` | src/logservice/ob_garbage_collector.cpp:1049-1071 | then all replicas in LS_OFFLINE agree on the offline SCN |
| `GcReplication.StoredIsNotMissed` | src/logservice/ob_garbage_collector.cpp:1049-1071 | only a replica's own failure to store LS_OFFLINE makes it miss the store |
| `GcReplication.MissedStoreDisagrees` | src/logservice/ob_garbage_collector.cpp:1049-1071 | the condition is exact: from every reachable state with a leader that missed the store and a replica not yet offline, whatever newer SCN the next log gets, a state in which the two disagree is reachable |
| `GcReplication.StoreFailureDisagrees` | src/logservice/ob_garbage_collector.cpp:1049-1071 | a run that ends in disagreement |
| `GcReplication.CanFinish` | src/logservice/ob_garbage_collector.cpp:1135-1182 | garbage collection is never stuck: from every reachable state a run leads to the deletion of any replica's status entry |
| `GcCluster.Cluster.Step` | src/logservice/ob_garbage_collector.cpp:570-631 | every step of the protocol is what the handlers' own methods do to their fields |
| `GcCluster.Cluster.WritingRound` | src/logservice/ob_garbage_collector.cpp:1135-1182 | a round in which the leader writes its offline log is the steps append, callback and, once offline, check |
| `GcCluster.Cluster.Drive` | src/logservice/ob_garbage_collector.cpp:570-631 | any schedule of the handlers is a run of the protocol, so the theorems hold of them |
| `GcCluster.Node.OnReplay` | src/logservice/ob_garbage_collector.cpp:570-631 | a replayed log takes effect as in the protocol, or is held back on a standby and leaves no trace |
| `GcCluster.Node.Round` | src/logservice/ob_garbage_collector.cpp:1135-1182 | a round of an offline replica decides on deletion as the protocol's check does |
| `GcRounds.Collector.CheckInvalidMemberSeq` | src/logservice/ob_garbage_collector.cpp:549-568 | true exactly on the first report of a round for a stream reported in the round before to the same handler |
| `GcRounds.Collector.HandleReport` | src/logservice/ob_garbage_collector.cpp:209-281 | an entry is recorded exactly if the leader's query succeeded, the stream is here and it is not a member; who becomes a candidate, who is denied, and when it fails |
| `GcRounds.Collector.HandleResponse` | src/logservice/ob_garbage_collector.cpp:197-285 | handles exactly the entries up to the first whose dependency check fails, or all |
| `GcRounds.Collector.Query` | src/logservice/ob_garbage_collector.cpp:162-177 | what was heard is what the leader answered; a handled query was answered and all its invalid members are recorded; an answer is handled unless an entry's dependency check fails |
| `GcRounds.Collector.HandleLsArray` | src/logservice/ob_garbage_collector.cpp:145-181 | every stream is asked about, answered requests concatenate to a prefix of the list, all of it exactly if the last is answered; batches of at most 100 without failures |
| `GcRounds.Collector.Recreate` | src/logservice/ob_garbage_collector.cpp:362-387 | a stream created again starts with a handler that remembers nothing |
| `GcRounds.Collector.Round` | src/logservice/ob_garbage_collector.cpp:1339-1367 | every server is asked about all its streams; a stream is removed, or kept only because it may not go, only if a leader answered in this round and in the one before that this replica, still here and in the same life, is not a member, and always if both answers were handled; removed only if allowed, kept only if not, and at most once |
| `GcRounds.Collector.Run` | src/logservice/ob_garbage_collector.cpp:1339-1367 | the same for every round of a run, against everything answered in the whole run |
| `GcRounds.DecisionIsGrounded` | src/logservice/ob_garbage_collector.cpp:209-281 | decisions by the recorded rounds are those the answers call for |
| `TimeoutList.List.Sweep` | deps/ussl-hook/ussl-loop.c:162-190 | removes exactly the nodes older than 3 seconds, each visited once and in order; survivors stay in order and linked both ways, and no node is lost; the sweep terminates |
| `TimeoutList.SelectSplits` | deps/ussl-hook/ussl-loop.c:162-190 | the expired and the other nodes partition the list by age |
| `TimeoutList.List.Remove` | deps/ussl-hook/ussl-deps.h:128-142 | unlinks one node; on a removed or never listed node changes no link of the list |
| `TimeoutList.List.Destroy` | deps/ussl-hook/ussl-loop.c:130-133 | removing an already removed node again changes nothing |
| `TimeoutList.List.Add` | deps/ussl-hook/ussl-deps.h:120-134 | inserts right after the head |
| `TimeoutList.Relinked` | deps/ussl-hook/ussl-deps.h:128-132 | joining the neighbours of a node leaves a ring without it, next and prev mutually inverse |
| `TimeoutList.LinkedIn` | deps/ussl-hook/ussl-deps.h:120-126 | linking a node in leaves a ring with it |
| `Pread.ConstructTasks` | src/logservice/ob_log_external_storage_handler.cpp:260-317 | the tasks tile the range, none is idle, sizes do not increase; there are as many as threads unless 2 MiB pieces are fewer; with two or more each reads at least one MiB, and all read the announced 2 MiB exactly if what the others leave for the last one is as much |
| `Pread.CountFacts` | src/logservice/ob_log_external_storage_handler.cpp:249-258 | the number of tasks, by what it is for |
| `Pread.LastLength` | src/logservice/ob_log_external_storage_handler.cpp:249-274 | the arithmetic of the split, for every size and every concurrency up to 128 |
| `Pread.MinimumForMultiples` | src/logservice/ob_log_external_storage_handler.cpp:249-274 | with threads enough and more than one task, all tasks get 2 MiB exactly for multiples of it |
| `Pread.MinimumIsOneMib` | src/logservice/ob_log_external_storage_handler.cpp:249-258 | a size for which the bound is reached |
| `Pread.ReadCtx.Read` | src/logservice/ob_log_external_storage_io_task.cpp:437-446 | a task fills its own part of the buffer and leaves the others' |
| `Pread.ReadCtx.Step` | src/logservice/ob_log_external_storage_io_task.cpp:437-454 | any step of any task keeps: the flying count is the number of tasks not signalled, the read size the sum of those added |
| `Pread.ReadCtx.Signal` | src/logservice/ob_log_external_storage_io_task.cpp:86-97 | never goes below zero; its error branch is proved unreachable where tasks call it |
| `Pread.ReadCtx.Wait` | src/logservice/ob_log_external_storage_io_task.cpp:99-107 | returns exactly when every task has signalled |
| `Pread.ReadCtx.RunAll` | src/logservice/ob_log_external_storage_handler.cpp:260-336 | tasks run while later ones are still being pushed, the last one in the calling thread; after the wait every task has signalled |
| `Pread.ReadCtx.WaitAll` | src/logservice/ob_log_external_storage_handler.cpp:319-336 | the wait ends, and with every task signalled |
| `Pread.ReadCtx.GetRetCode` | src/logservice/ob_log_external_storage_io_task.cpp:128-139 | the code of the first task, and 0 if there is none |
| `Pread.FailureReportIsExact` | src/logservice/ob_log_external_storage_io_task.cpp:128-139 | success means that every task succeeded exactly when concurrency is at most 1 or the size at most 2 MiB |
| `Pread.Refines` | src/logservice/ob_log_external_storage_handler.cpp:260-336 | full reads leave the buffer and the size of one sequential read |
| `Pread.Plan` | src/logservice/ob_log_external_storage_handler.cpp:260-274 | the tasks of a read and their context, before any task runs |
| `Pread.ReadRange` | src/logservice/ob_log_external_storage_handler.cpp:260-336 | the same for planning, any schedule of the tasks, and the wait; the code is the first task's |
| `Pread.Read` | src/logservice/ob_log_external_storage_handler.cpp:158-220 | each error case, and for every order of completion the refinement of a sequential read of min(file size - offset, buffer size) bytes |
| `ProcessRead.Processor.Run` | src/observer/ob_inner_sql_rpc_processor.cpp:120-210 | messages plus final scanner are the rows in order, none lost or repeated; no message is over the limit except for one row of at most 64 MiB alone; on any error a prefix, also when a row fetched again after a flush fails; row counts and column description right; success if every row is within the limit or 64 MiB, and only then |
| `ProcessRead.Processor.Loop` | src/observer/ob_inner_sql_rpc_processor.cpp:150-198 | the loop over the cursor, to its end or the first fault |
| `ProcessRead.Processor.Turn` | src/observer/ob_inner_sql_rpc_processor.cpp:160-198 | the current row is stored, or the scanner is flushed and the row tried again |
| `ProcessRead.Processor.Flush` | src/observer/ob_inner_sql_rpc_processor.cpp:176-192 | a flushed batch is maximal, counts its rows, and carries the columns only if first |
| `ProcessRead.Processor.AddRow` | src/share/ob_scanner.cpp:168-194 | accepts a row within the limit, or one of at most 64 MiB alone, and rolls back otherwise |
| `LogHandler.RunKeepsInv` | src/logservice/ob_log_handler.cpp:206-272 | no proposal id an append has loaded is newer than the last role change |
| `LogHandler.AppendIsCurrent` | src/logservice/ob_log_handler.cpp:206-265 | a successful append used the id palf and the handler have at that moment, while leader, online and running, however long ago it loaded it |
| `LogHandler.AttemptIsExact` | src/logservice/ob_log_handler.cpp:206-265 | the converse and every refusal: a running, online leader with palf's id gets palf's answer, blocking or not; when an attempt ends the append |
| `LogHandler.NoAppendWhileOut` | src/logservice/ob_log_handler.cpp:1597-1684 | after an offline no append succeeds before an online and then a change to leader |
| `LogHandler.LoadedWhileOut` | src/logservice/ob_log_handler.cpp:1597-1684 | an append that loads its id after an offline or an online and before the next role change never succeeds with it |
| `LogHandler.LeaderServes` | src/logservice/ob_log_handler.cpp:206-272 | online, then made leader, with nothing to the contrary since: an append succeeds if palf is leader with that id and accepts it |
| `LogHandler.NoAppendAfterStop` | src/logservice/ob_log_handler.cpp:126-153 | nor ever after a stop |
| `Heartbeat.EpochNeverDecreases` | src/observer/ob_heartbeat_handler.cpp:88-114 | once valid the stored epoch never decreases or becomes invalid, in every interleaving |
| `Heartbeat.VerdictIsExact` | src/observer/ob_heartbeat_handler.cpp:88-114 | in every interleaving: older than the epoch loaded is turned away, equal passes, newer passes and is stored unless another was stored in between, and then is retried |
| `Heartbeat.PassedWithStoredEpoch` | src/observer/ob_heartbeat_handler.cpp:88-114 | a heartbeat that passes carried the epoch stored at some moment between its load and its end |
| `Heartbeat.RejectedIsStale` | src/observer/ob_heartbeat_handler.cpp:88-114 | one turned away is older than the stored epoch from then on |

## Left out

- PoolManager.LogBlockMgr.ResizeThenRestart: assumes that the blocks in use fit the new size, that the file system can hold it, and that the reclaim is safe; `Resize`, `ShrinkStarves` and `ReclaimSafeIsExact` say exactly what happens otherwise.
- Flashback.Service.Run: says what the coordinator observes and sends; what a replica's log holds after truncation depends on palf. A stage is shown to get through under conditions that hold from some pass on; that the commands it sends bring those about is up to palf. Invalid log stream ids, argument checks and the lock against a second flashback are not modelled.
- Pread.Read: the concurrency is at most 128, which is what resizing the thread pool ensures; a failed file size query and a stopped handler are not modelled.
- TimeoutList.List.Sweep: closing sockets and the list of ready sockets are not modelled.
- GcRounds.Collector.Round: a log stream may be created again between two rounds, not in the middle of one.
- LogHandler.AppendIsCurrent: palf's proposal ids are taken to grow, and role changes to bring ids palf had, in order.
- `force_update_tenant_log_disk`, which takes palf's size instead of the recorded one.
- System calls, fsync, directory walking, checksums and serialization: a rename, an unlink and a meta write are atomic and eventually succeed, as the retry loops around them arrange.
- Removal of a replica from a learner list, checks before a log stream is removed, and the safe-destroy queue of the garbage collector: easy members beside the rounds.
- The thin wrappers of `ObLogHandler`, the wiring of `ObLogService`, adapters, monitors and SQL session handling.
