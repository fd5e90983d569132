# vphone-web: a Dafny model of the concurrent core

This project models the part of vphone-web that has to be right under interleaving, crashes and odd
input, and proves what it keeps:

* the **job queue** (`internal/jobs`): a transition system over all goroutines with explicit program
  counters (`job_protocol.dfy`), its safety (`job_safety.dfy`), progress (`job_progress.dfy`,
  `job_stranding.dfy`) and row lifecycle (`job_rows.dfy`), and the class with the pending slice, the
  running map and the wake channel, each atomic block of which takes exactly one protocol step
  (`job_queue.dfy`);
* the **job log**: line splitting over any chunking (`text_lines.dfy`), viewers (`log_viewers.dfy`),
  the sink object (`log_sink.dfy`), the two stream goroutines of a command (`stream_merge.dfy`) and
  the WebSocket log endpoint (`proxy_logs.dfy`);
* the **VM manager**: port blocks (`port_allocator.dfy`), the ledger of blocks against rows
  (`port_ledger.dfy`, `vm_manager.dfy`), the concurrency cap (`vm_admission.dfy`, `vm_claims.dfy`),
  deletes against other operations (`vm_delete.dfy`), startup reconciliation (`vm_reconcile.dfy`, on
  `vm_status.dfy`) and the agreement of these views of a restart (`vm_restart.dfy`);
* **provisioning**: the streaming marker detector and the steps it steers (`provision.dfy`);
* **bundles and snapshots**: export and import (`bundle.dfy`, on `strings.dfy`), the snapshot index
  (`snapshots.dfy`);
* the **cluster routing cache** (`cluster.dfy`) and **sliding sessions** (`sessions.dfy`).

`dafny verify dfyconfig.toml` checks everything.

How the model reads the program: a mutex region, a store statement, a channel operation and a
`close` are one step each. Ids and tokens are fresh, so jobs, VMs and operations may be named by the
order in which they arrive. Store statements succeed except where a failure is part of the
statement. The network, subprocesses and the file system are answers that come in as parameters.
Time is an integer.

Where the code departs from its comments or from what one would hope, the model follows the code:

* `logsink.go:8-10` says the full output is persisted up to 1 MiB; the code persists only what is
  left in the 5000-line ring. `LogSink.FullOutputPersisted` says exactly when the comment holds.
* A Cancel that lands between Enqueue's row write and its append marks the row CANCELLED and the job
  still runs, unless the dispatcher has stopped. `JobRows.EarlyCancelIsExact` shows that this window
  is the only one.
* After Close a task can stay pending with its Done open. `JobStranding.StrandsExactly` says when.
* The cap on concurrent VMs is kept when Boot's check and mark are one step, completed boots find
  their row still counted, and so do stops' marks; each of the three conditions alone is needed.
  Boot compares the count with the cap, but letting a boot through is safe exactly when the claims of
  the operations already in flight fit under the cap too (`VmClaims.CheckSafeExactly`); a check on the
  claims would keep the cap in every run (`VmClaims.FittingChecksKeepCap`).
* A delete job's own Stop need not be refused: `VmDelete.StopAfterDeletingExactly` says when an
  accepted Stop can still come. With a boot still launching, its RUNNING overwrites DELETING.
* A row that says CREATING may have nobody to finish it. `VmDelete.ServedThroughoutExactly`: that comes
  from a reprovisioning that fails after its status write, and from nothing else.
* Block size four, which the configuration accepts, makes neighbouring VMs share a port; so does
  moving the port grid by less than five ports while old VMs exist.
* A session in regular use is lost when a resolve writes the slid expiry late:
  `Sessions.ActiveSessionLostExactly`.
* Disabling a user is undone by any call that read the user's row before and writes it back after.
* Deleting a cluster node leaves its cache entry behind until the next restart.

## Model

| member | source | states |
|---|---|---|
| JobSafety.StepKeepsInv | internal/jobs/queue.go:76-225 | Every step of Enqueue, the dispatcher, execute, Cancel, Close and a crash keeps the whole invariant: one place per task, sinks and running exactly the executing tasks, done closed as often as the program counters say, every unfinished row owned, no lost wake-up, first in first out |
| JobSafety.EveryRunIsSafe | internal/jobs/queue.go:76-225 | In every reachable state each task is in exactly one place, done is closed at most once, a closed done implies a terminal row, and a row that is not terminal has an in-flight owner |
| JobSafety.ConcurrencyBound | internal/jobs/queue.go:121-134 | At most max(1, maxConcurrent) run functions execute at once in every reachable state, for the setting of the process then running |
| JobSafety.DispatchOrder | internal/jobs/queue.go:96-134 | The dispatched jobs followed by the pending ones are the append order minus those cancelled while pending |
| JobSafety.LateViewerFindsResult | internal/jobs/queue.go:231-250 | A viewer told that the job is not live either came before its sink was registered or finds a terminal row to fall back on |
| JobSafety.RestartReconciles | internal/jobs/store.go:150-163 | A restart leaves terminal rows alone and fails exactly the others, each of which somebody in flight owned |
| JobSafety.KeptRemove | internal/jobs/queue.go:203-206 | Marking one task as removed filters exactly that task out of the queue order |
| JobSafety.LockRest | internal/jobs/queue.go:194-213 | Cancel's locked region keeps the queue order, the calls' bookkeeping and the wake-up property |
| JobProgress.InternalDecreases | internal/jobs/queue.go:96-225 | Every internal step lowers the measure, whatever the run functions answer |
| JobProgress.ScheduleBounded | internal/jobs/queue.go:114-183 | Without further callers every schedule from a state takes at most its measure in steps |
| JobProgress.RestingIsDrained | internal/jobs/queue.go:114-183 | Where no internal step is possible, but perhaps the dispatcher's stop, running and sinks are empty, only a stopped dispatcher can have left pending tasks, and everything is drained exactly when pending is empty |
| JobProgress.LiveQueueDrains | internal/jobs/queue.go:96-136 | With the root context live, every schedule that cannot continue has emptied the queue and closed every Done |
| JobProgress.DrainExists | internal/jobs/queue.go:114-183 | From every good state some internal schedule reaches such an end, with all run functions succeeding |
| JobStranding.StrandsExactly | internal/jobs/queue.go:114-136 | In every state with the invariant: the queue can come to rest with something left behind exactly when the root is cancelled and some task is still to be appended, or is listed beyond the slots a scanning dispatcher has free (none if it is not scanning) with no Cancel call about to look for it |
| JobStranding.CoveredDrains | internal/jobs/queue.go:114-225 | With the root live, or every listed task either within the free slots or about to be cancelled, every schedule that cannot continue has drained the queue |
| JobProgress.CloseStrandsPending | internal/jobs/queue.go:254-257 | A run in which Close leaves a pending task whose Done is never closed, one instance of the condition |
| JobRows.RowStep | internal/jobs/store.go:127-148 | Every step, with Cancels issued only after Enqueue returned, keeps the agreement between a row and its task's program counter |
| JobRows.RowMoves | internal/jobs/store.go:127-163 | A step moves a row only from PENDING to RUNNING or CANCELLED or from RUNNING to terminal; a restart fails what is unfinished |
| JobRows.RowLifecycle | internal/jobs/queue.go:139-225 | The history of a row is PENDING, RUNNING, terminal or PENDING, CANCELLED, or a part of these |
| JobRows.TerminalIsFinal | internal/jobs/store.go:134-163 | A terminal row never changes again, restarts included |
| JobRows.FinalVerdict | internal/jobs/queue.go:154-170 | When Done is closed the row tells how the run function ended: COMPLETED iff it returned no error, CANCELLED if it failed after a cancellation, CANCELLED for a task taken off the pending list |
| JobRows.EarlyCancel | internal/jobs/queue.go:215-224 | A Cancel that comes before the append finds the task nowhere, marks the row CANCELLED and reports success, and the job is still bound to run |
| JobRows.EarlyCancelIsExact | internal/jobs/queue.go:89-97 | In every state of a disciplined run, before and after Close: a Cancel can make a row terminal and see it change afterwards exactly when Enqueue has written the row and not yet appended the task and the dispatcher has not stopped |
| JobRows.DormantRun | internal/jobs/queue.go:114-136 | A job that is not started when the dispatcher stops keeps the first terminal row it gets, whatever Cancels come and through restarts |
| JobQueue.WithoutAt | internal/jobs/queue.go:205 | Cutting one position out of a duplicate-free slice removes that element and nothing else |
| JobQueue.Queue.constructor | internal/jobs/queue.go:43-72 | NewQueue on any state a previous process stopped in, under the same setting or another, takes the restart step: unfinished rows FAILED, nothing in memory, at least one slot |
| JobQueue.Queue.OnEmptyTable | internal/jobs/queue.go:43-72 | The first queue on an empty table is a good one |
| JobQueue.Queue.InsertRow | internal/jobs/queue.go:80-91 | One PENDING row under a fresh id; refines the protocol's insert |
| JobQueue.Queue.Append | internal/jobs/queue.go:93-98 | The new task goes to the end of the pending slice; its context is cancelled from the start iff the root is |
| JobQueue.Queue.WakeAfterAppend | internal/jobs/queue.go:99-111 | After the wake the channel holds its one token; refines the last step of Enqueue |
| JobQueue.Queue.Enqueue | internal/jobs/queue.go:76-103 | The blocks in the source's order: one PENDING row, the task last in the pending slice, a token in the channel |
| JobQueue.Queue.Select | internal/jobs/queue.go:116-120 | The dispatcher consumes the token or stops because the root is cancelled |
| JobQueue.Queue.Scan | internal/jobs/queue.go:122-130 | The first pending task moves to the running map iff a slot is free and something is pending |
| JobQueue.Queue.SpawnExecute | internal/jobs/queue.go:132-133 | The task taken starts executing; refines the spawn step |
| JobQueue.Queue.DispatchRound | internal/jobs/queue.go:121-134 | The inner loop starts tasks from the front of the pending slice, drops none, and stops only when the slots or the tasks have run out |
| JobQueue.Queue.MarkStarted | internal/jobs/queue.go:142-143 | The row becomes RUNNING and no other field changes |
| JobQueue.Queue.RegisterSink | internal/jobs/queue.go:145-148 | The job's sink is registered, which is when Subscribe starts to succeed |
| JobQueue.Queue.DecideStatus | internal/jobs/queue.go:154-164 | The verdict of the protocol, from the run error and the task's own context flag |
| JobQueue.Queue.MarkTerminal | internal/jobs/queue.go:168-170 | Exactly the decided status is written to the job's row |
| JobQueue.Queue.Unlist | internal/jobs/queue.go:172-175 | The task leaves the running map and the sink registry together |
| JobQueue.Queue.CloseDone | internal/jobs/queue.go:177-178 | execute closes a Done that was still open, and the row is terminal by then |
| JobQueue.Queue.WakeAfterExecute | internal/jobs/queue.go:182 | The finished goroutine leaves a token for the dispatcher |
| JobQueue.Queue.Execute | internal/jobs/queue.go:139-183 | The blocks in the source's order: the row ends COMPLETED, CANCELLED or FAILED by the run error and the context, the task has left both maps, Done was closed exactly once, and a token is left |
| JobQueue.Queue.FindPending | internal/jobs/queue.go:203-204 | The first position of the id in the pending slice, or its length when absent |
| JobQueue.Queue.Lookup | internal/jobs/queue.go:195-213 | Cancel's locked region finds the task in the running map, cuts it out of the pending slice at its position, or finds it nowhere; refines the lock step |
| JobQueue.Queue.CancelTask | internal/jobs/queue.go:199-208 | The task's context is cancelled and its Done is left alone |
| JobQueue.Queue.CloseCancelled | internal/jobs/queue.go:209 | Cancel closes a Done that was still open, and the row is terminal by then |
| JobQueue.Queue.WriteCancelled | internal/jobs/queue.go:207-224 | The row becomes CANCELLED, for a removed task or for one found nowhere |
| JobQueue.Queue.CheckRow | internal/jobs/queue.go:217-223 | A task found nowhere is refused exactly when its row is terminal |
| JobQueue.Queue.Cancel | internal/jobs/queue.go:194-225 | The three outcomes: a running task is only signalled; a pending one leaves the slice, gets a CANCELLED row and a closed Done; one found nowhere is refused iff its row is terminal and marked CANCELLED otherwise; an id without a row is refused and changes nothing |
| JobQueue.Queue.Subscribe | internal/jobs/queue.go:231-240 | The job is live exactly from its sink's registration to its removal |
| JobQueue.Queue.Close | internal/jobs/queue.go:254-255 | The root and every task's context are cancelled in one step; a second Close changes nothing |
| TextLines.CutConcat | internal/jobs/logsink.go:41-51 | Splitting in two instalments gives the lines and the rest of splitting once |
| TextLines.Recompose | internal/jobs/logsink.go:43-51 | Lines and rest put together again are the text, and no line holds a newline |
| TextLines.JoinAllLines | internal/jobs/logsink.go:109-125 | Joining all lines gives the text without one trailing newline |
| LogViewers.TextAfterRun | internal/jobs/logsink.go:34-69 | After any run the lines and the rest depend only on the bytes written before Close |
| LogViewers.ChunkingIrrelevant | internal/jobs/logsink.go:34-53 | Two runs that feed the same bytes leave the same lines and the same rest |
| LogViewers.ViewerSees | internal/jobs/logsink.go:56-118 | For every viewer in every reachable state, history, received and buffered lines are an ordered subsequence of the job's lines from the oldest retained one, all of them iff none was dropped; its channel is closed exactly once |
| LogViewers.CompleteIffKeepsUp | internal/jobs/logsink.go:61-68 | A viewer misses nothing exactly when it is never more than 256 lines behind |
| LogViewers.FinishedViewer | internal/jobs/logsink.go:71-118 | A viewer that kept up and drained its closed channel has the whole suffix of the output, flushed last line included |
| LogSink.LogSink.Write | internal/jobs/logsink.go:34-53 | The splitting loop, the ring and the fan-out take exactly the machine's step; after Close nothing changes and the full length is reported |
| LogSink.LogSink.SendAll | internal/jobs/logsink.go:61-68 | Every registered channel with room gets the line, full ones drop it, others are untouched, in any map order |
| LogSink.LogSink.Subscribe | internal/jobs/logsink.go:74-100 | History is the ring, the channel is fresh, and on a closed sink already closed |
| LogSink.LogSink.Cancel | internal/jobs/logsink.go:91-98 | After unsubscribing the channel has been closed exactly once, whether Close came first or not |
| LogSink.LogSink.Close | internal/jobs/logsink.go:103-118 | The rest is flushed as a last line and every channel ever handed out has been closed exactly once |
| LogSink.LogSink.Snapshot | internal/jobs/logsink.go:122-133 | The join of the retained lines and the rest, its last 1 MiB behind a marker when longer; the whole output minus one newline when it is closed and small |
| LogSink.PersistedOutput | internal/jobs/logsink.go:122-133 | What is persisted is a suffix of the output, all of it iff there are at most 5000 lines; beyond 1 MiB the marked last 1 MiB of the text |
| LogSink.FullOutputPersisted | internal/jobs/logsink.go:8-14 | The comment's promise of the full output up to 1 MiB holds exactly for outputs of at most 5000 lines |
| LogSink.ShortOutputCut | internal/jobs/logsink.go:8-14 | 5001 bytes of blank lines are not persisted in full |
| StreamMerge.MergeInterleaves | internal/jobs/runner.go:82-86 | Under every schedule of the two goroutines and the viewers the sink gains an interleaving of whole stdout and stderr lines, each stream in its order |
| StreamMerge.EveryInterleavingHappens | internal/jobs/runner.go:82-86 | Every interleaving is produced by some schedule |
| StreamMerge.ScannedIsAllLines | internal/jobs/runner.go:105-107 | The scanner passes a stream's lines on unchanged exactly when none ends in a carriage return or reaches 1 MiB |
| StreamMerge.CommandOutput | internal/jobs/runner.go:82-110 | The same for all output bytes of a command, with the scanner's carriage returns and line limit |
| StreamMerge.StreamLines | internal/jobs/runner.go:104-110 | The loop of one goroutine adds exactly the scanned lines of its stream |
| ProxyLogs.Logs | internal/proxy/logs.go:23-77 | What the client is sent: the persisted output when the job is not live, else history and live lines in order, a prefix of them when a write fails or the client leaves, and a close frame only at the real end |
| ProxyLogs.ClientGetsEverything | internal/proxy/logs.go:33-76 | A client that stays and keeps up receives the text of the job from the line that was the oldest retained one when it subscribed |
| ProxyLogs.EarlyClientGetsAll | internal/proxy/logs.go:33-76 | Subscribing within the first 5000 lines, it receives the whole output |
| Ports.PortAllocator.Allocate | internal/vm/ports.go:74-85 | The least free grid block that fits below 65536; fails, changing nothing, only when every such block is used |
| Ports.LeastFree | internal/vm/ports.go:78-84 | The scan's result is the least free slot that fits, or there is none |
| Ports.ReleaseUndoesAllocate | internal/vm/ports.go:66-92 | Releasing what was just allocated restores the allocator and makes the block next in line |
| Ports.ServicesDisjoint | internal/vm/ports.go:11-39 | Service ports of different blocks are disjoint exactly when blocks hold at least five ports |
| Ports.ServicesInRange | internal/vm/ports.go:29-39 | Service ports of every fitting block are valid ports exactly when blocks hold at least five |
| Ports.FourPortsCollide | internal/config/config.go:340-342 | With four ports a block's Frida port is its successor's VNC port |
| PortLedger.StepKeepsInv | internal/vm/manager.go:265-306 | Every allocation, insert, failure, row delete, release and restart, under the same port configuration or another, keeps the ownership of blocks |
| PortLedger.LedgerAgrees | internal/vm/manager.go:265-306 | Over any interleaving the used set is the rows' bases plus the blocks in flight, without overlap, and no two rows share a base |
| PortLedger.BlocksConserved | internal/vm/store.go:219-229 | Each block is allocated exactly as often as released, once more if in use, and each VM is deleted at most once |
| PortLedger.ReleaseIsSafe | internal/vm/manager.go:577-583 | A release frees a block that is in use and that no row and no other operation has |
| PortLedger.OnlyTheDeleterReleases | internal/vm/manager.go:620-623 | Of two deletes of one VM only the one whose row delete succeeded goes on to release, and it releases that row's block |
| PortLedger.ServicesNeverCollide | internal/vm/ports.go:62-85 | Whatever is reconfigured at restarts, no two VMs share a service port as long as the grids used are apart |
| PortLedger.ServicesAreValid | internal/vm/ports.go:11-39 | With blocks of five or more every service port of every VM is a valid port |
| PortLedger.CollisionFreeExactly | internal/vm/ports.go:62-85 | A set of port configurations, switched at restarts, is free of collisions in all runs exactly when every two of their grids are at least five ports apart |
| PortLedger.AlignedApart | internal/vm/ports.go:78-84 | Grids aligned to a common step of at least five are apart |
| PortLedger.MovedGridCollides | internal/vm/ports.go:62-65 | A grid of tens moved by three ports is not |
| VmManager.ReserveAll | internal/vm/reconcile.go:44-48 | Startup reserves exactly the positive bases of the rows |
| VmManager.Manager.constructor | internal/vm/manager.go:70-98 | On the rows a crash left behind the used set becomes exactly their bases |
| VmManager.Manager.Create | internal/vm/manager.go:265-306 | Failure after allocation leaves allocator and rows as they were; success adds one row with the least free block |
| VmManager.Manager.Delete | internal/vm/manager.go:608-623 | The row goes and its block is released iff the row was there |
| VmAdmission.StepCount | internal/vm/manager.go:138-144 | Exactly the activating writes raise the number of counted rows, by one; all others leave or lower it |
| VmAdmission.AtomicBootsKeepCap | internal/vm/manager.go:647-691 | The cap holds in every state of a run in which no row joins the counted ones between a boot's own check and its mark and completed boots and stops find their rows still counted, over boots, stops, deletes, provisioning, supervisors and restarts |
| VmAdmission.AdjacentBootsKeepCap | internal/vm/manager.go:659-670 | In particular when Boot's check and mark are one step |
| VmClaims.ClaimsStep | internal/vm/manager.go:659-670 | Only a passed check adds a claim, the boot's own: no other write or restart lets an operation take a row it had no claim to |
| VmClaims.OverfillsExactly | internal/vm/manager.go:659-691 | What is in flight can exceed the cap without a further check exactly when more rows are claimed than the cap allows |
| VmClaims.CheckSafeExactly | internal/vm/manager.go:659-670 | Letting a boot through is safe exactly when the claims, its own included, fit under the cap |
| VmClaims.FittingChecksKeepCap | internal/vm/manager.go:659-691 | If every passed check fits under the cap together with the claims in flight, the cap holds in every state of the run, whatever else is interleaved |
| VmClaims.UnfitCheckOverfills | internal/vm/manager.go:659-691 | And if some check does not, the operations in flight after the first such check can exceed the cap without another |
| VmAdmission.CheckThenMarkBreaksCap | internal/vm/manager.go:659-670 | Two boots that both pass the check break the cap with no other race |
| VmAdmission.StopDuringBootBreaksCap | internal/vm/manager.go:673-679 | A boot's RUNNING over STOPPED breaks the cap with no other race |
| VmAdmission.DoubleStopBreaksCap | internal/vm/manager.go:1060-1075 | A stop whose check was overtaken by another stop breaks the cap with no other race |
| VmDelete.DeletingRefusesStop | internal/vm/manager.go:549-562 | Once an upstream row says DELETING and no other operation on the VM is under way, every Stop in every continuation without a supervisor's report on it is refused, through restarts and the row delete |
| VmDelete.StopAfterDeletingExactly | internal/vm/manager.go:549-562 | An accepted Stop can still come exactly when another operation on the VM is under way or it is a legacy VM |
| VmDelete.SupervisorReopens | internal/vm/manager.go:1050-1056 | A supervisor's report writes ERROR over any status, and from there a boot and a Stop can follow |
| VmDelete.StopDuringDeleteAccepted | internal/vm/manager.go:549-562 | A run in which a boot's RUNNING overwrites DELETING and the delete job's Stop proceeds |
| VmDelete.ServedStep | internal/vm/manager.go:361-391 | A step leaves a CREATING row with nobody to finish it exactly when it is a reprovisioning's status write followed by a failure, with no other provisioning of the VM under way |
| VmDelete.ServedThroughoutExactly | internal/vm/manager.go:361-391 | Over whole runs, restarts included: every CREATING row has somebody to finish it in every state exactly when no such step is taken |
| VmDelete.FailedReprovisionStrands | internal/vm/manager.go:361-391 | A run of one reprovisioning from stopped VMs that ends CREATING with nobody under way |
| VmDelete.StrandedStays | internal/vm/manager.go:361-391 | Such a row stays CREATING until it is deleted, reported dead or the server restarts |
| VmDelete.UnusedNeverEntered | internal/vm/instance.go:17-18 | RESTORING and INSTALLING_CFW are never entered, and a restart clears them |
| VmReconcile.Manager.ReconcileOne | internal/vm/reconcile.go:44-141 | One turn of the loop, with its port discovery and early continue, does what the per-row function says to row, runtimes and allocator |
| VmReconcile.Manager.Reconcile | internal/vm/reconcile.go:44-144 | The loop reconciles every row once, reconnects the reachable VMs and reserves every positive base, in any row order |
| VmReconcile.ReconciledStatus | internal/vm/reconcile.go:50-140 | Afterwards no row is booting, stopping or provisioning; RUNNING are exactly the reconnectable upstream VMs; reset rows have no API port; only an upstream DELETING row is left as the crash left it |
| VmReconcile.RuntimesMatchRows | internal/vm/reconcile.go:111-126 | The runtimes map has an entry for exactly the RUNNING rows, with the port and token the row now holds, and the port answered |
| VmReconcile.ReconcileTwice | internal/vm/reconcile.go:44-141 | A second reconciliation against the same answers changes nothing |
| VmReconcile.DeletingIsNeverRecovered | internal/vm/reconcile.go:71-140 | An upstream row left DELETING stays so through any number of restarts |
| VmRestart.SameStatuses | internal/vm/reconcile.go:44-141 | Reconciling the rows and then counting them as the cap does is the cap model's own restart step |
| VmRestart.RestartKeepsCount | internal/vm/reconcile.go:44-141 | A restart never raises the number of VMs that count towards the cap |
| VmRestart.SameBases | internal/vm/reconcile.go:44-48 | What reconciliation reserves is exactly what the port ledger has in use after its restart step, and rewriting the rows changes no base |
| Provision.EnoughCarry | internal/vm/provision.go:315-331 | With a carry of at least the marker's length minus one, detection over any chunking equals containment in the whole output |
| Provision.CarryIsExact | internal/vm/provision.go:322-328 | A carry detects a marker under every chunking exactly when it is at least the marker's length minus one |
| Provision.DisconnectWatcher.Write | internal/vm/provision.go:315-331 | The watcher has fired iff the bytes accepted so far contain the marker, and the callback starts exactly on the write that completes it |
| Provision.DisconnectWatcher.WriteAll | internal/vm/provision.go:315-331 | Over any sequence of writes the DFU process is killed exactly once if the marker occurs |
| Provision.Killer.Kill | internal/vm/provision.go:124-152 | The kill runs on the first call only |
| Provision.Probe | internal/vm/provision.go:191-207 | Up to three probes, left early by success; cancelled exactly in a pause after a failed probe |
| Provision.RunProvisionSteps | internal/vm/provision.go:82-262 | The pipeline completes iff every mandatory step succeeds, nothing is cancelled, the restore succeeded or printed the marker, and setup succeeded or only timed out; a failed restore is fatal iff the marker was not seen; DFU is killed at most once |
| Provision.FinishProvision | internal/vm/provision.go:28-79 | The VM ends STOPPED exactly when there are a queue and a launchpad, the job is accepted and not cancelled while pending, and the pipeline completes; otherwise ERROR |
| Strings.CleanSlashed | internal/vm/bundle.go:174-178 | Reading back the path written into an archive gives the path |
| Bundle.Manager.ExportTo | internal/vm/bundle.go:54-112 | The archive is the manifest followed by the included files of the walk; refused unless stopped, failed when the directory or an included file cannot be read or the stream takes no more |
| Bundle.Manager.ReadMeta | internal/vm/bundle.go:128-145 | The pass merges the manifests, later mentions over earlier ones, finds the config entry, and stops at a manifest that does not parse |
| Bundle.Manager.ExtractAll | internal/vm/bundle.go:169-200 | Extraction succeeds iff nothing is in the way and no write fails, and then yields exactly the unpacked tree |
| Bundle.Manager.ImportBundle | internal/vm/bundle.go:118-222 | Succeeds exactly under the stated conditions; every failure leaves ports, directories and rows as they were; success extracts the archive, takes the least free block and adds one row |
| Bundle.RoundTrip | internal/vm/bundle.go:84-200 | Importing an export restores exactly the included files whose path has no "..", with equal contents |
| Bundle.NothingLost | internal/vm/bundle.go:84-200 | Every included file comes through an export and its import exactly when no included path contains ".." |
| Bundle.EntriesOfWalk | internal/vm/bundle.go:84-111 | The file entries of an export are those of the included files, one each |
| Bundle.ReExport | internal/vm/bundle.go:84-200 | Exporting the imported VM again yields the same file entries exactly when nothing was lost |
| Bundle.SecondRoundTrip | internal/vm/bundle.go:84-200 | From the second import on the tree is unchanged |
| Bundle.ManifestKept | internal/vm/bundle.go:207-240 | Each manifest field is kept exactly when it is non-empty or positive, and defaults are stable |
| Bundle.ExportAcceptable | internal/vm/bundle.go:128-158 | An export is accepted exactly when the name is valid and a regular config.plist is at the top of the tree |
| Snapshots.OnDiskIsBackups | internal/vm/snapshots.go:101-112 | The scan holds the name and size of every backup directory and nothing else |
| Snapshots.Store.ListByVM | internal/vm/snapshots.go:273-292 | Each row of the VM once |
| Snapshots.Store.DropMissing | internal/vm/snapshots.go:119-126 | Rows without a backup go, the others stay as they are, and the known names are those that had a row |
| Snapshots.Store.Upsert | internal/vm/snapshots.go:127-135 | Every backup gets a row or its new size |
| Snapshots.Store.ListSnapshotsLegacy | internal/vm/snapshots.go:98-143 | The VM's rows have exactly the names and sizes on disk, survivors keep id and creation time, other VMs' rows are untouched, and the result is a newest-first permutation of the rows |
| Snapshots.MirrorTwice | internal/vm/snapshots.go:98-143 | A repeated call with an unchanged disk changes nothing |
| Snapshots.ListingsAgree | internal/vm/snapshots.go:137-141 | Two listings of the same rows have the same creation times in the same places |
| Snapshots.SortNewestFirst | internal/vm/snapshots.go:141 | A newest-first permutation |
| Cluster.RoutesToLister | internal/cluster/proxy.go:174-197 | After any history an answer is a registered node whose most recent completed check listed the VM |
| Cluster.CertainExactly | internal/cluster/proxy.go:174-197 | Routing is certain to succeed iff some entry lists the VM and every entry that lists it belongs to a registered node |
| Cluster.SoleListerIsFound | internal/cluster/proxy.go:174-197 | A registered node that alone lists the VM is always found |
| Cluster.WithoutDeletesRoutingIsComplete | internal/cluster/manager.go:191-211 | While no node is deleted a VM is routed with certainty iff the last completed check of some node listed it |
| Cluster.StaleEntryStays | internal/cluster/manager.go:155 | Nothing but a restart changes the cache entry of a deleted node with no check in flight |
| Cluster.StaleOwnerForever | internal/cluster/manager.go:155 | So the VMs it listed may fail to route in every later state until then |
| Cluster.ReaddedNodeMayBeMissed | internal/cluster/manager.go:155-211 | Removing a node and registering the machine again lets routing fail although the machine is online and its last check listed the VM |
| Cluster.OrderIrrelevant | internal/cluster/proxy.go:113-124 | Every iteration order of the cache gives the same aggregated records |
| Cluster.RecordHasSource | internal/cluster/proxy.go:113-124 | Every record of the list is an annotated record of one cache entry |
| Cluster.RecordsRouteHome | internal/cluster/proxy.go:100-197 | A record annotated with a registered node that alone lists its VM is routed to the node whose id, name and address it carries |
| Cluster.Manager.CheckNode | internal/cluster/manager.go:191-211 | A completed check writes the health of a row that still exists and sets or purges the cache entry, also when the row is gone |
| Cluster.Manager.FindOwner | internal/cluster/proxy.go:175-187 | The two loops find a node that lists the VM, and none exactly when no entry does |
| Cluster.Manager.NodeForVM | internal/cluster/proxy.go:174-197 | One of the answers the routing relation allows |
| Cluster.Manager.RemoteVMs | internal/cluster/proxy.go:100-126 | The flattened cache with node annotations, in some order of the nodes, and with the same records whatever the order |
| Cluster.Manager.FindJobNode | internal/cluster/proxy.go:131-170 | A cached owner that is still registered is returned unasked; otherwise an online node that knows the job, none exactly when there is no such node; hits are cached |
| Sessions.RemainingAfterResolve | internal/auth/service.go:220-223 | Right after an accepted resolve at least floor(TTL/2) and at most TTL remains |
| Sessions.ActiveSessionNeverExpires | internal/auth/service.go:184-225 | A session resolved at most floor(TTL/2) apart, each slid expiry written before the next resolve or purge, is never rejected, whatever else happens, unless revoked or its user is disabled or deleted, also by a row written back late |
| Sessions.ActiveSessionLostExactly | internal/auth/service.go:220-223 | A session in use with slid expiries still to be written can be lost exactly when the last of them to be written may lie less than floor(TTL/2) after the last examination |
| Sessions.OverlapLosesSession | internal/auth/service.go:220-223 | Three resolves floor(TTL/2) apart lose the session if the second's write is later than the third |
| Sessions.HalfTtlIsExact | internal/auth/service.go:220-223 | floor(TTL/2) is the largest spacing with that guarantee |
| Sessions.IdleSessionEnds | internal/auth/service.go:208-211 | An accepted resolve comes at most TTL after the previous one; a later one is rejected together with all that follow |
| Sessions.RejectionIsFinal | internal/auth/service.go:200-219 | A token that was issued and rejected once is rejected for ever |
| Sessions.DeletedUserNeverReturned | internal/auth/store.go:105-115 | From the row delete on, a user is never returned again, also before its sessions are deleted |
| Sessions.DisabledUserNotReturned | internal/auth/service.go:216-219 | A disabled user is not returned until somebody enables it, unless an enabled row read before is still to be written back |
| Sessions.DisabledComesBackExactly | internal/auth/store.go:95-103 | A disabled user can come back without anybody enabling it exactly when a call that read the row before has not written it back yet |
| Sessions.Service.EditUser | internal/auth/service.go:269-310 | With nothing in between exactly the requested change is made to the row |
| Sessions.Service.Examine | internal/auth/service.go:200-221 | The answer, the deletion and the decision to slide of the specification |
| Sessions.Service.TouchSession | internal/auth/store.go:147-150 | The expiry is written as it was computed, and only over a session that is still there |
| Sessions.Service.ResolveSession | internal/auth/service.go:200-225 | With nothing in between, the answer and the session table of the specification; an accepted user exists and is enabled |
| Sessions.Service.DeleteUser | internal/auth/store.go:105-115 | The row and the sessions go, in this order, iff the row existed |
| Sessions.Service.PurgeExpired | internal/auth/store.go:152-154 | Exactly the sessions whose expiry has passed go, the ones a resolve would reject |

## Left out

- Failed store writes that the code ignores or reports: statements succeed in the model, apart from the inserts, extractions and reads named in a contract.
- JobQueue.Queue.Enqueue: runs without another goroutine in between; what happens under interleaving is stated over the runs of the protocol, whose steps the atomic blocks are.
- JobQueue.Queue.DispatchRound: the same.
- JobQueue.Queue.Execute: the same.
- JobQueue.Queue.Cancel: the same.
- Queue.Close's wait for running jobs, and its race between the wait group's Add and Wait: the code does not guarantee what one would want to state.
- Exit codes, timestamps and error texts of job rows.
- StreamMerge.StreamLines: one goroutine with the sink to itself; the two goroutines together are MergeInterleaves.
- The `[exit]` and `[ok]` line that runner.go writes after both streams have ended.
- ProxyLogs.Logs: a client that leaves while history is being sent is noticed, as in the code, only by a failing write or in the live loop.
- LogSink.LogSink.Cancel and the other sink methods run one at a time, as under the sink's mutex; the Go memory model is not part of this.
- Reprovision's directory wipe: only its status write, and whether it goes on to provision, are steps of the admission model.
- TCP forwards, supervisors' health checks and guest services started after a boot: only their status writes are modelled.
- VmManager.Manager.Delete: the inner Stop and the directories are left out, and nothing runs in between; interleavings are the ledger's.
- VmManager.Manager.Create: stands for Create, Import and ImportBundle as far as rows and blocks go, in the source's order without another operation in between; interleavings are the ledger's.
- Provision.RunProvisionSteps: subprocesses are their answers; the concurrent output of the DFU process and of the restore is one sequence of writes, and the callback goroutine runs at once.
- Zip encoding and JSON: an archive is a list of entries and a manifest the fields it mentions.
- Pipes and devices in a VM directory, file permissions and times: bundles carry regular files, sockets and symbolic links only.
- Trimming of spaces around the name given to an import.
- Snapshots.Store.ListSnapshotsLegacy: one call at a time; two concurrent calls could both insert a row for the same new backup. The statement's ORDER BY is left to the sort that follows.
- The upstream snapshot listing, creation, restore and deletion through launchpad.
- Trust on first use, certificate pinning and HTTP of the cluster: only whether a probe or a request succeeded.
- Cluster.Manager.Register: stands for a registration whose probe succeeded and whose name is free.
- Sessions.Service.Examine: the reads of one resolve and its deletion are one step; only the write that slides the expiry is a step of its own.
- Lexical comparison of stored timestamps in the purge is integer comparison here.
- Passwords, external identity providers, roles and role mapping.
- HTTP handlers, the MCP server, the front end, IPSW handling, configuration defaults, migrations.
