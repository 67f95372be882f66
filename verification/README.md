# Verified model of the sagens host, guest agent and clients

The system runs agent workspaces (BOXes) in microVMs.  A host daemon keeps BOX
records, starts and destroys sandboxes, takes and restores workspace checkpoints,
talks to an agent inside each guest over one connection, and serves clients over a
websocket.  This project models the parts whose correctness is decided by the code
itself and proves what they promise:

* **Requests, commands and shells, end to end** (`GuestRpc`, `GuestRpcRuns`, `GuestLink`,
  `GuestLinkRpc`, `GuestLinkExec`, `GuestLinkShell`, `ApiClient`, `ApiClientRuns`,
  `ExecPipeline`, `ExecEnds`).  Output tasks, waiter, guest request
  loop, host reader, relay, forwarder, websocket, client reader and collector are steps
  of one transition system, interleaved in any order and failing at any point.  What a
  client collects is always a prefix of what the guest read from the child, and all of
  it when the command ends by itself.  Every reply that is read reaches its caller, and
  every channel carries exactly the events told it since it was opened.
* **Checkpoint lineage** (`Lineage`, `LineageLists`, `LineageRuns`, `LineageLaws`,
  `LineageDeletes`, `LineageClock`, `LineageRenaming`, `LineageFiles`, `LineageStore`,
  `StubManager`).  A short specification of disk, list and head; the disk-backed store and
  the in-memory stub are both proved against it, so they simulate each other; the run-level
  theorems are proved once, on the specification.  The disk-backed store records every
  intermediate file-system state, which gives the crash theorems.
* **BOX lifecycle** (`Registry`, `Boxes`, `BoxSteps`, `BoxService`, `BoxRuns`, `Settings`).
  Records, the map of active sandboxes and the session registry with its warm pool as one
  state; what backend, guest, host and disk tools answer is a parameter of every operation.
* **Package resolution** (`Text`, `Packages`, `PackageLaws`): the APK index loader and the
  work-list resolver against a least-closed-set specification and chains of dependencies.
* **Codecs** (`WebSocket`, `WebSocketLayout`, `WebSocketConnection`, `KernelCmdline`): RFC
  6455 framing in the Python client, and the kernel command line between host and guest.
* **Node client queue and transport** (`NodeQueue`, `NodeTransport`) and **snapshot
  difference** (`Manifest`).

Code that changes state step by step is modelled by classes and methods with loops;
pure code by functions.  Nondeterministic outcomes (`*`) and parameters stand for the
runtime, the guest, the network, the disk tools and the clock, so every contract holds for
all of them.

## What the proofs found

* Rollback is an exact inverse if and only if everything listed when the checkpoint was
  made is still listed (`LineageRuns.RollbackIsExactInverse`); without explicit deletes
  that is always so while the checkpoint itself survives
  (`LineageRuns.RollbackWithoutDeletes`).
* `created_at_ms` orders the list, so a clock that stands still or goes back changes what
  rollback drops: two checkpoints made in one tick can swap, and rolling back to the newer
  drops the older (`LineageClock.TieDropsOlder`).  `LineageClock.RollbackUnderAnyClock`
  says exactly when rollback still undoes what came after, and
  `LineageClock.AheadIffListsAlike` exactly when a caller can tell that the clock mattered.
* Explicit deletes can leave the head dangling (`LineageRuns.DeletesCanDangle`).  A delete
  keeps head and links closed if and only if the checkpoint has no listed children
  (`LineageDeletes.DeleteKeepsClosedIff`); links always point strictly back, so no chain of
  sources is cyclic.
* When a running BOX's sandbox fails to answer, the record is marked failed and the
  sandbox stays with the runtime.  Such a BOX is orphaned: no later operation destroys
  the sandbox and every later start fails (`BoxRuns.OrphanNeverStarts`).  Listing, reading,
  starting, using, checkpointing and restoring a BOX orphan it when its sandbox does not
  answer; nothing else can (`BoxRuns.Replay`).
* A refused disk size can be read back as if it had been accepted: whenever a resize fails
  after the length of the disk's file was set (`BoxRuns.RefusedIsReadBackIff`).  That is when
  `resize2fs` fails on a disk made larger, or the last check on one made smaller; any other
  failure leaves the old size (`BoxSteps.HalfwayIff`).  Every disk above the least size
  of a BOX that is not running can show it (`BoxRuns.RefusedShrink`).
* A destroy loses the session exactly when the backend fails to shut down: it is neither
  active nor in history (`Registry.AgentSandboxService.DestroySandbox`).
* The Node client can lose shell output without telling anyone: a failure discards what
  is buffered for a shell that is not registered yet, and a queue handed out afterwards is
  open and stays empty (`NodeTransport.LostEvent`); `NodeTransport.NothingLostIff` gives the
  exact condition.
* The Rust client can put shell events out of order: what was kept for a shell is replayed
  after the lock is released, and an event told meanwhile overtakes it
  (`ApiClientRuns.ShellOvertakes`); `ApiClientRuns.InOrderIffQuiet` gives the exact
  condition.
* `_recv_message` is laxer than section 5.4 of RFC 6455: a later fragment that repeats the
  text opcode is taken as a continuation (`WebSocketConnection.LaxFragments`), and a message
  with a fragmented ping in it is accepted too (`WebSocketConnection.LaxPing`);
  `WebSocketConnection.StandardIff` says exactly which accepted messages the standard
  allows.

## Model

| member | source | states |
|---|---|---|
| `ExecPipeline.EndToEnd` | src/box_api/client/exec.rs:8-53 | what `collect_exec` returns, in every run: its stream ended by a terminal event and never by closing early; stdout is a prefix of the bytes the guest read from the child's stdout, stderr likewise or such a prefix followed by the message of the failure that happened; a status means the guest's own exit with both streams complete, or a kill with the failure message; a command no server task took up collects nothing but an error |
| `ExecPipeline.CollectedSoFar` | src/box_api/client/exec.rs:8-53 | the same of what has been collected at any moment, after any number of events |
| `ExecPipeline.RunsKeepEnds` | src/box_api/client/state.rs:61-153 | the stream of a command that was sent closes only behind a terminal event |
| `ExecEnds.EndIsReported` | src/box_api/client/state.rs:44-86 | when the client reads the end of an open command, whether exit, rejection or failure of everything, the stream closes behind it and the collector reports exactly that status or error |
| `ExecEnds.RunsReadEnds` | src/box_api/client/state.rs:44-86 | in every run a command whose exit or rejection has been read is closed, and an open one has been told nothing that ends it |
| `ExecPipeline.CollectorIsFaithful` | src/box_api/client/state.rs:61-86 | after any number of received events the collector's three buffers are the texts of a faithful, ordered copy of what the output tasks read |
| `ExecPipeline.RunsKeepPipe` | src/box_api/server/execution.rs:67-100 | relay, forwarder, websocket and client channel each carry a prefix of the stage before, in every reachable state |
| `ExecPipeline.RelayFed` | src/runtime/service/ops.rs:126-140 | the relay's channel stays a prefix of the host's, up to and including the terminal event |
| `GuestLinkExec.HostFaithful` | guest-agent/src/guest_agent/linux_exec.rs:136-165 | the host's channel of a command is a faithful copy of what was read, complete when it ends with the guest's own exit, because both output tasks are joined first |
| `GuestLinkExec.ExecInvStep` | guest-agent/src/guest_agent/linux_exec.rs:336-368 | every step of pumps, waiter, request loop and host reader keeps wire and channels faithful |
| `GuestLinkRpc.RepliesReachTheirCallers` | src/guest_rpc/client/mod.rs:94-258 | a caller has at most one result: the guest's reply to that very request, saying what serving it came to in the kind of response expected, or the message the connection ended with |
| `GuestLinkRpc.EveryReplyIsHandedOver` | src/guest_rpc/client/reader.rs:36-114 | a reply that has been read is its caller's answer, and while the connection lives a caller without one is still waiting |
| `GuestLinkRpc.RunsKeepRpc` | guest-agent/src/guest_agent/linux_server.rs:128-303 | one reply per request taken, fitting its request, over every run |
| `GuestLinkShell.ShellsAreHeard` | src/guest_rpc/client/reader.rs:66-82 | in every run an open shell's channel holds exactly what was read of it, a closed one's a beginning that ends with its exit or failure, or all of it and the failure of the connection, unless opening it failed |
| `GuestLinkShell.ShellInvStep` | src/guest_rpc/client/reader.rs:134-174 | every step of the system keeps it |
| `GuestRpcRuns.EveryRunOrdered` | src/guest_rpc/client/reader.rs:36-114 | whatever the guest sends, every stream is outputs then at most one exit with nothing after it, and waiters are resolved at most once |
| `GuestRpcRuns.FailAllTellsEveryone` | src/guest_rpc/client/reader.rs:182-208 | every registered waiter and stream gets exactly one terminal result, nobody else anything, and the maps end empty |
| `GuestRpcRuns.GivesUpIff` | src/guest_rpc/client/reader.rs:10-34 | the reader stops exactly on a line that is no event, undecodable output of an open stream, or an error nobody is waiting for |
| `GuestRpc.GuestRpcClient.ReadLine` | src/guest_rpc/client/reader.rs:10-34 | one turn of the read loop; an unhandled line fails everything and stops the reader |
| `GuestRpc.GuestRpcClient.HandleLine` | src/guest_rpc/client/reader.rs:36-114 | which map and channel each kind of line changes, and which lines end the connection |
| `GuestRpc.GuestRpcClient.RouteErrorEvent` | src/guest_rpc/client/reader.rs:134-174 | an error resolves its request and closes its stream; undelivered, it ends the connection |
| `GuestRpc.GuestRpcClient.FailAll` | src/guest_rpc/client/reader.rs:182-208 | the three drained maps and their channels after the loops |
| `ApiClient.ClientInner.DispatchEvent` | src/box_api/client/state.rs:28-111 | where each server event goes, terminal events closing their stream |
| `ApiClient.ClientInner.FailAll` | src/box_api/client/state.rs:113-153 | every pending request and stream is told, all four maps emptied |
| `ApiClient.ClientInner.RegisterShell` | src/box_api/client/mod.rs:272-282 | what was kept for the shell is taken out, to be replayed on its new channel |
| `ApiClient.ClientInner.ReplayEvent` | src/box_api/client/mod.rs:283-286 | one event is put on the shell's channel, whatever has become of the shell meanwhile |
| `ApiClient.CollectExec` | src/box_api/client/exec.rs:8-53 | the loop computes the fold of the events up to the first that ends it; an early close counts as a kill |
| `ApiClientRuns.ExecLaw` | src/box_api/client/state.rs:28-111 | whatever the server sends, a command's channel holds exactly the events told it since it was opened, up to and with the first that ends it, and is open until then |
| `ApiClientRuns.AnswerLaw` | src/box_api/client/state.rs:28-61 | whatever the server sends, a request is answered by the first reply to it or by what ended the connection, once, and waits until then |
| `ApiClientRuns.ShellLaw` | src/box_api/client/state.rs:87-111 | a shell's channel holds exactly what was kept for it, as far as replayed, and the events told it since it was taken up, up to and with the first that ends it, each in its order, possibly shuffled |
| `ApiClientRuns.ShellInOrder` | src/box_api/client/mod.rs:272-288 | when nothing is told the shell during the replay, what was kept comes first and all is in order |
| `ApiClientRuns.InOrderIffQuiet` | src/box_api/client/mod.rs:272-288 | at the end of the replay the order is right if and only if nothing was told meanwhile, unless the same events were kept and told |
| `ApiClientRuns.ShellOvertakes` | src/box_api/client/mod.rs:272-288 | an event told during the replay overtakes what was kept |
| `LineageRuns.RollbackIsExactInverse` | src/workspace/checkpoints.rs:79-111 | rolling back to a checkpoint gives exactly the disk, list and head right after its creation, if and only if everything listed then is still listed |
| `LineageRuns.RollbackWithoutDeletes` | src/workspace/checkpoints.rs:41-111 | after any writes, creates, replaces and rollbacks that keep the checkpoint, rollback to it restores the state it was created in |
| `LineageRuns.SurvivesUndeleted` | src/workspace/checkpoints.rs:99-109 | without deletes, what was listed at a checkpoint's creation stays listed in place as long as the checkpoint does |
| `LineageRuns.SnapshotsImmutable` | src/workspace/lineage.rs:211-249 | each surviving checkpoint holds the disk, and names the head, of the moment it was created |
| `LineageRuns.ListingEvolves` | src/workspace/lineage.rs:78-124 | from any point on, a list is drawn, in order, from what was listed and what was created since |
| `LineageRuns.ListingDistinct` | src/workspace/lineage.rs:78-124 | no checkpoint is listed twice |
| `LineageRuns.LinksAlwaysPointBack` | src/workspace/checkpoints.rs:113-131 | with deletes, head and source links name checkpoints created in the workspace, a source strictly before its child |
| `LineageRuns.ChainsAreAcyclic` | src/workspace/checkpoints.rs:48-68 | no chain of sources is cyclic, in every run |
| `LineageRuns.ClosedWithoutDeletes` | src/workspace/checkpoints.rs:99-109 | without deletes, head and sources are listed and a source precedes its child |
| `LineageRuns.RollbackKeepsAncestors` | src/workspace/checkpoints.rs:99-109 | rollback never drops an ancestor of a survivor |
| `LineageRuns.DeletesCanDangle` | src/workspace/checkpoints.rs:113-131 | deleting a checkpoint and then its child leaves the head naming the missing one |
| `LineageDeletes.DeleteKeepsClosedIff` | src/workspace/checkpoints.rs:113-131 | a delete keeps head and links closed if and only if no listed checkpoint has the deleted one as its source |
| `LineageDeletes.ClosedWithChildlessDeletes` | src/workspace/checkpoints.rs:113-131 | closure in every run whose deletes each hit a childless checkpoint |
| `LineageDeletes.ParentDeleteOpens` | src/workspace/checkpoints.rs:113-131 | the first delete of a run that hits a checkpoint with children opens the links, no other does |
| `LineageRuns.WorkspacesAreIsolated` | src/workspace/store.rs:120-136 | operations on other workspaces change neither disk, list nor head |
| `LineageRuns.ForkStartsClean` | src/workspace/checkpoints.rs:134-155 | a fork starts from the checkpoint's content with no checkpoints and no head, its source unchanged |
| `LineageLaws.RestoreReturns` | src/workspace/checkpoints.rs:79-111 | restoring a listed checkpoint, in either mode, gives back the disk it was created from and makes it the head; replacing leaves the list, rolling back cuts behind it |
| `LineageLaws.DiskLaw` | src/workspace/checkpoints.rs:41-155 | a disk changes only by writes, and by putting back what a checkpoint's create found |
| `LineageLaws.HeadLaw` | src/workspace/checkpoints.rs:113-131 | the head is the checkpoint last created or restored; deleting it moves the head to what was the head at its creation |
| `LineageLaws.ListLaw` | src/workspace/lineage.rs:78-124 | what each operation does to the list: append with link and disk, take one out, cut behind the target, nothing |
| `LineageLaws.ReplyLaw` | src/workspace/checkpoints.rs:41-155 | what each operation answers, not found exactly for what is not listed |
| `LineageLaws.SourceIsLastVisited` | src/workspace/checkpoints.rs:48-68 | a new checkpoint names as source the one last created or restored before it |
| `LineageFiles.SortedUnique` | src/workspace/lineage.rs:117-122 | the order of a listing does not depend on the order the directory is read in |
| `LineageFiles.NewRecord` | src/workspace/lineage.rs:211-249 | a written record is listed at its sorted place, the others as before |
| `LineageFiles.NewRecordLast` | src/workspace/lineage.rs:117-122 | it is listed last exactly when the clock is ahead |
| `LineageFiles.HeadWritten` | src/workspace/lineage.rs:152-190 | writing a missing head file never changes the head that is read |
| `LineageFiles.RemovedDir` | src/workspace/lineage.rs:273-286 | removing a checkpoint directory removes exactly that entry from the list |
| `LineageStore.WorkspaceStore.ListCheckpoints` | src/workspace/lineage.rs:78-124 | the sorted listing, whatever order the directory gives |
| `LineageStore.WorkspaceStore.HeadCheckpointId` | src/workspace/lineage.rs:175-190 | the head file, or the newest checkpoint when there is none |
| `LineageStore.WorkspaceStore.EnsureWorkspace` | src/workspace/lineage.rs:152-173 | no reader sees a difference, after any of its file-system calls |
| `LineageStore.WorkspaceStore.SaveCheckpoint` | src/workspace/lineage.rs:211-249 | snapshot before record, so that every listed checkpoint has its snapshot at every step |
| `LineageStore.WorkspaceStore.CreateCheckpoint` | src/workspace/checkpoints.rs:41-69 | a crash after any step leaves earlier checkpoints untouched, every listed one complete and the head old or new; the result is the specified one exactly when the clock is ahead |
| `LineageStore.WorkspaceStore.DeleteCheckpoint` | src/workspace/checkpoints.rs:113-131 | the workspace the specification gives; a deleted head moves to its source |
| `LineageStore.WorkspaceStore.DeleteCheckpointIds` | src/workspace/checkpoints.rs:189-203 | the loop removes exactly the given checkpoints |
| `LineageStore.WorkspaceStore.RestoreCheckpoint` | src/workspace/checkpoints.rs:79-111 | disk, list and head as specified in both modes; an unknown checkpoint changes nothing |
| `LineageStore.WorkspaceStore.ForkWorkspace` | src/workspace/checkpoints.rs:134-155 | the target gets the snapshot and no head; not found exactly when unlisted |
| `LineageStore.WorkspaceStore.RemoveWorkspace` | src/workspace/store.rs:120-136 | the workspace is blank, every other as before |
| `LineageStore.WorkspaceStore.Replay` | src/workspace/checkpoints.rs:41-155 | every run, under any clock, answers as the clocked specification and ends in its state |
| `LineageClock.ListsInOrder` | src/workspace/lineage.rs:117-122 | under any clock every list is ordered by creation time, then id |
| `LineageClock.CreateUnderAnyClock` | src/workspace/checkpoints.rs:41-69 | under any clock a create adds exactly its checkpoint, at the place its time gives it, and becomes the head |
| `LineageClock.AheadRunsAgree` | src/workspace/checkpoints.rs:41-69 | when each create finds the clock ahead of what is listed, the runs are those of the specification without a clock |
| `LineageClock.AgreeingRunsAreAhead` | src/workspace/checkpoints.rs:41-69 | only then |
| `LineageClock.AheadIffListsAlike` | src/workspace/lineage.rs:78-124 | every create found the clock ahead exactly when every list, whenever asked for, reads as if the clock did not matter |
| `LineageClock.ForwardIsAhead` | src/workspace/checkpoints.rs:41-69 | a clock that moves forward with every operation is always ahead |
| `LineageClock.RollbackUnderAnyClock` | src/workspace/checkpoints.rs:79-111 | under any clock rollback restores the state right after the creation if and only if the checkpoint came last then, everything listed then is listed now, and everything listed only now comes after it |
| `LineageClock.TieDropsOlder` | src/workspace/lineage.rs:117-122 | two creates in one tick, the second with the smaller id: rolling back to the second drops the first |
| `StubManager.StubBoxManager.CaptureSnapshot` | python/src/stub/checkpoints.rs:37-45 | exactly the BOX's files |
| `StubManager.StubBoxManager.ApplySnapshot` | python/src/stub/checkpoints.rs:75-85 | the BOX's files become the snapshot, no other BOX's change |
| `StubManager.StubBoxManager.RollbackCheckpoints` | python/src/stub/checkpoints.rs:56-73 | exactly the newer checkpoints and their snapshots go |
| `StubManager.StubBoxManager.CheckpointCreate` | python/src/stub/mod.rs:216-248 | the specified new checkpoint, numbered by the counter |
| `StubManager.StubBoxManager.CheckpointRestore` | python/src/stub/mod.rs:264-296 | as specified in both modes, not found exactly when unlisted |
| `StubManager.StubBoxManager.CheckpointFork` | python/src/stub/mod.rs:298-331 | as specified |
| `StubManager.StubBoxManager.CheckpointDelete` | python/src/stub/mod.rs:333-366 | as specified, dangling heads included |
| `StubManager.StubBoxManager.RemoveBox` | python/src/stub/checkpoints.rs:26-35 | nothing of the BOX remains, others are unchanged |
| `StubManager.StubBoxManager.Replay` | python/src/stub/mod.rs:216-366 | every run answers as the specification and ends in its state |
| `StubManager.Simulation` | python/src/stub/mod.rs:216-366 | up to any one-to-one renaming of checkpoint ids, store and stub give the same replies, disks, lists, links and heads on every run in which each create finds the clock ahead of what is listed |
| `StubManager.StubIdsFit` | python/src/stub/mod.rs:216-248 | every run with distinct checkpoint ids has such a renaming, to the stub's own numbers |
| `LineageRenaming.RunRenamed` | src/workspace/checkpoints.rs:41-155 | checkpoint ids are only compared: a run with renamed ids gets the renamed replies and ends in the renamed store |
| `LineageRenaming.NextRenamed` | src/workspace/checkpoints.rs:41-155 | the same for one operation on any store |
| `StubManager.StubRunIsLegal` | python/src/stub/mod.rs:216-248 | the stub's counter never repeats an id |
| `BoxRuns.Replay` | src/boxes/service/mod.rs:40-348 | every run of operations, whatever the world answers, keeps the joint invariant and sends only launchable policies; an orphan stays one, every new one was asked for statistics and did not answer; a value moves only where its setting was tuned |
| `BoxRuns.Perform` | src/boxes/service/mod.rs:40-348 | each operation succeeds exactly under its condition on the state and on what the world answers, leaves every BOX in the status that follows, and keeps what a run keeps |
| `BoxRuns.AcceptedIsReadBack` | src/boxes/service/mod.rs:75-116 | an accepted setting is read back after any run in which the same setting of the BOX was not accepted again and the BOX not removed, however host capacity moves; for the disk size, in which nothing else wrote the disk: a restore that copied nothing or a resize that failed before the length was set does not count |
| `BoxRuns.RefusedIsReadBackIff` | src/workspace/store.rs:95-118 | a refused disk size is read back, after any run that does not write the disk, exactly when the resize failed after the length of the file was set (or it was the size already); otherwise the old size is |
| `BoxRuns.RefusedShrink` | src/workspace/store.rs:112-116 | on any host, any disk of a BOX that is not running can show a refused size: a shrink whose last check fails is answered with an error and read back |
| `BoxSteps.HalfwayIff` | src/workspace/store.rs:108-116 | the failures that leave the new size are `resize2fs` when growing and the last check when shrinking, no others |
| `BoxSteps.SmallerAccepted` | src/boxes/service/mod.rs:92-100 | no host capacity makes a smaller disk size unacceptable |
| `BoxRuns.OrphanNeverStarts` | src/boxes/helpers.rs:61-130 | a BOX whose sandbox was left behind can never be started again in this daemon |
| `BoxRuns.TunedIn` | src/boxes/service/mod.rs:75-116 | which operations of a run, by their outcome, tune a setting |
| `Boxes.DistinctSandboxes` | src/boxes/service/mod.rs:118-158 | distinct running BOXes have distinct sandboxes |
| `Boxes.OthersHealthy` | src/boxes/helpers.rs:93-203 | an operation on one BOX leaves the health of all others intact |
| `BoxService.LocalBoxService.constructor` | src/boxes/service/record.rs:17-41 | after start-up no BOX is running, each was reconciled, the active map is empty |
| `BoxService.LocalBoxService.ReconcileAfterRestart` | src/boxes/helpers.rs:11-30 | a running record becomes failed and keeps its stale sandbox; limits are normalized |
| `BoxService.LocalBoxService.HydrateRecord` | src/boxes/helpers.rs:37-59 | only limits and reported disk size change; choices in limits are kept |
| `BoxService.LocalBoxService.AttachRuntimeUsage` | src/boxes/helpers.rs:61-91 | a running BOX stays running exactly when its sandbox answers, and is otherwise failed with the sandbox orphaned; others are reported as they are |
| `BoxService.LocalBoxService.EnsureRuntime` | src/boxes/helpers.rs:147-176 | on a running BOX success exactly when its sandbox answers, returning the registered one; otherwise it is failed and orphaned |
| `BoxService.LocalBoxService.SetFailed` | src/boxes/helpers.rs:113-130 | record and active map together, restoring the invariant |
| `BoxService.LocalBoxService.MarkStopped` | src/boxes/helpers.rs:138-145 | record and active map together, restoring the invariant |
| `BoxService.LocalBoxService.StartBox` | src/boxes/service/mod.rs:118-158 | a BOX that is not running starts exactly when the runtime holds no sandbox for it and every step of the launch succeeds, under a policy with the cpu, memory, processes and network its record reads; it is then running exactly if it answers |
| `BoxService.LocalBoxService.StopBox` | src/boxes/service/mod.rs:160-202 | a running BOX ends stopped exactly when its sandbox shuts down or is unknown, failed otherwise, and holds no session either way |
| `BoxService.LocalBoxService.RemoveBox` | src/boxes/service/mod.rs:204-217 | succeeds exactly when the BOX can be stopped and disk, checkpoints and record go, leaving nothing; a failure leaves it removing or failed, its choices as they were, the disk gone or as it was |
| `BoxService.LocalBoxService.SetBoxSetting` | src/boxes/service/mod.rs:75-116 | refused on a running BOX and, exactly, outside what the host's capacity allows; accepted, exactly the chosen value changes; a failed resize changes no choice, and the disk exactly when its length was set |
| `BoxService.LocalBoxService.ResizeWorkspace` | src/workspace/store.rs:95-118 | succeeds exactly when every step does; the size is the new one exactly when the length of the file came to be set, on success and on every failure |
| `BoxService.LocalBoxService.CreateBoxRecord` | src/boxes/service/record.rs:43-72 | a fresh BOX, not running, with the given choices and a default disk |
| `BoxService.LocalBoxService.CheckpointCreate` | src/boxes/service/mod.rs:276-286 | exactly on a running BOX that answers, when the capture succeeds: a new checkpoint of the disk at its size |
| `BoxService.LocalBoxService.CheckpointDelete` | src/boxes/service/mod.rs:334-339 | the checkpoint leaves the list, the BOX as it was |
| `BoxService.WithoutParts` | src/boxes/service/mod.rs:334-339 | what a delete leaves is everything else in the same order |
| `BoxService.LocalBoxService.CheckpointRestore` | src/boxes/service/mod.rs:293-312 | stop, restore, start: when each step is reached and succeeds; the disk is the size the checkpoint kept, a rollback drops the later ones; a BOX that ran is running again if it answers, orphaned if not; a failure leaves disk and list as they were unless only the start failed |
| `BoxService.LocalBoxService.CheckpointFork` | src/boxes/service/mod.rs:314-332 | exactly for a listed checkpoint that can be copied: a fresh stopped BOX with the source's choices and a disk of the size kept |
| `BoxService.LocalBoxService.ListBoxes` | src/boxes/service/mod.rs:42-49 | every BOX is reported, a running one as failed exactly when its sandbox does not answer; invariant and choices are kept |
| `BoxService.LocalBoxService.ShutdownDaemon` | src/boxes/service/mod.rs:341-347 | succeeds exactly when every active sandbox shuts down or is unknown, and then every running BOX is stopped and the map empty |
| `Registry.RunsAreExclusive` | src/workspace/store.rs:138-192 | a run directory is in at most one of pool and active set, and used once |
| `Registry.CreateSound` | src/runtime/service/lifecycle.rs:22-130 | a registered sandbox keeps one per workspace, fresh ids and the pool's bounds |
| `Registry.DestroySound` | src/runtime/service/lifecycle.rs:132-178 | moving a session to history and its run to the pool keeps everything sound |
| `Registry.SessionRegistry.HasActiveWorkspace` | src/runtime/registry.rs:64-71 | found exactly when some active session is attached to the workspace |
| `Registry.SessionRegistry.StoreWarmRun` | src/runtime/registry.rs:108-114 | the newest runs, at most the pool size |
| `Registry.SessionRegistry.TakeWarmRun` | src/runtime/registry.rs:104-106 | the youngest pooled run, removed |
| `Registry.AgentSandboxService.CreateSandbox` | src/runtime/service/lifecycle.rs:22-130 | refused for a taken workspace or networking in secure mode; otherwise succeeds exactly when every step of the launch does, registering one sandbox under an unused identifier; a warm run is used up once the workspace is prepared |
| `Registry.AgentSandboxService.DestroySandbox` | src/runtime/service/lifecycle.rs:132-178 | idempotent once destroyed; unknown exactly when in neither map; an active session goes to pool and history exactly when the backend shuts down, and is lost otherwise |
| `Registry.AgentSandboxService.Serve` | src/runtime/service/lifecycle.rs:22-178 | over any sequence of calls, soundness holds, ids strictly increase and history never changes its records |
| `Settings.CapsCoverDefaults` | src/boxes/helpers.rs:246-290 | whatever the host reports, caps allow what the defaults ask for |
| `Settings.CapsAreReported` | src/boxes/helpers.rs:246-290 | each cap is what the host reports where that is enough and fits, and a multiple of the defaults where it reports nothing |
| `Settings.NormalizedInLimits` | src/boxes/helpers.rs:215-244 | no clamp with crossed bounds; the result is in its limits and offline on a secure host |
| `Settings.LimitsReported` | src/boxes/helpers.rs:215-244 | each limit is the cap or the larger current value, a value below its minimum is raised to it, the disk size is the disk's |
| `Settings.NormalizeIdempotent` | src/boxes/helpers.rs:215-244 | normalizing twice changes nothing more |
| `Settings.ChoicesSurvive` | src/boxes/helpers.rs:215-244 | choices in limits survive any capacity; the disk size is the disk's |
| `Settings.PolicyLaunchable` | src/boxes/service/policy.rs:21-30 | the policy passes validation and never enables network in secure mode |
| `BoxSteps.ChangedInLimits` | src/boxes/service/policy.rs:6-19 | an accepted value leaves the settings in limits and changes that choice only |
| `BoxSteps.ChangedIffAcceptable` | src/boxes/service/policy.rs:6-19 | a value is taken exactly when it lies between its minimum and the limit reported |
| `BoxSteps.SettingKeepsKnobs` | src/boxes/service/mod.rs:82-113 | changing one setting moves no other |
| `Packages.ResolvePackages` | src/images/packages.rs:48-72 | terminates on every index, and returns exactly the needed packages in name order or names a needed one that is missing |
| `PackageLaws.ResolutionByChains` | src/images/packages.rs:48-72 | a package is installed exactly when a chain of dependencies leads to it from a wanted token; failure names the end of a chain that is no package |
| `PackageLaws.DependenciesInstalled` | src/images/packages.rs:162-171 | whatever provides a wanted token or a dependency of an installed package is installed, shared libraries and commands included |
| `PackageLaws.NeededIffLedTo` | src/images/packages.rs:48-72 | the least closed set is what chains of dependencies reach |
| `Packages.ResolutionUnique` | src/bin/build_alpine_guest/packages.rs:99-123 | the result does not depend on order or repetition of the wanted tokens, nor on which implementation computed it |
| `Packages.FailsExactlyWhenUnresolvable` | src/images/packages.rs:48-72 | on a loaded index, failure exactly when a reachable token asks for a plain name nobody offers |
| `Packages.NeededCovers` | src/images/packages.rs:162-171 | the needed packages form a closed set when every reachable token resolves |
| `Packages.LoadPackage` | src/images/packages.rs:107-137 | last package per name, first provider per offered name |
| `Packages.LoadIndexes` | src/images/packages.rs:20-29 | the same over all blocks |
| `Packages.LoadedIsConsistent` | src/images/packages.rs:107-137 | packages are keyed by name and offered, providers exist |
| `Packages.PackageFields` | src/images/packages.rs:139-150 | a key is there exactly when a line carries it, and its values are those lines' values in order |
| `Packages.KeyIsLeft` | src/images/packages.rs:139-150 | a line carries one key and one value, split at its first colon |
| `PackageLaws.BlockSays` | src/images/packages.rs:107-137 | a block gives a package exactly when a P and a V line name and version it, the first of each; D and p lines give dependencies and provided names |
| `PackageLaws.WordsInOrder` | src/images/packages.rs:190-198 | the words of several lines are those of each line in order |
| `PackageLaws.EntriesInOrder` | src/images/packages.rs:91-105 | the packages of an index are those its blocks give, block by block |
| `Packages.CutConstraint` | src/images/packages.rs:173-181 | cutting at each marker in turn is cutting at the first of any |
| `Text.TrimmedPart` | src/images/packages.rs:173-181 | trimming drops white space at both ends and nothing else |
| `Packages.StripIdempotent` | src/images/packages.rs:173-181 | a stripped name strips to itself |
| `WebSocket.StreamRoundTrip` | python/sagens/_websocket.py:71-101 | concatenated frames decode to the same flags, opcodes and payloads, for every mask and length below 2^64 |
| `WebSocket.FrameRoundTrip` | python/sagens/_websocket.py:71-101 | one frame decodes to itself and leaves what follows |
| `WebSocket.TruncatedFrame` | python/sagens/_websocket.py:71-86 | a frame cut short anywhere is not a frame |
| `WebSocket.LengthRoundTrip` | python/sagens/_websocket.py:76-99 | the three length forms, in network order |
| `WebSocket.MaskUndone` | python/sagens/_websocket.py:83-85 | masking twice gives the payload back |
| `WebSocketLayout.DecodedIffLaidOut` | python/sagens/_websocket.py:71-86 | the decoder reads a frame off a stream if and only if the stream begins with it, byte by byte as section 5.2 of RFC 6455 lays it out |
| `WebSocketLayout.WireIsLaidOut` | python/sagens/_websocket.py:88-101 | what is sent is laid out so, in the shortest length form, mask included |
| `WebSocketLayout.MaskedBits` | python/sagens/_websocket.py:83-85 | masking flips exactly the bits set in the key's byte due at that position |
| `WebSocketLayout.NetworkOrder` | python/sagens/_websocket.py:76-82 | of the bytes of a length the first counts most |
| `WebSocketConnection.Connection.RecvExact` | python/sagens/_websocket.py:174-183 | exactly the next bytes whatever pieces the socket gives, or closed |
| `WebSocketConnection.Connection.RecvFrame` | python/sagens/_websocket.py:71-86 | reads from the socket what the decoder specifies |
| `WebSocketConnection.Connection.SendFrame` | python/sagens/_websocket.py:88-101 | writes the specified encoding under a random mask |
| `WebSocketConnection.Connection.RecvMessage` | python/sagens/_websocket.py:50-69 | reads up to the frame that ends the wait; result and failures by that frame; every ping answered in order by a pong with its payload |
| `WebSocketConnection.VerdictLaw` | python/sagens/_websocket.py:50-69 | what ends a wait and how: close, unknown opcode, or finished data, which is a message exactly when its first frame says text |
| `WebSocketConnection.TextReassembled` | python/sagens/_websocket.py:50-69 | a text fragmented, masked and mixed with pings and pongs is returned exactly, leaving what follows |
| `WebSocketConnection.MessageReceived` | python/sagens/_websocket.py:50-69 | any complete run of frames is what one wait reads |
| `WebSocketConnection.CutStreamIsClosed` | python/sagens/_websocket.py:174-183 | a stream ending inside a frame is reported closed, nothing unfinished is returned |
| `WebSocketConnection.StandardIff` | python/sagens/_websocket.py:50-69 | of the messages that are accepted, those section 5.4 of RFC 6455 allows are exactly the ones whose later fragments all carry the continuation opcode and whose pings and pongs are not fragmented |
| `WebSocketConnection.LaxFragments` | python/sagens/_websocket.py:61-69 | two fragments that both carry the text opcode are accepted, against the standard |
| `WebSocketConnection.LaxPing` | python/sagens/_websocket.py:57-59 | a message with a ping that is not final is accepted and the ping answered, against the standard |
| `KernelCmdline.BootRoundTrip` | src/backend/libkrun/config.rs:52-105 | for every runner configuration, target and print branch, the guest boots with exactly the host's settings |
| `KernelCmdline.DevicesFound` | guest-agent/src/guest_agent/bootstrap.rs:73-92 | the workspace device is /dev/vdb; a cache device is found exactly when an image is set |
| `KernelCmdline.RootFor` | src/backend/libkrun/config.rs:52-105 | a guest boots from the shared root with the library's init exactly on Linux without firmware in the compatible mode, from a read-only disk otherwise |
| `KernelCmdline.OpenFilesFor` | src/backend/libkrun/config.rs:53-53 | the open-files limit is sixteen per process, never below 256 nor above 4096 |
| `KernelCmdline.FromCmdline` | guest-agent/src/guest_agent/linux_boot.rs:23-61 | on any line: the last token of each key counts, or the first token not accepted is reported |
| `KernelCmdline.ConfigByKey` | guest-agent/src/guest_agent/linux_boot.rs:23-61 | every setting is what its last token says or its default; any number but zero turns the network on |
| `KernelCmdline.LastCounts` | guest-agent/src/guest_agent/linux_boot.rs:37-60 | of several tokens for a key the last counts |
| `Text.SplitAtSpace` | guest-agent/src/guest_agent/linux_boot.rs:37-37 | text is split at every white-space character |
| `KernelCmdline.ParseToken` | guest-agent/src/guest_agent/linux_boot.rs:38-58 | a token changes the one setting it names |
| `KernelCmdline.OnePrefix` | guest-agent/src/guest_agent/linux_boot.rs:38-58 | no token can match two prefixes, so the order of the tests does not matter |
| `KernelCmdline.ParsePrint` | guest-agent/src/guest_agent/linux_boot.rs:63-72 | a printed number parses to itself exactly when in range |
| `KernelCmdline.ParsedIff` | guest-agent/src/guest_agent/linux_boot.rs:63-72 | a number is digits after at most one plus sign, and in range |
| `KernelCmdline.TransportNames` | guest-agent/src/guest_agent/linux_boot.rs:74-82 | the transport's name is read without regard to case or surrounding white space |
| `NodeTransport.Interleave` | node/src/transport.ts:78-209 | in any interleaving each consumer is given, in arrival order and once each, a beginning of what arrived for its shell less what was lost before its registration; nothing more is missing unless the shell exited or a failure came after the registration, and each such failure is told to the consumer or finds the exit already given |
| `NodeTransport.NothingLostIff` | node/src/transport.ts:166-209 | nothing is lost if and only if no failure came between an arrival for the shell and its registration |
| `NodeTransport.LostEvent` | node/src/transport.ts:197-209 | an event that arrives before a failure, for a shell registered after it, is lost, and the queue handed out is open and empty |
| `NodeTransport.Transport.RegisterShell` | node/src/transport.ts:78-87 | events that arrived before registration come first |
| `NodeTransport.Transport.PushShellEvent` | node/src/transport.ts:166-178 | to the shell's queue, closing it on exit, or kept until registration |
| `NodeTransport.Transport.FailAll` | node/src/transport.ts:197-209 | every open queue is told and keeps its events, nothing stays registered, and what was buffered for shells not registered yet is dropped |
| `NodeQueue.AsyncQueue.Push` | node/src/queue.ts:6-13 | the oldest waiting call gets the item, else it is queued |
| `NodeQueue.AsyncQueue.Fail` | node/src/queue.ts:15-21 | waiting calls are rejected, queued items stay |
| `NodeQueue.AsyncQueue.Next` | node/src/queue.ts:23-39 | items first, then the error, else it waits |
| `NodeQueue.AsyncQueue.Drain` | node/src/queue.ts:23-39 | after a failure, all queued items come out in order before the error |
| `Manifest.FromEntries` | shared/src/workspace/manifest.rs:32-40 | of entries with one path, the last counts |
| `Manifest.Diff` | shared/src/workspace/manifest.rs:46-86 | every differing path, no other, once each, in order, with the right kind |
| `Text.LessIff` | shared/src/workspace/manifest.rs:46-86 | paths and names are ordered by their first differing character |
| `Manifest.DiffUnique` | shared/src/workspace/manifest.rs:46-86 | two snapshots have one difference |
| `Manifest.EmptyIffEqual` | shared/src/workspace/manifest.rs:46-86 | empty exactly when the snapshots are equal |
| `Manifest.SwapMirrors` | shared/src/workspace/manifest.rs:46-86 | swapping keeps the paths and mirrors added and deleted |
| `Manifest.StepsCover` | shared/src/workspace/manifest.rs:46-86 | paths differing from first to last differ on one of the steps |

## Left out

* Identifiers: UUIDs are numbers, compared as their fixed-width hexadecimal text is; freshness is assumed of checkpoint, stream and forked-workspace ids, and drawn from a counter in the lifecycle model.
* File system: each call is one atomic step, and so is the making of a missing disk; JSON and base64 are inverse pairs; ext4, tar, HTTP and digests are opaque; `validate_persisted_id` is not modelled.
* `StubManager.Simulation`: compares workspaces, not BOX records, on runs that change files one at a time; for a BOX that does not exist the stub's maps answer blank where the service has no record.
* Shell output: the guest does not join it before the shell's exit, so no completeness is claimed for shells.
* Liveness, timeouts, reconnects and signals: only as nondeterministic failure; wires and channels are FIFO and lossless until they fail, and failure is sticky.
* Overlap of two service operations on one BOX: operations are atomic, and store writes succeed.
* `BoxService.LocalBoxService.CheckpointRestore`: checkpoints are known here by id and disk size; their content, links and head are the lineage model's.
* `BoxService.LocalBoxService.RemoveBox`: the removal of workspace files may be cut short before or after the disk.
* Record fields without influence on the lifecycle: names, images, timestamps and error texts.
* `Registry.AgentSandboxService.CreateSandbox`: restore commits, image resolution and error enrichment are one of its arbitrary failures.
* `Packages.LoadIndexes`: takes index blocks as lists of lines; fetching, unpacking and splitting the index text are left out, and so is the fixed list of wanted packages.
* `Packages.ResolvePackages`: takes maps keyed by package name, which is what the loaders build; the second copy of the resolver has the same contract and is not written out twice.
* `WebSocketConnection.Connection.RecvMessage`: endpoint parsing, TLS, the HTTP handshake and UTF-8 decoding are left out.
* `KernelCmdline.BootRoundTrip`: numbers are in the ranges of their Rust types; whatever else the boot loader adds to the line is not modelled.
* Node transport: requests, authentication and exec streams, which follow the same pattern as the Rust client's; a shell is registered once; shell ids are numbers.
* The API server's request dispatch and authorization, the CLI, cgroups, seccomp, landlock, libkrun, image building, signing and self-update.
