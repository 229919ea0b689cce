# agent-desktop: who may act, what ran, and what the caller is told

This project models the protocols at the core of agent-desktop and proves what they promise. Every module
verifies on its own inputs for every adapter behaviour, every interleaving, every clock and every crash point
it covers; nothing here executes the program.

- `LeaseProtocol`, `LeaseCode`: the interaction lease. An in-process flag and a lock on a file whose open
  description can be inherited, as a step protocol over threads, processes, descriptors and descriptions; then
  the acquire, adopt and release code of one thread against arbitrary interference.
- `FrameReader`: the command host's incremental bounded line reader and its request loop, proved equal to the
  reader that looks at the whole stream at once.
- `FrameWriter`: the bounded writer, with one absolute deadline per frame.
- `HostProtocol`, `ClientCode`, `HostCode`: electing and starting one host, taking over a stale socket, one request
  per connection, and the honesty of the delivery report; then the client's and the host's code as runs of it.
  `HostTrace` is the order in which that code may make its calls.
- `AtomicFile`: replacing a file through a temporary, under any interleaving of writers and crashes. `FileTrace` is
  the order of the calls of one write.
- `Utf16`, `AdapterModel`, `PostAction`, `RefAction`: execute once, verify from fresh observations, wait,
  preflight, scroll at most once, resolve again. The platform adapter is an oracle that records its calls.
- `BoundedJson`, `Batch`, `Overlay`: the batch loop, its byte budget and carried baselines, and the hide/show
  bracket around mutating commands, with the hide that a cancelled drag adds.
- `Deadlines`, `HostBudget`: the stack of inherited deadlines, and the host's checks against an absolute expiry.
- `Locator`: the recursive query matcher. `Comments`: the hand-written scanner for forbidden comments.
- `Common`: the option type, bytes and concatenation that the others share.

Concurrent code is stated in two layers. A protocol module defines `State`, `Step`, `Enabled` and `Apply`, an
inductive invariant, and theorems about every reachable state. A code module holds a class whose methods have
the shape of the source functions; each primitive performs one protocol step (`Perform` requires it to be
enabled), and between primitives `Interfere` stands for any number of steps of everybody else. What `Interfere`
promises is proved of every run of the others (`OthersDoNotDisturb`, `ClientRunOfOthers`, `HostRunOfOthers`).
Outcomes the model does not determine (I/O errors, validation, the clock, oracle answers) are nondeterministic
choices of the method that stands for the call, and that method records them: in `Adapter.log`, `Executor.events`,
`Input.log`, `BoundedWriter.answers`, or the `trace`, `run` and `told` of the other classes. The contracts of the code
tie each result to that record in both directions. A failure is reported only if the record ends with the call that
failed, a time-out only at its deadline, a success only if the record says so; and nothing is tried, skipped or
retried except where the record shows the reason.

Three findings about the code:

- The byte budget of a batch is checked against an entry without its separator. A whole entry may therefore
  leave the running total one byte over the output limit minus the reserve: `Batch.TotalCanExceedByOne` gives
  the entry, `Batch.TotalWithinReserveIff` the exact condition, `Batch.WholeEntryBound` the bound that does hold.
- A failed atomic write can leave its temporary in the directory; the destination is not affected. It does,
  without a crash, exactly when the new file did not pass validation (`crates/core/src/private_file.rs:192-195`
  has no cleanup) or when its removal failed (`crates/core/src/private_file.rs:94-97` ignores that) before the
  rename had used the name up: `AtomicFile.TemporaryRemainsIff`. `AtomicFile.InvalidTemporaryRemains` and
  `AtomicFile.UnremovedTemporaryRemains` reach such states.
- The hide/show bracket of a dispatch is not always balanced: a drag that the adapter refuses hides the cursor
  overlay of its session once more (`crates/core/src/commands/drag.rs:162-164`,
  `crates/core/src/cursor_overlay/submit.rs:108-120`) and nothing shows it again.
  `Overlay.CancelledDragLeavesAHideOpen` is the input. The calls are balanced exactly if no drag was cancelled
  (`Overlay.BracketIffNothingCancelled`), which a caller knows in advance exactly if the command contains no drag
  that may move the cursor in an enabled session (`Overlay.AlwaysBracketedIff`).

## Model

| member | source | states |
|---|---|---|
| LeaseProtocol.OneLeasePerProcess | crates/core/src/process_lease_guard.rs:12-44 | in every reachable state one thread per process at most is between taking the flag and releasing it, and the flag is set exactly while there is one, so no failed, timed-out or crashed acquisition leaves it set |
| LeaseProtocol.LiveLeasesShareOneDescription | crates/core/src/interaction_lease.rs:89-156 | live leases of any two processes are on one open file description, which holds the lock, and both processes descend from the one that opened it |
| LeaseProtocol.UnrelatedProcessesExclude | crates/core/src/interaction_lease.rs:89-102 | a lease on a description its own process opened excludes every process that does not descend from it |
| LeaseProtocol.NoOrphanLock | crates/core/src/file_lock.rs:50-127 | while the file lock is held some running process has a descriptor for it: no crash or timeout leaves it behind |
| LeaseProtocol.LockIsFreeAfterTheLastHolder | crates/core/src/file_lock.rs:89-127 | once no other descriptor of the lock file is open anywhere, a fresh open of it gets the lock |
| LeaseProtocol.CloseKeepsOthers | crates/core/src/interaction_lease.rs:9-16 | dropping the file of one lease never closes a descriptor another thread's lease owns |
| LeaseProtocol.StepInv | crates/core/src/interaction_lease.rs:89-156 | every step of every thread and process keeps ownership of descriptors, the flag as a mutex, the lock held by its holders, and descent by inheritance |
| LeaseProtocol.RunInv | crates/core/src/interaction_lease.rs:89-156 | so does every run from a single fresh process |
| LeaseCode.OthersDoNotDisturb | crates/core/src/interaction_lease.rs:89-156 | no run of other threads and processes changes a thread's phase, its descriptor's description, or which descriptions are the lock file's |
| LeaseCode.CountsAdd | crates/core/src/interaction_lease.rs:59-61 | the saturating sum of two contention counts is the count of all the lost attempts, so no split of them between flag and file is lost before 64 bits are full |
| LeaseCode.Machine.CompareExchange | crates/core/src/process_lease_guard.rs:13-33 | one attempt takes the flag, or is lost because a thread of the process has it |
| LeaseCode.Machine.AcquireFlag | crates/core/src/process_lease_guard.rs:13-33 | tries again after every lost attempt, pausing 1 ms or to the deadline, until the flag is taken; success is before the deadline, failure a timeout at or after it that leaves the thread outside; the reported contention is the number of attempts lost in the call |
| LeaseCode.Machine.TryLockFile | crates/core/src/file_lock.rs:89-127 | one attempt locks the open description, or changes nothing, and is lost only while another description holds the lock |
| LeaseCode.Machine.LockFile | crates/core/src/file_lock.rs:89-127 | a lost attempt leads only to a pause of 10 ms or to the deadline and another attempt, or to a timeout at the deadline; Io is reported exactly if the last attempt failed, a lock exactly if it was obtained and the deadline had not passed; every failure has closed the file; the contention is the number of attempts lost in the call |
| LeaseCode.Machine.AcquireLease | crates/core/src/interaction_lease.rs:89-102 | flag, directory, file and lock in that order, each only after the one before was answered well; Io exactly if the last call failed, a live lease exactly if the lock was obtained before the deadline, with the contention of both locks; every failure leaves a thread holding neither lock |
| LeaseCode.Machine.LockThenPublish | crates/core/src/interaction_lease.rs:53-69 | the lease is on the description that was opened or adopted and carries the attempts lost on the flag and on the file; it fails for the reason the lock loop gives, after releasing file then flag |
| LeaseCode.Machine.AdoptLease | crates/core/src/interaction_lease.rs:134-156 | flag, directory, duplicate, seal, metadata, comparison and lock in that order; the refusal by identity exactly for another file, Io exactly for another call that failed; an adopted lease is on a description of the canonical lock file and holds its lock |
| LeaseCode.Machine.CheckDuplicate | crates/core/src/file_lock.rs:50-86 | a duplicate is kept only for the canonical file, the refusal by identity is given exactly if the comparison failed and only for another file, Io exactly for a failed call; a refused one is closed without locking |
| LeaseCode.Machine.ReleaseLease | crates/core/src/interaction_lease.rs:9-16 | dropping a lease drops the file before the process flag and ends outside |
| FrameReader.FrameShape | src/command_host.rs:125-143 | the reference frame is a prefix of at most limit + 1 bytes with no newline before its end, stopping at a newline, the bound or the end of the stream |
| FrameReader.FrameUnique | src/command_host.rs:125-143 | that shape determines the frame |
| FrameReader.Input.ReadFrame | src/command_host_input.rs:5-41 | for every chunking, a successful read is the reference frame and leaves exactly the bytes after it; a failed one has read no frame end; every wait and fill began within the idle budget of the call, or, once bytes had come, within the frame budget of the first of them; a time-out is reported exactly when a look found that budget used up, and another failure exactly for a failed wait or fill |
| FrameReader.Input.AwaitBytes | src/command_host_input.rs:13-23 | bytes, the end of the stream, or the failure that the last look shows, with nothing consumed |
| FrameReader.Input.NextBytes | src/command_host_input.rs:13-28 | the frame budget starts with the first bytes and is never started again |
| FrameReader.Input.TakeLinePart | src/command_host_input.rs:30-39 | one round moves bytes without losing any and ends the read exactly with the reference frame |
| FrameReader.Input.WaitReady | src/command_host_input.rs:43-70 | a time-out is reported only at the deadline |
| FrameReader.RequestsTile | src/command_host.rs:145-190 | the dispatched requests are complete in-limit lines that tile a prefix of the stream, and what follows has no newline within the limit |
| FrameReader.RequestsUnique | src/command_host.rs:145-190 | they are the only such list |
| FrameReader.Server.Respond | src/command_host.rs:163-188 | a frame is executed exactly if it is a complete line within the limit, and one reply is written either way |
| FrameReader.Server.ServeOne | src/command_host.rs:150-189 | one read executes at most the next request of the stream; input that ended or failed executes nothing |
| FrameReader.Server.ServeFrames | src/command_host.rs:145-190 | at end of input the executed requests are exactly those of the stream, or the first one on a single-request connection; on an error they are a prefix; replies match executions up to the last frame; the input fails only for the reason of its last read, the output only if the last reply begun was not flushed |
| FrameWriter.BoundedWriter.Attempt | src/command_host_output.rs:36-52 | the first attempt of a frame fixes its deadline and later ones keep it; every call is made before it; exactly a blocked or interrupted call is tried again, a blocked one after a poll; Io exactly for a failed call or poll, a result exactly for a call that gave one, a time-out only at the deadline |
| FrameWriter.BoundedWriter.Flush | src/command_host_output.rs:60-64 | only a successful flush clears the deadline |
| FrameWriter.BoundedWriter.WriteAll | src/command_host_output.rs:55-58 | the descriptor receives a prefix of the frame, all of it on success, within one time-out of the first attempt; a failure is that of the last answer |
| FrameWriter.BoundedWriter.WriteFrame | src/command_host_client.rs:63-68 | the same with the flush: success leaves the next frame a fresh budget, failure keeps the old deadline and is that of the last answer |
| HostProtocol.OneListener | src/command_host_socket.rs:9-40 | in every interleaving at most one host listens, it holds the owner lock, and the path names its socket |
| HostProtocol.UnlinkIsSafe | src/command_host_socket.rs:16-19 | a host that unlinks or binds the path does so while no host listens, and its bind finds the path free |
| HostProtocol.TakeOverAlwaysPossible | src/command_host_socket.rs:9-19 | whatever a dead owner left at the path, the next owner can become its listener by its own steps |
| HostProtocol.OneStarter | src/command_host_client.rs:108-166 | one client at a time is between its second connect check and the end of its startup attempt; it gives up only before it started a child or when that child is gone |
| HostProtocol.ChildIsNotForgotten | src/command_host_client.rs:130-166 | a starter leaves its child only by connecting, by killing it first, or by crashing |
| HostProtocol.RequestIsWholePayload | src/command_host_client.rs:38-44 | a prefix of a request that reads as a request is all of it, so a torn write is never dispatched |
| HostProtocol.AtMostOnce | src/command_host_socket.rs:50-85 | every forwarded command is executed at most once, and only from its complete frame |
| HostProtocol.HonestOutcome | src/command_host_client.rs:9-55 | not delivered, a failure before connecting, and a reply built before dispatch each mean the command did not run; a reply of the command means it did; so an executed command is pending, uncertain, replied, or its client is dead |
| HostProtocol.OutcomeIsFinal | src/command_host_client.rs:9-55 | a reported outcome holds for the whole future: a command reported not delivered is never executed later |
| HostProtocol.ExchangeFailsUncertain | src/command_host_client.rs:48-54 | once the exchange has begun, its only failure is uncertain |
| HostProtocol.LogGrows | src/command_host_request.rs:15-23 | only the dispatch of a prepared request adds to what was executed, and only a command that is not there yet |
| HostProtocol.StepInv | src/command_host_socket.rs:9-40 | every step of every client and host keeps the two locks, the path, the connections, the log and the outcomes consistent |
| HostProtocol.RunInv | src/command_host_socket.rs:9-40 | so does every run from no client and no live host, with or without a stale socket |
| ClientCode.ClientRunOfOthers | src/command_host_client.rs:9-88 | no run of the others changes a client's record or its end of the connection |
| HostCode.HostRunOfOthers | src/command_host_socket.rs:9-85 | no run of the others moves a host or the stage of the connection it serves, short of its parent killing it, and none revives a finished connection |
| ClientCode.Machine.TryConnect | src/command_host_client.rs:90-106 | a stream, an error exactly for a failed call or the deadline, or no listener; a connection made and then dropped stays at the host closed and empty |
| ClientCode.Machine.ConnectOrStart | src/command_host_client.rs:108-166 | a connection exactly after a connect that succeeded, or the failure of the last call before the exchange, after which a child that was spawned is gone |
| ClientCode.Machine.ConnectUnderLock | src/command_host_client.rs:122-166 | the second connect under the start lock comes before anything is spawned |
| HostTrace.SpawnFollowsTwoConnects | src/command_host_client.rs:114-139 | in every run a host is spawned only after two connects that found no listener, the second one under the start lock |
| ClientCode.Machine.StartHost | src/command_host_client.rs:125-166 | a connection through the spawned child, or the child is gone |
| ClientCode.Machine.AcquireStartLock | src/command_host_client.rs:117-121 | tries again every 10 ms until the deadline; the start lock before it, or the failed call or the deadline |
| ClientCode.Machine.AwaitChild | src/command_host_client.rs:139-160 | a connection, or the child still to be killed because it exited, the deadline passed or a connect failed |
| ClientCode.Machine.Forward | src/command_host_client.rs:9-55 | the client ends in exactly one outcome, honest about execution; which one follows from its last call: unmarked if the request could not be built, not delivered for a failure before the exchange, uncertain for one in it, and a complete valid reply is always returned |
| ClientCode.Machine.ForwardSteps | src/command_host_client.rs:9-55 | every path is a run of the protocol and of the calls in their order, with the budget looked at before connecting and again before the exchange, ending in the outcome its last call calls for |
| ClientCode.Machine.ExchangeSteps | src/command_host_client.rs:57-88 | after the exchange has begun the outcome is the reply if it arrives complete and valid, and uncertain exactly otherwise |
| ClientCode.Machine.WriteRequest | src/command_host_client.rs:66-68 | a successful write has sent the whole payload, in any number of pieces |
| HostCode.Machine.RunHost | src/command_host_socket.rs:9-40 | a run of the protocol from ownership to exit; each connection is served at most once, every dispatched one is in the log; how it ends follows from its last call, and it ends idle only a whole idle time-out after the wait that followed the last served connection began |
| HostCode.Machine.ServeUntilIdle | src/command_host_socket.rs:22-40 | the accept loop serves one connection after the other and goes idle only when none came for the whole time-out |
| HostCode.Machine.AcquireOwnerLock | src/command_host_socket.rs:11-15 | tries again every 10 ms for one second; the owner lock before the deadline, or the failed call or the deadline |
| HostCode.Machine.BecomeListener | src/command_host_socket.rs:9-21 | success listens on the path; a failure is that of the last call before |
| HostCode.Machine.ClearAndBind | src/command_host_socket.rs:16-19 | the owner removes what is at the path and binds its own socket |
| HostCode.Machine.BindPath | src/command_host_socket.rs:19-19 | the owner always finds the path free |
| HostCode.Machine.ServeConnection | src/command_host_socket.rs:50-85 | after one connection the host listens again; a dispatched command is in the log and its reply is written; a flushed reply without dispatch means that it is not; nothing is answered only if no frame came |
| HostCode.Machine.ReadAndDispatch | src/command_host.rs:150-189 | an unusable frame is answered without dispatch, a request is dispatched unless a check fails, and no frame leads to no answer |
| HostCode.Machine.PrepareAndExecute | src/command_host_request.rs:15-50 | every check comes before the command body; a failed one is answered without calling it, and otherwise it is called |
| AtomicFile.DestinationIsOldOrWhole | crates/core/src/private_file.rs:72-99 | in every reachable state the destination has its original contents or the complete bytes of one writer |
| AtomicFile.CrashRecovers | crates/core/src/private_file.rs:72-99 | after a crash at any step the destination recovers to such contents, never older than the last synced directory |
| AtomicFile.OkIsDurable | crates/core/src/private_file.rs:72-99 | after Ok the destination has that writer's bytes or those of one that renamed after it, in every later state |
| AtomicFile.SingleWriterOk | crates/core/src/private_file.rs:72-99 | for a single writer Ok means its bytes are there, and after every crash |
| AtomicFile.SuccessStays | crates/core/src/private_file.rs:72-99 | a success and the position of its rename never change |
| AtomicFile.PrivateFileStays | crates/core/src/private_file.rs:177-205 | nobody else touches the file of a writer that has not renamed it |
| AtomicFile.TemporaryRemainsIff | crates/core/src/private_file.rs:84-98 | without a crash a failed write leaves its temporary behind exactly if the new file was not valid or its removal failed before the rename had used the name up; after a crash, never otherwise |
| AtomicFile.SuccessLeavesNothing | crates/core/src/private_file.rs:84-98 | a write told Ok leaves no temporary |
| AtomicFile.InvalidTemporaryRemains | crates/core/src/private_file.rs:177-205 | from every first state a write reaches a failure with its invalid new file left and the destination as it was |
| AtomicFile.UnremovedTemporaryRemains | crates/core/src/private_file.rs:94-97 | and one whose temporary could not be removed, which nobody reports |
| AtomicFile.StepInv | crates/core/src/private_file.rs:72-99 | every step of every writer, and every crash, keeps the invariant |
| AtomicFile.OthersDoNotDisturb | crates/core/src/private_file.rs:72-99 | no run of other writers changes a writer's own file or name |
| FileTrace.SuccessOrder | crates/core/src/private_file.rs:84-93 | a write is a success only after its data was synced, the rename done, the destination checked again and the directory synced, in that order |
| AtomicFile.Machine.CreateTemporaryFile | crates/core/src/private_file.rs:177-205 | a fresh private temporary; a new file that is not valid, which stays there; a refused open; or 32 names that all existed; only an existing name is tried again |
| AtomicFile.Machine.WriteAndSync | crates/core/src/private_file.rs:85-87 | success means all bytes are in the temporary and synced; failure, that a write or the sync was refused |
| AtomicFile.Machine.Replace | crates/core/src/private_file.rs:84-98 | Ok only after the directory sync; the temporary name remains exactly when the write failed before the rename and the removal failed too |
| AtomicFile.Machine.RenameAndSettle | crates/core/src/private_file.rs:88-92 | Ok exactly after rename, check and directory sync; a failure means that one of them was refused |
| AtomicFile.Machine.Abandon | crates/core/src/private_file.rs:94-97 | the removal ends the write whether or not it works, and the name remains exactly if it failed before the rename |
| AtomicFile.Machine.WriteAtomic | crates/core/src/private_file.rs:72-99 | every path ends in success or failure with the destination old or whole; success exactly if the directory sync succeeded, and the ending of a failure is what its last call calls for; a success leaves no temporary, a failure leaves one exactly as its ending says |
| Utf16.DecodeEncode | crates/core/src/post_action.rs:178-190 | decoding undoes encoding |
| Utf16.EncodeDecode | crates/core/src/post_action.rs:178-190 | encoding undoes every successful decoding |
| Utf16.EncodeInjective | crates/core/src/post_action.rs:178-190 | texts with the same units are the same, so comparing values compares what was encoded |
| Utf16.CutDecodes | crates/core/src/post_action.rs:186-187 | encoded text cut anywhere decodes on the left, and on the right, exactly when the cut is a scalar boundary (section 3.9 of the Unicode Standard) |
| Utf16.SpliceDecodes | crates/core/src/post_action.rs:188-189 | splicing between two boundaries decodes to prefix, inserted text and suffix |
| Utf16.ExpectedInsertion | crates/core/src/post_action.rs:178-190 | a value exactly when the range is in bounds with both ends on scalar boundaries, a missing range counting as empty for empty text only; it is prefix + text + suffix |
| PostAction.Expect | crates/core/src/post_action.rs:18-31 | exactly which reads precede execution, and the expectation they justify |
| PostAction.Settle | crates/core/src/post_action.rs:39-51 | one read and at most seven more; reads and sleeps alternate, a sleep only after a read that contradicts a reported success and with more than 50 ms left in the 400 ms window and in the deadline; no giving up on a contradiction before that budget is spent |
| PostAction.Assemble | crates/core/src/post_action.rs:52-113 | the value or error built from the adapter's answer and the observation carries the disposition those call for |
| PostAction.ExecuteVerifiedAction | crates/core/src/post_action.rs:7-113 | for every adapter the action is executed exactly once, as requested; without readback its answer is returned; otherwise the result is the one that this answer and the last observation after it call for |
| PostAction.ReportIsHonest | crates/core/src/post_action.rs:192-220 | the report says not delivered exactly when the adapter did; a verified success needs a match, and a mismatch is never a success |
| PostAction.StatefulRunIsHonest | crates/core/src/post_action.rs:7-113 | for every recorded run: verified success implies a matching observation taken after the execution |
| PostAction.ExpansionIsObserved | crates/core/src/post_action.rs:158-161 | expanding is confirmed exactly by a complete observation of an expanded node and is an error exactly for a collapsed one, collapsing the other way round; an incomplete one decides neither |
| PostAction.CheckIsObserved | crates/core/src/post_action.rs:151-153 | the same for checking and unchecking, where an indeterminate box decides neither |
| PostAction.ToggleIsObserved | crates/core/src/post_action.rs:154-157 | toggling is confirmed exactly by a change between the read before and the last read after, both complete and determinate, and is an error exactly if nothing changed |
| PostAction.ValueIsObserved | crates/core/src/post_action.rs:143-147 | writing a value is confirmed exactly by reading it back, for a numeric role up to the numeric comparison, clearing by an empty value; a value that cannot be read decides neither |
| PostAction.TypingIsObserved | crates/core/src/post_action.rs:148-150 | typing is confirmed exactly by reading the text from before with the selection replaced, contradicted by any other text, and undecided without a value or without a range on scalar boundaries |
| PostAction.ReadBackIffDecidable | crates/core/src/post_action.rs:135-164 | the actions that are read back are exactly those whose postcondition some observation can meet, and some can miss |
| RefAction.StabilitySampler.Observe | crates/core/src/actionability/stability_sampler.rs:23-41 | true exactly when the last run of matching bounds has three samples and spans 34 ms |
| RefAction.LastRunUnique | crates/core/src/actionability/stability_sampler.rs:23-41 | the last run of a sample sequence is determined by the samples |
| RefAction.GeometryMeans | crates/core/src/actionability/stability_sampler.rs:56-65 | two readings match exactly if no coordinate or extent differs by more than half a point |
| RefAction.PendingMeans | crates/core/src/ref_action.rs:225-247 | a refusal leaves only stability pending exactly if some check has not passed and none but the stability check has not |
| RefAction.StablePreflight | crates/core/src/ref_action.rs:225-269 | passes only with a check that allows execution, fails only with the failure of its last call, and makes the strict check exactly when the bounds sampled in that call have settled |
| RefAction.SampleUntilStable | crates/core/src/ref_action.rs:248-268 | samples and pauses alternate; ends with the strict check as soon as the bounds have settled, with a failed read, or at the deadline with bounds that have not settled |
| RefAction.PauseSampling | crates/core/src/ref_action.rs:263-267 | a pause follows only bounds that have not settled and lasts one interval or what is left, unless the deadline has passed |
| RefAction.DispatchResolved | crates/core/src/ref_action.rs:54-139 | every run has one of eight shapes, each with its exact events and its exact result; a dispatched run returns the verified action's own report, except that a success whose completion could not be traced is that trace error, still delivered |
| RefAction.ScrollOrFail | crates/core/src/ref_action.rs:82-98 | a failed preflight ends the run, or is answered by one scroll and one retry |
| RefAction.RetryAfterScroll | crates/core/src/ref_action.rs:87-98 | after the scroll, a fresh resolve and a fresh preflight, whose failures are marked |
| RefAction.ExecuteReady | crates/core/src/ref_action.rs:100-138 | executes once on the ready handle, headless if delivery is semantic, unless the start could not be traced |
| RefAction.ExecuteAndTrace | crates/core/src/ref_action.rs:119-138 | one execution; its own report is returned unless it is a success and the last event is a refused trace, and then exactly that error as delivered but unverified |
| RefAction.EventsOf | crates/core/src/ref_action.rs:54-139 | where the scroll and the execution of a run are, and that nothing else in it scrolls or executes |
| RefAction.AtMostOneEach | crates/core/src/ref_action.rs:54-139 | at most one scroll and at most one execute per run |
| RefAction.ExecutionFollowsItsCheck | crates/core/src/ref_action.rs:79-119 | execution uses the latest resolved handle right after its last check passed; when stability is required and delivery is not semantic, that is the strict check, and the samples before it had settled |
| RefAction.ScrollAnswersInvisibility | crates/core/src/ref_action.rs:82-94 | a scroll happens only for an action that may scroll after a failed visibility check, and is followed by a fresh resolve or ends the run |
| RefAction.FailuresAfterScrollAreMarked | crates/core/src/ref_action_wait_support.rs:111-123 | every resolve or preflight failure after the scroll is the failure of the last call, mentions the scroll, and no longer claims that nothing was delivered |
| RefAction.NotDeliveredIsHonest | crates/core/src/ref_action.rs:54-139 | a report of not delivered means nothing was executed or the adapter itself said so |
| RefAction.PollState.RecordPreflight | crates/core/src/ref_action_poll_state.rs:20-29 | after any history of failures the flags summarize it: incomplete reads are blamed exactly if there were failures and all of them were refused checks of that kind |
| RefAction.PollState.RecordResolve | crates/core/src/ref_action_poll_state.rs:31-39 | the same after a resolve failure, with ambiguity remembered exactly if some recorded failure was one |
| RefAction.PollState.Timeout | crates/core/src/ref_action_poll.rs:137-190 | the deadline error is not delivered, and blames the tool exactly when failures were recorded and every one was an incomplete read |
| RefAction.ExecutePollLoop | crates/core/src/ref_action_poll.rs:26-64 | never dispatches; each attempt resolves and checks what it resolved, and a pause follows only a failure that is to be waited out; ready exactly if the last check passed or is curable and the deadline has not passed; for good exactly at a failure that retrying cannot help; otherwise at the deadline, with the error that the failures of this wait call for, all of them counted except at most the attempt that the deadline cut off |
| RefAction.PollOnce | crates/core/src/ref_action_poll.rs:32-63 | one round: ready, final, at the deadline, or its failure added to the record and time passed |
| RefAction.ResolveAndCheck | crates/core/src/ref_action_poll.rs:32-61 | what one resolve and the check of its handle leave: ready, final, at the deadline, or exactly their failure added to the record |
| RefAction.ResolveIsWaitedOutIff | crates/core/src/ref_action_poll.rs:88-102 | which resolve failures are waited out: those that ask for a retry of a reference that may come back, and an attempt's time-out that forbids none and delivered nothing |
| RefAction.RefusalFate | crates/core/src/ref_action_poll.rs:48-74 | a refused check goes on to dispatch, ends the wait or is waited out, exactly one of the three, by its checks, its code and its retry hint |
| RefAction.HandleResolveFailure | crates/core/src/ref_action_poll.rs:88-102 | a resolve failure is final unless it can be retried, and otherwise recorded and waited out |
| RefAction.CheckResolved | crates/core/src/ref_action_poll.rs:44-61 | a passed check, or a refusal that focusing or scrolling can cure, ends the wait at once, ready unless the deadline has passed; any other refusal is handled as such |
| RefAction.HandleRefusal | crates/core/src/ref_action_poll.rs:66-86 | any other refusal is final if permanent, and otherwise recorded and waited out |
| RefAction.PauseOrTimeOut | crates/core/src/ref_action_poll.rs:104-119 | time passes before another round, or the deadline has |
| RefAction.Prepare | crates/core/src/ref_action_wait.rs:78-95 | the wait, the lease and the focus come in that order, each only if it is asked for and the one before succeeded; a lease granted at or past the deadline is given up; the result is that of the last of them, and none of them scrolls or executes |
| RefAction.ExecuteWithAutoWait | crates/core/src/ref_action_wait.rs:59-115 | nothing is scrolled or executed before the preparation succeeded, and everything after it is one dispatch run |
| BoundedJson.CountingWriter.Write | src/batch/bounded_json.rs:27-33 | a chunk is accepted whole exactly when it fits |
| BoundedJson.Serialize | src/batch/bounded_json.rs:11-13 | succeeds exactly when the total fits, for every chunking |
| BoundedJson.SerializedSize | src/batch/bounded_json.rs:5-9 | the total length if it is representable; otherwise the length where counting stopped |
| BoundedJson.SerializedFits | src/batch/bounded_json.rs:11-13 | holds exactly when the total length is within the limit |
| BoundedJson.FitsAgreesWithSize | src/batch/bounded_json.rs:5-13 | testing one chunking agrees with measuring any other of the same bytes |
| Batch.TotalIsArrayLengthLessOne | src/batch/execution.rs:242-245 | the running total is one less than the serialized length of a non-empty result array |
| Batch.WholeEntryBound | src/batch/result_entry.rs:18-24 | an entry kept whole leaves the total at most one over the limit minus the reserve |
| Batch.TotalCanExceedByOne | src/batch/result_entry.rs:18-24 | that one byte is real: an entry that exactly fills what is left is kept |
| Batch.TotalWithinReserveIff | src/batch/result_entry.rs:18-24 | for an entry that fits, the total stays within the limit minus the reserve exactly when it leaves room for its separator |
| Batch.BoundedEntry | src/batch/result_entry.rs:12-39 | whole exactly if it fits; otherwise a failed stub that keeps the disposition, or uncertain without one |
| Batch.Executor.PushSkipped | src/batch/execution.rs:33-58 | a skipped entry stands at its position as not started and not delivered |
| Batch.Executor.RunEntry | src/batch/execution.rs:96-106 | one dispatch with the carried baseline, its result reported whole or as a stub, counted once |
| Batch.Executor.CaptureForNext | src/batch/execution.rs:60-94 | a baseline is captured before dispatch exactly if the next entry waits for an event; failing to blocks this entry |
| Batch.Executor.Iterate | src/batch/execution.rs:32-58 | one iteration adds one round, its events and its entry, and stops exactly for the reason that round gives |
| Batch.Executor.CaptureAndRun | src/batch/execution.rs:60-119 | capture, dispatch, then the tests for oversize, error and deadline in that order, the clock being read only for the last |
| Batch.Executor.Execute | src/batch/execution.rs:15-165 | every round is the one its clock readings, its session and its capture call for, reported at its position; the results are a prefix of the entries; each of the five exits, and running to the end, is told apart by the last entry; no earlier entry would have ended the batch; an oversized body is uncertain exactly if anything ran |
| Batch.DispatchedOnceInOrder | src/batch/execution.rs:32-120 | entry i is at position i, the completed entries are exactly the dispatched ones, and entries are dispatched at most once and in order |
| Batch.DeadlineIsKept | src/batch/execution.rs:32-119 | before every dispatch the clock was read in the same round and had not reached the deadline; after it the clock is read again unless size or error ended the batch, and a reading at or past the deadline ends the batch if another entry is left |
| Batch.DeadlineExitIsReal | src/batch/execution.rs:32-119 | a batch that stops for its deadline has just read a clock at or past it |
| Batch.BaselinePrecedesAction | src/batch/execution.rs:44-100 | an entry is handed a baseline exactly if it waits for an event and its predecessor was dispatched; that baseline was captured right before the predecessor ran |
| Overlay.Adapter.Dispatch | src/dispatch/mod.rs:27-118 | the run is the one that the answers of adapter and program describe; its overlay calls are those of that run, whatever fails inside, and it succeeds exactly if that run does |
| Overlay.Adapter.Execute | src/batch/execution.rs:96-119 | a plain command, a drag or a batch, with exactly the calls its answers call for |
| Overlay.Adapter.ExecuteBatch | src/batch/execution.rs:96-119 | a batch dispatches its items in order, with any nesting and mix of sessions, and its calls are theirs in order, wherever it stops |
| Overlay.Adapter.ExecuteDrag | crates/core/src/commands/drag.rs:145-164 | a drag whose policy allows it and whose targets resolve is sent to the adapter; it makes one overlay call, a hide of its enabled session, exactly if the adapter refused it and the cleanup had a deadline |
| Overlay.Adapter.CancelDrag | crates/core/src/cursor_overlay/submit.rs:108-120 | one hide, if the cleanup has a deadline and the session is enabled |
| Overlay.BracketIffNothingCancelled | crates/core/src/commands/drag.rs:145-164 | the calls of a run, of any nesting, are a bracket word exactly if no drag in it was cancelled |
| Overlay.SurplusHidesAreCancelledDrags | crates/core/src/cursor_overlay/submit.rs:108-120 | whatever was cancelled, no session's shows outrun its hides, and the hides left open are as many as its cancelled drags |
| Overlay.CancelledDragLeavesAHideOpen | crates/core/src/commands/drag.rs:162-164 | a headed drag refused in an enabled session leaves one hide open |
| Overlay.AlwaysBracketedIff | src/dispatch/mod.rs:27-118 | every run of a command is a bracket word exactly if it contains no drag that may move the cursor in an enabled session |
| Overlay.OuterPairSurvives | src/dispatch/mod.rs:34-117 | exactly a mutating command in a headed context with an enabled session gets the bracket: its hide first and its show last, also around a cancelled drag |
| Overlay.PlainCalls | src/dispatch/mod.rs:34-117 | a command that is no drag and holds no batch makes the two calls of its own bracket, or none |
| Overlay.SessionsBalance | src/dispatch/mod.rs:34-117 | in a bracket word no session's shows outrun its hides and none is left open |
| Deadlines.CeilMsBounds | crates/core/src/deadline.rs:57-67 | rounding up to whole milliseconds overshoots by less than one |
| Deadlines.EffectiveIsMinimum | crates/core/src/deadline.rs:187-198 | the inherited deadline is the minimum over all live scopes that brought one |
| Deadlines.ThreadDeadlines.EnterScope | crates/core/src/deadline.rs:187-198 | pushes a scope on the stack and remembers the value before it |
| Deadlines.ThreadDeadlines.DropScope | crates/core/src/deadline.rs:181-185 | dropping the innermost scope restores the earlier value and the earlier stack |
| Deadlines.ThreadDeadlines.Bounded | crates/core/src/deadline.rs:167-173 | no live scope ends before the result, which is otherwise the given deadline |
| Deadlines.ThreadDeadlines.DetachedAfter | crates/core/src/deadline.rs:35-51 | succeeds exactly within the maximum wait and the clock's range, ignoring all scopes |
| Deadlines.ThreadDeadlines.After | crates/core/src/deadline.rs:23-33 | the same, and within every live scope |
| Deadlines.ThreadDeadlines.At | crates/core/src/deadline.rs:69-89 | the same from a given start |
| Deadlines.ThreadDeadlines.FromDuration | crates/core/src/deadline.rs:57-67 | rounds up: at least the duration if nothing is inherited, less than a millisecond more, and otherwise the inherited end |
| Deadlines.ThreadDeadlines.ExtendedBy | crates/core/src/deadline.rs:117-130 | an extension never passes a live scope |
| Deadlines.ThreadDeadlines.Capped | crates/core/src/deadline.rs:104-115 | a cap never extends, and is flagged exactly when it shortens |
| Deadlines.ThreadDeadlines.RemainingMs | crates/core/src/deadline.rs:136-145 | zero exactly when expired, otherwise what is left rounded up, and the largest count only if that much is left |
| Deadlines.ThreadDeadlines.RunAll | crates/core/src/deadline.rs:22-198 | every well-nested run restores the inherited deadline; every deadline made in it is the earliest of what was asked for and the ends of all scopes live where it was made, those entered in the run included, and is refused only if it is too long |
| HostBudget.QueueTimeIsNotRefunded | src/command_host_budget.rs:4-28 | of a budget exactly the part not yet elapsed is left, and nothing at or after the expiry |
| HostBudget.RefusedForTheFirst | src/command_host_request.rs:25-50 | a request is refused before the clock is read exactly if one of six checks fails, and for the first of those that fail |
| HostBudget.HostProcess.Prepare | src/command_host_request.rs:25-50 | refusals come in the source's order and before the one effect; expired exactly at or after the expiry, too long exactly if what is left cannot be a deadline, the directory exactly if entering it failed; the deadline overshoots the expiry by less than a millisecond plus the clock advance between the two reads |
| Locator.SubtreeContainsIsDescendant | crates/core/src/locator.rs:172-176 | `has` looks at exactly the strict descendants |
| Locator.HasTextIsSomewhere | crates/core/src/locator.rs:143-155 | text is found exactly when the node or some descendant has it |
| Locator.MatchMeans | crates/core/src/locator.rs:71-108 | a query matches exactly if the node itself does, its text is at or below it, `has` is matched by some strict descendant and `has_not` by none |
| Locator.OwnMeans | crates/core/src/locator.rs:71-100 | the node itself matches exactly if every field that is asked for does and every state is present unless it is expected to be absent; its text is its name, description and value |
| Locator.PositiveIsMonotone | crates/core/src/locator.rs:71-108 | without `has_not`, a match survives adding descendants anywhere |
| Locator.NegativeIsAntitone | crates/core/src/locator.rs:71-108 | under one `has_not` a match survives removing them |
| Locator.MixedIsNeither | crates/core/src/locator.rs:71-108 | with both, neither direction holds: a match gained by one added child is lost by another |
| Locator.AddingAChildGrows | crates/core/src/locator.rs:71-176 | inserting a child is growth in the sense of those two |
| Locator.InsertingAnywhereGrows | crates/core/src/locator.rs:71-176 | so is inserting one under any node of the tree |
| Locator.GrowsTransitive | crates/core/src/locator.rs:71-176 | and so is any number of insertions |
| Locator.ValidateStates | crates/core/src/locator.rs:35-52 | accepts exactly the queries whose state tokens, at any depth, are all known, and otherwise names one that is not |
| Comments.FindIsFirst | scripts/check_rust_comments.py:20-22 | the search finds the first occurrence, or there is none |
| Comments.RawStringEnd | scripts/check_rust_comments.py:7-22 | a raw string ends past the first quote followed by as many hashes as opened it, or at the end of the text |
| Comments.QuotedStringEnd | scripts/check_rust_comments.py:25-44 | a quoted string ends past the first quote after an even number of backslashes |
| Comments.BlockCommentEnd | scripts/check_rust_comments.py:47-59 | the depth counter stops where a recursive reader of nested comments does |
| Comments.BlockEndIsFirstReturn | scripts/check_rust_comments.py:47-59 | that is the first position where the balance of marks is back at zero, or the end of the text |
| Comments.BodyIsNested | scripts/check_rust_comments.py:47-59 | a comment that closes is well nested: its text parses into characters and nested comments |
| Comments.TokensTile | scripts/check_rust_comments.py:62-106 | the tokens cover the text without gap or overlap, each strictly advancing |
| Comments.TilingIsUnique | scripts/check_rust_comments.py:62-106 | no other cut of the text agrees with what the text says at each cut |
| Comments.CodeAfterString | scripts/check_rust_comments.py:71-79 | after a string the flag says whether visible code is on its last line |
| Comments.CodeAfterOther | scripts/check_rust_comments.py:80-105 | and after everything else likewise |
| Comments.ForbiddenComments | scripts/check_rust_comments.py:62-106 | reports, in order, exactly the comments that are not documentation, each with one plus the newlines before it and with whether visible code precedes it on its line |
| Comments.FindingsAreOutsideStrings | scripts/check_rust_comments.py:68-94 | no finding starts inside a recognised string |

## Left out

- Platform adapters, accessibility calls, hit testing, screenshots, overlays on screen: the adapter is an oracle with a recorded log.
- Which connections arrive at a host, and how many, is arbitrary.
- Sockets, `poll`, `fcntl`, permission bits, owner and file-system checks: each is the step it contributes or a nondeterministic failure.
- Creating a process is one step; the gap between fork and exec, and descriptors opened in it, are not modelled.
- Removal of the socket path, the lock files or the temporaries by programs outside the protocol.
- Fresh temporary names are assumed: a name once used is never generated again, even after a crash.
- A removed temporary that reappears because a crash came before the next directory sync is not modelled.
- Windows, where directory sync does nothing, is not covered by `AtomicFile`.
- One monotone clock stands for `Instant` and the raw monotonic clock; attempt counters and log lines are not stated.
- JSON parsing, the argument parser and the shape of responses: a request is its checks, an entry is its bytes and what the loop reads from it.
- The table of per-command budgets and the tables of action requirements are parameters (`Primary`, `Request`).
- Element bounds are `real`; NaN and infinite coordinates are not modelled.
- Errors carry the code, disposition, retry hint and evidence that decisions use; messages, suggestions and other details are left out.
- Trace capture and its deadline (`pre_trace_capture_deadline`), surface listing and presentation effects around a dispatch.
- Scopes dropped out of order: `Deadlines` covers well-nested runs.
- `from_execution` and `delivery_summary`, `collect_nodes` and `strip_bounds`, the HTTP completion test, `app_name_matches`, option parsing, nearest-rank percentile, the viewer filters, PNG dimensions and bounded reads: smaller functions whose properties would only add easy members.
- FrameReader.Input.WaitReady: whether the poll fails is the kernel's choice; the contract says when its time-out is one.
- ClientCode.Machine.ConnectOrStart: a kill of the client's own child that fails, which the code ignores (`src/command_host_client.rs:161-164`), is not modelled.
- ClientCode.Machine.ForwardSteps: which of the calls fails is not determined, only how each failure is reported.
- Overlay.Adapter.ExecuteBatch: which batch items are dispatched is arbitrary here; `Batch` states that. Cursor travel and effect updates are not hide/show calls and are not recorded.
