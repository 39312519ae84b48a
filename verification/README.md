# Zephyr remote OpenOCD: verified session protocol

A Dafny model of the session protocol between the west runner's controller and
the helper it starts on the remote host, with proofs about it. Running
`dafny verify dfyconfig.toml` checks everything.

The system runs OpenOCD on a remote host over one SSH control channel. The
controller stages files, sends START, and reads a stream of events; the helper
owns a workspace, an address lease, the child process and a log channel, and
ends with one terminal snapshot. What must not go wrong is spread over several
small authorities, and the theorems are about how they fit together.

## Layout

| file | what it holds |
|---|---|
| `Base.dfy` | options, bytes, concatenation |
| `Outcome.dfy`, `Lifecycle.dfy`, `History.dfy` | immutable results; the helper's lifecycle authority; the same from what its callers told it |
| `Framing.dfy`, `Control.dfy` | the LF framer and the `START [RELEASE] EOF` recogniser; the control observer |
| `Events.dfy`, `Base64.dfy` | helper events, the controller's event order, the LOG_DATA payload |
| `Streams.dfy`, `LogRelay.dfy` | the bounded protocol output; the exact-prefix log relay |
| `Connection.dfy`, `LogPipeline.dfy` | the controller's reader, lease and log file; the log path end to end |
| `SessionFacts.dfy`, `HelperSession.dfy` | the coordinator's invariants; the coordinator |
| `EndToEnd.dfy` | helper output against the controller's reader |
| `Admission.dfy`, `Authority.dfy`, `Controller.dfy` | the controller's gate and session authority; its coordinator and reader |
| `Workspace.dfy`, `Notifier.dfy` | the staging lease; wakeups |
| `Tcl.dfy`, `Arguments.dfy`, `Json.dfy`, `Commands.dfy`, `Terminal.dfy` | quoting, templates, START, the terminal message |
| `ChildOutput.dfy` | the child output decoder |
| `Manifest.dfy`, `Paths.dfy` | staging manifests and their three checks; the path planner |

Classes keep the fields of the source's classes, and each method is proved
against a function of the old state; the theorems are about those functions.
`HelperSession` holds the state of the authorities it drives as values, each
the one its own class was proved to compute. What the operating system answers
is a parameter of the method that asks, so a theorem about a method is about
every answer. In `SessionFacts.dfy` a few predicates quantify over a predicate
`Inspected` that is always true: naming their topic in it is what makes the
verifier unfold them, and elsewhere they stay folded.

## Where a guarantee is conditional

- `LogRelay.report` decides without looking at the buffer. Completeness is true
  exactly when nothing is buffered (`Relaying.CompletenessClaim`); the session
  always decides before it reports (`HelperSessions.HelperSession.Coordinate`).
- Freezing is refused if and only if START asked for the log, startup ended
  before its channel existed, and the address lease could not be closed
  (`SessionFacts.FreezeExactly`, `HelperSessions.RunSession`); such a
  state is exhibited (`SessionFacts.FreezeCanBeRefused`).
- The controller sets its log request before the helper has handled START. A
  helper that ends without handling it is understood if and only if the
  controller did not ask for the log (`EndToEnd.UnhandledStart`,
  `EndToEnd.UnhandledStartIsRejected`).
- `operation_status` never returns a failed child's status when the policy is
  set before the terminal arrives; set later, it can
  (`Authorities.StepJudges`, `Authorities.LatePolicyHidesAFailure`). The
  controller sets it before START, and then it never does
  (`Controllers.OperationStatusIsTrue`).
- The first log fact is attached to a failure if and only if one was recorded
  before the first projection that had a log fact; otherwise it was that
  projection's result. A failure recorded after such a projection does not
  carry it (`Authorities.FirstLogFactIsAttached`,
  `Authorities.EarlyProjectionLosesALogFact`). An operation projects once, at
  its end.
- A deferred refusal is left out of the record exactly when its identity is
  recorded already (`Authorities.JoinedExactly`). An exception refused twice,
  under two identities, is then recorded under neither
  (`Authorities.RefusalIsKept`, `Authorities.ReissuedRefusalIsLost`).
- The three manifest checks agree exactly on manifests of valid paths; the
  controller's first check alone lets a NUL or `..` through
  (`Manifests.ChecksAgree`, `Manifests.NulIsCaughtLate`).
- A terminal snapshot can be sent exactly when no diagnostic code in it is
  empty (`Terminals.TerminalRoundTrip`).

## Model

| member | source | states |
|---|---|---|
| `Outcomes.FailuresJoinInArrivalOrder` | python/zephyr_remote_openocd/protocol/outcome.py:85-104 | over any number of failures the established one (first diagnostic or earlier natural child failure) stays, and the record is the reported failures in arrival order, none lost or repeated |
| `Outcomes.SuccessExactly` | python/zephyr_remote_openocd/protocol/outcome.py:106-119 | when an operation is a success: confirmed disposal, no recorded failure, and a child that exited with 0 unasked, or for a server no result, status 0 or an exit that was asked for |
| `Lifecycle.StepFacts` | python/zephyr_remote_openocd/helper/lifecycle.py:114-277 | one authority call from a reachable phase keeps the phase invariant, raises exactly in the named cases, changes nothing when it raises, and adds exactly its own failure to the record |
| `Lifecycle.EveryRun` | python/zephyr_remote_openocd/helper/lifecycle.py:104-277 | over every sequence of calls: an active session holds an owned attempt without child result, a terminating outcome carries the attempt's child result, no child result or established failure is displaced, a frozen snapshot is final, and the record is the failures reported, in order |
| `Lifecycle.AtMostOneAttempt` | python/zephyr_remote_openocd/helper/lifecycle.py:133-145 | a session enters at most one attempt and becomes ready at most once, neither after the phase that allows it |
| `Histories.CallFollows` | python/zephyr_remote_openocd/helper/lifecycle.py:114-277 | whatever was told before, the authority answers the next call, raises and moves as a second description without phases says, built from what its callers established |
| `Histories.EveryAnswer` | python/zephyr_remote_openocd/helper/lifecycle.py:104-277 | over every sequence of calls the phase, the child's result and the next answer are those of the facts told: entered, adopted, settled, asked to exit, exited, seen, ready, ended and why, frozen |
| `Histories.ExitIsRecorded` | python/zephyr_remote_openocd/helper/lifecycle.py:202-229 | from any reachable phase with an unsettled attempt and no result, an exit with any status is the result for good, and counts as asked for exactly when a termination was recorded before |
| `Histories.FirstTriggerStays` | python/zephyr_remote_openocd/helper/lifecycle.py:245-277 | what ends a session first stays its trigger, and a frozen snapshot stays, over every sequence of calls |
| `Lifecycle.LifecycleAuthority.Start` | python/zephyr_remote_openocd/helper/lifecycle.py:114-117 | the phase after START, or a raise outside the created phase |
| `Lifecycle.LifecycleAuthority.ReplaceAttempt` | python/zephyr_remote_openocd/helper/lifecycle.py:124-131 | which phases accept an attempt update and what they become |
| `Lifecycle.LifecycleAuthority.EnterAttempt` | python/zephyr_remote_openocd/helper/lifecycle.py:133-145 | entry of an authorised attempt, or termination when admission was refused |
| `Lifecycle.LifecycleAuthority.AdoptAttempt` | python/zephyr_remote_openocd/helper/lifecycle.py:147-165 | adoption of a produced child, per policy and phase |
| `Lifecycle.LifecycleAuthority.ObserveEvidence` | python/zephyr_remote_openocd/helper/lifecycle.py:167-180 | which evidence is accepted, and when |
| `Lifecycle.LifecycleAuthority.Ready` | python/zephyr_remote_openocd/helper/lifecycle.py:182-200 | readiness only of a live owned child with all evidence, or termination when admission was refused |
| `Lifecycle.LifecycleAuthority.ObserveChildExit` | python/zephyr_remote_openocd/helper/lifecycle.py:202-217 | the first child result of an unsettled attempt, and the termination it causes in the active phase |
| `Lifecycle.LifecycleAuthority.RecordChildTermination` | python/zephyr_remote_openocd/helper/lifecycle.py:219-229 | a requested termination is noted only while terminating and before a result |
| `Lifecycle.LifecycleAuthority.SettleAttempt` | python/zephyr_remote_openocd/helper/lifecycle.py:231-243 | settlement keeps the observed result |
| `Lifecycle.LifecycleAuthority.Terminate` | python/zephyr_remote_openocd/helper/lifecycle.py:245-261 | the termination commit, later failures, and failures after freezing |
| `Lifecycle.LifecycleAuthority.Freeze` | python/zephyr_remote_openocd/helper/lifecycle.py:263-277 | the snapshot, or a raise exactly when the attempt is unsettled but reported confirmed, or the parts disagree |
| `Framing.ScanPartitions` | python/zephyr_remote_openocd/protocol/wire.py:442-455 | scanning partitions any byte string into complete bounded frames and a tail |
| `Framing.ScanExtends` | python/zephyr_remote_openocd/protocol/wire.py:428-455 | more input after a scan: a failure is final with the same frames, otherwise the scan goes on from the tail |
| `Framing.ScanFrames` | python/zephyr_remote_openocd/protocol/wire.py:442-451 | a sequence of frames followed by anything scans to those frames and the scan of the rest |
| `Framing.ControlFrameBuffer.PopFrame` | python/zephyr_remote_openocd/protocol/wire.py:442-451 | the next whole frame, none yet, or a frame beyond the bound, and what stays buffered |
| `Framing.ControlFrameBuffer.PopAll` | python/zephyr_remote_openocd/protocol/wire.py:428-455 | one chunk pops exactly the frames of the buffered input followed by the chunk |
| `Framing.ReadFrames` | python/zephyr_remote_openocd/protocol/wire.py:428-455 | for every byte string and every split into chunks: the same frames before the same outcome as the whole string |
| `Framing.ClassifyConforms` | python/zephyr_remote_openocd/helper/_session.py:140-169 | the verdict computed from a scan is the one the grammar START [RELEASE] EOF gives the whole input, and no other verdict conforms |
| `Framing.WrongIsFinal` | python/zephyr_remote_openocd/helper/_session.py:147-169 | a fault recognised in a prefix stays a fault whatever follows |
| `Framing.ObserveChunk` | python/zephyr_remote_openocd/helper/_session.py:147-169 | one read of the recogniser: progress through the grammar or a final fault |
| `Framing.ObserveControl` | python/zephyr_remote_openocd/helper/_session.py:140-169 | for every chunking the recogniser reaches the grammar's verdict, and publishes START exactly when the first frame is a valid START |
| `Controls.ReadKeeps` | python/zephyr_remote_openocd/helper/_session.py:140-169 | one read of the control observer: it goes on only while nothing is wrong, the request START carried stays, and a lost lease is final |
| `Controls.ReadAllConforms` | python/zephyr_remote_openocd/helper/_session.py:140-169 | for every chunking the observer loses the lease exactly when the grammar gives the whole input that verdict, and publishes START exactly when the first frame is one, faults included |
| `Events.AcceptsExactlyHistories` | python/zephyr_remote_openocd/protocol/wire.py:364-425 | the event-order machine accepts an event sequence if and only if it is a history of the protocol, stated without the machine |
| `Events.Extends` | python/zephyr_remote_openocd/protocol/wire.py:382-425 | one event is accepted exactly when the history before it allows it, and the machine then reflects the longer history |
| `Events.EventOrder.Accept` | python/zephyr_remote_openocd/protocol/wire.py:382-425 | the machine's state after one event, or a rejection that changes nothing |
| `Events.AcceptAllAppend` | python/zephyr_remote_openocd/protocol/wire.py:382-425 | acceptance of a concatenation is acceptance of its parts in turn |
| `Base64.StandardInvertible` | python/zephyr_remote_openocd/protocol/wire.py:226-243 | the standard alphabet is a bijection on sextets (section 4 of RFC 4648) |
| `Base64.RoundTrip` | python/zephyr_remote_openocd/protocol/wire.py:226-243 | decoding inverts encoding on every byte string, and the encoded length is exact |
| `Base64.LogBytesIsCanonical` | python/zephyr_remote_openocd/protocol/wire.py:226-239 | a LOG_DATA text is read as d if and only if d fits the bound and the text is the canonical encoding of d (section 3.5 of RFC 4648) |
| `Base64.WireIsSound` | python/zephyr_remote_openocd/protocol/wire.py:226-243 | over any JSON library that inverts itself the event codec is sound, log bytes included |
| `Streams.EnqueueKeeps` | python/zephyr_remote_openocd/helper/_streams.py:105-119 | an admitted frame joins the queue without loss, and the byte counters stay the sums over the queue |
| `Streams.AdmissionExactly` | python/zephyr_remote_openocd/helper/_streams.py:105-119 | a frame is refused if and only if a write failed, or what is admitted and not yet on the wire would pass the bound; otherwise it joins the end of what was admitted |
| `Streams.WrittenKeeps` | python/zephyr_remote_openocd/helper/_streams.py:136-161 | a write puts as many bytes on the wire as were taken, up to the end of the frame, keeps the conservation law, and latches the credit exactly when the queued log fell |
| `Streams.RunKeeps` | python/zephyr_remote_openocd/helper/_streams.py:136-161 | any run of the writer only extends the wire, latches the credit exactly when the queued log fell, and fails only at a failing write |
| `Streams.WriterDelivers` | python/zephyr_remote_openocd/helper/_streams.py:136-161 | as many writes as there are unwritten bytes, each taking at least one, put everything admitted on the wire |
| `Streams.DrainedIsWhole` | python/zephyr_remote_openocd/helper/_streams.py:163-170 | after a completed drain the wire is every admitted frame in order |
| `Streams.WireIsPrefix` | python/zephyr_remote_openocd/helper/_streams.py:105-161 | the wire is always a prefix of what was admitted |
| `Streams.ProtocolOutput.Enqueue` | python/zephyr_remote_openocd/helper/_streams.py:105-119 | admission or refusal: the recorded failure or the backlog bound |
| `Streams.ProtocolOutput.Emit` | python/zephyr_remote_openocd/helper/_streams.py:25-35 | encode and admit one event |
| `Streams.ProtocolOutput.Advance` | python/zephyr_remote_openocd/helper/_streams.py:144-155 | accounting of one write: bytes, frames, log bytes and the credit latch |
| `Streams.ProtocolOutput.Run` | python/zephyr_remote_openocd/helper/_streams.py:136-161 | the writer loop over partial writes computes the specified output |
| `Streams.ProtocolOutput.Drain` | python/zephyr_remote_openocd/helper/_streams.py:163-170 | a drain that returns normally means every admitted byte was written |
| `Relaying.AcceptKeeps` | python/zephyr_remote_openocd/helper/_log_relay.py:85-105 | a chunk of the channel, overflow included, keeps channel = admitted + buffered + given up, with nothing given up before continuity is lost, and the buffer bound |
| `Relaying.AcceptExactly` | python/zephyr_remote_openocd/helper/_log_relay.py:85-105 | while the log is followed, a chunk costs exactly the bytes past the buffer bound, so nothing if and only if it fits; afterwards it is given up whole |
| `Relaying.AcceptCause` | python/zephyr_remote_openocd/helper/_log_relay.py:94-105 | a chunk ends the following of the log and records an overflow, unless a cause is recorded already, exactly when it does not fit |
| `Relaying.AdmittedKeeps` | python/zephyr_remote_openocd/helper/_log_relay.py:107-122 | an admitted head is the first chunk up to the LOG_DATA bound, extends the admitted prefix by it, and keeps the law |
| `Relaying.PumpKeeps` | python/zephyr_remote_openocd/helper/_log_relay.py:107-122 | a pump admits a contiguous run of LOG_DATA that extends the admitted prefix, keeps both owners' invariants, and stops only empty or at the credit |
| `Relaying.PumpExactly` | python/zephyr_remote_openocd/helper/_log_relay.py:76-122 | a pump gives bytes up, and records a cause unless one is recorded, exactly when one of its admissions is refused |
| `Relaying.PumpWithinCredit` | python/zephyr_remote_openocd/helper/_log_relay.py:107-122 | queued log bytes stay below the credit plus one frame |
| `Relaying.DecideKeeps` | python/zephyr_remote_openocd/helper/_log_relay.py:151-164 | a decision exists afterwards, counts exactly the admitted bytes, and changes no byte |
| `Relaying.SentIsPrefix` | python/zephyr_remote_openocd/helper/_log_relay.py:85-122 | the admitted bytes are a prefix of the channel |
| `Relaying.CompletenessClaim` | python/zephyr_remote_openocd/helper/_log_relay.py:151-164 | exactly when a decision claims completeness, and exactly when that claim is true: nothing is still buffered |
| `Relaying.DisciplinedDecisionIsTrue` | python/zephyr_remote_openocd/helper/_log_relay.py:145-164 | deciding when ready, or at the deadline, makes complete mean the whole channel read to its end after confirmed disposal |
| `Relaying.UndisciplinedReportCanClaimTooMuch` | python/zephyr_remote_openocd/helper/_log_relay.py:166-180 | a relay that accepted one byte and the end-of-file, was confirmed disposed and never pumped, reports a complete log of no bytes: report decides without looking at the buffer |
| `Relaying.LogRelay.Accept` | python/zephyr_remote_openocd/helper/_log_relay.py:85-105 | the relay after one chunk, overflow and end-of-file included |
| `Relaying.LogRelay.Overflow` | python/zephyr_remote_openocd/helper/_log_relay.py:94-105 | what fits is kept, the rest and all later bytes are given up |
| `Relaying.LogRelay.AdmitHead` | python/zephyr_remote_openocd/helper/_log_relay.py:107-122 | one head admitted, or given up with everything behind it when admission is refused |
| `Relaying.LogRelay.Pump` | python/zephyr_remote_openocd/helper/_log_relay.py:107-122 | the pump loop computes the specified relay, output and events |
| `Relaying.LogRelay.ConfirmDisposal` | python/zephyr_remote_openocd/helper/_log_relay.py:124-130 | confirmed disposal closes the keep-open writer and starts the final phase |
| `Relaying.LogRelay.Cut` | python/zephyr_remote_openocd/helper/_log_relay.py:132-139 | a cut stops reading and records its cause |
| `Relaying.LogRelay.Decide` | python/zephyr_remote_openocd/helper/_log_relay.py:151-164 | the decision from what was recorded, once |
| `Relaying.LogRelay.Report` | python/zephyr_remote_openocd/helper/_log_relay.py:166-180 | the report projected from the decision and the child's disposal |
| `Connection.WriteAllPrefix` | python/zephyr_remote_openocd/controller/_log_file.py:54-62 | short writes leave a prefix of the chunk, and the whole of it unless the write failed |
| `Connection.WriteAllSucceeds` | python/zephyr_remote_openocd/controller/_log_file.py:54-62 | as many writes as the chunk has bytes, each making progress, write all of it |
| `Connection.LocalLogFile.Write` | python/zephyr_remote_openocd/controller/_log_file.py:54-62 | the file grows by exactly the written part of the chunk |
| `Connection.DispatchKeeps` | python/zephyr_remote_openocd/controller/helper_connection.py:387-424 | one dispatched frame keeps: the received log bytes are those of the accepted events, the file is a prefix of them, whole until the first failed write |
| `Connection.DispatchAllGivesUp` | python/zephyr_remote_openocd/controller/helper_connection.py:403-416 | the reader gives its file up exactly when the local write of some accepted event's bytes failed, or there was no file |
| `Connection.DispatchEvents` | python/zephyr_remote_openocd/controller/helper_connection.py:387-424 | the frames of events the order accepts are dispatched one by one without failure |
| `Connection.ScanPrefix` | python/zephyr_remote_openocd/controller/helper_connection.py:418-424 | any prefix of a frame sequence scans to a prefix of those frames, without overflow |
| `Connection.HelperConnection.WriteLog` | python/zephyr_remote_openocd/controller/helper_connection.py:403-416 | the file after one payload, and nothing written after a failure |
| `Connection.HelperConnection.DispatchFrame` | python/zephyr_remote_openocd/controller/helper_connection.py:387-401 | decode, order and dispatch of one frame |
| `Connection.HelperConnection.DispatchFrames` | python/zephyr_remote_openocd/controller/helper_connection.py:418-424 | one chunk dispatches every complete frame in order, then any overflow |
| `Connection.HelperConnection.WriteControl` | python/zephyr_remote_openocd/controller/helper_connection.py:157-175 | the bytes of START on the pipe across deferral, refusal, partial writes and a closed pipe |
| `Connection.StartCompletes` | python/zephyr_remote_openocd/controller/helper_connection.py:157-175 | without a refusal or a broken pipe START is written whole by as many passes that take some bytes as it has bytes, whatever waits lie between |
| `Connection.HelperConnection.StartProcess` | python/zephyr_remote_openocd/controller/helper_connection.py:132-155 | the session counts as started exactly when START was written whole |
| `Connection.HelperConnection.ReleaseLease` | python/zephyr_remote_openocd/controller/helper_connection.py:271-295 | RELEASE goes out whole or not at all, only for a started session not yet ended |
| `Connection.ControlSession` | python/zephyr_remote_openocd/controller/helper_connection.py:132-175 | all a controller can have sent: part of START, START, or START and RELEASE |
| `Connection.LeaseLossExactly` | python/zephyr_remote_openocd/controller/helper_connection.py:271-295 | end to end, lease loss is classified exactly when START arrived whole and nothing of RELEASE before a clean end-of-file; an orderly release exactly when both arrived whole |
| `LogPipeline.ProgressKeeps` | python/zephyr_remote_openocd/helper/_session.py:510-516 | log progress keeps exact admission, the bounds, and establishes that no credit is lost |
| `LogPipeline.HelperStep` | python/zephyr_remote_openocd/helper/_session.py:181-207 | every step of the helper's owners keeps exact admission and the credit argument |
| `LogPipeline.UnreadEvents` | python/zephyr_remote_openocd/controller/helper_connection.py:418-424 | the next unread bytes complete exactly the next admitted events |
| `LogPipeline.EveryPipeRun` | python/zephyr_remote_openocd/helper/_log_relay.py:85-164 | every reachable state of every interleaving of channel, relay, writer, credit, control stream and local file keeps the end-to-end invariant |
| `LogPipeline.LocalFileIsExactPrefix` | python/zephyr_remote_openocd/controller/helper_connection.py:403-424 | in every interleaving the local file is a prefix of the received log bytes, which are a prefix of the admitted, which are a prefix of the channel, within all byte bounds |
| `LogPipeline.CompleteLogIsWhole` | python/zephyr_remote_openocd/helper/_log_relay.py:145-164 | a complete decision, a drained output and a controller that read it all without failure make the local file the whole channel |
| `LogPipeline.NoCreditIsLost` | python/zephyr_remote_openocd/helper/_session.py:201-207 | in every interleaving, undecided buffered bytes have the queued log at its limit, a latched credit, or a credit on its way |
| `LogPipeline.NothingIsLostUnexplained` | python/zephyr_remote_openocd/helper/_log_relay.py:71-164 | in every interleaving, before the decision every byte read is admitted or buffered if and only if no chunk overflowed and no admission was refused; the decision is incomplete exactly when some cause arose, and carries the first one |
| `LogPipeline.DecidedInTime` | python/zephyr_remote_openocd/helper/_log_relay.py:145-164 | in every interleaving, unless a deadline or a missing child forces it, the log is decided only after reading stopped and the extent is final, and then as soon as nothing is buffered |
| `LogPipeline.LocalFileFollows` | python/zephyr_remote_openocd/controller/helper_connection.py:403-416 | in every interleaving the local file is all of the received log as long as no local write failed, and is given up exactly when one did |
| `SessionFacts.ContiguousAccepted` | python/zephyr_remote_openocd/protocol/wire.py:403-409 | a contiguous run of LOG_DATA from the received total is accepted whole |
| `SessionFacts.PumpPublishes` | python/zephyr_remote_openocd/helper/_session.py:510-516 | whatever a pump admits, the controller's event order accepts |
| `SessionFacts.ProgressKeeps` | python/zephyr_remote_openocd/helper/_session.py:510-516 | log progress keeps all of the session's invariants, and a decision once made stays |
| `SessionFacts.StartKeeps` | python/zephyr_remote_openocd/helper/_session.py:658-666 | handling START fixes the policy and log request of the reader without invalidating what was admitted before |
| `SessionFacts.AttemptAdmitted` | python/zephyr_remote_openocd/helper/_session.py:348-356 | admitting ATTEMPT and entering the attempt keep the session's invariants as one step |
| `SessionFacts.ReadyFits` | python/zephyr_remote_openocd/helper/_session.py:474-487 | whenever the lifecycle allows readiness, the reader accepts READY |
| `SessionFacts.ReadyAdmitted` | python/zephyr_remote_openocd/helper/_session.py:474-487 | admitting READY and becoming active keep the invariants as one step |
| `SessionFacts.OutputAdmitted` | python/zephyr_remote_openocd/helper/_session.py:491-508 | admitting child output keeps the invariants |
| `SessionFacts.ExitKeeps` | python/zephyr_remote_openocd/helper/_session.py:425-440 | recording an exit keeps the invariants and leaves the starting phase |
| `SessionFacts.ExitTold` | python/zephyr_remote_openocd/helper/_session.py:425-440 | an exit told to the lifecycle is its result if it is the first one told, counts as asked for exactly when it was while ending, and ends a session that went on |
| `SessionFacts.DecisionKeeps` | python/zephyr_remote_openocd/helper/_session.py:534-553 | a decision at a deadline, or without a child, keeps: a complete decision of an acquired child is the whole channel |
| `SessionFacts.NoChannelNoChild` | python/zephyr_remote_openocd/helper/_session.py:393-402 | a session that asked for the log but never had its channel acquired no child |
| `SessionFacts.ReportIsValid` | python/zephyr_remote_openocd/helper/_session.py:844-883 | the report built from residuals follows their statuses, and its constructor accepts it exactly when an unconfirmed child kept its workspace |
| `SessionFacts.FreezeExactly` | python/zephyr_remote_openocd/helper/_session.py:885-920 | freeze succeeds if and only if not: log requested, channel never created, child side unconfirmed; and the frozen snapshot is valid with every code present |
| `SessionFacts.FreezeCanBeRefused` | python/zephyr_remote_openocd/helper/_session.py:885-920 | a session state that meets every hypothesis of FreezeExactly and is refused: startup failed before the channel existed and the lease stayed open |
| `SessionFacts.DrainKeeps` | python/zephyr_remote_openocd/helper/_streams.py:163-170 | the last drain keeps the stream acceptable, and leaves the wire whole if it completes |
| `SessionFacts.WriterKeepsCredit` | python/zephyr_remote_openocd/helper/_streams.py:136-161 | the writer never takes queued log below what it was without latching the credit |
| `SessionFacts.HeedsCall` | python/zephyr_remote_openocd/helper/_session.py:276-292 | no lifecycle call but the accounting of the lost lease puts that on record |
| `SessionFacts.HeedsLoss` | python/zephyr_remote_openocd/helper/_session.py:283-290 | accounting a pending loss puts it on record |
| `SessionFacts.HeedsRead` | python/zephyr_remote_openocd/helper/_session.py:140-169 | a read of the control input keeps: the loss is noticed exactly when the observer lost the lease, and a handled request is the one START carried |
| `SessionFacts.NothingAdmitted` | python/zephyr_remote_openocd/helper/_session.py:894-928 | a session that terminated with nothing admitted and no START handled admits nothing but its end |
| `SessionFacts.SessionEnds` | python/zephyr_remote_openocd/helper/_session.py:917-925 | the terminal refused, with the stream open, or admitted and drained as far as the writes went; either way the log decision is true |
| `SessionFacts.TerminalAccepted` | python/zephyr_remote_openocd/helper/_session.py:917-925 | the reader accepts the terminal snapshot of a helper that handled START |
| `SessionFacts.EndAdmitted` | python/zephyr_remote_openocd/helper/_session.py:921-925 | the stream with its terminal is acceptable under the handled request |
| `SessionFacts.LogIsTrue` | python/zephyr_remote_openocd/helper/_session.py:534-553 | a decided log counts the admitted bytes and is complete only when they are the whole channel; without a channel nothing was admitted |
| `HelperSessions.HelperSession.Announce` | python/zephyr_remote_openocd/helper/_session.py:121-127 | the announcement is admitted first, or the session terminates with nothing admitted |
| `HelperSessions.HelperSession.Launch` | python/zephyr_remote_openocd/helper/_session.py:898-915 | a writer that cannot be started leaves the session terminating with nothing announced; a later failed start terminates it after the announcement |
| `HelperSessions.HelperSession.Fail` | python/zephyr_remote_openocd/helper/_session.py:269-270 | a failure joins the record and the session terminates, for the given trigger unless it was ending already |
| `HelperSessions.HelperSession.Emit` | python/zephyr_remote_openocd/helper/_streams.py:25-35 | one event is encoded and admitted, or nothing changes |
| `HelperSessions.HelperSession.ObserverFailed` | python/zephyr_remote_openocd/helper/_session.py:294-317 | a recorded observer failure is accounted once, and one that counts ends the session for its source's trigger |
| `HelperSessions.HelperSession.Account` | python/zephyr_remote_openocd/helper/_session.py:276-292 | the record grows by exactly what was due, in order: a new signal, a lost lease, every observer failure that counts; a session that went on ends for the first of them; with nothing due nothing changes, and only then |
| `HelperSessions.HelperSession.RecordExit` | python/zephyr_remote_openocd/helper/_session.py:425-440 | the exit is told with its status and whether it was asked for; the first one told is the result; it ends an active session, and before READY it is a startup failure |
| `HelperSessions.HelperSession.PublishReady` | python/zephyr_remote_openocd/helper/_session.py:474-487 | READY is admitted exactly together with entering the active phase, or the session terminates with nothing admitted |
| `HelperSessions.HelperSession.MakeReady` | python/zephyr_remote_openocd/helper/_session.py:442-489 | an inspection that completes the evidence decides: with nothing pending a live child is ready exactly when READY can be admitted, an exited one is told and ends the startup; only a failing poll escapes |
| `HelperSessions.HelperSession.PrepareAttempt` | python/zephyr_remote_openocd/helper/_session.py:325-344 | what preparation leaves behind at each point it can fail |
| `HelperSessions.HelperSession.PublishAttempt` | python/zephyr_remote_openocd/helper/_session.py:348-356 | ATTEMPT is admitted exactly together with entering the attempt, or the session terminates with nothing admitted |
| `HelperSessions.HelperSession.SpawnChild` | python/zephyr_remote_openocd/helper/_session.py:355-382 | the answer of spawning is kept, with the child it leaves; a spawned child makes a server adopted and anything else active, any other answer is a startup failure, and a rolled back exit is told |
| `HelperSessions.HelperSession.StartAttempt` | python/zephyr_remote_openocd/helper/_session.py:319-391 | with nothing pending, preparation that succeeds leads to ATTEMPT and what spawning answered exactly when ATTEMPT can be admitted, and to termination otherwise; preparation that fails admits and spawns nothing |
| `HelperSessions.HelperSession.StartOutputObservers` | python/zephyr_remote_openocd/helper/_session.py:404-423 | each stream not yet finished is observed, finished because it is closed, or finished with a raise because no observer could start |
| `HelperSessions.HelperSession.RunAttempt` | python/zephyr_remote_openocd/helper/_session.py:357-391 | what exists after the entered attempt, when an observer that could not start escapes, when a server is ready at once, and that the log is confirmed disposed exactly when nothing of a child is left |
| `HelperSessions.HelperSession.HandleStart` | python/zephyr_remote_openocd/helper/_session.py:658-666 | START takes effect once, in the created phase, as the control observer published it; with nothing pending the attempt follows its preparation, the admission of ATTEMPT and the answer of spawning, each failure with its own trigger |
| `HelperSessions.HelperSession.ChildOutputRead` | python/zephyr_remote_openocd/helper/_session.py:491-508 | the fragments admitted are a prefix of the decoded ones: all of them, or those before the first that cannot be admitted |
| `HelperSessions.HelperSession.LogProgress` | python/zephyr_remote_openocd/helper/_session.py:510-516 | pump, then decide if ready, and nothing else; afterwards nothing is buffered or the log credit is spent, and the log is decided unless there is something left to wait for |
| `HelperSessions.HelperSession.HandleLogCredit` | python/zephyr_remote_openocd/helper/_session.py:680-681 | a returned credit is consumed, and afterwards nothing is buffered or the log credit is spent again |
| `HelperSessions.HelperSession.RunOutput` | python/zephyr_remote_openocd/helper/_session.py:201-207 | the writer's output, and a latched credit published as one credit on its way |
| `HelperSessions.HelperSession.Cancel` | python/zephyr_remote_openocd/helper/_session.py:595-608 | task by task, the record grows by the task's error and the failure it had recorded itself, and by nothing else that happens meanwhile |
| `HelperSessions.HelperSession.LogDisposal` | python/zephyr_remote_openocd/helper/_session.py:518-532 | disposal is confirmed to the log exactly when it is confirmed, otherwise it is cut, and a decided log is left alone |
| `HelperSessions.HelperSession.LogDecided` | python/zephyr_remote_openocd/helper/_session.py:534-542 | when the log counts as decided; without a child it is decided here |
| `HelperSessions.HelperSession.BeginLogDrain` | python/zephyr_remote_openocd/helper/_session.py:544-553 | from termination on, an undecided log has a drain deadline or is decided |
| `HelperSessions.HelperSession.BeginChildCleanup` | python/zephyr_remote_openocd/helper/_session.py:567-593 | disposal of the child starts once and is not restarted; without a task for it the coordinator disposes itself, and each observer it cannot start is an answer |
| `HelperSessions.HelperSession.HandleGroupCleaned` | python/zephyr_remote_openocd/helper/_session.py:691-708 | disposal is confirmed to the log exactly when the group is gone, and otherwise cuts it; a missing drain observer counts the streams as finished |
| `HelperSessions.HelperSession.CloseAddressLease` | python/zephyr_remote_openocd/helper/_session.py:610-617 | the lease is held on exactly when its close failed, and then a failure is on record |
| `HelperSessions.HelperSession.FinishAttempt` | python/zephyr_remote_openocd/helper/_session.py:619-655 | the settlement is what was disposed of, the child is given up exactly when it is complete and the lease closed, and an exit the child's task saw was told |
| `HelperSessions.HelperSession.HandleReadinessDeadline` | python/zephyr_remote_openocd/helper/_session.py:709-725 | after the readiness deadline the session is no longer starting |
| `HelperSessions.HelperSession.Handle` | python/zephyr_remote_openocd/helper/_session.py:657-731 | dispatch of any possible observation keeps every invariant, only extends what was admitted, and brings about what that observation means, a child's exit with its own status |
| `HelperSessions.HelperSession.Coordinate` | python/zephyr_remote_openocd/helper/_session.py:733-768 | over any turns, the coordinator returns only terminating, with staging closed, the child settled or recorded as unconfirmed, and the log decided; after every turn no log credit is lost |
| `HelperSessions.HelperSession.TakeTurn` | python/zephyr_remote_openocd/helper/_session.py:733-768 | a turn that may return does, a turn that may settle the attempt does, and a turn with nothing pending in a session that goes on responds to its observation |
| `HelperSessions.HelperSession.CloseLogChannel` | python/zephyr_remote_openocd/helper/_session.py:790-803 | the channel counts as closed only when its descriptors are |
| `HelperSessions.HelperSession.ReleaseWorkspace` | python/zephyr_remote_openocd/helper/_session.py:805-835 | the workspace is removed if and only if spawning and settlement leave nothing of a child, the address lease is closed, the log's descriptors are, and the removal succeeds; a spawned child needs a complete settlement; whatever is left has a failure on record |
| `HelperSessions.HelperSession.CleanupReportNow` | python/zephyr_remote_openocd/helper/_session.py:844-883 | the report is valid; it says the child is gone exactly when what spawning answered and the settlement leave nothing and the lease is closed; an unsettled attempt is never reported confirmed, and what is unconfirmed has a failure on record |
| `HelperSessions.HelperSession.FreezeSession` | python/zephyr_remote_openocd/helper/_session.py:918-920 | the frozen snapshot, or none in exactly one case |
| `HelperSessions.HelperSession.EndSession` | python/zephyr_remote_openocd/helper/_session.py:917-925 | report, freeze, publish and drain: the stream stays acceptable and ends with the snapshot if it ends; the snapshot tells the child, its exit, the lease and the log as they were; without a local diagnostic the terminal was admitted and everything written |
| `HelperSessions.HelperSession.PublishEnd` | python/zephyr_remote_openocd/helper/_session.py:921-925 | a local diagnostic is left exactly when the terminal was refused, a write failed or the drain left admitted bytes unwritten |
| `HelperSessions.RunSession` | python/zephyr_remote_openocd/helper/_session.py:894-928 | for every behaviour of the world, failed starts of the first tasks included, a whole session admits one encodable sequence that the controller's event order accepts under the handled request, which is the one START carried; freezing fails if and only if the log was requested, its channel never existed and the lease is still held, which needs a failing close; the snapshot has the loss of the lease on record if and only if the control input was START alone and ended; the frozen log report counts the log bytes admitted, and a complete one means they are the whole channel; its child result is the first exit told, with a status somebody reported; the workspace goes, and the child is reported gone, exactly when what spawning answered and the settlement leave nothing, which for a spawned child needs all four settlement facts; without a writer only the terminal is admitted; a delivered session has every admitted byte on the wire |
| `EndToEnd.ControllerUnderstands` | python/zephyr_remote_openocd/controller/helper_connection.py:418-491 | a controller expecting the handled request reads any part of the wire, in any chunks, without a protocol failure, and after a completed drain has accepted every event |
| `EndToEnd.TerminalFixesLogRequest` | python/zephyr_remote_openocd/protocol/wire.py:415-416 | a stream that ends with its terminal is accepted under exactly one log request |
| `EndToEnd.AcceptedEndIsWhole` | python/zephyr_remote_openocd/controller/helper_connection.py:403-424 | a controller that has accepted the end has accepted every event and received every log byte; without a failed local write its file is all of them |
| `EndToEnd.FirstFrame` | python/zephyr_remote_openocd/controller/helper_connection.py:157-175 | of what a controller writes, the first whole frame that can arrive is START |
| `EndToEnd.HandledIsPlanned` | python/zephyr_remote_openocd/controller/helper_connection.py:132-155 | a helper that handled START handled the controller's own plan |
| `EndToEnd.LossNeedsWholeStart` | python/zephyr_remote_openocd/controller/helper_connection.py:271-295 | the input that loses the lease is START whole and nothing of RELEASE |
| `EndToEnd.PlannedIsAcceptable` | python/zephyr_remote_openocd/controller/helper_connection.py:139-151 | a stream of a helper that never handled START reads the same under any plan that does not ask for the log |
| `EndToEnd.Converse` | python/zephyr_remote_openocd/controller/helper_connection.py:418-491 | a whole helper session and the controller it talks to, which wrote START for its plan and perhaps RELEASE, and reads any part of the output in any pieces: no protocol failure, unless it asked for the log and START was never handled; an accepted end carries the helper's snapshot, a complete log in it means the local file is the whole channel, and the loss of the lease is on record if and only if START arrived whole, nothing of RELEASE, and then the end; an exit status in it is one that was reported |
| `EndToEnd.UnhandledStart` | python/zephyr_remote_openocd/controller/helper_connection.py:139-151 | a helper that ended without handling START is understood by the controller if and only if the controller did not ask for the log, whatever its policy |
| `EndToEnd.UnhandledStartIsRejected` | python/zephyr_remote_openocd/controller/helper_connection.py:139-151 | a whole helper stream without START that a controller rejects when it asked for the log, and accepts when it did not |
| `Admissions.AdmissionGate.Prepare` | python/zephyr_remote_openocd/controller/admission.py:54-60 | a fresh ticket scopes the launch, or a cancelled or ended operation denies it |
| `Admissions.AdmissionGate.Enter` | python/zephyr_remote_openocd/controller/admission.py:68-77 | entry exactly with the current ticket, READY and every required forward |
| `Admissions.AdmissionGate.Cancel` | python/zephyr_remote_openocd/controller/admission.py:79-81 | cancellation never reopens an ended operation |
| `Admissions.AdmissionGate.Fail` | python/zephyr_remote_openocd/controller/admission.py:83-86 | the first failure is kept, and the gate closes |
| `Authorities.LaunchDeniedNeverEscapes` | python/zephyr_remote_openocd/controller/authority.py:315-343 | the authority's own checks imply the gate is open: LaunchDenied never escapes admit_work |
| `Authorities.EntryExactly` | python/zephyr_remote_openocd/controller/authority.py:315-343 | entry if and only if nothing stopped the session, READY was seen, every required forward is up and the final admission passes; then with a new ticket |
| `Authorities.TerminalExactly` | python/zephyr_remote_openocd/controller/authority.py:184-226 | the terminal records a failure exactly when the operation failed under the policy in force, unless its key has one |
| `Authorities.NoticedAllExactly` | python/zephyr_remote_openocd/controller/authority.py:262-266 | outside a pending observation, failures with new exceptions join by identity alone, in order |
| `Authorities.JoinedExactly` | python/zephyr_remote_openocd/controller/authority.py:262-266 | no deferred identity is lost, and a refusal is left out exactly when its identity is recorded already |
| `Authorities.FinishExactly` | python/zephyr_remote_openocd/controller/authority.py:249-266 | final accounting first, then every deferred refusal with a new identity, once and in order; none stays deferred |
| `Authorities.RefusalIsPrimaryOnlyLast` | python/zephyr_remote_openocd/controller/authority.py:249-266 | a deferred refusal becomes primary if and only if nothing else was recorded and the terminal was seen; it is then the first one issued |
| `Authorities.RefusalsAreRecorded` | python/zephyr_remote_openocd/controller/authority.py:141-153 | over the calls of a pending observation: the record it leaves is what accounting left and behind it, once and in order of issue, the first refusal of each exception object whose identity is new |
| `Authorities.RefusalIsKept` | python/zephyr_remote_openocd/controller/authority.py:141-153 | a refusal issued while the observation is pending, neither identity nor exception recorded: its identity is recorded when the observation ends, by itself exactly when nothing else took it |
| `Authorities.JoinedInOrder` | python/zephyr_remote_openocd/controller/authority.py:262-266 | refusals are recorded in the order they were issued |
| `Authorities.FirstRefusalIsPrimary` | python/zephyr_remote_openocd/controller/authority.py:249-266 | over the calls of a pending observation, the first refusal issued is primary if and only if nothing else was recorded and the terminal was seen, and no other refusal ever is |
| `Authorities.ReissuedRefusalIsLost` | python/zephyr_remote_openocd/controller/authority.py:146-149 | a run in which an exception refused under two identities is recorded under neither: the first was taken, the second never kept |
| `Authorities.RecordedAtOnce` | python/zephyr_remote_openocd/controller/authority.py:134-153 | any other failure, or a refusal outside a pending observation, is recorded at once unless its identity or exception is |
| `Authorities.TakenOnce` | python/zephyr_remote_openocd/controller/authority.py:311-313 | a primary failure is taken once, and again only after another was recorded |
| `Authorities.LogFactsExactly` | python/zephyr_remote_openocd/controller/authority.py:155-195 | an incomplete log in a terminal is one new log fact; any other log fact joins once for each exception and is never a failure |
| `Authorities.EffectFailureExactly` | python/zephyr_remote_openocd/controller/authority.py:300-309 | a failed effect raises the failure the session already has, or itself; an optional one matters only behind a failure |
| `Authorities.EffectExactly` | python/zephyr_remote_openocd/controller/authority.py:345-370 | a helper effect is admitted if and only if nothing failed, no terminal was seen, control is open and the caller agrees; START is written on under the same conditions and waits during accounting |
| `Authorities.ProjectionExactly` | python/zephyr_remote_openocd/controller/authority.py:165-182 | one projection: an established failure is the result, otherwise the first log fact; with none projected before, all log facts are attached to that failure, or all but the first to that first one; later, the new ones are |
| `Authorities.NotesOfARun` | python/zephyr_remote_openocd/controller/authority.py:165-182 | over every run, the log facts projected so far are attached once each, in order, the first one if and only if the first projection that had a log fact found a recorded failure |
| `Authorities.FirstLogFactIsAttached` | python/zephyr_remote_openocd/controller/authority.py:165-182 | the first log fact is attached exactly when a failure was recorded before the first projection that had one |
| `Authorities.EarlyProjectionLosesALogFact` | python/zephyr_remote_openocd/controller/authority.py:165-182 | a run that projects, then records a failure: the first log fact stays unattached |
| `Authorities.StepKeeps` | python/zephyr_remote_openocd/controller/authority.py:134-370 | every call keeps the authority's invariant and undoes nothing |
| `Authorities.EveryRun` | python/zephyr_remote_openocd/controller/authority.py:134-370 | over every sequence of calls the record only grows at its end |
| `Authorities.FirstFailureStays` | python/zephyr_remote_openocd/controller/authority.py:102-103 | the first recorded failure is primary for ever, and every status request raises it |
| `Authorities.StoppedForGood` | python/zephyr_remote_openocd/controller/authority.py:315-343 | a failure, cancellation, terminal or control end stops dependent work for good; every entry has a ticket newer than all before |
| `Authorities.StepJudges` | python/zephyr_remote_openocd/controller/authority.py:118-120 | a failed remote operation stays on record under every call, and a policy change keeps that exactly when it does not fail an unrecorded operation |
| `Authorities.StatusIsNeverAFailedChild` | python/zephyr_remote_openocd/controller/authority.py:289-298 | with the policy set before the terminal, a status is returned only for a confirmed, successful operation |
| `Authorities.LatePolicyHidesAFailure` | python/zephyr_remote_openocd/controller/authority.py:118-120 | a concrete run in which a policy set after the terminal lets the status of a failed operation through |
| `Controllers.StepKeeps` | python/zephyr_remote_openocd/controller/helper_connection.py:132-155 | each step of the coordinator or the reader keeps: a terminal with a child result came after START, and a failed operation is on record |
| `Controllers.EveryRun` | python/zephyr_remote_openocd/controller/helper_connection.py:132-155 | the invariant holds over every interleaving of the two threads |
| `Controllers.AcceptedReachesAuthority` | python/zephyr_remote_openocd/controller/helper_connection.py:387-401 | in every interleaving, what the reader dispatched reached the authority: READY observed, the terminal recorded, and no dependent work admitted after it |
| `Controllers.OperationStatusIsTrue` | python/zephyr_remote_openocd/controller/helper_connection.py:132-155 | for a controller whose frames pass the event order, a returned status is never that of a failed or unconfirmed operation, in any interleaving |
| `Authorities.SessionAuthority.RecordFailure` | python/zephyr_remote_openocd/controller/authority.py:134-153 | a failure is recorded once, a refusal deferred while observation is pending, anything else closes admission |
| `Authorities.SessionAuthority.RecordLogFailure` | python/zephyr_remote_openocd/controller/authority.py:155-163 | a log fact is kept once and closes nothing |
| `Authorities.SessionAuthority.RecordTerminal` | python/zephyr_remote_openocd/controller/authority.py:184-226 | the snapshot, its log fact, its failure, and the end of admission |
| `Authorities.SessionAuthority.FinishControlExit` | python/zephyr_remote_openocd/controller/authority.py:249-266 | final accounting and then the deferred refusals, as the specification orders them |
| `Authorities.SessionAuthority.ProjectResult` | python/zephyr_remote_openocd/controller/authority.py:165-182 | the selected failure and the log facts attached to it |
| `Authorities.SessionAuthority.OperationStatus` | python/zephyr_remote_openocd/controller/authority.py:289-298 | the primary failure, nothing yet, or the child's status |
| `Authorities.SessionAuthority.ResolveEffectFailure` | python/zephyr_remote_openocd/controller/authority.py:300-304 | a failed effect is recorded and the selected failure returned |
| `Authorities.SessionAuthority.AdmitWork` | python/zephyr_remote_openocd/controller/authority.py:315-343 | the answer and the new state of dependent-work admission |
| `Authorities.SessionAuthority.AdmitHelperEffect` | python/zephyr_remote_openocd/controller/authority.py:345-354 | the answer for staging and START |
| `Authorities.SessionAuthority.AdmitStartWrite` | python/zephyr_remote_openocd/controller/authority.py:356-370 | further START bytes, a wait, or a refusal |
| `Workspaces.StageStep` | python/zephyr_remote_openocd/helper/_workspace.py:48-61 | every step of a stager keeps the protocol's invariant |
| `Workspaces.RemoveStep` | python/zephyr_remote_openocd/helper/_workspace.py:64-97 | every step of a remover keeps it |
| `Workspaces.ReclaimStep` | python/zephyr_remote_openocd/helper/_workspace.py:100-155 | every step of a reclaimer, and a crash anywhere, keeps it |
| `Workspaces.NobodyStages` | python/zephyr_remote_openocd/helper/_workspace.py:64-91 | nobody stages while a remover holds the lease, whatever inode it holds |
| `Workspaces.EveryRun` | python/zephyr_remote_openocd/helper/_workspace.py:48-155 | the invariant holds over every interleaving of any number of processes |
| `Workspaces.StagesExcludeRemoval` | python/zephyr_remote_openocd/helper/_workspace.py:48-97 | no admitted stage overlaps removal of its workspace, and no child may be running when a tree is removed |
| `Workspaces.ClosureIsFinal` | python/zephyr_remote_openocd/helper/_workspace.py:48-61 | once closure is published, by the live session, a remover or a reclaimer, no later admission check succeeds, even for a stage that locked an inode since unlinked |
| `Workspaces.StaleLeaseMeansNoTree` | python/zephyr_remote_openocd/helper/_workspace.py:86-91 | a locked lease inode may be unlinked and replaced only after the tree is gone |
| `Workspaces.StageExactly` | python/zephyr_remote_openocd/helper/_workspace.py:48-61 | whatever others do between its calls, an upload is admitted if and only if the lease existed when opened, nobody held that inode exclusively when locked, closure was absent and the tree there when looked for |
| `Workspaces.AloneStageExactly` | python/zephyr_remote_openocd/helper/_workspace.py:48-61 | an idle process that stages uninterrupted is admitted if and only if the lease exists, nobody holds its inode exclusively, closure is absent and the tree is there |
| `Workspaces.RemoverGetsTheLock` | python/zephyr_remote_openocd/helper/_workspace.py:71-80 | a remover that waits gets the lease exactly when every holder is gone, whatever others did meanwhile |
| `Workspaces.RemovalStarts` | python/zephyr_remote_openocd/helper/_workspace.py:64-71 | a removal starts with the owner that releases its workspace, and publishes closure before it opens the lease |
| `Workspaces.RemovalCompletes` | python/zephyr_remote_openocd/helper/_workspace.py:81-97 | with the lock and no error a removal takes the tree, the closure marker and the lease, and lets go |
| `Workspaces.ReclaimExactly` | python/zephyr_remote_openocd/helper/_workspace.py:100-155 | a reclaimer removes a workspace exactly when it is there, its owner is known gone or its lock file missing, and no marker of an unconfirmed child is left |
| `Workspaces.RetireExactly` | python/zephyr_remote_openocd/helper/_workspace.py:120-134 | orphaned metadata is retired exactly where there is no workspace |
| `Workspaces.OwnerRunsChild` | python/zephyr_remote_openocd/helper/_session.py:358-367 | a live owner can run a child, which is marked as long as it runs, and can release only once it is gone |
| `Notifiers.Notifier.Notify` | python/zephyr_remote_openocd/controller/waiting.py:111-117 | an open notifier has a wakeup pending afterwards, a full pipe included |
| `Notifiers.Notifier.Drain` | python/zephyr_remote_openocd/controller/waiting.py:123-131 | nothing is left to read |
| `Notifiers.StepKeeps` | python/zephyr_remote_openocd/controller/waiting.py:92-131 | each publication, notification, snapshot, wait and drain keeps the no-lost-wakeup invariant |
| `Notifiers.EveryRun` | python/zephyr_remote_openocd/controller/waiting.py:92-131 | over every interleaving of any number of producers a stale snapshot has a wakeup pending or about to be sent |
| `Notifiers.BlockedMeansCurrent` | python/zephyr_remote_openocd/controller/waiting.py:195-287 | a consumer that stays blocked has seen the current state, and a woken one looks again at it |
| `Notifiers.DrainAfterLookingLoses` | python/zephyr_remote_openocd/controller/waiting.py:269-271 | draining after the look instead would lose a wakeup |
| `TclWords.ReplaceExtends` | python/zephyr_remote_openocd/protocol/tcl.py:8-10 | one more whole-string replacement extends the one-pass escape by one character |
| `TclWords.TclQuote` | python/zephyr_remote_openocd/protocol/tcl.py:6-11 | the chain of replacements is the one-pass escape between quotes |
| `TclWords.QuotedParses` | python/zephyr_remote_openocd/protocol/tcl.py:6-11 | Tcl reads the quoted word, whatever follows, as exactly the original value, with nothing substituted |
| `TclWords.QuotedIsPrefixFree` | python/zephyr_remote_openocd/protocol/tcl.py:6-11 | quoting is injective, and quoted words stay separable from what follows |
| `Arguments.PlacementExactly` | python/zephyr_remote_openocd/protocol/arguments.py:84-95 | the log channel is requested by exactly one argument that is one complete Tcl word naming it; every other mention is refused |
| `Arguments.RenderParts` | python/zephyr_remote_openocd/protocol/arguments.py:98-109 | the rendering loop computes the concatenation, or reports a missing replacement |
| `Arguments.MaterializeArgv` | python/zephyr_remote_openocd/protocol/arguments.py:119-142 | only templated positions at or after the literal prefix change, each to its template's rendering |
| `Arguments.ValidPlacementMaterializes` | python/zephyr_remote_openocd/protocol/arguments.py:119-142 | a valid placement always materialises when the channel is supplied exactly if requested |
| `Arguments.RenderedWordIsSeparable` | python/zephyr_remote_openocd/protocol/arguments.py:98-109 | a rendered Tcl word is read back as its text, separable from the parts after it |
| `Commands.ParseArgvTemplates` | python/zephyr_remote_openocd/protocol/commands.py:129-149 | the loop with its seen set accepts exactly well-formed templates with distinct indexes in range |
| `Commands.TemplateRoundTrip` | python/zephyr_remote_openocd/protocol/arguments.py:59-67 | template trees survive the wire |
| `Commands.PathTemplateRoundTrip` | python/zephyr_remote_openocd/protocol/commands.py:110-113 | path templates without Tcl words survive the wire as plain parts |
| `Commands.PathsRoundTrip` | python/zephyr_remote_openocd/protocol/commands.py:182-203 | required paths survive, with the same templates for the placement check |
| `Commands.VariablesExactly` | python/zephyr_remote_openocd/protocol/commands.py:275-309 | with unique names the environment on the wire is exactly the specified pairs |
| `Commands.StartRoundTrip` | python/zephyr_remote_openocd/protocol/commands.py:206-252 | every valid specification with valid listeners and hint encodes, and decodes to the request it stands for |
| `Commands.DecodedIsWellFormed` | python/zephyr_remote_openocd/protocol/commands.py:206-252 | whatever decodes is well formed, whoever sent it |
| `Commands.DecodedMaterializes` | python/zephyr_remote_openocd/helper/_session.py:332-340 | a decoded request always materialises |
| `Terminals.DiagnosticRoundTrip` | python/zephyr_remote_openocd/protocol/wire.py:172-182 | a diagnostic tree of any depth reads back exactly when no code in it is empty |
| `Terminals.TerminalRoundTrip` | python/zephyr_remote_openocd/protocol/wire.py:246-289 | decoding inverts printing on every valid snapshot whose codes are present, and terminal_fields accepts exactly those |
| `Terminals.DecodedIsValid` | python/zephyr_remote_openocd/protocol/wire.py:246-277 | whatever decodes is a snapshot every constructor accepted, with no empty code |
| `ChildOutputs.DecodeAppend` | python/zephyr_remote_openocd/helper/_child_output.py:24-27 | incremental decoding does not depend on where the bytes are cut |
| `ChildOutputs.OutputDecoder.Feed` | python/zephyr_remote_openocd/helper/_child_output.py:29-45 | writing a chunk's fragments reproduces its decoded text; every fragment is valid and bounded; nothing stays pending |
| `ChildOutputs.DecodeStream` | python/zephyr_remote_openocd/helper/_child_output.py:29-45 | for every chunking the fragments write out the decoded text of all bytes and the final flush |
| `ChildOutputs.SoundIsValid` | python/zephyr_remote_openocd/protocol/wire.py:329-337 | a bounded fragment is sound exactly when it is a valid CHILD_OUTPUT |
| `ChildOutputs.FragmentsFit` | python/zephyr_remote_openocd/protocol/wire.py:132-148 | the text of every relayed fragment is one line of printable ASCII below the frame limit (section 7 of RFC 8259) |
| `ChildOutputs.PayloadReadsBack` | python/zephyr_remote_openocd/protocol/wire.py:132-148 | an independent JSON string reader gets every payload back, control characters and surrogate pairs included |
| `ChildOutputs.FrameHoldsPayload` | python/zephyr_remote_openocd/protocol/wire.py:132-148 | the payload read from a frame's text is the fragment's |
| `Manifests.NamesExactly` | python/zephyr_remote_openocd/protocol/responses.py:60-69 | the name checks accept exactly the names of valid paths |
| `Manifests.JoinSplit` | python/zephyr_remote_openocd/helper/staging.py:20-28 | names and component lists are the same thing |
| `Manifests.ValidateManifest` | python/zephyr_remote_openocd/controller/staging.py:46-63 | the controller's check raises exactly on a duplicate destination or a file above another entry |
| `Manifests.ValidMember` | python/zephyr_remote_openocd/helper/staging.py:20-38 | which archive members are refused, and the entry of the others |
| `Manifests.ValidateArchive` | python/zephyr_remote_openocd/helper/staging.py:55-79 | the helper's check accepts exactly archives of valid members without duplicates or file ancestors, none of whose targets resolves out of the staging root through a link already there |
| `Manifests.UnlinkedIsContained` | python/zephyr_remote_openocd/helper/staging.py:55-79 | without links, no readable member escapes the staging root |
| `Manifests.ArchiveExactly` | python/zephyr_remote_openocd/helper/staging.py:55-79 | the helper accepts the archive of a manifest exactly when the controller would and every path is valid, and reads back the same entries |
| `Manifests.ResponseExactly` | python/zephyr_remote_openocd/protocol/responses.py:37-75 | the answer about a manifest is accepted under the same condition |
| `Manifests.ChecksAgree` | python/zephyr_remote_openocd/protocol/responses.py:37-75 | helper and response checks agree on every manifest, and with the controller's check exactly on valid paths |
| `Manifests.NulIsCaughtLate` | python/zephyr_remote_openocd/controller/staging.py:46-63 | a concrete destination with a NUL that only the two later checks refuse |
| `Paths.Shrinks` | python/zephyr_remote_openocd/controller/paths.py:126-131 | the walk's measure: directories not yet on the stack |
| `Paths.WalkDirOk` | python/zephyr_remote_openocd/controller/paths.py:126-147 | whatever the links, a walk that succeeds stages distinct valid destinations with no file above another |
| `Paths.WalkCovers` | python/zephyr_remote_openocd/controller/paths.py:126-147 | a successful walk stages every canonical path below its root at the corresponding place |
| `Paths.WalkExactly` | python/zephyr_remote_openocd/controller/paths.py:126-147 | a walk is refused if and only if some route from its directory ends at a broken or escaping link, a special entry or a directory it is in already; otherwise it stages exactly what each route of names leads to, through whatever links |
| `Paths.ResolveRoots` | python/zephyr_remote_openocd/config.py:261-278 | existing roots by file identity; refused exactly when two of them reach the same object |
| `Paths.MappedIsNearest` | python/zephyr_remote_openocd/controller/paths.py:56-62 | the mapping applied is that of the nearest ancestor whose file identity is a mapped root |
| `Paths.RootsApply` | python/zephyr_remote_openocd/controller/paths.py:56-62 | an answer computed from the resolved roots is right by the configured mappings |
| `Paths.NewTree` | python/zephyr_remote_openocd/controller/paths.py:93-98 | a tree under an unused namespace keeps the manifest sound |
| `Paths.NewFile` | python/zephyr_remote_openocd/controller/paths.py:113-116 | a file under an unused namespace keeps the manifest sound |
| `Paths.PathPlanner.Walk` | python/zephyr_remote_openocd/controller/paths.py:126-147 | the walk terminates on every finite file system with links, and stages exactly the specified entries or refuses |
| `Paths.PathPlanner.WalkEntry` | python/zephyr_remote_openocd/controller/paths.py:134-147 | broken, escaping, cyclic and special entries are refused; the rest is staged under its own name |
| `Paths.PathPlanner.ExistingStaged` | python/zephyr_remote_openocd/controller/paths.py:69-78 | the staged place of a path by the most specific staged root |
| `Paths.PathPlanner.ExistingIsStaged` | python/zephyr_remote_openocd/controller/paths.py:69-78 | a path inside a staged root is in the manifest already, with its own kind |
| `Paths.PathPlanner.PlanDirectory` | python/zephyr_remote_openocd/controller/paths.py:80-98 | mapped, already staged or walked; a staged answer names a directory of the manifest |
| `Paths.PathPlanner.PlanFile` | python/zephyr_remote_openocd/controller/paths.py:100-116 | mapped, already staged or staged anew; a staged answer names a file of the manifest |
| `Paths.PlanSession` | python/zephyr_remote_openocd/openocd/command.py:44-61 | a whole plan has a manifest every check accepts; a source below a configured root is answered by its place under the nearest one, any other is staged and its answer names an entry of the manifest, of the right kind; it is refused only for roots that reach the same object, a source that is not there, or an unmapped directory with an obstacle on some route, and always for the first two |
| `Paths.PlannedIsAccepted` | python/zephyr_remote_openocd/controller/staging.py:46-63 | what the planner stages, the helper extracts unchanged and the response check accepts |

## Left out

- JSON text: except for the text of CHILD_OUTPUT, messages are trees whose field names and enumerated words are constructors, and the text is a codec that inverts itself on bounded frames.
- Number rendering: an integer timeout converts to a float by a function that is a parameter, and a fraction stands for the float it is.
- UTF-8: the incremental decoder is any state machine with one step per byte and a flush; that the real one is such a machine is not proved.
- Processes, pidfds, sockets, signals, terminals and asyncio scheduling: each is an answer or an observation that may be anything at any step; the two cleanup paths of a failed task creation are merged into one answer.
- Time: deadlines are events that may come at any step; nothing is claimed about durations, polling intervals or the age that makes a workspace stale.
- Output without a descriptor: the in-memory protocol output of tests has no writer, and is not modelled.
- Message wording and exception notes: a diagnostic of the helper is its code; only the order and identity of failures, and which log facts are attached, are kept.
- Readiness artifact: what its files say is an answer; its own parsing is not part of this model.
- Address allocation: an allocated address is any usable loopback address; which ports are probed is not modelled.
- File contents: tar bytes, SHA-256 and extraction modes; where an extraction target resolves is an answer.
- HelperConnection: waiting for created and ready, shutdown of the SSH process and the byte budget of the final observation are not modelled.
- SessionAuthority: the published allocation and ready address, take_unreported_failure and resolve_optional_failure appear in the specification function only, not as methods.
- SSH argv, deployment, the preferred-address cache, configuration files, CMake and setup scripts, Zephyr adapters, flash and debug command construction, RTT: plumbing that would add only easy members.
- Workspaces.StagesExcludeRemoval: one workspace, because the lease, closure and lock of another share no state with it; allocation starts with the lease file in place.
- HelperSessions.HelperSession.SpawnChild: the address, the arguments and the paths are answers here; that a decoded request materialises is Commands.DecodedMaterializes.
- HelperSessions.HelperSession.PublishEnd: local diagnostics are those of the terminal's admission and drain; cancelling the writer afterwards, closing the output and restoring signals can add more.
- EndToEnd.Converse: what a controller that asked for the log makes of a helper that never handled START is EndToEnd.UnhandledStart.
- Controllers.OperationStatusIsTrue: that a helper announces no attempt before it handled START is part of what a helper session admits, and START reaches it only once written; here both are the condition on accepting ATTEMPT.
- HelperSessions.HelperSession.Launch: a session whose writer cannot be started writes nothing, and the model leaves open what it writes; failing to create the task group or the protocol output ends the process before the session and is not followed.
- HelperSessions.RunSession: when the second coordinator also raises, or the turns run out, the session is followed no further than what it has admitted.
- Paths.PathPlanner.Walk: children are visited in the order the model lists them, which stands for the sorted order; after a refusal the partly filled manifest is not described.
- Paths.PlanSession: the runner plans its search directories shortest path first; the order given is any order.
