/**
 * The coordinator of helper/_session.py. Each owner the coordinator drives
 * (lifecycle, protocol output, log relay) is held as the value its class was
 * proved to compute; what the operating system answers is a parameter.
 */
module HelperSessions {
  import opened Base
  import opened Outcomes
  import opened Lifecycle
  import opened Events
  import opened Streams
  import opened Relaying
  import opened Controls
  import opened SessionFacts
  import Framing

  datatype Stream = Stdout | Stderr

  const BOTH := {Stdout, Stderr}

  /** What is known of an attempt's spawning: that it has not begun, that it is under way, or its answer. */
  datatype Spawning = NotYet | Underway | Answered(spawn: Spawn)

  type pid = n: int | n >= 1 witness 1

  type loopback = n: nat | UsableAddress(n) witness LOOPBACK_FIRST + 1

  type text = s: string | Text(s) witness "w"

  /** helper/_process.py SupervisedProcess, as the coordinator reads it. */
  datatype Child = Child(
    pid: pid,
    terminationRequested: bool,
    returncode: Option<int>,
    groupDisposed: bool,
    finished: set<Stream>)

  /** Only the drained streams of a child may differ. */
  ghost predicate SameChild(a: Option<Child>, b: Option<Child>) {
    && a.Some? == b.Some?
    && (a.Some? ==> b.value == a.value.(finished := b.value.finished) && a.value.finished <= b.value.finished)
  }

  function Without<T>(s: seq<T>, i: nat): seq<T>
    requires i < |s|
  {
    s[..i] + s[i + 1..]
  }

  /** Facts retained by signal handlers and observers until the coordinator accounts them. */
  datatype Inbox = Inbox(signal: Notice, leaseLoss: Notice, failures: seq<ObserverFailure>, control: Control)

  datatype ChildCleanup = NotBegun | Disposing | Cleaned

  /** There are no other streams. */
  lemma AllStreams(streams: set<Stream>)
    ensures BOTH <= streams ==> streams == BOTH
  {
    forall x | x in streams
      ensures x in BOTH
    {
      assert x.Stdout? || x.Stderr?;
    }
  }

  /** Which observer failed. */
  datatype Source = FromControl | FromOutput | FromLog | FromStream(stream: Stream) | FromOther

  datatype ObserverFailure = ObserverFailure(source: Source, forChild: bool)

  /** Where an attempt's preparation stops, or what it produced. */
  datatype Prepared =
    | NoAddress
    | BadArguments
    | MissingPath
    | EntriesFailed(readinessCreated: bool, channelCreated: bool)
    | Prepared

  datatype Spawn =
    | NoProcess
    | RolledBack(confirmed: bool, requested: bool, returncode: Option<int>)
    | Interrupted(pid: pid, confirmed: bool, requested: bool)
    | Spawned(pid: pid)

  datatype Poll = Alive | Exited(returncode: int) | PollRaised

  /** Readiness evidence as inspected, the child's poll, and a signal that arrives meanwhile. */
  datatype Inspection = Inspection(names: Option<seq<string>>, poll: Poll, signal: bool)

  datatype AttemptAnswers = AttemptAnswers(
    prepared: Prepared,
    address: loopback,
    argv: seq<string>,
    signal: bool,
    spawn: Spawn,
    closed: set<Stream>,
    unobserved: set<Stream>,
    exitUnobserved: bool,
    inspection: Inspection)

  datatype Observation =
    | StartReceived(request: Request, answers: AttemptAnswers)
    | ControlEOF
    | SignalReceived
    | ObservationFailed(index: nat)
    | ChildText(stream: Stream, fragments: seq<Event>, last: bool)
    | LogChunk(chunk: bytes)
    | LogCredit
    | LogReaderStopped
    | LogDeadlineReached
    | ReadinessPoll(inspection: Inspection)
    | ChildExited(returncode: int)
    | GroupCleaned(failed: bool, observerFails: bool)
    | ReadinessDeadline(inspection: Inspection)
    | OutputDeadline

  /** Which of the session's first tasks cannot be started: its writer, or anything after the announcement. */
  datatype Launching = Launching(writerFails: bool, observersFail: bool)

  /** What other tasks, the kernel and the writer did while the coordinator waited. */
  datatype World = World(
    signal: bool,
    control: seq<bytes>,
    failures: seq<ObserverFailure>,
    writes: seq<WriteResult>,
    creditPublished: bool,
    logReadFails: bool,
    requested: bool,
    returncode: Option<int>,
    disposed: bool)

  /** Which of the session's paths exist, and whether it still holds its lock. */
  datatype Disk = Disk(work: bool, lease: bool, closure: bool, lock: bool)

  /** One cancelled task: what happened while it was awaited, its error, and which recorded failure was its own. */
  datatype Cancelled = Cancelled(world: World, fails: bool, own: Option<nat>)

  /** How settling an attempt went. */
  datatype Settling = Settling(
    cancelled: seq<Cancelled>,
    streamsFail: bool,
    observersSettled: bool,
    pipesClosed: bool,
    leaseCloseFails: bool)

  /** One turn of the coordinator: the answers to its own effects, then what it waits for. */
  datatype Turn = Turn(
    readinessFails: bool,
    drainTaskFails: bool,
    closureFails: bool,
    cleanupTaskFails: bool,
    groupFails: bool,
    groupDisposed: bool,
    closed: set<Stream>,
    unobserved: set<Stream>,
    deadlineFails: bool,
    settling: Settling,
    world: World,
    observation: Observation)

  datatype Coordinated = Returned | Raising | Waiting

  datatype Removal = Removed | NotRemoved(workLeft: bool, leaseLeft: bool, closureLeft: bool)

  /** How releasing the workspace went. */
  datatype Releasing = Releasing(
    leaseCloseFails: bool,
    readinessFails: bool,
    readerRunning: bool,
    channelCloseFails: bool,
    channelLeftOpen: bool,
    closureFails: bool,
    markerFails: bool,
    removal: Removal,
    lockFails: bool)

  /** Which path inspections fail while the report is built, a signal meanwhile, and the last drain's writes. */
  datatype Ending = Ending(
    workFails: bool,
    leaseFails: bool,
    closureFails: bool,
    signal: bool,
    writes: seq<WriteResult>)

  /** The input's fault, the output's, or the helper's own. */
  function TriggerOf(source: Source): Trigger {
    match source
    case FromControl => ProtocolFailure
    case FromOutput => OutputFailure
    case _ => HelperFailure
  }

  /** An observer failure counts unless its child was given up. */
  predicate Counts(failure: ObserverFailure, hasChild: bool) {
    !failure.forChild || hasChild
  }

  /** What accounting records for observer failures, in order. */
  function DueFailures(failures: seq<ObserverFailure>, hasChild: bool): seq<Diagnostic> {
    if |failures| == 0 then []
    else (if Counts(failures[0], hasChild) then [Fault(ObserverError)] else []) + DueFailures(failures[1..], hasChild)
  }

  /** What accounting records: a new signal, a lost lease, and every observer failure that counts. */
  function Due(inbox: Inbox, hasChild: bool): seq<Diagnostic> {
    (if inbox.signal.Pending? then [Fault(RemoteSignal)] else []) +
    (if inbox.leaseLoss.Pending? then [Fault(ControllerLeaseLost)] else []) +
    DueFailures(inbox.failures, hasChild)
  }

  /** Why accounting ends a session that goes on: the first thing there is to account. */
  function DueReason(inbox: Inbox, hasChild: bool): Trigger {
    if inbox.signal.Pending? then Signal
    else if inbox.leaseLoss.Pending? then ControllerEof
    else FirstReason(inbox.failures, hasChild)
  }

  function FirstReason(failures: seq<ObserverFailure>, hasChild: bool): Trigger {
    if |failures| == 0 then HelperFailure
    else if Counts(failures[0], hasChild) then TriggerOf(failures[0].source)
    else FirstReason(failures[1..], hasChild)
  }

  /** Evidence counts for a live server's adopted child that has not exited. */
  predicate Observing(s: Phase) {
    s.Starting? && s.request.policy.LiveServer? && s.attempt.Owned? && s.attempt.childResult.None?
  }

  /** The requested evidence among some names. */
  function Known(s: Phase, names: seq<string>): set<string>
    requires s.Starting?
  {
    set name | name in names && name in s.request.evidence
  }

  /** Whether an inspection completes a starting session's evidence. */
  predicate Completes(s: Phase, readiness: bool, i: Inspection)
    requires s.Starting?
  {
    || s.request.evidence == []
    || (readiness && i.names.Some? && EvidenceComplete(s.request, s.evidence + Known(s, i.names.value)))
  }

  /** Nothing waits to be accounted. */
  predicate Quiet(inbox: Inbox) {
    !inbox.signal.Pending? && !inbox.leaseLoss.Pending? && inbox.failures == []
  }

  /** What is owned after an outcome of spawning. */
  function AcquisitionOf(spawn: Spawn): Acquisition {
    match spawn
    case NoProcess => Acquisition(false, false, true, false)
    case RolledBack(confirmed, _, _) => Acquisition(true, false, true, confirmed)
    case Interrupted(_, confirmed, _) => Acquisition(true, true, true, confirmed)
    case Spawned(_) => Acquisition(true, true, true, false)
  }

  function FirstOf(told: seq<ChildResult>): Option<ChildResult> {
    if told == [] then None else Some(told[0])
  }

  /** The child an answer leaves: a spawned one, or one whose spawning was interrupted after it was made. */
  function ChildOf(spawn: Spawn): Option<Child> {
    match spawn
    case NoProcess => None
    case RolledBack(_, _, _) => None
    case Interrupted(pid, _, requested) => Some(Child(pid, requested, None, false, {}))
    case Spawned(pid) => Some(Child(pid, false, None, false, {}))
  }

  /** What an answer says about what is owned. */
  predicate AnswerFits(spawn: Spawn, owned: Acquisition) {
    && owned.producerQuiescent
    && match spawn
       case NoProcess => !owned.process && !owned.hasChild
       case RolledBack(confirmed, _, _) => owned.process && !owned.hasChild && owned.rollbackConfirmed == confirmed
       case Interrupted(_, confirmed, _) => owned.process && owned.hasChild && owned.rollbackConfirmed == confirmed
       case Spawned(_) => owned.process && owned.hasChild && !owned.rollbackConfirmed
  }

  /** The producer is quiet, the group is gone, and nobody and nothing holds the child's streams any more. */
  predicate FullySettled(settlement: Option<Settlement>) {
    && settlement.Some?
    && settlement.value.producerQuiescent && settlement.value.groupDisposed
    && settlement.value.observersSettled && settlement.value.pipesClosed
  }

  /**
   * Nothing of a child can be left: there was none, taking it back was
   * confirmed when spawning failed, or it was settled completely. A child that
   * was spawned can only be settled.
   */
  predicate NothingLeft(spawning: Spawning, settlement: Option<Settlement>) {
    match spawning
    case NotYet => true
    case Underway => false
    case Answered(NoProcess) => true
    case Answered(RolledBack(confirmed, _, _)) => confirmed
    case Answered(Interrupted(_, confirmed, _)) => confirmed || FullySettled(settlement)
    case Answered(Spawned(_)) => FullySettled(settlement)
  }

  /** A process was made. */
  predicate HadProcess(spawning: Spawning) {
    spawning.Answered? && !spawning.spawn.NoProcess?
  }

  /** What a report may say of the child: nothing confirms it but what spawning answered and how it was settled. */
  function ChildStatus(spawning: Spawning, settlement: Option<Settlement>, lease: bool): ChildDisposal {
    if !NothingLeft(spawning, settlement) || lease then ChildUnconfirmed
    else if HadProcess(spawning) then ChildConfirmed
    else ChildNotAcquired
  }

  /** A descriptor of the log stays open: its reader runs on, or closing left one. */
  predicate LogOpen(relay: Option<Relay>, a: Releasing) {
    relay.Some? && (a.readerRunning || a.channelLeftOpen)
  }

  /**
   * Whether the workspace's tree stays: it is removed only when nothing of the
   * child is left, its address is free and the log is closed, and then unless
   * the removal itself leaves it.
   */
  predicate TreeStays(gone: bool, lease: bool, open: bool, a: Releasing) {
    !gone || lease || open || (a.removal.NotRemoved? && a.removal.workLeft)
  }

  /** What is owned, and how it was settled, against what spawning answered. */
  predicate OwnedAs(spawning: Spawning, owned: Option<Acquisition>, settlement: Option<Settlement>) {
    && (spawning.NotYet? <==> owned.None?)
    && (spawning.Underway? ==> owned == Some(Acquisition(false, false, false, false)))
    && (spawning.Answered? ==> AnswerFits(spawning.spawn, owned.value))
    && (settlement.Some? ==> spawning.Answered? && (spawning.spawn.Interrupted? || spawning.spawn.Spawned?))
  }

  /** The exit status an answer, an observation or another task's report mentions. */
  function PollStatus(i: Inspection): Option<int> {
    if i.poll.Exited? then Some(i.poll.returncode) else None
  }

  function SpawnStatus(spawn: Spawn): Option<int> {
    if spawn.RolledBack? then spawn.returncode else None
  }

  predicate ObservationSays(o: Observation, status: int) {
    match o
    case StartReceived(_, a) => SpawnStatus(a.spawn) == Some(status) || PollStatus(a.inspection) == Some(status)
    case ReadinessPoll(i) => PollStatus(i) == Some(status)
    case ReadinessDeadline(i) => PollStatus(i) == Some(status)
    case ChildExited(returncode) => returncode == status
    case _ => false
  }

  predicate TurnSays(t: Turn, status: int) {
    t.world.returncode == Some(status) || ObservationSays(t.observation, status)
  }

  /** A status reported in the turns of a session, or after the last of them. */
  ghost predicate Says(turns: seq<Turn>, last: World, status: int) {
    (exists i | 0 <= i < |turns| :: TurnSays(turns[i], status)) || last.returncode == Some(status)
  }

  /** A status, if there is one, is among some. */
  ghost predicate Among(status: Option<int>, statuses: iset<int>) {
    status.Some? ==> status.value in statuses
  }

  ghost predicate ObservationAmong(o: Observation, statuses: iset<int>) {
    match o
    case StartReceived(_, a) => Among(SpawnStatus(a.spawn), statuses) && Among(PollStatus(a.inspection), statuses)
    case ReadinessPoll(i) => Among(PollStatus(i), statuses)
    case ReadinessDeadline(i) => Among(PollStatus(i), statuses)
    case ChildExited(returncode) => returncode in statuses
    case _ => true
  }

  ghost predicate TurnAmong(t: Turn, statuses: iset<int>) {
    Among(t.world.returncode, statuses) && ObservationAmong(t.observation, statuses)
  }

  ghost predicate TurnsAmong(turns: seq<Turn>, statuses: iset<int>) {
    forall i | 0 <= i < |turns| :: TurnAmong(turns[i], statuses)
  }

  /** What the turns of a session report is among what they say. */
  lemma SaidIsAmong(turns: seq<Turn>, last: World)
    ensures TurnsAmong(turns, iset n: int | Says(turns, last, n))
    ensures Among(last.returncode, iset n: int | Says(turns, last, n))
  {
    var all := iset n: int | Says(turns, last, n);
    forall i | 0 <= i < |turns|
      ensures TurnAmong(turns[i], all)
    {
      assert forall n: int | TurnSays(turns[i], n) :: n in all;
      TurnIsAmong(turns[i], all);
    }
  }

  lemma TurnIsAmong(t: Turn, all: iset<int>)
    requires forall n: int | TurnSays(t, n) :: n in all
    ensures TurnAmong(t, all)
  {
    if t.world.returncode.Some? {
      assert TurnSays(t, t.world.returncode.value);
    }
    match t.observation
    case StartReceived(_, a) =>
      assert SpawnStatus(a.spawn).Some? ==> TurnSays(t, SpawnStatus(a.spawn).value);
      assert PollStatus(a.inspection).Some? ==> TurnSays(t, PollStatus(a.inspection).value);
    case ReadinessPoll(i) => assert PollStatus(i).Some? ==> TurnSays(t, PollStatus(i).value);
    case ReadinessDeadline(i) => assert PollStatus(i).Some? ==> TurnSays(t, PollStatus(i).value);
    case ChildExited(returncode) => assert TurnSays(t, returncode);
    case _ =>
  }

  /** Accounting the first failure leaves the record owing the rest. */
  lemma FirstDue(s: Phase, t: Phase, u: Phase, failures: seq<ObserverFailure>, hasChild: bool, due: seq<Diagnostic>)
    requires |failures| > 0 && Owes(s, t, DueFailures(failures, hasChild), due)
    requires Adds(t, u, if Counts(failures[0], hasChild) then [Fault(ObserverError)] else [])
    ensures Owes(s, u, DueFailures(Without(failures, 0), hasChild), due)
    ensures |DueFailures(failures, hasChild)| ==
            (if Counts(failures[0], hasChild) then 1 else 0) + |DueFailures(Without(failures, 0), hasChild)|
  {
    assert Without(failures, 0) == failures[1..];
    OwesLess(s, t, u, if Counts(failures[0], hasChild) then [Fault(ObserverError)] else [],
             DueFailures(failures[1..], hasChild), due);
  }

  /** One read of the control observer: what it publishes, and its own failure if it raises. */
  function Heard(d: Framing.Decoders, inbox: Inbox, chunk: bytes): Inbox {
    var next := Read(d, inbox.control, chunk);
    inbox.(leaseLoss := Raised(inbox.leaseLoss, Lost(d, next)),
           failures := inbox.failures +
                       if Raises(d, inbox.control, chunk) then [ObserverFailure(FromControl, false)] else [],
           control := next)
  }

  function HeardAll(d: Framing.Decoders, inbox: Inbox, chunks: seq<bytes>): Inbox
    decreases |chunks|
  {
    if |chunks| == 0 then inbox else HeardAll(d, Heard(d, inbox, chunks[0]), chunks[1..])
  }

  /** What is retained of what happened while the coordinator waited. */
  function Filled(d: Framing.Decoders, inbox: Inbox, w: World): Inbox {
    var heard := HeardAll(d, inbox, w.control);
    heard.(signal := Raised(heard.signal, w.signal), failures := heard.failures + w.failures)
  }

  lemma {:induction false} HeardAllKeeps(input: Input<Request>, s: Phase, request: Option<Request>, inbox: Inbox,
                                         chunks: seq<bytes>)
    requires Heeded(input, s, request, inbox.leaseLoss, inbox.control)
    ensures
      var next := HeardAll(input.Decoders(), inbox, chunks);
      Heeded(input, s, request, next.leaseLoss, next.control)
    decreases |chunks|
  {
    if |chunks| > 0 {
      HeedsRead(input, s, request, inbox.leaseLoss, inbox.control, chunks[0]);
      HeardAllKeeps(input, s, request, Heard(input.Decoders(), inbox, chunks[0]), chunks[1..]);
    }
  }

  /** What is retained once a cancelled task was awaited, its own failure taken out. */
  function CancelledInbox(d: Framing.Decoders, inbox: Inbox, t: Cancelled): Inbox {
    var filled := Filled(d, inbox, t.world);
    if t.own.Some? && t.own.value < |filled.failures|
    then filled.(failures := Without(filled.failures, t.own.value))
    else filled
  }

  /** What cancelling a task records: its error, then the failure it had recorded itself. */
  function CancelledDue(d: Framing.Decoders, inbox: Inbox, t: Cancelled, hasChild: bool): seq<Diagnostic> {
    var failures := Filled(d, inbox, t.world).failures;
    (if t.fails then [Fault(CleanupError)] else []) +
    if t.own.Some? && t.own.value < |failures| && Counts(failures[t.own.value], hasChild)
    then [Fault(ObserverError)]
    else []
  }

  function CancelInbox(d: Framing.Decoders, inbox: Inbox, tasks: seq<Cancelled>): Inbox
    decreases |tasks|
  {
    if |tasks| == 0 then inbox else CancelInbox(d, CancelledInbox(d, inbox, tasks[0]), tasks[1..])
  }

  /** What cancelling tasks records, task by task. */
  function CancelDue(d: Framing.Decoders, inbox: Inbox, tasks: seq<Cancelled>, hasChild: bool): seq<Diagnostic>
    decreases |tasks|
  {
    if |tasks| == 0 then []
    else
      CancelledDue(d, inbox, tasks[0], hasChild) +
      CancelDue(d, CancelledInbox(d, inbox, tasks[0]), tasks[1..], hasChild)
  }

  /** The first n of some fragments after what was admitted before. */
  lemma TakenPart(events: seq<Event>, fragments: seq<Event>, n: nat)
    requires n <= |fragments|
    ensures events <= events + fragments[..n] <= events + fragments
    ensures n == 0 ==> events + fragments[..n] == events
    ensures n < |fragments| ==> (events + fragments[..n]) + [fragments[n]] == events + fragments[..n + 1]
    ensures n == |fragments| ==> events + fragments[..n] == events + fragments
  {
    assert (events + fragments)[..|events| + n] == events + fragments[..n];
  }

  lemma EndAppended(events: seq<Event>, e: Event)
    requires e.SessionEnded?
    ensures HasEnd(events + [e]) && events <= events + [e] && (events + [e])[|events|] == e
    ensures events == [] ==> events + [e] == [e]
  {
    assert e in events + [e];
  }

  class HelperSession {
    const codec: SoundCodec
    const input: Input<Request>
    const helper: text
    const sessionId: text
    const work: text
    var lifecycle: Phase
    var request: Option<Request>
    var child: Option<Child>
    var acquisition: Option<Acquisition>
    var settlement: Option<Settlement>
    var childAcquired: bool
    var leaseHeld: bool
    var address: loopback
    var childCleanup: ChildCleanup
    var attemptFinished: bool
    var stagingClosed: bool
    var resourcesReleased: bool
    var outputAvailable: bool
    var readiness: bool
    var relay: Option<Relay>
    var logDrainStarted: bool
    var inbox: Inbox
    var output: Output
    var credits: nat
    var events: seq<Event>
    ghost var order: Order
    ghost var announced: bool
    ghost var spawning: Spawning
    ghost var told: seq<ChildResult>
    ghost const statuses: iset<int>
    var disk: Disk

    ghost function Now(): Trace
      reads this`events, this`request, this`relay, this`lifecycle
    {
      Trace(events, request, if relay.Some? then relay.value.decision else None, lifecycle)
    }

    /** The owners' invariants and how they fit together. */
    ghost predicate Sound()
      reads this`output, this`events, this`order, this`lifecycle, this`request, this`acquisition, this`relay
      reads this`announced
    {
      Owners(codec, output, events, order, lifecycle, request, acquisition, relay, announced)
    }

    /** What is held: the acquisition and its settlement, and the workspace until it is released. */
    ghost predicate Holdings()
      reads this`childAcquired, this`acquisition, this`settlement, this`resourcesReleased, this`disk
    {
      && childAcquired == Acquired(acquisition)
      && (childAcquired ==> acquisition.value.producerQuiescent)
      && (settlement.Some? ==> childAcquired && settlement.value.producerQuiescent)
      && (!resourcesReleased ==> disk.work && disk.lock)
    }

    /** How far the coordinator has come: what it does only while terminating, and with a child. */
    ghost predicate Stages()
      reads this`childAcquired, this`child, this`childCleanup, this`lifecycle, this`attemptFinished
      reads this`logDrainStarted
    {
      && (child.Some? ==> childAcquired && (lifecycle.Starting? ==> lifecycle.attempt.Owned?))
      && (!childCleanup.NotBegun? || attemptFinished ==> childAcquired && lifecycle.Terminating?)
      && (logDrainStarted ==> lifecycle.Terminating?)
    }

    /** The coordinator's own flags. */
    ghost predicate Flags()
      reads this`childAcquired, this`acquisition, this`child, this`childCleanup, this`lifecycle, this`settlement
      reads this`attemptFinished, this`logDrainStarted, this`resourcesReleased, this`disk
    {
      Holdings() && Stages()
    }

    ghost predicate Valid()
      reads this
    {
      Sound() && Flags() && Credited(relay, output, credits) && Heeding() && Answers()
    }

    /** What is known of the child: how it was spawned, which exits were told, and what it is to the lifecycle. */
    ghost predicate Answers()
      reads this`spawning, this`acquisition, this`settlement, this`lifecycle, this`told, this`child
      reads this`resourcesReleased
    {
      && OwnedAs(spawning, acquisition, settlement)
      && ToldOf(lifecycle, told, statuses)
      && (child.Some? ==> Among(child.value.returncode, statuses) && Made(child.value))
      && (child.Some? && !resourcesReleased ==> Attempting())
    }

    /** A child is the one that spawning answered. */
    ghost predicate Made(c: Child)
      reads this`spawning
    {
      spawning.Answered? && ChildOf(spawning.spawn).Some? && ChildOf(spawning.spawn).value.pid == c.pid
    }

    /** The attempt was entered and is not settled. */
    predicate Attempting()
      reads this`lifecycle
    {
      lifecycle.Current().Some? && lifecycle.Current().value.Unsettled()
    }

    /** What the session made of its control input. */
    ghost predicate Heeding()
      reads this`lifecycle, this`request, this`inbox
    {
      Heeded(input, lifecycle, request, inbox.leaseLoss, inbox.control)
    }

    constructor (codec: SoundCodec, input: Input<Request>, helper: text, sessionId: text, work: text,
                 ghost statuses: iset<int>)
      ensures this.statuses == statuses && spawning.NotYet?
      ensures Valid() && !announced && events == [] && this.codec == codec && this.input == input
      ensures !resourcesReleased && lifecycle.Created? && output == NewOutput() && request.None?
      ensures this.helper == helper && this.sessionId == sessionId && this.work == work
    {
      HeedsNothing(input);
      this.codec, this.input, this.helper, this.sessionId, this.work := codec, input, helper, sessionId, work;
      lifecycle, request, child, acquisition, settlement := Created, None, None, None, None;
      childAcquired, leaseHeld, address := false, false, LOOPBACK_FIRST + 1;
      childCleanup, attemptFinished, stagingClosed, resourcesReleased := NotBegun, false, false, false;
      outputAvailable, readiness, relay, logDrainStarted := true, false, None, false;
      inbox, output, credits, events := Inbox(Absent, Absent, [], NewControl()), NewOutput(), 0, [];
      order, announced := NewOrder(LiveServer, false), false;
      this.statuses, spawning, told := statuses, NotYet, [];
      disk := Disk(true, true, false, true);
    }

    /** Record a failure with the lifecycle. */
    method Fail(trigger: Trigger, code: Code)
      requires Valid() && !code.Other? && !code.ControllerLeaseLost? && !trigger.ChildExit?
      modifies this`lifecycle
      ensures Valid() && Failing(old(lifecycle), lifecycle) && Later(old(Now()), Now())
      ensures lifecycle.Terminating? && Adds(old(lifecycle), lifecycle, [Fault(code)]) && Failed(lifecycle)
      ensures EndedBy(old(lifecycle), lifecycle, trigger)
    {
      ghost var was := Now();
      FailKeeps(codec, output, events, order, lifecycle, trigger, code, request, acquisition, relay, announced);
      HeedsFail(input, lifecycle, trigger, code, request, inbox.leaseLoss, inbox.control);
      ExitedFailing(lifecycle, Terminated(lifecycle, trigger, Some(Fault(code))).phase, told, statuses);
      lifecycle := Terminated(lifecycle, trigger, Some(Fault(code))).phase;
      LaterLife(was, lifecycle);
    }

    method CleanupFailure()
      requires Valid()
      modifies this`lifecycle
      ensures Valid() && Failing(old(lifecycle), lifecycle) && Later(old(Now()), Now())
      ensures lifecycle.Terminating? && Adds(old(lifecycle), lifecycle, [Fault(CleanupError)]) && Failed(lifecycle)
      ensures EndedBy(old(lifecycle), lifecycle, HelperFailure)
    {
      Fail(HelperFailure, CleanupError);
    }

    /** An event that can be encoded and that the writer has room for. */
    predicate CanEmit(o: Output, e: Event) {
      Emitted(codec, o, e, false).Some?
    }

    /** Encode and admit one event other than LOG_DATA. */
    method Emit(e: Event) returns (raised: bool)
      requires Published(codec, output, events, order)
      requires Advance(order, e).Some? && !e.LogData?
      modifies this`output, this`events, this`order
      ensures Published(codec, output, events, order)
      ensures raised <==> Emitted(codec, old(output), e, false).None?
      ensures raised ==> output == old(output) && events == old(events) && order == old(order)
      ensures !raised ==> events == old(events) + [e] && Some(order) == Advance(old(order), e)
      ensures LogOf(events) == LogOf(old(events))
      ensures output.logPending == old(output).logPending && output.creditReturned == old(output).creditReturned
    {
      var next := Emitted(codec, output, e, false);
      if next.None? {
        return true;
      }
      EmitPublishes(codec, output, events, order, e, false);
      LogOfSnoc(events, e);
      output := next.value;
      events := events + [e];
      order := Advance(order, e).value;
      return false;
    }

    method Announce()
      requires Valid() && !announced && lifecycle.Created?
      modifies this`output, this`events, this`order, this`lifecycle, this`announced
      ensures Valid() && announced && LifeLater(old(lifecycle), lifecycle)
      ensures
        if Emitted(codec, old(output), SessionCreated(helper, sessionId, work), false).Some?
        then events == [SessionCreated(helper, sessionId, work)] && lifecycle.Created?
        else events == [] && lifecycle.Terminating?
    {
      ghost var was, o, k := output, events, order;
      Unannounced(codec, output, events, order, lifecycle, request, acquisition, relay);
      LifeLaterSteps(lifecycle, lifecycle, lifecycle);
      var raised := Emit(SessionCreated(helper, sessionId, work));
      if raised {
        Fail(OutputFailure, SessionAdmission);
      }
      MarkAnnounced(was, o, k);
    }

    ghost method MarkAnnounced(was: Output, o: seq<Event>, k: Order)
      requires Owners(codec, was, o, k, lifecycle, request, acquisition, relay, announced) && !announced
      requires Flags() && Credited(relay, output, credits) && Heeding() && Answers()
      requires Published(codec, output, events, order) && LogOf(events) == LogOf(o)
      requires if lifecycle.Rank() >= 3 then events == o && order == k
               else order == k.(created := true) && |events| == 1 && events[0].SessionCreated?
      modifies this`announced
      ensures Valid() && announced
    {
      AnnounceKeeps(codec, was, o, k, output, events, order, lifecycle, request, acquisition, relay);
      announced := true;
    }

    /** Start the session's tasks; without a writer there is no announcement, and a failed start terminates. */
    method Launch(l: Launching) returns (raised: bool)
      requires Valid() && !announced && lifecycle.Created? && events == [] && output == NewOutput()
      modifies this`output, this`events, this`order, this`lifecycle, this`announced
      ensures Valid() && announced
      ensures raised <==> l.writerFails || l.observersFail
      ensures raised ==> lifecycle.Terminating?
      ensures l.writerFails ==> events == []
      ensures !l.writerFails ==>
                events == if Emitted(codec, NewOutput(), SessionCreated(helper, sessionId, work), false).Some?
                          then [SessionCreated(helper, sessionId, work)] else []
    {
      if l.writerFails {
        Fail(HelperFailure, HelperError);
        Unannounced(codec, output, events, order, lifecycle, request, acquisition, relay);
        AnnounceKeeps(codec, output, events, order, output, events, order, lifecycle, request, acquisition, relay);
        announced := true;
        return true;
      }
      Announce();
      if l.observersFail {
        Fail(HelperFailure, HelperError);
      }
      return l.observersFail;
    }

    /** What pumping the relay, and then deciding if it is ready, comes to. */
    method Progressed() returns (r: Relay, o: Output, log: seq<Event>)
      requires Sound() && announced && relay.Some? && output.logPending < LOG_QUEUE_BOUND
      ensures LogProgressed(codec, relay.value, output, r, o, log) && PumpedOut(r, o)
      ensures Owners(codec, o, events + log, AfterLog(order, log), lifecycle, request, acquisition, Some(r), true)
      ensures relay.value.decision.Some? ==> r.decision == relay.value.decision
      ensures r.decision.Some? || r.reading || !r.finalPhase || r.buffer != []
      ensures r.channel == relay.value.channel
      ensures log != [] ==> !log[0].SessionCreated?
    {
      ProgressKeeps(codec, output, events, order, lifecycle, request, acquisition, relay.value, announced);
      var pumped := PumpAll(codec, relay.value, output);
      r := pumped.relay;
      if ReadyToDecide(r) {
        r := Decided(r, false, true);
      }
      return r, pumped.output, pumped.events;
    }

    /** The log's decision is made, or there is something left to wait for. */
    predicate DecidedInTime()
      reads this`relay
    {
      relay.Some? ==>
        relay.value.decision.Some? || relay.value.reading || !relay.value.finalPhase || relay.value.buffer != []
    }

    method LogProgress() returns (ghost log: seq<Event>)
      requires Sound() && Flags() && Heeding() && Answers() && announced && output.logPending < LOG_QUEUE_BOUND
      modifies this`relay, this`output, this`events, this`order
      ensures Valid() && Later(old(Now()), Now())
      ensures order.ready == old(order).ready && relay.Some? == old(relay).Some?
      ensures relay.Some? ==>
                && LogProgressed(codec, old(relay).value, old(output), relay.value, output, log)
                && PumpedOut(relay.value, output) && DecidedInTime()
                && events == old(events) + log
                && relay.value.channel == old(relay).value.channel
      ensures relay.None? ==> events == old(events) && output == old(output)
    {
      ghost var was := Now();
      LaterSteps(was, was, was);
      if relay.None? {
        return [];
      }
      log := PumpLog();
      LaterLog(was, log, relay.value.decision);
    }

    method PumpLog() returns (ghost log: seq<Event>)
      requires Sound() && Flags() && Heeding() && Answers() && announced && output.logPending < LOG_QUEUE_BOUND
      requires relay.Some?
      modifies this`relay, this`output, this`events, this`order
      ensures Valid() && order.ready == old(order).ready && relay.Some?
      ensures old(relay).value.decision.Some? ==> relay.value.decision == old(relay).value.decision
      ensures log != [] ==> !log[0].SessionCreated?
      ensures LogProgressed(codec, old(relay).value, old(output), relay.value, output, log)
      ensures PumpedOut(relay.value, output) && events == old(events) + log && DecidedInTime()
      ensures relay.value.channel == old(relay).value.channel
    {
      var r, o, admitted := Progressed();
      log := admitted;
      relay, output, events, order := Some(r), o, events + admitted, AfterLog(order, log);
    }

    method DecideRelay(deadline: bool)
      requires Valid() && relay.Some? && lifecycle.Terminating?
      requires childAcquired ==> deadline
      modifies this`relay
      ensures Valid() && Later(old(Now()), Now())
      ensures relay == Some(Decided(old(relay).value, deadline, deadline)) && relay.value.decision.Some?
    {
      ghost var was := Now();
      DecisionKeeps(codec, output, events, order, lifecycle, request, acquisition, relay.value, announced, deadline);
      relay := Some(Decided(relay.value, deadline, deadline));
      LaterLog(was, [], relay.value.decision);
    }

    /** Whether accounting an observer failure ends the session, and why. */
    ghost predicate Counted(failure: ObserverFailure, hasChild: bool, s: Phase, t: Phase) {
      if Counts(failure, hasChild) then EndedBy(s, t, TriggerOf(failure.source)) else t == s
    }

    /** Account one recorded observer failure, once. */
    method ObserverFailed(index: nat)
      requires Valid() && announced && index < |inbox.failures|
      modifies this`lifecycle, this`inbox, this`relay, this`output, this`events, this`order, this`child
      ensures Valid() && Later(old(Now()), Now()) && Failing(old(lifecycle), lifecycle)
      ensures inbox == old(inbox).(failures := Without(old(inbox).failures, index))
      ensures Adds(old(lifecycle), lifecycle,
                   if Counts(old(inbox).failures[index], old(child).Some?) then [Fault(ObserverError)] else [])
      ensures Counted(old(inbox).failures[index], old(child).Some?, old(lifecycle), lifecycle)
      ensures order.ready == old(order).ready && SameChild(old(child), child) && relay.Some? == old(relay).Some?
    {
      ghost var was := Now();
      LaterSteps(was, was, was);
      FailingSteps(lifecycle, lifecycle, lifecycle);
      AddsNothing(lifecycle, []);
      var failure := inbox.failures[index];
      inbox := inbox.(failures := Without(inbox.failures, index));
      if !failure.forChild || child.Some? {
        CountFailure(failure);
      }
    }

    /** An observer failure that counts: what it stops, and its record. */
    method CountFailure(failure: ObserverFailure)
      requires Valid() && announced && (failure.forChild ==> child.Some?)
      modifies this`lifecycle, this`relay, this`output, this`events, this`order, this`child
      ensures Valid() && Later(old(Now()), Now()) && Failing(old(lifecycle), lifecycle)
      ensures Adds(old(lifecycle), lifecycle, [Fault(ObserverError)])
      ensures EndedBy(old(lifecycle), lifecycle, TriggerOf(failure.source))
      ensures order.ready == old(order).ready && SameChild(old(child), child) && relay.Some? == old(relay).Some?
    {
      ghost var was := Now();
      ReportFailure(failure);
      ghost var mid := Now();
      Fail(TriggerOf(failure.source), ObserverError);
      LaterLife(mid, lifecycle);
      LaterSteps(was, mid, Now());
    }

    /** What a failed observer stops: its stream is finished, or its log reading. */
    method ReportFailure(failure: ObserverFailure)
      requires Valid() && announced && (failure.forChild ==> child.Some?)
      modifies this`relay, this`output, this`events, this`order, this`child
      ensures Valid() && Later(old(Now()), Now())
      ensures order.ready == old(order).ready && SameChild(old(child), child) && relay.Some? == old(relay).Some?
    {
      ghost var was := Now();
      LaterSteps(was, was, was);
      if failure.forChild && failure.source.FromStream? {
        child := Some(child.value.(finished := child.value.finished + {failure.source.stream}));
      }
      if failure.source.FromLog? && relay.Some? {
        FailRead();
        LaterLog(was, [], was.decision);
        ghost var mid := Now();
        var _ := LogProgress();
        LaterSteps(was, mid, Now());
      }
    }

    method FailRead()
      requires Valid() && relay.Some?
      modifies this`relay
      ensures Valid() && relay == Some(ReadFailed(old(relay).value))
      ensures relay.value.decision == old(relay).value.decision
    {
      var failed := ReadFailed(relay.value);
      ReadFailedKeeps(codec, output, events, order, lifecycle, request, acquisition, relay.value, announced);
      relay := Some(failed);
    }

    /** account_recorded_failures: the signal, the lost lease, then every observer failure. */
    method Account()
      requires Valid() && announced
      modifies this`lifecycle, this`inbox, this`relay, this`output, this`events, this`order, this`child
      ensures Valid() && Later(old(Now()), Now()) && Failing(old(lifecycle), lifecycle)
      ensures order.ready == old(order).ready && SameChild(old(child), child) && relay.Some? == old(relay).Some?
      ensures inbox == old(inbox).(signal := Noted(old(inbox).signal), leaseLoss := Noted(old(inbox).leaseLoss),
                                   failures := [])
      ensures Adds(old(lifecycle), lifecycle, Due(old(inbox), old(child).Some?))
      ensures Due(old(inbox), old(child).Some?) == [] <==> lifecycle == old(lifecycle)
      ensures Due(old(inbox), old(child).Some?) != [] ==>
                EndedBy(old(lifecycle), lifecycle, DueReason(old(inbox), old(child).Some?))
      ensures old(inbox).failures == [] ==>
                events == old(events) && relay == old(relay) && child == old(child) && output == old(output)
    {
      ghost var was, has, due := Now(), child.Some?, Due(inbox, child.Some?);
      ghost var reason := DueReason(inbox, has);
      LaterSteps(was, was, was);
      AccountSignals();
      AddsNothing(lifecycle, DueFailures(inbox.failures, has));
      while inbox.failures != []
        invariant Valid() && Later(was, Now()) && Failing(was.lifecycle, lifecycle)
        invariant order.ready == old(order).ready
        invariant SameChild(old(child), child) && relay.Some? == old(relay).Some?
        invariant inbox == old(inbox).(signal := Noted(old(inbox).signal), leaseLoss := Noted(old(inbox).leaseLoss),
                                       failures := inbox.failures)
        invariant Owes(was.lifecycle, lifecycle, DueFailures(inbox.failures, has), due)
        invariant lifecycle == was.lifecycle || |due| > 0
        invariant Heading(was.lifecycle, lifecycle, reason, inbox.failures, has)
        invariant |DueFailures(inbox.failures, has)| <= |due|
        invariant old(inbox).failures == [] ==>
                    && inbox.failures == [] && events == old(events) && relay == old(relay) && child == old(child)
                    && output == old(output)
        decreases |inbox.failures|
      {
        ghost var mid, rest := Now(), inbox.failures;
        ObserverFailed(0);
        LaterSteps(was, mid, Now());
        FailingSteps(was.lifecycle, mid.lifecycle, lifecycle);
        FirstDue(was.lifecycle, mid.lifecycle, lifecycle, rest, has, due);
        HeadingOn(was.lifecycle, mid.lifecycle, lifecycle, reason, rest, has);
      }
      AddsNothing(lifecycle, due);
    }

    /** The session goes on and its reason is still to be found, or it is ending for it. */
    ghost predicate Heading(s: Phase, t: Phase, reason: Trigger, rest: seq<ObserverFailure>, has: bool) {
      (t == s && reason == FirstReason(rest, has)) || EndedBy(s, t, reason)
    }

    lemma HeadingOn(s: Phase, t: Phase, u: Phase, reason: Trigger, rest: seq<ObserverFailure>, has: bool)
      requires |rest| > 0 && Heading(s, t, reason, rest, has) && Counted(rest[0], has, t, u) && LifeLater(t, u)
      ensures Heading(s, u, reason, Without(rest, 0), has)
    {
      assert Without(rest, 0) == rest[1..];
      if EndedBy(s, t, reason) {
        ReasonStays(s, t, u, reason);
      }
    }

    /** The signal and the lost lease; the record then owes the observer failures. */
    method AccountSignals()
      requires Valid() && announced
      modifies this`lifecycle, this`inbox
      ensures Valid() && Later(old(Now()), Now()) && Failing(old(lifecycle), lifecycle)
      ensures inbox == old(inbox).(signal := Noted(old(inbox).signal), leaseLoss := Noted(old(inbox).leaseLoss))
      ensures Owes(old(lifecycle), lifecycle, DueFailures(inbox.failures, child.Some?), Due(old(inbox), child.Some?))
      ensures lifecycle == old(lifecycle) || |Due(old(inbox), child.Some?)| > 0
      ensures Heading(old(lifecycle), lifecycle, DueReason(old(inbox), child.Some?), inbox.failures, child.Some?)
    {
      ghost var was, has := Now(), child.Some?;
      ghost var signals := if inbox.signal.Pending? then [Fault(RemoteSignal)] else [];
      ghost var losses := if inbox.leaseLoss.Pending? then [LEASE_LOSS] else [];
      ghost var failures := DueFailures(inbox.failures, has);
      AccountSignal();
      ghost var mid := lifecycle;
      AccountLoss();
      FailingSteps(was.lifecycle, mid, lifecycle);
      if signals != [] {
        ReasonStays(was.lifecycle, mid, lifecycle, Signal);
      }
      LaterLife(was, lifecycle);
      AddsNothing(was.lifecycle, (signals + losses) + failures);
      AddsSteps(was.lifecycle, mid, lifecycle, signals, losses);
      OwesLess(was.lifecycle, was.lifecycle, lifecycle, signals + losses, failures, (signals + losses) + failures);
    }

    method AccountSignal()
      requires Valid() && announced
      modifies this`lifecycle, this`inbox
      ensures Valid() && Failing(old(lifecycle), lifecycle)
      ensures inbox == old(inbox).(signal := Noted(old(inbox).signal))
      ensures Adds(old(lifecycle), lifecycle, if old(inbox).signal.Pending? then [Fault(RemoteSignal)] else [])
      ensures if old(inbox).signal.Pending? then EndedBy(old(lifecycle), lifecycle, Signal)
              else lifecycle == old(lifecycle)
    {
      FailingSteps(lifecycle, lifecycle, lifecycle);
      AddsNothing(lifecycle, []);
      if inbox.signal.Pending? {
        inbox := inbox.(signal := Noticed);
        Fail(Signal, RemoteSignal);
      }
    }

    /** The lost lease, once. */
    method AccountLoss()
      requires Valid() && announced
      modifies this`lifecycle, this`inbox
      ensures Valid() && Failing(old(lifecycle), lifecycle)
      ensures inbox == old(inbox).(leaseLoss := Noted(old(inbox).leaseLoss))
      ensures Adds(old(lifecycle), lifecycle, if old(inbox).leaseLoss.Pending? then [LEASE_LOSS] else [])
      ensures if old(inbox).leaseLoss.Pending? then EndedBy(old(lifecycle), lifecycle, ControllerEof)
              else lifecycle == old(lifecycle)
    {
      FailingSteps(lifecycle, lifecycle, lifecycle);
      AddsNothing(lifecycle, []);
      if inbox.leaseLoss.Pending? {
        FailKeeps(codec, output, events, order, lifecycle, ControllerEof, ControllerLeaseLost, request, acquisition,
                  relay, announced);
        HeedsLoss(input, lifecycle, request, inbox.control);
        ExitedFailing(lifecycle, Terminated(lifecycle, ControllerEof, Some(LEASE_LOSS)).phase, told, statuses);
        inbox := inbox.(leaseLoss := Noticed);
        lifecycle := Terminated(lifecycle, ControllerEof, Some(LEASE_LOSS)).phase;
      }
    }

    /** Record the child's exit, and a startup exit before READY. */
    method RecordExit(returncode: int)
      requires Valid() && child.Some? && !resourcesReleased && returncode in statuses
      modifies this`lifecycle, this`told
      ensures Valid() && LifeLater(old(lifecycle), lifecycle) && !lifecycle.Starting?
      ensures told == old(told) +
                      [ChildResult(returncode, child.value.terminationRequested && old(lifecycle).Terminating?)]
      ensures lifecycle.Result() == Some(told[0])
      ensures old(lifecycle).Active? ==> EndedBy(old(lifecycle), lifecycle, ChildExit)
      ensures old(lifecycle).Starting? ==> EndedBy(old(lifecycle), lifecycle, StartupFailure)
      ensures old(lifecycle).Terminating? ==> lifecycle.Terminating?
    {
      TellExit(child.value.terminationRequested, returncode);
      ExitedOpen(lifecycle, told, statuses);
    }

    /** Tell the lifecycle of an exit; an adopted server's before READY is a startup exit. */
    method TellExit(requested: bool, returncode: int)
      requires Valid() && childAcquired && returncode in statuses && Attempting()
      requires lifecycle.Starting? ==> lifecycle.attempt.Owned?
      modifies this`lifecycle, this`told
      ensures Valid() && LifeLater(old(lifecycle), lifecycle) && !lifecycle.Starting?
      ensures told == old(told) + [ChildResult(returncode, requested && old(lifecycle).Terminating?)]
      ensures old(lifecycle).Active? ==> EndedBy(old(lifecycle), lifecycle, ChildExit)
      ensures old(lifecycle).Starting? ==> EndedBy(old(lifecycle), lifecycle, StartupFailure)
      ensures old(lifecycle).Terminating? ==> lifecycle.Terminating?
    {
      ExitFollows(requested, returncode);
      told := told + [ChildResult(returncode, requested && lifecycle.Terminating?)];
      var next := lifecycle;
      if requested {
        next := Next(next, RecordChildTermination).phase;
      }
      var observed := Next(next, ObserveChildExit(returncode));
      next := observed.phase;
      if observed.ok && next.Starting? && next.request.policy.LiveServer? {
        next := Terminated(next, StartupFailure, Some(Fault(StartupExit))).phase;
      }
      lifecycle := next;
    }

    /** What an exit keeps. */
    lemma ExitFollows(requested: bool, returncode: int)
      requires Valid() && childAcquired && returncode in statuses && Attempting()
      requires lifecycle.Starting? ==> lifecycle.attempt.Owned?
      ensures
        var next := ExitRecorded(lifecycle, requested, returncode);
        && Owners(codec, output, events, order, next, request, acquisition, relay, announced)
        && LifeLater(lifecycle, next) && !next.Starting? && (lifecycle.Terminating? ==> next.Terminating?)
        && Heeded(input, next, request, inbox.leaseLoss, inbox.control)
        && ToldOf(next, told + [ChildResult(returncode, requested && lifecycle.Terminating?)], statuses)
        && next.Current().Some? && next.Current().value.Unsettled()
        && (lifecycle.Active? ==> EndedBy(lifecycle, next, ChildExit))
        && (lifecycle.Starting? ==> EndedBy(lifecycle, next, StartupFailure))
    {
      ExitOwnersKeep(codec, output, events, order, lifecycle, requested, returncode, request, acquisition, relay,
                     announced);
      HeedsExit(input, lifecycle, requested, returncode, request, inbox.leaseLoss, inbox.control);
      ExitTold(lifecycle, requested, returncode, told, statuses);
    }

    method ObserveEvidence(names: seq<string>)
      requires Valid() && lifecycle.Starting?
      modifies this`lifecycle
      ensures Valid() && LifeLater(old(lifecycle), lifecycle)
      ensures lifecycle.Starting?
      ensures lifecycle.request == old(lifecycle).request && lifecycle.attempt == old(lifecycle).attempt
      ensures Observing(old(lifecycle)) ==> lifecycle.evidence == old(lifecycle).evidence + Known(old(lifecycle), names)
    {
      ghost var was := lifecycle;
      LifeLaterSteps(was, was, was);
      for i := 0 to |names|
        invariant Valid() && LifeLater(was, lifecycle) && lifecycle.Starting?
        invariant lifecycle.request == was.request && lifecycle.attempt == was.attempt
        invariant Observing(was) ==> lifecycle.evidence == was.evidence + Known(was, names[..i])
      {
        assert names[..i + 1] == names[..i] + [names[i]];
        ghost var mid := lifecycle;
        EvidenceOwnersKeep(codec, output, events, order, lifecycle, names[i], request, acquisition, relay, announced);
        HeedsCall(input, lifecycle, Call.ObserveEvidence(names[i]), request, inbox.leaseLoss, inbox.control);
        ExitedStays(lifecycle, Call.ObserveEvidence(names[i]), told, statuses, codec, output, events, order, request,
                    acquisition, relay, announced);
        lifecycle := Next(lifecycle, Call.ObserveEvidence(names[i])).phase;
        LifeLaterSteps(was, mid, lifecycle);
      }
      assert names[..|names|] == names;
    }

    /** Admit READY and become active in one step, or fail. */
    method PublishReady()
      requires Valid() && announced && child.Some? && ReadyAllowed(lifecycle, true)
      modifies this`lifecycle, this`output, this`events, this`order
      ensures Valid() && Later(old(Now()), Now())
      ensures (lifecycle.Active? && events == old(events) + [ReadyAt(address, child.value.pid)]) ||
              (lifecycle.Terminating? && events == old(events) && EndedBy(old(lifecycle), lifecycle, OutputFailure))
      ensures lifecycle.Active? <==> Emitted(codec, old(output), ReadyAt(address, child.value.pid), false).Some?
    {
      var e := ReadyAt(address, child.value.pid);
      var next := Emitted(codec, output, e, false);
      if next.None? {
        Fail(OutputFailure, ReadyAdmission);
      } else {
        ghost var was := Now();
        AdmitReady(e);
        LaterEvent(was, e, lifecycle);
      }
    }

    /** READY goes out, and the session is active in the same step. */
    method AdmitReady(e: Event)
      requires Valid() && announced && childAcquired && ReadyAllowed(lifecycle, true)
      requires e.ReadyAt? && ValidEvent(e) && CanEmit(output, e)
      modifies this`lifecycle, this`output, this`events, this`order
      ensures Valid() && LifeLater(old(lifecycle), lifecycle)
      ensures lifecycle == Active(old(lifecycle).request, old(lifecycle).attempt) && events == old(events) + [e]
    {
      var next := Next(lifecycle, Call.Ready(true, true)).phase;
      ReadyFollows(e, next);
      output, events, order := Emitted(codec, output, e, false).value, events + [e], order.(ready := true);
      lifecycle := next;
    }

    /** What READY keeps. */
    lemma ReadyFollows(e: Event, next: Phase)
      requires Valid() && announced && childAcquired && ReadyAllowed(lifecycle, true)
      requires e.ReadyAt? && ValidEvent(e) && CanEmit(output, e)
      requires next == Next(lifecycle, Call.Ready(true, true)).phase
      ensures next == Active(lifecycle.request, lifecycle.attempt) && LifeLater(lifecycle, next)
      ensures Owners(codec, Emitted(codec, output, e, false).value, events + [e], order.(ready := true), next, request,
                     acquisition, relay, announced)
      ensures Heeded(input, next, request, inbox.leaseLoss, inbox.control) && ToldOf(next, told, statuses)
      ensures Credited(relay, Emitted(codec, output, e, false).value, credits)
    {
      ReadyAdmitted(codec, output, events, order, lifecycle, request, acquisition, relay, e);
      HeedsCall(input, lifecycle, Call.Ready(true, true), request, inbox.leaseLoss, inbox.control);
      ExitedStays(lifecycle, Call.Ready(true, true), told, statuses, codec, output, events, order, request, acquisition,
                  relay, announced);
    }

    /** The last event admitted is READY for this session's address and child. */
    ghost predicate PublishedReady()
      reads this`events, this`address, this`child
    {
      child.Some? && events != [] && events[|events| - 1] == ReadyAt(address, child.value.pid)
    }

    /** The child's exit first; then readiness, unless a failure was recorded meanwhile. */
    method DecideReady(i: Inspection) returns (raised: bool)
      requires Valid() && announced && child.Some?
      requires lifecycle.Starting? && lifecycle.request.policy.LiveServer?
      requires !resourcesReleased && Among(PollStatus(i), statuses)
      modifies this`lifecycle, this`inbox, this`relay, this`output, this`events, this`order, this`child, this`told
      ensures Valid() && Later(old(Now()), Now())
      ensures SameChild(old(child), child) && inbox.control == old(inbox).control
      ensures lifecycle.Active? ==> PublishedReady() && i.poll.Alive?
      ensures EvidenceComplete(old(lifecycle).request, old(lifecycle).evidence) ==>
                if i.poll.PollRaised? then raised && lifecycle == old(lifecycle) else !lifecycle.Starting?
      ensures raised ==> i.poll.PollRaised?
      ensures EvidenceComplete(old(lifecycle).request, old(lifecycle).evidence) && i.poll.Exited? ==>
                told == old(told) + [ChildResult(i.poll.returncode, false)] &&
                EndedBy(old(lifecycle), lifecycle, StartupFailure)
      ensures EvidenceComplete(old(lifecycle).request, old(lifecycle).evidence) && i.poll.Alive?
              && Quiet(old(inbox)) && !i.signal ==>
                (lifecycle.Active? <==> CanEmit(old(output), ReadyAt(address, old(child).value.pid)))
      ensures !EvidenceComplete(old(lifecycle).request, old(lifecycle).evidence) ==>
                !raised && lifecycle == old(lifecycle) && events == old(events)
    {
      ghost var was := Now();
      LaterSteps(was, was, was);
      StartingIsUnobserved(codec, output, events, order, lifecycle, request, acquisition, relay, announced);
      if !lifecycle.attempt.Owned? || lifecycle.attempt.childResult.Some?
         || !EvidenceComplete(lifecycle.request, lifecycle.evidence) {
        return false;
      }
      if i.poll.PollRaised? {
        return true;
      }
      if i.poll.Exited? {
        RecordExit(i.poll.returncode);
        LaterLife(was, lifecycle);
        return false;
      }
      CommitReady(i.signal);
      return false;
    }

    /** Account once more, then READY, unless a failure was recorded meanwhile. */
    method CommitReady(signal: bool)
      requires Valid() && announced && child.Some? && ReadyAllowed(lifecycle, true)
      modifies this`lifecycle, this`inbox, this`relay, this`output, this`events, this`order, this`child
      ensures Valid() && Later(old(Now()), Now()) && SameChild(old(child), child) && !lifecycle.Starting?
      ensures lifecycle.Active? ==> PublishedReady()
      ensures inbox.control == old(inbox).control
      ensures Quiet(old(inbox)) && !signal ==>
                (lifecycle.Active? <==> CanEmit(old(output), ReadyAt(address, old(child).value.pid)))
    {
      AccountWith(signal);
      if !lifecycle.Starting? {
        return;
      }
      ghost var was, mid := old(Now()), Now();
      PublishReady();
      LaterSteps(was, mid, Now());
    }

    /** Account once more, with a signal that may have arrived. */
    method AccountWith(signal: bool)
      requires Valid() && announced
      modifies this`lifecycle, this`inbox, this`relay, this`output, this`events, this`order, this`child
      ensures Valid() && Later(old(Now()), Now()) && Failing(old(lifecycle), lifecycle)
      ensures SameChild(old(child), child) && relay.Some? == old(relay).Some?
      ensures inbox.control == old(inbox).control && !inbox.leaseLoss.Pending?
      ensures Quiet(old(inbox)) && !signal ==>
                && lifecycle == old(lifecycle) && output == old(output) && events == old(events) && child == old(child)
                && relay == old(relay) && Quiet(inbox)
      ensures signal && old(inbox).signal.Absent? ==> EndedBy(old(lifecycle), lifecycle, Signal)
    {
      inbox := inbox.(signal := Raised(inbox.signal, signal));
      Account();
    }

    /** What complete evidence comes to: a live child is ready if READY can go out; an exited one ends the startup. */
    ghost predicate ReadyDecided(i: Inspection, was: Phase, o: Output, before: seq<ChildResult>, pid: pid)
      reads this`lifecycle, this`told, this`address
    {
      && (i.poll.Alive? && !i.signal ==> (lifecycle.Active? <==> CanEmit(o, ReadyAt(address, pid))))
      && (i.poll.Exited? ==>
            && told == before + [ChildResult(i.poll.returncode, false)]
            && EndedBy(was, lifecycle, StartupFailure))
    }

    /** _ready: the readiness decision, from evidence, the child's exit and pending failures. */
    method MakeReady(i: Inspection) returns (raised: bool)
      requires Valid() && announced && !resourcesReleased && Among(PollStatus(i), statuses)
      modifies this`lifecycle, this`inbox, this`relay, this`output, this`events, this`order, this`child, this`told
      ensures Valid() && Later(old(Now()), Now())
      ensures SameChild(old(child), child) && inbox.control == old(inbox).control
      ensures old(lifecycle).Terminating? ==> lifecycle.Terminating?
      ensures lifecycle.Active? && !old(lifecycle).Active? ==> PublishedReady() && i.poll.Alive?
      ensures Due(old(inbox), child.Some?) == [] && child.Some? && Observing(old(lifecycle))
              && Completes(old(lifecycle), readiness, i) ==>
                raised == i.poll.PollRaised? && (!raised ==> !lifecycle.Starting?)
      ensures Quiet(old(inbox)) && child.Some? && Observing(old(lifecycle))
              && Completes(old(lifecycle), readiness, i) ==>
                ReadyDecided(i, old(lifecycle), old(output), old(told), old(child).value.pid)
      ensures raised ==> i.poll.PollRaised?
    {
      ghost var was := Now();
      Account();
      if !lifecycle.Starting? || child.None? || lifecycle.request.policy.ProcessExit? {
        return false;
      }
      ghost var mid := Now();
      raised := InspectAndDecide(i);
      LaterSteps(was, mid, Now());
    }

    /** Take the evidence in, and decide. */
    method InspectAndDecide(i: Inspection) returns (raised: bool)
      requires Valid() && announced && child.Some? && !resourcesReleased && Among(PollStatus(i), statuses)
      requires lifecycle.Starting? && lifecycle.request.policy.LiveServer?
      modifies this`lifecycle, this`inbox, this`relay, this`output, this`events, this`order, this`child, this`told
      ensures Valid() && Later(old(Now()), Now())
      ensures SameChild(old(child), child) && inbox.control == old(inbox).control
      ensures lifecycle.Active? ==> PublishedReady() && i.poll.Alive?
      ensures Observing(old(lifecycle)) && Completes(old(lifecycle), readiness, i) ==>
                raised == i.poll.PollRaised? && (!raised ==> !lifecycle.Starting?)
      ensures Quiet(old(inbox)) && Observing(old(lifecycle)) && Completes(old(lifecycle), readiness, i) ==>
                ReadyDecided(i, old(lifecycle), old(output), old(told), old(child).value.pid)
      ensures raised ==> i.poll.PollRaised?
    {
      ghost var was := Now();
      LaterSteps(was, was, was);
      if lifecycle.request.evidence != [] {
        if !readiness {
          return false;
        }
        if i.names.None? {
          Fail(HelperFailure, ReadinessError);
          return false;
        }
        ObserveEvidence(i.names.value);
        LaterLife(was, lifecycle);
      }
      ghost var mid := Now();
      raised := DecideReady(i);
      LaterSteps(was, mid, Now());
    }

    /** Allocate, materialise, check and create what the attempt needs; any of it may raise. */
    method PrepareAttempt(a: AttemptAnswers) returns (raised: bool)
      requires Valid() && announced && relay.None? && request.Some?
      modifies this`leaseHeld, this`address, this`readiness, this`relay
      ensures Valid() && (relay.Some? ==> UsesLog(request) && relay.value == NewRelay())
      ensures raised <==> !a.prepared.Prepared? || !ValidArgv(a.argv)
      ensures !raised ==> leaseHeld && address == a.address && (UsesLog(request) ==> relay.Some?)
      ensures leaseHeld == (old(leaseHeld) || !a.prepared.NoAddress?)
    {
      if a.prepared.NoAddress? {
        return true;
      }
      leaseHeld := true;
      address := a.address;
      if a.prepared.BadArguments? || !ValidArgv(a.argv) || a.prepared.MissingPath? {
        return true;
      }
      CreateEntries(a.prepared.Prepared? || a.prepared.readinessCreated,
                    a.prepared.Prepared? || a.prepared.channelCreated);
      return !a.prepared.Prepared?;
    }

    /** Create the readiness artifact and the log channel that START asks for, as far as that goes. */
    method CreateEntries(artifact: bool, channel: bool)
      requires Valid() && announced && relay.None? && request.Some?
      modifies this`readiness, this`relay
      ensures Valid() && (relay.Some? <==> UsesLog(request) && channel)
      ensures relay.Some? ==> relay.value == NewRelay()
    {
      readiness := request.value.startup.policy.LiveServer? && artifact;
      if request.value.usesLog && channel {
        ChannelKeeps(codec, output, events, order, lifecycle, request, acquisition, announced);
        relay := Some(NewRelay());
      }
    }

    /** Admit ATTEMPT and enter the attempt, or fail. */
    method PublishAttempt(argv: seq<string>) returns (entered: bool)
      requires Valid() && announced && ValidArgv(argv)
      requires lifecycle.Starting? && lifecycle.attempt.Authorized? && (UsesLog(request) ==> relay.Some?)
      modifies this`lifecycle, this`output, this`events, this`order, this`acquisition, this`spawning
      ensures Valid() && Later(old(Now()), Now())
      ensures entered ==>
                && events == old(events) + [AttemptStarted(argv)]
                && lifecycle == Starting(old(lifecycle).request, Producing(false, None), old(lifecycle).evidence)
                && spawning.Underway?
      ensures !entered ==>
                && events == old(events) && acquisition.None? && spawning.NotYet?
                && lifecycle.Terminating? && EndedBy(old(lifecycle), lifecycle, OutputFailure)
      ensures entered <==> Emitted(codec, old(output), AttemptStarted(argv), false).Some?
    {
      ghost var was, o, es, k := Now(), output, events, order;
      var e := AttemptStarted(argv);
      AttemptFits(codec, output, events, order, lifecycle, request, acquisition, relay, e);
      var raised := Emit(e);
      if raised {
        Fail(OutputFailure, AttemptAdmission);
        return false;
      }
      Enter(o, es, k);
      LaterEvent(was, e, lifecycle);
      return true;
    }

    /** ATTEMPT was admitted: enter the attempt in the same step. */
    method Enter(ghost o: Output, ghost es: seq<Event>, ghost k: Order)
      requires Owners(codec, o, es, k, lifecycle, request, acquisition, relay, true)
      requires Flags() && Credited(relay, output, credits) && Heeding() && Answers() && announced && acquisition.None?
      requires lifecycle.Starting? && lifecycle.attempt.Authorized? && (UsesLog(request) ==> relay.Some?)
      requires Published(codec, output, events, order) && order == k.(attempted := true) && LogOf(events) == LogOf(es)
      modifies this`lifecycle, this`acquisition, this`spawning
      ensures Valid() && LifeLater(old(lifecycle), lifecycle)
      ensures lifecycle == Starting(old(lifecycle).request, Producing(false, None), old(lifecycle).evidence)
      ensures spawning.Underway?
    {
      EnterKeeps(codec, o, es, k, output, events, order, lifecycle, request, relay);
      HeedsCall(input, lifecycle, Call.EnterAttempt(true), request, inbox.leaseLoss, inbox.control);
      ExitedStays(lifecycle, Call.EnterAttempt(true), told, statuses, codec, o, es, k, request, acquisition, relay,
                  true);
      lifecycle := Starting(lifecycle.request, Producing(false, None), lifecycle.evidence);
      acquisition, spawning := Some(Acquisition(false, false, false, false)), Underway;
    }

    /** What spawning leaves owned, whatever it answered. */
    method Acquire(spawn: Spawn, now: Acquisition)
      requires Valid() && announced && spawning.Underway? && AnswerFits(spawn, now)
      requires relay.Some? ==> relay.value.decision.None?
      modifies this`acquisition, this`childAcquired, this`spawning
      ensures Valid() && acquisition == Some(now) && childAcquired == now.process && spawning == Answered(spawn)
    {
      AcquireKeeps(codec, output, events, order, lifecycle, request, acquisition.value, now, relay);
      acquisition, spawning := Some(now), Answered(spawn);
      childAcquired := now.process;
    }

    /** A session whose child just started: a server has yet to become ready, anything else is active at once. */
    function Running(s: Phase): Phase
      requires s.Starting?
    {
      if s.request.policy.LiveServer? then Starting(s.request, Lifecycle.Owned(false, None), s.evidence)
      else Active(s.request, Lifecycle.Owned(false, None))
    }

    /** Keep the child and adopt its attempt. */
    method Adopt(started: Child)
      requires Valid() && announced && childAcquired && started.returncode.None? && Made(started)
      requires lifecycle.Terminating? || lifecycle.Starting?
      requires lifecycle.Current().Some? && lifecycle.Current().value.Producing?
      modifies this`child, this`lifecycle
      ensures Valid() && child == Some(started) && LifeLater(old(lifecycle), lifecycle)
      ensures old(lifecycle).Starting? && old(lifecycle).attempt == Producing(false, None) ==>
                lifecycle == Running(old(lifecycle))
      ensures old(lifecycle).Terminating? ==> lifecycle.Terminating?
    {
      Consult(codec, output, events, order, lifecycle, request, acquisition, relay, announced);
      AdoptKeeps(codec, output, events, order, lifecycle, request, acquisition, relay);
      HeedsCall(input, lifecycle, AdoptAttempt, request, inbox.leaseLoss, inbox.control);
      ExitedStays(lifecycle, AdoptAttempt, told, statuses, codec, output, events, order, request, acquisition, relay,
                  announced);
      child := Some(started);
      lifecycle := Next(lifecycle, AdoptAttempt).phase;
    }

    /** Expose the final extent of the log after confirmed disposal, or cut it. */
    method LogDisposal(confirmed: bool) returns (ghost log: seq<Event>)
      requires Valid() && announced && lifecycle.Terminating?
      modifies this`relay, this`output, this`events, this`order
      ensures Valid() && Later(old(Now()), Now()) && relay.Some? == old(relay).Some?
      ensures relay.None? || old(relay).value.decision.Some? ==> relay == old(relay) && events == old(events)
      ensures relay.Some? && old(relay).value.decision.None? ==>
                && LogProgressed(codec, Disposed(old(relay).value, confirmed), old(output), relay.value, output, log)
                && (relay.value.disposalConfirmed <==> old(relay).value.disposalConfirmed || confirmed)
                && (!confirmed ==> !relay.value.reading)
    {
      ghost var was := Now();
      LaterSteps(was, was, was);
      if relay.None? || relay.value.decision.Some? {
        return [];
      }
      DisposeRelay(confirmed);
      ghost var mid, disposed := Now(), relay.value;
      ghost var o := output;
      log := LogProgress();
      ProgressKeepsDisposal(codec, disposed, o, relay.value, output, log);
      LaterSteps(was, mid, Now());
    }

    method DisposeRelay(confirmed: bool)
      requires Valid() && lifecycle.Terminating? && relay.Some? && relay.value.decision.None?
      modifies this`relay
      ensures Valid() && Later(old(Now()), Now())
      ensures relay == Some(Disposed(old(relay).value, confirmed))
    {
      ghost var was := Now();
      DisposalKeeps(codec, output, events, order, lifecycle, request, acquisition, relay.value, announced, confirmed);
      if !confirmed {
        relay := Some(WasCut(relay.value));
      } else if !relay.value.disposalConfirmed {
        relay := Some(DisposalConfirmed(relay.value));
      }
      LaterLog(was, [], relay.value.decision);
    }

    /** Spawn the child, or record why not; what exists is owned either way. */
    method SpawnChild(a: AttemptAnswers)
      requires Valid() && announced && relay.Some? == UsesLog(request) && child.None? && spawning.Underway?
      requires lifecycle.Starting? && lifecycle.attempt == Producing(false, None)
      requires Among(SpawnStatus(a.spawn), statuses)
      modifies this`lifecycle, this`acquisition, this`childAcquired, this`child, this`spawning, this`told
      modifies this`inbox, this`relay, this`output, this`events, this`order
      ensures Valid() && Later(old(Now()), Now())
      ensures spawning == Answered(a.spawn) && child == ChildOf(a.spawn)
      ensures childAcquired == HadProcess(spawning)
      ensures inbox == old(inbox) && output == old(output) && events == old(events) && relay == old(relay)
      ensures if a.spawn.Spawned? then lifecycle == Running(old(lifecycle))
              else lifecycle.Terminating? && EndedBy(old(lifecycle), lifecycle, StartupFailure)
      ensures told == old(told) +
                      if SpawnStatus(a.spawn).Some?
                      then [ChildResult(SpawnStatus(a.spawn).value, a.spawn.requested)] else []
    {
      ghost var was := Now();
      UndecidedBefore(codec, output, events, order, lifecycle, request, acquisition, relay, announced);
      LifeLaterSteps(lifecycle, lifecycle, lifecycle);
      Acquire(a.spawn, AcquisitionOf(a.spawn));
      OwnOrFail(a.spawn);
      LaterLife(was, lifecycle);
    }

    /** A failed spawn is a failed startup; a child that exists nevertheless is kept all the same. */
    method OwnOrFail(spawn: Spawn)
      requires Valid() && announced && child.None? && spawning == Answered(spawn)
      requires lifecycle.Starting? && lifecycle.attempt == Producing(false, None)
      requires Among(SpawnStatus(spawn), statuses)
      modifies this`lifecycle, this`child, this`told
      ensures Valid() && LifeLater(old(lifecycle), lifecycle) && child == ChildOf(spawn)
      ensures if spawn.Spawned? then lifecycle == Running(old(lifecycle))
              else lifecycle.Terminating? && EndedBy(old(lifecycle), lifecycle, StartupFailure)
      ensures told == old(told) +
                      if SpawnStatus(spawn).Some? then [ChildResult(SpawnStatus(spawn).value, spawn.requested)] else []
    {
      ghost var was := lifecycle;
      LifeLaterSteps(was, was, was);
      if !spawn.Spawned? {
        Fail(StartupFailure, SpawnError);
      }
      ghost var mid := lifecycle;
      Own(spawn);
      LifeLaterSteps(was, mid, lifecycle);
      if !spawn.Spawned? {
        ReasonStays(was, mid, lifecycle, StartupFailure);
      }
    }

    /** A spawned or interrupted child is kept; a rolled back one is only accounted for. */
    method Own(spawn: Spawn)
      requires Valid() && announced && child.None? && spawning == Answered(spawn)
      requires lifecycle.Terminating? || (spawn.Spawned? && lifecycle.Starting?)
      requires lifecycle.Current() == Some(Producing(false, None)) && Among(SpawnStatus(spawn), statuses)
      modifies this`lifecycle, this`child, this`told
      ensures Valid() && Later(old(Now()), Now()) && LifeLater(old(lifecycle), lifecycle)
      ensures child == ChildOf(spawn)
      ensures old(lifecycle).Terminating? ==> lifecycle.Terminating?
      ensures old(lifecycle).Starting? ==> lifecycle == Running(old(lifecycle))
      ensures told == old(told) +
                      if SpawnStatus(spawn).Some? then [ChildResult(SpawnStatus(spawn).value, spawn.requested)] else []
    {
      ghost var was := Now();
      LifeLaterSteps(lifecycle, lifecycle, lifecycle);
      assert told + [] == told;
      match spawn {
        case NoProcess =>
        case RolledBack(confirmed, requested, returncode) => RecordRolledBack(requested, returncode);
        case Interrupted(started, confirmed, requested) => Adopt(Child(started, requested, None, false, {}));
        case Spawned(started) => Adopt(Child(started, false, None, false, {}));
      }
      LaterLife(was, lifecycle);
    }

    /** The exit of a process whose spawning was rolled back. */
    method RecordRolledBack(requested: bool, returncode: Option<int>)
      requires Valid() && announced && childAcquired && child.None? && lifecycle.Terminating? && Attempting()
      requires Among(returncode, statuses)
      modifies this`lifecycle, this`told
      ensures Valid() && LifeLater(old(lifecycle), lifecycle) && lifecycle.Terminating?
      ensures told == old(told) + if returncode.Some? then [ChildResult(returncode.value, requested)] else []
    {
      LifeLaterSteps(lifecycle, lifecycle, lifecycle);
      if returncode.None? {
        assert told + [] == told;
        return;
      }
      // The session is terminating here: this is no startup exit.
      TellExit(requested, returncode.value);
    }

    /** _start_attempt: everything from the accounting of recorded failures to the first readiness check. */
    method StartAttempt(a: AttemptAnswers) returns (raised: bool)
      requires Valid() && announced && request.Some? && relay.None? && child.None? && acquisition.None?
      requires Answerable(a)
      modifies this`lifecycle, this`acquisition, this`childAcquired, this`child, this`leaseHeld, this`address
      modifies this`inbox, this`relay, this`output, this`events, this`order, this`readiness
      modifies this`spawning, this`told
      ensures Valid() && Later(old(Now()), Now()) && inbox.control == old(inbox).control
      ensures spawning.NotYet? || spawning == Answered(a.spawn)
      ensures Quiet(old(inbox)) && !a.signal && a.prepared.Prepared? && ValidArgv(a.argv)
              && old(lifecycle).Starting? && old(lifecycle).attempt.Authorized? ==>
                if CanEmit(old(output), AttemptStarted(a.argv)) then
                  AttemptedFrom(old(events), old(lifecycle), a, raised)
                else EndedBy(old(lifecycle), lifecycle, OutputFailure) && spawning.NotYet?
      ensures Quiet(old(inbox)) && (!a.prepared.Prepared? || !ValidArgv(a.argv))
              && old(lifecycle).Starting? && old(lifecycle).attempt.Authorized? ==>
                raised && events == old(events) && spawning.NotYet? && lifecycle == old(lifecycle)
    {
      ghost var was := Now();
      Account();
      if !lifecycle.Starting? || !lifecycle.attempt.Authorized? {
        return false;
      }
      ghost var mid := Now();
      raised := PrepareAndEnter(a);
      LaterSteps(was, mid, Now());
    }

    /** Prepare the attempt, and go on to enter it. */
    method PrepareAndEnter(a: AttemptAnswers) returns (raised: bool)
      requires Valid() && announced && request.Some? && relay.None? && child.None? && acquisition.None?
      requires Answerable(a) && lifecycle.Starting? && lifecycle.attempt.Authorized?
      modifies this`lifecycle, this`acquisition, this`childAcquired, this`child, this`leaseHeld, this`address
      modifies this`inbox, this`relay, this`output, this`events, this`order, this`readiness
      modifies this`spawning, this`told
      ensures Valid() && Later(old(Now()), Now()) && inbox.control == old(inbox).control
      ensures spawning.NotYet? || spawning == Answered(a.spawn)
      ensures Quiet(old(inbox)) && !a.signal && a.prepared.Prepared? && ValidArgv(a.argv) ==>
                if CanEmit(old(output), AttemptStarted(a.argv)) then
                  AttemptedFrom(old(events), old(lifecycle), a, raised)
                else EndedBy(old(lifecycle), lifecycle, OutputFailure) && spawning.NotYet?
      ensures !a.prepared.Prepared? || !ValidArgv(a.argv) ==>
                raised && events == old(events) && spawning.NotYet? && lifecycle == old(lifecycle)
    {
      ghost var was := Now();
      raised := PrepareAttempt(a);
      LaterLog(was, [], None);
      if raised {
        return true;
      }
      ghost var mid := Now();
      raised := EnterPrepared(a);
      LaterSteps(was, mid, Now());
    }

    /** Everything prepared: publish ATTEMPT and run the attempt, unless the session ended meanwhile. */
    method EnterPrepared(a: AttemptAnswers) returns (raised: bool)
      requires Valid() && announced && relay.Some? == UsesLog(request) && child.None? && acquisition.None?
      requires ValidArgv(a.argv) && lifecycle.Starting? && lifecycle.attempt.Authorized? && Answerable(a)
      modifies this`lifecycle, this`acquisition, this`childAcquired, this`child
      modifies this`inbox, this`relay, this`output, this`events, this`order, this`spawning, this`told
      ensures Valid() && Later(old(Now()), Now()) && inbox.control == old(inbox).control
      ensures spawning.NotYet? || spawning == Answered(a.spawn)
      ensures Quiet(old(inbox)) && !a.signal ==>
                if CanEmit(old(output), AttemptStarted(a.argv)) then
                  AttemptedFrom(old(events), old(lifecycle), a, raised)
                else EndedBy(old(lifecycle), lifecycle, OutputFailure) && spawning.NotYet?
    {
      ghost var was := Now();
      AccountWith(a.signal);
      if !lifecycle.Starting? || !lifecycle.attempt.Authorized? {
        return false;
      }
      ghost var mid := Now();
      raised := EnterAttempt(a);
      LaterSteps(was, mid, Now());
    }

    /** Publish ATTEMPT and run the attempt. */
    method EnterAttempt(a: AttemptAnswers) returns (raised: bool)
      requires Valid() && announced && relay.Some? == UsesLog(request) && child.None? && acquisition.None?
      requires ValidArgv(a.argv) && lifecycle.Starting? && lifecycle.attempt.Authorized? && Answerable(a)
      modifies this`lifecycle, this`acquisition, this`childAcquired, this`child
      modifies this`inbox, this`relay, this`output, this`events, this`order, this`spawning, this`told
      ensures Valid() && Later(old(Now()), Now()) && inbox.control == old(inbox).control
      ensures spawning.NotYet? || spawning == Answered(a.spawn)
      ensures Quiet(old(inbox)) ==>
                if CanEmit(old(output), AttemptStarted(a.argv)) then
                  AttemptedFrom(old(events), old(lifecycle), a, raised)
                else EndedBy(old(lifecycle), lifecycle, OutputFailure) && spawning.NotYet?
    {
      ghost var was := Now();
      var entered := PublishAttempt(a.argv);
      if !entered {
        return false;
      }
      ghost var mid := Now();
      raised := RunAttempt(a);
      LaterSteps(was, mid, Now());
      EventsStay(mid, Now());
    }

    /**
     * Observe each stream not finished yet. A closed one is finished at once;
     * one that cannot be observed is finished too, and raises.
     */
    method StartOutputObservers(closed: set<Stream>, unobserved: set<Stream>) returns (raised: bool)
      requires Valid() && child.Some?
      modifies this`child
      ensures Valid() && child == Some(old(child).value.(finished := old(child).value.finished + closed + unobserved))
      ensures raised <==> unobserved - closed - old(child).value.finished != {}
    {
      raised := unobserved - closed - child.value.finished != {};
      child := Some(child.value.(finished := child.value.finished + closed + unobserved));
    }

    /** What an attempt's answers report is among what is reported at all, and nothing is released yet. */
    ghost predicate Answerable(a: AttemptAnswers)
      reads this`resourcesReleased
    {
      !resourcesReleased && Among(SpawnStatus(a.spawn), statuses) && Among(PollStatus(a.inspection), statuses)
    }

    /**
     * ATTEMPT was admitted right after what was admitted before, and spawning
     * answered: its child is kept, or the session ends for the failed startup.
     * A child that runs makes anything but a live server active at once.
     */
    ghost predicate AttemptedFrom(before: seq<Event>, was: Phase, a: AttemptAnswers, raised: bool)
      requires was.Starting?
      reads this`events, this`spawning, this`child, this`lifecycle
    {
      && before + [AttemptStarted(a.argv)] <= events
      && spawning == Answered(a.spawn)
      && child.Some? == ChildOf(a.spawn).Some?
      && (child.Some? ==> child.value.pid == ChildOf(a.spawn).value.pid)
      && (raised && was.request.policy.ProcessExit? ==> a.unobserved - a.closed != {} || a.exitUnobserved)
      && (!a.spawn.Spawned? ==> EndedBy(was, lifecycle, StartupFailure))
      && (a.spawn.Spawned? && was.request.policy.ProcessExit? ==>
            lifecycle == Active(was.request, Lifecycle.Owned(false, None)))
    }

    /** A live server whose evidence is complete when its child starts, with nothing in the way. */
    predicate ReadyAtOnce(a: AttemptAnswers, s: Phase, inbox: Inbox)
      reads this`readiness
    {
      && a.spawn.Spawned? && a.unobserved - a.closed == {} && !a.exitUnobserved
      && s.Starting? && s.request.policy.LiveServer? && Quiet(inbox)
      && Completes(s, readiness, a.inspection) && a.inspection.poll.Alive? && !a.inspection.signal
    }

    /** The entered attempt: spawn, then observe the child or dispose of what is left. */
    method RunAttempt(a: AttemptAnswers) returns (raised: bool)
      requires Valid() && announced && relay.Some? == UsesLog(request) && child.None? && spawning.Underway?
      requires lifecycle.Starting? && lifecycle.attempt == Producing(false, None) && Answerable(a)
      modifies this`lifecycle, this`acquisition, this`childAcquired, this`child
      modifies this`inbox, this`relay, this`output, this`events, this`order, this`spawning, this`told
      ensures Valid() && Later(old(Now()), Now()) && inbox.control == old(inbox).control
      ensures spawning == Answered(a.spawn) && child.Some? == ChildOf(a.spawn).Some?
      ensures child.Some? ==> child.value.pid == ChildOf(a.spawn).value.pid
      ensures !a.spawn.Spawned? ==> EndedBy(old(lifecycle), lifecycle, StartupFailure)
      ensures a.spawn.Spawned? && old(lifecycle).request.policy.ProcessExit? ==>
                lifecycle == Active(old(lifecycle).request, Lifecycle.Owned(false, None))
      ensures child.None? && relay.Some? && old(relay).Some? && old(relay).value.decision.None? ==>
                (relay.value.disposalConfirmed <==>
                   old(relay).value.disposalConfirmed || NothingLeft(spawning, settlement))
      ensures ReadyAtOnce(a, old(lifecycle), old(inbox)) ==>
                (lifecycle.Active? <==> CanEmit(old(output), ReadyAt(address, a.spawn.pid)))
      ensures raised ==>
                && child.Some?
                && (a.unobserved - a.closed != {} || a.exitUnobserved ||
                    (a.inspection.poll.PollRaised? && old(lifecycle).request.policy.LiveServer?))
      ensures child.Some? ==> a.closed + a.unobserved <= child.value.finished
      ensures child.Some? && (a.unobserved - a.closed != {} || a.exitUnobserved) ==> raised
    {
      ghost var was := Now();
      SpawnChild(a);
      ghost var mid := Now();
      if child.None? {
        var _ := LogDisposal(!acquisition.value.process || acquisition.value.rollbackConfirmed);
        LaterSteps(was, mid, Now());
        return false;
      }
      raised := ObserveChild(a);
      LaterSteps(was, mid, Now());
    }

    /** Observe the streams and the exit of the new child, and see whether a server is ready at once. */
    method ObserveChild(a: AttemptAnswers) returns (raised: bool)
      requires Valid() && announced && child.Some? && child.value.finished == {} && Answerable(a)
      modifies this`lifecycle, this`child, this`inbox, this`relay, this`output, this`events, this`order, this`told
      ensures Valid() && Later(old(Now()), Now()) && inbox.control == old(inbox).control
      ensures child.Some? && child.value.pid == old(child).value.pid && a.closed + a.unobserved <= child.value.finished
      ensures a.unobserved - a.closed != {} || a.exitUnobserved ==> raised
      ensures raised ==> a.unobserved - a.closed != {} || a.exitUnobserved ||
                         (a.inspection.poll.PollRaised? && old(lifecycle).Starting?)
      ensures !old(lifecycle).Starting? ==> lifecycle == old(lifecycle)
      ensures a.unobserved - a.closed == {} && !a.exitUnobserved && old(lifecycle).Starting? && Quiet(old(inbox))
              && Observing(old(lifecycle)) && Completes(old(lifecycle), readiness, a.inspection) ==>
                ReadyDecided(a.inspection, old(lifecycle), old(output), old(told), old(child).value.pid)
    {
      ghost var was := Now();
      LaterSteps(was, was, was);
      raised := StartOutputObservers(a.closed, a.unobserved);
      if raised || a.exitUnobserved {
        return true;
      }
      if lifecycle.Starting? {
        raised := MakeReady(a.inspection);
      } else {
        raised := false;
      }
    }

    /**
     * START in the created phase: the request is fixed. With everything
     * prepared and no signal, ATTEMPT goes out and the child is spawned, or a
     * refused ATTEMPT ends the session; a failed preparation is a failed startup.
     */
    ghost predicate StartHandled(start: Request, a: AttemptAnswers, before: seq<Event>, o: Output)
      reads this`request, this`events, this`spawning, this`child, this`lifecycle
    {
      && request == Some(start)
      && (!a.prepared.Prepared? || !ValidArgv(a.argv) ==>
            spawning.NotYet? && events == before && lifecycle.Reason() == Some(StartupFailure))
      && (a.prepared.Prepared? && ValidArgv(a.argv) && !a.signal ==>
            if !CanEmit(o, AttemptStarted(a.argv)) then
              spawning.NotYet? && lifecycle.Reason() == Some(OutputFailure)
            else
              && before + [AttemptStarted(a.argv)] <= events
              && spawning == Answered(a.spawn)
              && (a.spawn.Spawned? ==> child.Some? && child.value.pid == a.spawn.pid)
              && (!a.spawn.Spawned? ==> lifecycle.Reason() == Some(StartupFailure))
              && (a.spawn.Spawned? && a.unobserved - a.closed == {} && !a.exitUnobserved ==>
                    (start.startup.policy.ProcessExit? ==> lifecycle.Active?)))
    }

    /** Dispatch of START: once, in the created phase. */
    method HandleStart(start: Request, a: AttemptAnswers)
      requires Valid() && announced && Started(input, inbox.control) == Some(start)
      requires Answerable(a) && !spawning.Underway?
      modifies this`lifecycle, this`acquisition, this`childAcquired, this`child, this`leaseHeld, this`address
      modifies this`inbox, this`relay, this`output, this`events, this`order, this`readiness, this`request
      modifies this`spawning, this`told
      ensures Valid() && Later(old(Now()), Now()) && !spawning.Underway? && inbox.control == old(inbox).control
      ensures request == old(request) || (old(lifecycle).Created? && request == Some(start))
      ensures old(lifecycle).Created? && Quiet(old(inbox)) ==> StartHandled(start, a, old(events), old(output))
    {
      ghost var was := Now();
      Account();
      if !lifecycle.Created? {
        return;
      }
      ghost var mid := Now();
      FirstStart(start, a);
      LaterSteps(was, mid, Now());
    }

    /** Fix the request, and try its attempt. */
    method FirstStart(start: Request, a: AttemptAnswers)
      requires Valid() && announced && Started(input, inbox.control) == Some(start) && lifecycle.Created?
      requires Answerable(a) && !spawning.Underway?
      modifies this`lifecycle, this`acquisition, this`childAcquired, this`child, this`leaseHeld, this`address
      modifies this`inbox, this`relay, this`output, this`events, this`order, this`readiness, this`request
      modifies this`spawning, this`told
      ensures Valid() && Later(old(Now()), Now()) && !spawning.Underway? && inbox.control == old(inbox).control
      ensures request == Some(start)
      ensures Quiet(old(inbox)) ==> StartHandled(start, a, old(events), old(output))
    {
      ghost var was := Now();
      BeginRequest(start);
      ghost var mid := Now();
      TryAttempt(a);
      LaterSteps(was, mid, Now());
      RequestStays(mid, Now());
    }

    /** Start the attempt; what escapes from it is a startup failure. */
    method TryAttempt(a: AttemptAnswers)
      requires Valid() && announced && request.Some? && relay.None? && child.None? && acquisition.None?
      requires lifecycle == Starting(request.value.startup, Authorized, {}) && Answerable(a)
      modifies this`lifecycle, this`acquisition, this`childAcquired, this`child, this`leaseHeld, this`address
      modifies this`inbox, this`relay, this`output, this`events, this`order, this`readiness
      modifies this`spawning, this`told
      ensures Valid() && Later(old(Now()), Now()) && !spawning.Underway? && inbox.control == old(inbox).control
      ensures Quiet(old(inbox)) ==> StartHandled(request.value, a, old(events), old(output))
    {
      ghost var was := Now();
      var raised := StartAttempt(a);
      if raised {
        ghost var mid := Now();
        Fail(StartupFailure, StartupError);
        LaterSteps(was, mid, Now());
      }
    }

    method BeginRequest(start: Request)
      requires Valid() && announced && lifecycle.Created? && Started(input, inbox.control) == Some(start)
      modifies this`lifecycle, this`request, this`order
      ensures Valid() && Later(old(Now()), Now())
      ensures request == Some(start) && lifecycle == Starting(start.startup, Authorized, {})
      ensures relay.None? && child.None? && acquisition.None?
    {
      ghost var was := Now();
      CreatedIsFresh(codec, output, events, order, request, acquisition, relay);
      StartKeeps(codec, output, events, order, acquisition, relay, start);
      HeedsStart(input, start, inbox.leaseLoss, inbox.control);
      ExitedStays(lifecycle, Start(start.startup), told, statuses, codec, output, events, order, request, acquisition,
                  relay, announced);
      order := order.(policy := start.startup.policy, logRequested := start.usesLog);
      request := Some(start);
      lifecycle := Starting(start.startup, Authorized, {});
      MakeLater(was, Now());
    }

    /** Relay decoded child output, until an admission is refused. */
    method ChildOutputRead(stream: Stream, fragments: seq<Event>, last: bool)
      requires Valid() && announced
      requires forall i | 0 <= i < |fragments| :: fragments[i].ChildOutput? && ValidEvent(fragments[i])
      modifies this`lifecycle, this`output, this`events, this`order, this`outputAvailable, this`child
      ensures Valid() && Later(old(Now()), Now()) && Failing(old(lifecycle), lifecycle)
      ensures child.None? ==> old(child).None? && events == old(events)
      ensures child.Some? ==>
                && old(child).Some?
                && old(events) <= events <= old(events) + fragments
                && (outputAvailable ==> events == old(events) + fragments)
                && (old(outputAvailable) && !outputAvailable ==> Stuck(old(events), fragments))
                && child.value.finished == old(child).value.finished + if last then {stream} else {}
    {
      ghost var was := Now();
      LaterSteps(was, was, was);
      FailingSteps(lifecycle, lifecycle, lifecycle);
      if child.None? {
        return;
      }
      RelayFragments(fragments);
      if last {
        child := Some(child.value.(finished := child.value.finished + {stream}));
      }
    }

    method RelayFragments(fragments: seq<Event>)
      requires Valid() && announced && childAcquired
      requires forall i | 0 <= i < |fragments| :: fragments[i].ChildOutput? && ValidEvent(fragments[i])
      modifies this`lifecycle, this`output, this`events, this`order, this`outputAvailable
      ensures Valid() && Later(old(Now()), Now()) && Failing(old(lifecycle), lifecycle)
      ensures old(events) <= events <= old(events) + fragments
      ensures outputAvailable ==> events == old(events) + fragments
      ensures old(outputAvailable) && !outputAvailable ==> Stuck(old(events), fragments)
    {
      ghost var was, done := Now(), 0;
      LaterSteps(was, was, was);
      FailingSteps(lifecycle, lifecycle, lifecycle);
      TakenPart(was.events, fragments, 0);
      for i := 0 to |fragments|
        invariant Valid() && Later(was, Now()) && Failing(was.lifecycle, lifecycle)
        invariant done <= i && events == was.events + fragments[..done]
        invariant outputAvailable ==> done == i
        invariant old(outputAvailable) && !outputAvailable ==> done < i && !CanEmit(output, fragments[done])
      {
        if outputAvailable {
          ghost var mid := Now();
          RelayFragment(fragments[i]);
          LaterSteps(was, mid, Now());
          FailingSteps(was.lifecycle, mid.lifecycle, lifecycle);
          TakenPart(was.events, fragments, i);
          done := if outputAvailable then i + 1 else i;
        }
      }
      TakenPart(was.events, fragments, done);
    }

    /** Output was relayed up to a fragment that could not be admitted. */
    predicate Stuck(before: seq<Event>, fragments: seq<Event>)
      reads this`events, this`output
    {
      exists k | 0 <= k < |fragments| :: events == before + fragments[..k] && !CanEmit(output, fragments[k])
    }

    method RelayFragment(e: Event)
      requires Valid() && announced && childAcquired && outputAvailable && e.ChildOutput? && ValidEvent(e)
      modifies this`lifecycle, this`output, this`events, this`order, this`outputAvailable
      ensures Valid() && Later(old(Now()), Now()) && Failing(old(lifecycle), lifecycle)
      ensures events == if outputAvailable then old(events) + [e] else old(events)
      ensures outputAvailable <==> Emitted(codec, old(output), e, false).Some?
      ensures !outputAvailable ==>
                output == old(output) && lifecycle.Terminating? && EndedBy(old(lifecycle), lifecycle, OutputFailure)
    {
      ghost var was := Now();
      FailingSteps(lifecycle, lifecycle, lifecycle);
      var next := Emitted(codec, output, e, false);
      if next.None? {
        Fail(OutputFailure, OutputAdmission);
        outputAvailable := false;
        return;
      }
      AdmitOutput(e);
    }

    method AdmitOutput(e: Event)
      requires Valid() && announced && childAcquired && e.ChildOutput? && ValidEvent(e)
      requires Emitted(codec, output, e, false).Some?
      modifies this`output, this`events, this`order
      ensures Valid() && Later(old(Now()), Now()) && events == old(events) + [e]
    {
      ghost var was := Now();
      OutputAdmitted(codec, output, events, order, lifecycle, request, acquisition, relay, e);
      output, events, order := Emitted(codec, output, e, false).value, events + [e], order.(outputSeen := true);
      LifeLaterSteps(lifecycle, lifecycle, lifecycle);
      LaterEvent(was, e, lifecycle);
    }

    /** Group disposal finished, with or without an error. */
    method HandleGroupCleaned(failed: bool, observerFails: bool)
      requires Valid() && announced && child.Some? && lifecycle.Terminating?
      modifies this`lifecycle, this`childCleanup, this`child, this`relay, this`output, this`events, this`order
      ensures Valid() && Later(old(Now()), Now()) && Failing(old(lifecycle), lifecycle)
      ensures childCleanup.Cleaned? && child.Some? && lifecycle.Terminating?
      ensures relay.Some? == old(relay).Some?
      ensures relay.Some? && old(relay).value.decision.None? ==>
                if old(child).value.groupDisposed then relay.value.disposalConfirmed
                else relay.value.disposalConfirmed == old(relay).value.disposalConfirmed && !relay.value.reading
      ensures child.value.finished == if observerFails then BOTH else old(child).value.finished
    {
      ghost var was := Now();
      FailingSteps(lifecycle, lifecycle, lifecycle);
      childCleanup := Cleaned;
      if failed {
        CleanupFailure();
      }
      LaterLife(was, lifecycle);
      ghost var mid := Now();
      var _ := LogDisposal(child.value.groupDisposed);
      LaterSteps(was, mid, Now());
      mid := Now();
      StartOutputDeadline(observerFails);
      LaterSteps(was, mid, Now());
      FailingSteps(was.lifecycle, mid.lifecycle, lifecycle);
    }

    /** Bound the draining of the child's output; without the observer for that the streams count as finished. */
    method StartOutputDeadline(fails: bool)
      requires Valid() && child.Some?
      modifies this`lifecycle, this`child
      ensures Valid() && Later(old(Now()), Now()) && Failing(old(lifecycle), lifecycle)
      ensures child.Some? && child.value.finished == if fails then BOTH else old(child).value.finished
    {
      ghost var was := Now();
      LaterSteps(was, was, was);
      FailingSteps(lifecycle, lifecycle, lifecycle);
      if fails && child.value.finished != BOTH {
        CleanupFailure();
        child := Some(child.value.(finished := BOTH));
        LaterLife(was, lifecycle);
      }
    }

    /** Start disposing of the child's process group, once. */
    method BeginChildCleanup(t: Turn)
      requires Valid() && announced && lifecycle.Terminating?
      modifies this`lifecycle, this`childCleanup, this`child, this`relay, this`output, this`events, this`order
      ensures Valid() && Later(old(Now()), Now()) && Failing(old(lifecycle), lifecycle)
      ensures lifecycle.Terminating? && child.Some? == old(child).Some?
      ensures child.Some? ==> childCleanup != NotBegun
      ensures old(childCleanup) != NotBegun ==> child == old(child) && childCleanup == old(childCleanup)
    {
      ghost var was := Now();
      LaterSteps(was, was, was);
      FailingSteps(lifecycle, lifecycle, lifecycle);
      if child.None? || childCleanup != NotBegun {
        return;
      }
      if t.cleanupTaskFails {
        DisposeInline(t);
      } else {
        childCleanup := Disposing;
      }
      var unobserved := StartOutputObservers(t.closed, t.unobserved);
      if unobserved {
        ghost var mid := Now();
        CleanupFailure();
        LaterSteps(was, mid, Now());
        FailingSteps(was.lifecycle, mid.lifecycle, lifecycle);
      }
    }

    /** Without a task to do it, the coordinator disposes of the group itself. */
    method DisposeInline(t: Turn)
      requires Valid() && announced && lifecycle.Terminating? && child.Some?
      modifies this`lifecycle, this`childCleanup, this`child, this`relay, this`output, this`events, this`order
      ensures Valid() && Later(old(Now()), Now()) && Failing(old(lifecycle), lifecycle)
      ensures childCleanup.Cleaned? && child.Some?
    {
      ghost var was := Now();
      FailingSteps(lifecycle, lifecycle, lifecycle);
      CleanupFailure();
      child := Some(child.value.(groupDisposed := child.value.groupDisposed || t.groupDisposed));
      LaterLife(was, lifecycle);
      ghost var mid := Now();
      HandleGroupCleaned(t.groupFails, t.deadlineFails);
      LaterSteps(was, mid, Now());
      FailingSteps(was.lifecycle, mid.lifecycle, lifecycle);
    }

    method CloseAddressLease(fails: bool)
      requires Valid()
      modifies this`lifecycle, this`leaseHeld
      ensures Valid() && Failing(old(lifecycle), lifecycle)
      ensures leaseHeld == (old(leaseHeld) && fails)
      ensures leaseHeld ==> lifecycle.Terminating? && Failed(lifecycle)
      ensures Adds(old(lifecycle), lifecycle, if leaseHeld then [Fault(CleanupError)] else [])
    {
      AddsNothing(lifecycle, []);
      FailingSteps(lifecycle, lifecycle, lifecycle);
      if leaseHeld {
        if fails {
          CleanupFailure();
        } else {
          leaseHeld := false;
        }
      }
    }

    /** Whether nothing of the child is left. */
    predicate ChildDisposed()
      requires OwnedAs(spawning, acquisition, settlement)
      reads this`acquisition, this`settlement, this`spawning
      ensures ChildDisposed() <==> NothingLeft(spawning, settlement)
    {
      acquisition.None? ||
      (acquisition.value.producerQuiescent &&
       (!acquisition.value.process || acquisition.value.rollbackConfirmed ||
        (settlement.Some? && settlement.value.Confirmed())))
    }

    /**
     * Cancel tasks and await each: its error is a cleanup failure, and a failure
     * it had recorded itself is accounted. Nothing else that happens meanwhile is.
     */
    method Cancel(tasks: seq<Cancelled>)
      requires Valid() && announced
      modifies this`lifecycle, this`inbox, this`child, this`relay, this`output, this`events, this`order, this`credits
      ensures Valid() && Later(old(Now()), Now()) && Failing(old(lifecycle), lifecycle)
      ensures SameChild(old(child), child) && relay.Some? == old(relay).Some?
      ensures inbox == CancelInbox(input.Decoders(), old(inbox), tasks)
      ensures Adds(old(lifecycle), lifecycle, CancelDue(input.Decoders(), old(inbox), tasks, old(child).Some?))
    {
      ghost var was, has := Now(), child.Some?;
      ghost var due := CancelDue(input.Decoders(), inbox, tasks, has);
      LaterSteps(was, was, was);
      FailingSteps(lifecycle, lifecycle, lifecycle);
      AddsNothing(lifecycle, due);
      assert tasks[0..] == tasks;
      for i := 0 to |tasks|
        invariant Valid() && Later(was, Now()) && Failing(was.lifecycle, lifecycle)
        invariant SameChild(old(child), child) && relay.Some? == old(relay).Some?
        invariant CancelInbox(input.Decoders(), inbox, tasks[i..]) == CancelInbox(input.Decoders(), old(inbox), tasks)
        invariant Owes(was.lifecycle, lifecycle, CancelDue(input.Decoders(), inbox, tasks[i..], has), due)
      {
        ghost var mid, held := Now(), inbox;
        CancelOne(tasks[i]);
        LaterSteps(was, mid, Now());
        FailingSteps(was.lifecycle, mid.lifecycle, lifecycle);
        assert tasks[i..][1..] == tasks[i + 1..];
        OwesLess(was.lifecycle, mid.lifecycle, lifecycle, CancelledDue(input.Decoders(), held, tasks[i], has),
                 CancelDue(input.Decoders(), inbox, tasks[i + 1..], has), due);
      }
    }

    method CancelOne(t: Cancelled)
      requires Valid() && announced
      modifies this`lifecycle, this`inbox, this`child, this`relay, this`output, this`events, this`order, this`credits
      ensures Valid() && Later(old(Now()), Now()) && Failing(old(lifecycle), lifecycle)
      ensures SameChild(old(child), child) && relay.Some? == old(relay).Some?
      ensures inbox == CancelledInbox(input.Decoders(), old(inbox), t)
      ensures Adds(old(lifecycle), lifecycle, CancelledDue(input.Decoders(), old(inbox), t, old(child).Some?))
    {
      ghost var was := Now();
      Meanwhile(t.world);
      ghost var mid, errors := Now(), if t.fails then [Fault(CleanupError)] else [];
      FailingSteps(lifecycle, lifecycle, lifecycle);
      AddsNothing(lifecycle, []);
      if t.fails {
        CleanupFailure();
      }
      LaterLife(mid, lifecycle);
      LaterSteps(was, mid, Now());
      mid := Now();
      AddsNothing(lifecycle, []);
      FailingSteps(lifecycle, lifecycle, lifecycle);
      LaterSteps(mid, mid, mid);
      ghost var own := OwnFailure(t.own);
      LaterSteps(was, mid, Now());
      FailingSteps(was.lifecycle, mid.lifecycle, lifecycle);
      AddsSteps(was.lifecycle, mid.lifecycle, lifecycle, errors, own);
    }

    /** The failure a cancelled task had recorded itself, if it is still to be accounted. */
    method OwnFailure(own: Option<nat>) returns (ghost due: seq<Diagnostic>)
      requires Valid() && announced
      modifies this`lifecycle, this`inbox, this`child, this`relay, this`output, this`events, this`order
      ensures Valid() && Later(old(Now()), Now()) && Failing(old(lifecycle), lifecycle)
      ensures SameChild(old(child), child) && relay.Some? == old(relay).Some?
      ensures inbox == if own.Some? && own.value < |old(inbox).failures|
                       then old(inbox).(failures := Without(old(inbox).failures, own.value)) else old(inbox)
      ensures due == if own.Some? && own.value < |old(inbox).failures|
                        && Counts(old(inbox).failures[own.value], old(child).Some?)
                     then [Fault(ObserverError)] else []
      ensures Adds(old(lifecycle), lifecycle, due)
    {
      ghost var was := Now();
      LaterSteps(was, was, was);
      FailingSteps(lifecycle, lifecycle, lifecycle);
      AddsNothing(lifecycle, []);
      due := [];
      if own.Some? && own.value < |inbox.failures| {
        due := if Counts(inbox.failures[own.value], child.Some?) then [Fault(ObserverError)] else [];
        ObserverFailed(own.value);
      }
    }

    /** The exit the child's own task saw, if it saw one. */
    method NoteExit()
      requires Valid() && child.Some? && !resourcesReleased
      modifies this`lifecycle, this`told
      ensures Valid() && LifeLater(old(lifecycle), lifecycle)
      ensures old(lifecycle).Terminating? ==> lifecycle.Terminating?
      ensures child.value.returncode.None? ==> lifecycle == old(lifecycle)
      ensures told == old(told) +
                      if child.value.returncode.None? then []
                      else [ChildResult(child.value.returncode.value,
                                        child.value.terminationRequested && old(lifecycle).Terminating?)]
    {
      LifeLaterSteps(lifecycle, lifecycle, lifecycle);
      assert told + [] == told;
      if child.value.returncode.Some? {
        RecordExit(child.value.returncode.value);
      }
    }

    /** What was disposed of, as it stands once the tasks and streams are closed. */
    method Settle(s: Settling)
      requires Valid() && child.Some? && childCleanup.Cleaned? && !resourcesReleased
      modifies this`lifecycle, this`settlement, this`leaseHeld, this`told
      ensures Valid() && LifeLater(old(lifecycle), lifecycle)
      ensures settlement == Some(Settlement(true, child.value.groupDisposed, s.observersSettled, s.pipesClosed))
      ensures told == [] ==> child.value.returncode.None?
      ensures leaseHeld == (old(leaseHeld) && s.leaseCloseFails)
    {
      ghost var was := lifecycle;
      FailingSteps(was, was, was);
      if s.streamsFail {
        CleanupFailure();
      }
      ghost var mid := lifecycle;
      NoteExit();
      LifeLaterSteps(was, mid, lifecycle);
      mid := lifecycle;
      settlement := Some(Settlement(acquisition.value.producerQuiescent, child.value.groupDisposed,
                                    s.observersSettled, s.pipesClosed));
      CloseAddressLease(s.leaseCloseFails);
      LifeLaterSteps(was, mid, lifecycle);
    }

    method SettleChild(s: Settling)
      requires Valid() && announced && child.Some? && childCleanup.Cleaned? && !resourcesReleased
      modifies this`lifecycle, this`inbox, this`child, this`relay, this`output, this`events, this`order, this`credits
      modifies this`settlement, this`leaseHeld, this`told
      ensures Valid() && Later(old(Now()), Now()) && child.Some?
      ensures told == [] ==> old(child).value.returncode.None?
      ensures settlement == Some(Settlement(true, old(child).value.groupDisposed, s.observersSettled, s.pipesClosed))
      ensures leaseHeld == (old(leaseHeld) && s.leaseCloseFails)
    {
      ghost var was := Now();
      Cancel(s.cancelled);
      ghost var mid := Now();
      SettleAndAccount(s);
      LaterSteps(was, mid, Now());
    }

    /** Settle, then account what was recorded meanwhile. */
    method SettleAndAccount(s: Settling)
      requires Valid() && announced && child.Some? && childCleanup.Cleaned? && !resourcesReleased
      modifies this`lifecycle, this`inbox, this`child, this`relay, this`output, this`events, this`order
      modifies this`settlement, this`leaseHeld, this`told
      ensures Valid() && Later(old(Now()), Now()) && child.Some?
      ensures told == [] ==> old(child).value.returncode.None?
      ensures settlement == Some(Settlement(true, old(child).value.groupDisposed, s.observersSettled, s.pipesClosed))
      ensures leaseHeld == (old(leaseHeld) && s.leaseCloseFails)
    {
      ghost var was := Now();
      Settle(s);
      LaterLife(was, lifecycle);
      ghost var mid := Now();
      Account();
      LaterSteps(was, mid, Now());
    }

    /** Disposal stays unconfirmed: a recorded failure, and no complete log. */
    method KeepUnconfirmed()
      requires Valid() && announced
      modifies this`lifecycle, this`relay, this`output, this`events, this`order
      ensures Valid() && Later(old(Now()), Now()) && lifecycle.Terminating? && Failed(lifecycle)
      ensures relay.Some? == old(relay).Some?
      ensures relay.Some? && old(relay).value.decision.None? ==> !relay.value.reading
    {
      ghost var was := Now();
      CleanupFailure();
      ghost var mid := Now();
      var _ := LogDisposal(false);
      LaterSteps(was, mid, Now());
    }

    /**
     * Settle the attempt once its group is disposed and its output drained.
     * Only a fully confirmed settlement with the address released gives the
     * child up; anything else is a recorded failure and cuts the log.
     */
    method FinishAttempt(s: Settling)
      requires Valid() && announced && child.Some? && childCleanup.Cleaned? && !resourcesReleased
      modifies this`lifecycle, this`inbox, this`child, this`relay, this`output, this`events, this`order, this`credits
      modifies this`settlement, this`leaseHeld, this`attemptFinished, this`told
      ensures Valid() && Later(old(Now()), Now()) && attemptFinished && lifecycle.Terminating?
      ensures settlement == Some(Settlement(true, old(child).value.groupDisposed, s.observersSettled, s.pipesClosed))
      ensures leaseHeld == (old(leaseHeld) && s.leaseCloseFails)
      ensures child.None? <==> settlement.value.Confirmed() && !leaseHeld
      ensures child.None? ==> NothingLeft(spawning, settlement)
      ensures child.None? ==> lifecycle.held.Some? && lifecycle.held.value.Settled?
      ensures child.Some? ==> Failed(lifecycle)
      ensures told == [] ==> old(child).value.returncode.None?
    {
      ghost var was := Now();
      LifeLaterSteps(lifecycle, lifecycle, lifecycle);
      SettleChild(s);
      // The session is terminating here, so the source's startup-exit branch is never taken.
      ghost var mid := Now();
      CloseAttempt();
      LaterSteps(was, mid, Now());
    }

    /** The settled attempt: its child given up, or its disposal on record as unconfirmed. */
    method CloseAttempt()
      requires Valid() && announced && child.Some? && lifecycle.Terminating? && settlement.Some?
      modifies this`lifecycle, this`child, this`relay, this`output, this`events, this`order, this`attemptFinished
      ensures Valid() && Later(old(Now()), Now()) && attemptFinished && lifecycle.Terminating?
      ensures child.None? <==> settlement.value.Confirmed() && !leaseHeld
      ensures child.None? ==> lifecycle.held.Some? && lifecycle.held.value.Settled?
      ensures child.Some? ==> Failed(lifecycle)
      ensures child.Some? && relay.Some? && old(relay).Some? && old(relay).value.decision.None? ==> !relay.value.reading
    {
      if settlement.value.Confirmed() && !leaseHeld {
        GiveUpChild();
      } else {
        KeepUnconfirmed();
      }
      attemptFinished := true;
    }

    /** A confirmed settlement, with the address released, gives the child up. */
    method GiveUpChild()
      requires Valid() && announced && lifecycle.Terminating? && acquisition.Some?
      modifies this`lifecycle, this`child
      ensures Valid() && Later(old(Now()), Now()) && child.None?
      ensures lifecycle.Terminating? && lifecycle.held.Some? && lifecycle.held.value.Settled?
    {
      ghost var was := Now();
      SettleOwnersKeep(codec, output, events, order, lifecycle, request, acquisition, relay, announced);
      HeedsCall(input, lifecycle, SettleAttempt(true, true), request, inbox.leaseLoss, inbox.control);
      ExitedStays(lifecycle, SettleAttempt(true, true), told, statuses, codec, output, events, order, request,
                  acquisition, relay, announced);
      lifecycle := Next(lifecycle, SettleAttempt(true, true)).phase;
      child := None;
      LaterLife(was, lifecycle);
    }

    /**
     * What can be observed when: only an acquired child writes to the log,
     * nothing follows its end-of-file, and that is read only once the
     * session's own writer was closed by a confirmed disposal; START and the
     * end of control are what the control observer published.
     */
    predicate Possible(o: Observation)
      reads this`relay, this`childAcquired, this`lifecycle, this`logDrainStarted, this`childCleanup
      reads this`credits, this`inbox
    {
      match o
      case StartReceived(start, _) => Started(input, inbox.control) == Some(start)
      case ControlEOF => Ended(inbox.control)
      case LogChunk(chunk) =>
        relay.Some? ==>
          if chunk == [] then lifecycle.Terminating? && relay.value.disposalConfirmed
          else childAcquired && !relay.value.endOfFile
      case ChildText(_, fragments, _) =>
        forall i | 0 <= i < |fragments| :: fragments[i].ChildOutput? && ValidEvent(fragments[i])
      case LogCredit => credits > 0
      case LogDeadlineReached => logDrainStarted
      case GroupCleaned(_, _) => childCleanup.Disposing?
      case _ => true
    }

    /** A returned credit arrived, and the log goes on. */
    method HandleLogCredit()
      requires Valid() && announced && Possible(LogCredit)
      modifies this`relay, this`output, this`events, this`order, this`credits
      ensures Valid() && Later(old(Now()), Now())
      ensures credits == old(credits) - 1 && relay.Some? == old(relay).Some?
      ensures relay.Some? ==> PumpedOut(relay.value, output)
      ensures DecidedInTime()
    {
      credits := credits - 1;
      var _ := LogProgress();
    }

    /** A chunk of the log channel joins the relay, and the log goes on. */
    method HandleLogChunk(chunk: bytes) returns (ghost log: seq<Event>)
      requires Valid() && announced && Possible(LogChunk(chunk))
      modifies this`relay, this`output, this`events, this`order
      ensures Valid() && Later(old(Now()), Now())
      ensures relay.Some? == old(relay).Some?
      ensures relay.Some? ==>
                && LogProgressed(codec, Accepted(old(relay).value, chunk), old(output), relay.value, output, log)
                && events == old(events) + log && DecidedInTime()
                && relay.value.channel == old(relay).value.channel + chunk
    {
      ghost var was := Now();
      if relay.Some? {
        AcceptKeepsOwners(codec, output, events, order, lifecycle, request, acquisition, relay.value, announced, chunk);
        relay := Some(Accepted(relay.value, chunk));
      }
      LaterLog(was, [], was.decision);
      ghost var mid := Now();
      log := LogProgress();
      LaterSteps(was, mid, Now());
    }

    method HandleEof()
      requires Valid() && announced
      modifies this`lifecycle, this`inbox, this`relay, this`output, this`events, this`order, this`child
      ensures Valid() && Later(old(Now()), Now()) && lifecycle.Terminating? && inbox.control == old(inbox).control
      ensures Due(old(inbox), old(child).Some?) == [] ==> EndedBy(old(lifecycle), lifecycle, ControllerEof)
    {
      ghost var was := Now();
      Account();
      ghost var mid := Now();
      EofKeeps(codec, output, events, order, lifecycle, request, acquisition, relay, announced);
      HeedsCall(input, lifecycle, Terminate(ControllerEof, None), request, inbox.leaseLoss, inbox.control);
      ExitedFailing(lifecycle, Next(lifecycle, Terminate(ControllerEof, None)).phase, told, statuses);
      lifecycle := Next(lifecycle, Terminate(ControllerEof, None)).phase;
      LaterLife(mid, lifecycle);
      LaterSteps(was, mid, Now());
    }

    /** Readiness times out, unless the last check decides it. */
    method HandleReadinessDeadline(i: Inspection) returns (raised: bool)
      requires Valid() && announced && child.Some? && !resourcesReleased && Among(PollStatus(i), statuses)
      modifies this`lifecycle, this`inbox, this`relay, this`output, this`events, this`order, this`child, this`told
      ensures Valid() && Later(old(Now()), Now()) && inbox.control == old(inbox).control
      ensures !raised ==> !lifecycle.Starting?
      ensures raised ==> i.poll.PollRaised?
    {
      ghost var was := Now();
      LaterSteps(was, was, was);
      if !lifecycle.Starting? {
        return false;
      }
      raised := MakeReady(i);
      if raised || !lifecycle.Starting? {
        return;
      }
      StartingIsUnobserved(codec, output, events, order, lifecycle, request, acquisition, relay, announced);
      // A starting child is always adopted and has no result yet.
      assert lifecycle.attempt.Owned? && lifecycle.attempt.childResult.None?;
      ghost var mid := Now();
      Fail(StartupFailure, ReadinessTimeout);
      LaterSteps(was, mid, Now());
    }

    method HandleOutputDeadline()
      requires Valid() && announced && child.Some?
      modifies this`lifecycle, this`child
      ensures Valid() && Later(old(Now()), Now()) && child.Some? && child.value.finished == BOTH
    {
      ghost var was := Now();
      LaterSteps(was, was, was);
      if child.value.finished != BOTH {
        CleanupFailure();
        child := Some(child.value.(finished := BOTH));
        LaterLife(was, lifecycle);
      }
    }

    /** Dispatch one observation; only a failing poll of the child escapes. */
    method Handle(o: Observation) returns (raised: bool)
      requires Valid() && announced && Possible(o) && !resourcesReleased && !spawning.Underway?
      requires ObservationAmong(o, statuses)
      modifies this`lifecycle, this`acquisition, this`childAcquired, this`child, this`leaseHeld, this`address
      modifies this`credits
      modifies this`inbox, this`relay, this`output, this`events, this`order, this`readiness, this`request
      modifies this`outputAvailable, this`childCleanup, this`spawning, this`told
      ensures Valid() && Later(old(Now()), Now()) && !spawning.Underway? && inbox.control == old(inbox).control
      ensures InputHandled(o)
      ensures o.LogChunk? && relay.Some? ==>
                old(relay).Some? && relay.value.channel == old(relay).value.channel + o.chunk
      ensures o.LogDeadlineReached? && relay.Some? ==> relay.value.decision.Some?
      ensures !raised ==> Handled(o, old(child), old(lifecycle), old(told))
      ensures raised ==> o.ReadinessPoll? || o.ReadinessDeadline?
    {
      if OfChild(o) {
        raised := HandleChild(o);
      } else {
        HandleOther(o);
        raised := false;
      }
    }

    /** Everything that is not about the child itself. */
    method HandleOther(o: Observation)
      requires Valid() && announced && Possible(o) && !resourcesReleased && !spawning.Underway?
      requires ObservationAmong(o, statuses) && !OfChild(o)
      modifies this`lifecycle, this`acquisition, this`childAcquired, this`child, this`leaseHeld, this`address
      modifies this`credits
      modifies this`inbox, this`relay, this`output, this`events, this`order, this`readiness, this`request
      modifies this`outputAvailable, this`spawning, this`told
      ensures Valid() && Later(old(Now()), Now()) && !spawning.Underway? && inbox.control == old(inbox).control
      ensures InputHandled(o)
      ensures o.LogChunk? && relay.Some? ==>
                old(relay).Some? && relay.value.channel == old(relay).value.channel + o.chunk
      ensures o.LogDeadlineReached? && relay.Some? ==> relay.value.decision.Some?
    {
      if o.LogChunk? || o.LogCredit? || o.LogReaderStopped? || o.LogDeadlineReached? {
        HandleLog(o);
      } else {
        HandleInput(o);
      }
    }

    /** What control input, a signal, an observer failure and child output have brought about. */
    twostate predicate InputHandled(o: Observation)
      reads this
    {
      && (o.ControlEOF? ==>
            && lifecycle.Terminating?
            && (Due(old(inbox), old(child).Some?) == [] ==> EndedBy(old(lifecycle), lifecycle, ControllerEof)))
      && (request == old(request) || (o.StartReceived? && old(lifecycle).Created? && request == Some(o.request)))
      && (o.StartReceived? && old(lifecycle).Created? && Quiet(old(inbox)) ==>
            StartHandled(o.request, o.answers, old(events), old(output)))
      && (o.SignalReceived? ==>
            && Adds(old(lifecycle), lifecycle, Due(old(inbox), child.Some?))
            && (Due(old(inbox), child.Some?) != [] ==>
                  EndedBy(old(lifecycle), lifecycle, DueReason(old(inbox), child.Some?))))
      && (o.ObservationFailed? && o.index < |old(inbox).failures| ==>
            inbox == old(inbox).(failures := Without(old(inbox).failures, o.index)))
      && (o.ChildText? && old(child).Some? ==>
            && old(events) <= events <= old(events) + o.fragments
            && (outputAvailable ==> events == old(events) + o.fragments)
            && (old(outputAvailable) && !outputAvailable ==> Stuck(old(events), o.fragments)))
    }

    predicate OfChild(o: Observation) {
      o.ReadinessPoll? || o.ChildExited? || o.GroupCleaned? || o.ReadinessDeadline? || o.OutputDeadline?
    }

    /** Control input, signals, observer failures and the child's output. */
    method HandleInput(o: Observation)
      requires Valid() && announced && Possible(o) && !resourcesReleased && !spawning.Underway?
      requires ObservationAmong(o, statuses)
      requires o.StartReceived? || o.ControlEOF? || o.SignalReceived? || o.ObservationFailed? || o.ChildText?
      modifies this`lifecycle, this`acquisition, this`childAcquired, this`child, this`leaseHeld, this`address
      modifies this`inbox, this`relay, this`output, this`events, this`order, this`readiness, this`request
      modifies this`outputAvailable, this`spawning, this`told
      ensures Valid() && Later(old(Now()), Now()) && !spawning.Underway? && inbox.control == old(inbox).control
      ensures InputHandled(o)
    {
      ghost var was := Now();
      LaterSteps(was, was, was);
      if o.StartReceived? {
        HandleStart(o.request, o.answers);
      } else if o.ControlEOF? {
        HandleEof();
      } else if o.SignalReceived? {
        Account();
      } else if o.ChildText? {
        ChildOutputRead(o.stream, o.fragments, o.last);
      } else if o.index < |inbox.failures| {
        ObserverFailed(o.index);
      }
    }

    /** Observations about the log. */
    method HandleLog(o: Observation)
      requires Valid() && announced && Possible(o)
      requires o.LogChunk? || o.LogCredit? || o.LogReaderStopped? || o.LogDeadlineReached?
      modifies this`relay, this`output, this`events, this`order, this`credits
      ensures Valid() && Later(old(Now()), Now())
      ensures o.LogChunk? && relay.Some? ==>
                old(relay).Some? && relay.value.channel == old(relay).value.channel + o.chunk
      ensures o.LogDeadlineReached? && relay.Some? ==> relay.value.decision.Some?
    {
      ghost var was := Now();
      LaterSteps(was, was, was);
      if o.LogChunk? {
        var _ := HandleLogChunk(o.chunk);
      } else if o.LogCredit? {
        HandleLogCredit();
      } else if o.LogReaderStopped? {
        var _ := LogProgress();
      } else if relay.Some? {
        DecideRelay(true);
      }
    }

    /** What an observation about a child that is still owned has brought about. */
    ghost predicate Handled(o: Observation, was: Option<Child>, before: Phase, exits: seq<ChildResult>)
      reads this`lifecycle, this`childCleanup, this`child, this`told
    {
      was.Some? ==>
        match o
        case ChildExited(returncode) =>
          && told == exits + [ChildResult(returncode, was.value.terminationRequested && before.Terminating?)]
          && lifecycle.Result() == Some(told[0])
          && (before.Active? ==> EndedBy(before, lifecycle, ChildExit))
          && (before.Starting? ==> EndedBy(before, lifecycle, StartupFailure))
        case GroupCleaned(_, _) => childCleanup.Cleaned?
        case ReadinessDeadline(_) => !lifecycle.Starting?
        case OutputDeadline => child.Some? && child.value.finished == BOTH
        case _ => true
    }

    /** Observations about the child, ignored once it is given up. */
    method HandleChild(o: Observation) returns (raised: bool)
      requires Valid() && announced && Possible(o) && !resourcesReleased && ObservationAmong(o, statuses)
      modifies this`lifecycle, this`inbox, this`relay, this`output, this`events, this`order, this`child
      modifies this`childCleanup, this`told
      ensures Valid() && Later(old(Now()), Now()) && inbox.control == old(inbox).control
      ensures !raised ==> Handled(o, old(child), old(lifecycle), old(told))
      ensures raised ==> o.ReadinessPoll? || o.ReadinessDeadline?
    {
      ghost var was := Now();
      LaterSteps(was, was, was);
      raised := false;
      if child.None? {
        return;
      }
      match o {
        case ReadinessPoll(inspection) => raised := MakeReady(inspection);
        case ChildExited(returncode) =>
          RecordExit(returncode);
          LaterLife(was, lifecycle);
        case GroupCleaned(failed, observerFails) => HandleGroupCleaned(failed, observerFails);
        case ReadinessDeadline(inspection) => raised := HandleReadinessDeadline(inspection);
        case OutputDeadline => HandleOutputDeadline();
        case _ =>
      }
    }

    /** The writer task ran, and the credit task may have published a returned credit. */
    method RunOutput(writes: seq<WriteResult>, creditPublished: bool)
      requires Valid()
      modifies this`output, this`credits
      ensures Valid()
      ensures
        var ran := RunWriter(old(output), writes);
        if creditPublished && ran.creditReturned
        then output == ran.(creditReturned := false) && credits == old(credits) + 1
        else output == ran && credits == old(credits)
    {
      var ran := RunWriter(output, writes);
      WriterOwnersKeep(codec, output, events, order, lifecycle, request, acquisition, relay, announced, writes,
                       creditPublished && ran.creditReturned);
      WriterKeepsCredit(codec, output, events, order, lifecycle, request, acquisition, relay, announced, writes);
      if creditPublished && ran.creditReturned {
        output, credits := ran.(creditReturned := false), credits + 1;
      } else {
        output := ran;
      }
    }

    /** What the child's own tasks found out. */
    method LearnChild(w: World)
      requires Valid() && Among(w.returncode, statuses)
      modifies this`child
      ensures Valid() && child.Some? == old(child).Some?
      ensures child.Some? ==>
                && (old(child).value.returncode.Some? ==> child.value.returncode == old(child).value.returncode)
                && (old(child).value.groupDisposed ==> child.value.groupDisposed)
                && (old(child).value.terminationRequested ==> child.value.terminationRequested)
                && (old(child).value.returncode.None? ==> child.value.returncode == w.returncode)
                && child.value.groupDisposed == (old(child).value.groupDisposed || w.disposed)
                && child.value.pid == old(child).value.pid
    {
      if child.Some? {
        child := Some(child.value.(
          terminationRequested := child.value.terminationRequested || w.requested,
          returncode := if child.value.returncode.Some? then child.value.returncode else w.returncode,
          groupDisposed := child.value.groupDisposed || w.disposed));
      }
    }

    /** A signal, the loss of the lease, and observer failures are retained as they happen. */
    method LearnFailures(w: World)
      requires Valid()
      modifies this`inbox
      ensures Valid() && inbox == Filled(input.Decoders(), old(inbox), w)
    {
      HeardAllKeeps(input, lifecycle, request, inbox, w.control);
      inbox := Filled(input.Decoders(), inbox, w);
    }

    /** The log reader found an error after disposal left no writer. */
    method LearnReader(fails: bool)
      requires Valid() && announced
      modifies this`relay
      ensures Valid() && Later(old(Now()), Now()) && relay.Some? == old(relay).Some?
      ensures relay == if fails && relay.Some? && old(relay).value.disposalConfirmed
                       then Some(ReadFailed(old(relay).value)) else old(relay)
    {
      ghost var was := Now();
      LaterSteps(was, was, was);
      if fails && relay.Some? && relay.value.disposalConfirmed {
        FailRead();
        LaterLog(was, [], was.decision);
      }
    }

    /** What other tasks and the writer did while one task was awaited. */
    method Meanwhile(w: World)
      requires Valid() && announced
      modifies this`inbox, this`output, this`relay, this`credits
      ensures Valid() && Later(old(Now()), Now()) && lifecycle == old(lifecycle)
      ensures relay.Some? == old(relay).Some? && events == old(events)
      ensures inbox == Filled(input.Decoders(), old(inbox), w)
    {
      ghost var was := Now();
      RunOutput(w.writes, w.creditPublished);
      LearnFailures(w);
      assert Now() == was;
      LearnReader(w.logReadFails);
    }

    /** What the rest of the world did while the coordinator waited. */
    method Interleave(w: World)
      requires Valid() && announced && Among(w.returncode, statuses)
      modifies this`inbox, this`output, this`relay, this`child, this`credits
      ensures Valid() && Later(old(Now()), Now())
      ensures relay.Some? == old(relay).Some? && child.Some? == old(child).Some?
      ensures inbox == Filled(input.Decoders(), old(inbox), w)
    {
      ghost var was := Now();
      LearnChild(w);
      assert Now() == was;
      Meanwhile(w);
    }

    method CloseReadiness(fails: bool)
      requires Valid()
      modifies this`lifecycle
      ensures Valid() && Failing(old(lifecycle), lifecycle)
      ensures !fails ==> lifecycle == old(lifecycle)
    {
      FailingSteps(lifecycle, lifecycle, lifecycle);
      if readiness && fails {
        CleanupFailure();
      }
    }

    method BeginLogDrain(taskFails: bool)
      requires Valid() && announced && lifecycle.Terminating?
      modifies this`lifecycle, this`logDrainStarted, this`relay
      ensures Valid() && Later(old(Now()), Now()) && lifecycle.Terminating? && relay.Some? == old(relay).Some?
      ensures relay.Some? && relay.value.decision.None? ==> logDrainStarted
    {
      ghost var was := Now();
      LaterSteps(was, was, was);
      if logDrainStarted || relay.None? || relay.value.decision.Some? {
        return;
      }
      logDrainStarted := true;
      if taskFails {
        CleanupFailure();
        ghost var mid := Now();
        DecideRelay(true);
        LaterSteps(was, mid, Now());
      }
    }

    /** Whether the log is decided; without a child only the session's own writer existed. */
    method LogDecided() returns (decided: bool)
      requires Valid() && announced && lifecycle.Terminating?
      modifies this`relay
      ensures Valid() && Later(old(Now()), Now())
      ensures decided <==> relay.None? || relay.value.decision.Some?
      ensures decided <==> old(relay).None? || old(relay).value.decision.Some? || !childAcquired
    {
      ghost var was := Now();
      LaterSteps(was, was, was);
      if relay.None? || relay.value.decision.Some? {
        return true;
      }
      if !childAcquired {
        DecideRelay(false);
        return true;
      }
      return false;
    }

    method CloseStaging(fails: bool)
      requires Valid() && lifecycle.Terminating?
      modifies this`lifecycle, this`stagingClosed, this`disk
      ensures Valid() && Failing(old(lifecycle), lifecycle) && lifecycle.Terminating? && stagingClosed
      ensures disk == if !fails && !old(stagingClosed) then old(disk).(closure := true) else old(disk)
    {
      FailingSteps(lifecycle, lifecycle, lifecycle);
      if !stagingClosed {
        if fails {
          CleanupFailure();
        } else {
          disk := disk.(closure := true);
        }
        stagingClosed := true;
      }
    }

    /** The terminating part of a turn: drain the log, close staging, dispose of the child. */
    method Wind(t: Turn) returns (finished: bool)
      requires Valid() && announced && lifecycle.Terminating?
      modifies this`lifecycle, this`logDrainStarted, this`relay, this`stagingClosed, this`disk
      modifies this`childCleanup, this`child, this`output, this`events, this`order
      ensures Valid() && Later(old(Now()), Now()) && lifecycle.Terminating? && child.Some? == old(child).Some?
      ensures finished ==> (child.None? || attemptFinished) && (relay.Some? ==> relay.value.decision.Some?)
      ensures MayReturn(old(child), attemptFinished, old(relay), childAcquired) ==> finished
      ensures old(childCleanup).Cleaned? ==> child == old(child) && childCleanup.Cleaned?
      ensures stagingClosed
    {
      ghost var was := Now();
      BeginWind(t);
      ghost var mid := Now();
      finished := WindOn(t);
      LaterSteps(was, mid, Now());
    }

    /** Finished once the child is settled and the log decided; until then the child is disposed of. */
    method WindOn(t: Turn) returns (finished: bool)
      requires Valid() && announced && lifecycle.Terminating?
      modifies this`lifecycle, this`relay, this`childCleanup, this`child, this`output, this`events, this`order
      ensures Valid() && Later(old(Now()), Now()) && lifecycle.Terminating? && child.Some? == old(child).Some?
      ensures finished ==> (child.None? || attemptFinished) && (relay.Some? ==> relay.value.decision.Some?)
      ensures MayReturn(old(child), attemptFinished, old(relay), childAcquired) ==> finished
      ensures old(childCleanup).Cleaned? ==> child == old(child) && childCleanup.Cleaned?
    {
      if child.None? || attemptFinished {
        finished := LogDecided();
      } else {
        BeginChildCleanup(t);
        finished := false;
      }
    }

    method BeginWind(t: Turn)
      requires Valid() && announced && lifecycle.Terminating?
      modifies this`lifecycle, this`logDrainStarted, this`relay, this`stagingClosed, this`disk
      ensures Valid() && Later(old(Now()), Now()) && lifecycle.Terminating? && stagingClosed
      ensures relay.Some? == old(relay).Some?
      ensures old(relay).Some? && old(relay).value.decision.Some? ==> relay.value.decision.Some?
    {
      ghost var was := Now();
      BeginLogDrain(t.drainTaskFails);
      ghost var mid := Now();
      CloseStaging(t.closureFails);
      LaterLife(mid, lifecycle);
      LaterSteps(was, mid, Now());
      if was.decision.Some? {
        DecisionStays(was, Now());
      }
    }

    /**
     * The coordinator loop over any turns. It returns only in the terminating
     * phase, with the child settled or its disposal recorded as unconfirmed,
     * and with the log decided.
     */
    method Coordinate(turns: seq<Turn>) returns (end: Coordinated, used: nat)
      requires Ready(turns)
      modifies this
      ensures Valid() && Later(old(Now()), Now()) && Going() && used <= |turns|
      ensures end.Returned? ==>
                && lifecycle.Terminating? && stagingClosed
                && (child.None? || attemptFinished)
                && (relay.Some? ==> relay.value.decision.Some?)
      ensures Credited(relay, output, credits)
    {
      ghost var was := Now();
      LaterSteps(was, was, was);
      used := 0;
      while used < |turns|
        invariant used <= |turns|
        invariant Valid() && Later(was, Now()) && Going()
        decreases |turns| - used
      {
        var t := turns[used];
        used := used + 1;
        ghost var mid := Now();
        var turned := TakeTurn(t);
        LaterSteps(was, mid, Now());
        if turned != Waiting {
          return turned, used;
        }
      }
      return Waiting, used;
    }

    /** The session was announced, nothing is released, and no spawning is under way. */
    ghost predicate Going()
      reads this`announced, this`resourcesReleased, this`spawning
    {
      announced && !resourcesReleased && !spawning.Underway?
    }

    /** A coordinator can go on with some turns. */
    ghost predicate Ready(turns: seq<Turn>)
      reads this
    {
      Valid() && Going() && TurnsAmong(turns, statuses)
    }

    /**
     * What became of an observation: the end of control ends the session, as
     * does a signal; the first START is handled unless something is due; and
     * the exit of a child is told.
     */
    ghost predicate Responds(o: Observation, was: Phase, before: Inbox, had: Option<Child>, exits: seq<ChildResult>)
      reads this`inbox, this`lifecycle, this`request, this`told
    {
      && (o.ControlEOF? && Ended(inbox.control) ==> lifecycle.Terminating?)
      && (o.StartReceived? && Started(input, inbox.control) == Some(o.request) ==>
            (was.Created? && Quiet(before) ==> request == Some(o.request)))
      && (o.ChildExited? && had.Some? ==>
            |told| == |exits| + 1 && told[|exits|].returncode == o.returncode && told[..|exits|] == exits)
      && (o.SignalReceived? && before.signal.Pending? ==> lifecycle.Reason().Some?)
    }

    /** What became of the observation a turn waited for, once the world had gone on. */
    ghost predicate Awaited(t: Turn, was: Phase, before: Inbox, had: Option<Child>, exits: seq<ChildResult>)
      reads this`inbox, this`lifecycle, this`request, this`told
    {
      var filled := Filled(input.Decoders(), before, t.world);
      inbox.control == filled.control && Responds(t.observation, was, filled, had, exits)
    }

    /** Nothing keeps a terminating coordinator: no child left to settle, and the log decided or decidable. */
    predicate MayReturn(child: Option<Child>, finished: bool, relay: Option<Relay>, acquired: bool) {
      (child.None? || finished) && (relay.None? || relay.value.decision.Some? || !acquired)
    }

    /** The attempt can be settled: its group is disposed of and its output drained. */
    ghost predicate MaySettle()
      reads this`childCleanup, this`child, this`attemptFinished, this`lifecycle
    {
      && lifecycle.Terminating? && childCleanup.Cleaned? && child.Some? && !attemptFinished
      && child.value.finished == BOTH
    }

    /** One turn: account, wind down if terminating, finish the attempt or handle one observation. */
    method TakeTurn(t: Turn) returns (end: Coordinated)
      requires Ready([t])
      modifies this
      ensures Valid() && Later(old(Now()), Now()) && Going()
      ensures old(lifecycle).Terminating? && old(MayReturn(child, attemptFinished, relay, childAcquired)) ==>
                end.Returned?
      ensures old(MaySettle()) ==> attemptFinished
      ensures !old(lifecycle).Terminating? && Quiet(old(inbox)) && !t.readinessFails ==>
                Awaited(t, old(lifecycle), old(inbox), old(child), old(told))
      ensures end.Returned? ==>
                && lifecycle.Terminating? && stagingClosed
                && (child.None? || attemptFinished)
                && (relay.Some? ==> relay.value.decision.Some?)
    {
      ghost var was := Now();
      assert [t][0] == t;
      var terminating := BeginTurn(t);
      ghost var mid := Now();
      // Starting never holds a child result here: the exit was a startup failure.
      end := TurnOn(t, terminating);
      LaterSteps(was, mid, Now());
    }

    /** Wind down if terminating, and settle the attempt or wait unless that was all. */
    method TurnOn(t: Turn, terminating: bool) returns (end: Coordinated)
      requires Valid() && Going() && TurnAmong(t, statuses) && (terminating ==> lifecycle.Terminating?)
      modifies this
      ensures Valid() && Later(old(Now()), Now()) && Going()
      ensures terminating && old(MayReturn(child, attemptFinished, relay, childAcquired)) ==> end.Returned?
      ensures terminating && old(MaySettle()) ==> attemptFinished
      ensures !terminating && !old(lifecycle).Terminating? ==>
                Awaited(t, old(lifecycle), old(inbox), old(child), old(told))
      ensures end.Returned? ==>
                && lifecycle.Terminating? && stagingClosed
                && (child.None? || attemptFinished)
                && (relay.Some? ==> relay.value.decision.Some?)
    {
      ghost var was := Now();
      LaterSteps(was, was, was);
      if terminating {
        var finished := Wind(t);
        if finished {
          return Returned;
        }
      }
      ghost var mid := Now();
      end := SettleOrAwait(t);
      LaterSteps(was, mid, Now());
    }

    /** Settle the attempt if it can be, otherwise wait for an observation. */
    method SettleOrAwait(t: Turn) returns (end: Coordinated)
      requires Valid() && Going() && TurnAmong(t, statuses)
      modifies this
      ensures Valid() && Later(old(Now()), Now()) && Going() && !end.Returned?
      ensures old(MaySettle()) ==> attemptFinished
      ensures !old(lifecycle).Terminating? ==> Awaited(t, old(lifecycle), old(inbox), old(child), old(told))
    {
      if childCleanup.Cleaned? && child.Some? && !attemptFinished && child.value.finished == BOTH {
        FinishAttempt(t.settling);
        return Waiting;
      }
      end := Await(t);
    }

    /** Account, and close the readiness artifact once it is of no use; the phase in between decides the turn. */
    method BeginTurn(t: Turn) returns (terminating: bool)
      requires Valid() && announced
      modifies this`lifecycle, this`inbox, this`relay, this`output, this`events, this`order, this`child
      ensures Valid() && Later(old(Now()), Now())
      ensures old(lifecycle).Terminating? ==> terminating
      ensures terminating ==> lifecycle.Terminating?
      ensures Quiet(old(inbox)) && !t.readinessFails ==>
                && terminating == old(lifecycle).Terminating?
                && lifecycle == old(lifecycle) && inbox == old(inbox) && child == old(child)
      ensures old(MaySettle()) ==> MaySettle()
      ensures old(MayReturn(child, attemptFinished, relay, childAcquired)) ==>
                MayReturn(child, attemptFinished, relay, childAcquired)
    {
      ghost var was := Now();
      AccountTurn();
      terminating := lifecycle.Terminating?;
      ghost var mid := Now();
      FailingSteps(lifecycle, lifecycle, lifecycle);
      if !lifecycle.Starting? {
        CloseReadiness(t.readinessFails);
      }
      LaterLife(mid, lifecycle);
      LaterSteps(was, mid, Now());
    }

    /** Account at the start of a turn: what could be settled or returned from still can. */
    method AccountTurn()
      requires Valid() && announced
      modifies this`lifecycle, this`inbox, this`relay, this`output, this`events, this`order, this`child
      ensures Valid() && Later(old(Now()), Now()) && Failing(old(lifecycle), lifecycle)
      ensures Quiet(old(inbox)) ==> lifecycle == old(lifecycle) && inbox == old(inbox) && child == old(child)
      ensures old(MaySettle()) ==> MaySettle()
      ensures old(MayReturn(child, attemptFinished, relay, childAcquired)) ==>
                MayReturn(child, attemptFinished, relay, childAcquired)
    {
      ghost var was := Now();
      Account();
      if was.decision.Some? {
        DecisionStays(was, Now());
      }
      if child.Some? {
        AllStreams(child.value.finished);
      }
    }

    /** Wait for an observation, while the world goes on, and dispatch it. */
    method Await(t: Turn) returns (end: Coordinated)
      requires Valid() && Going() && TurnAmong(t, statuses)
      modifies this
      ensures Valid() && Later(old(Now()), Now()) && Going() && !end.Returned?
      ensures Awaited(t, old(lifecycle), old(inbox), old(child), old(told))
    {
      ghost var was := Now();
      Interleave(t.world);
      ghost var mid := Now();
      end := Dispatch(t.observation);
      LaterSteps(was, mid, Now());
    }

    /** Handle an observation, if it can be made. */
    method Dispatch(o: Observation) returns (end: Coordinated)
      requires Valid() && Going() && ObservationAmong(o, statuses)
      modifies this
      ensures Valid() && Later(old(Now()), Now()) && Going() && !end.Returned?
      ensures inbox.control == old(inbox).control
      ensures Responds(o, old(lifecycle), old(inbox), old(child), old(told))
    {
      LaterSteps(Now(), Now(), Now());
      if !Possible(o) {
        return Waiting;
      }
      var raised := Handle(o);
      return if raised then Raising else Waiting;
    }

    /** Close the relay's descriptors; false keeps the workspace. */
    method CloseLogChannel(a: Releasing) returns (closed: bool)
      requires Valid()
      modifies this`lifecycle, this`relay
      ensures Valid() && Failing(old(lifecycle), lifecycle)
      ensures relay.Some? == old(relay).Some?
      ensures relay.Some? ==> relay.value.decision == old(relay).value.decision
      ensures closed ==> relay.None? || (!relay.value.readerOpen && !relay.value.writerOpen)
      ensures closed <==> !LogOpen(old(relay), a)
    {
      FailingSteps(lifecycle, lifecycle, lifecycle);
      if relay.None? {
        return true;
      }
      if a.readerRunning {
        CleanupFailure();
        return false;
      }
      CloseRelay(a.channelLeftOpen);
      if a.channelCloseFails {
        CleanupFailure();
      }
      return !relay.value.readerOpen && !relay.value.writerOpen;
    }

    method CloseRelay(leftOpen: bool)
      requires Valid() && relay.Some?
      modifies this`relay
      ensures Valid() && relay == Some(old(relay).value.(readerOpen := leftOpen, writerOpen := leftOpen))
    {
      CloseKeeps(codec, output, events, order, lifecycle, request, acquisition, relay.value, announced, leftOpen);
      relay := Some(relay.value.(readerOpen := leftOpen, writerOpen := leftOpen));
    }

    /** The outcome of releasing: what is still there has a reason on record. */
    ghost predicate Released()
      reads this`disk, this`leaseHeld
      reads this`spawning, this`settlement, this`lifecycle, this`resourcesReleased
    {
      && resourcesReleased
      && (disk.work || (NothingLeft(spawning, settlement) && !leaseHeld))
      && (Failed(lifecycle) ||
          (NothingLeft(spawning, settlement) && !leaseHeld && disk == Disk(false, false, false, false)))
    }

    /**
     * Release everything once. The workspace is removed only after the child,
     * the address lease and the log descriptors are gone.
     */
    method ReleaseWorkspace(a: Releasing)
      requires Valid() && announced && !resourcesReleased && lifecycle.Terminating?
      modifies this`lifecycle, this`relay, this`leaseHeld, this`resourcesReleased
      modifies this`disk
      ensures Valid() && Released() && lifecycle.Terminating? && Failing(old(lifecycle), lifecycle)
      ensures relay.Some? == old(relay).Some?
      ensures relay.Some? ==> relay.value.decision == old(relay).value.decision
      ensures disk.work <==> TreeStays(NothingLeft(spawning, settlement), leaseHeld, LogOpen(relay, a), a)
      ensures !disk.work ==>
                && NothingLeft(spawning, settlement) && !leaseHeld
                && (relay.None? || (!relay.value.readerOpen && !relay.value.writerOpen))
      ensures leaseHeld == (old(leaseHeld) && a.leaseCloseFails)
    {
      ghost var was := lifecycle;
      var closed := CloseResources(a);
      ghost var mid := lifecycle;
      resourcesReleased := true;
      DisposeWorkspace(a, closed);
      FailingSteps(was, mid, lifecycle);
    }

    /** Remove the workspace or retain it, and give up its lock. */
    method DisposeWorkspace(a: Releasing, closed: bool)
      requires Valid() && resourcesReleased && lifecycle.Terminating? && disk.work
      modifies this`lifecycle, this`disk
      ensures Valid() && Released() && Failing(old(lifecycle), lifecycle) && lifecycle.Terminating?
      ensures disk.work <==> TreeStays(NothingLeft(spawning, settlement), leaseHeld, !closed, a)
    {
      ghost var was := lifecycle;
      RemoveOrRetain(a, closed);
      ghost var mid := lifecycle;
      CloseLock(a.lockFails);
      FailingSteps(was, mid, lifecycle);
      RecordStays(mid, lifecycle);
    }

    /** Close the address lease, the readiness artifact and the log channel; whether the last is closed. */
    method CloseResources(a: Releasing) returns (closed: bool)
      requires Valid()
      modifies this`lifecycle, this`relay, this`leaseHeld
      ensures Valid() && Failing(old(lifecycle), lifecycle)
      ensures relay.Some? == old(relay).Some?
      ensures relay.Some? ==> relay.value.decision == old(relay).value.decision
      ensures closed ==> relay.None? || (!relay.value.readerOpen && !relay.value.writerOpen)
      ensures closed <==> !LogOpen(old(relay), a)
      ensures leaseHeld == (old(leaseHeld) && a.leaseCloseFails)
    {
      ghost var was := lifecycle;
      CloseAddressLease(a.leaseCloseFails);
      ghost var mid := lifecycle;
      CloseReadiness(a.readinessFails);
      FailingSteps(was, mid, lifecycle);
      mid := lifecycle;
      closed := CloseLogChannel(a);
      FailingSteps(was, mid, lifecycle);
    }

    method CloseLock(fails: bool)
      requires Valid() && resourcesReleased
      modifies this`lifecycle, this`disk
      ensures Valid() && Failing(old(lifecycle), lifecycle)
      ensures disk == if fails then old(disk) else old(disk).(lock := false)
      ensures fails ==> Failed(lifecycle)
    {
      FailingSteps(lifecycle, lifecycle, lifecycle);
      if fails {
        CleanupFailure();
      } else {
        disk := disk.(lock := false);
      }
    }

    method RemoveOrRetain(a: Releasing, closed: bool)
      requires Valid() && resourcesReleased && lifecycle.Terminating? && disk.work
      modifies this`lifecycle, this`disk
      ensures Valid() && Failing(old(lifecycle), lifecycle) && lifecycle.Terminating?
      ensures disk.work <==> TreeStays(NothingLeft(spawning, settlement), leaseHeld, !closed, a)
      ensures Failed(lifecycle) ||
              (NothingLeft(spawning, settlement) && !leaseHeld && disk == Disk(false, false, false, disk.lock))
    {
      if !closed || !ChildDisposed() || leaseHeld {
        Retain(a.closureFails);
      } else {
        RemoveTree(a);
      }
    }

    /** Keep the workspace, closed to staging, with the reason on record. */
    method Retain(closureFails: bool)
      requires Valid() && resourcesReleased
      modifies this`lifecycle, this`disk
      ensures Valid() && Failing(old(lifecycle), lifecycle) && lifecycle.Terminating? && Failed(lifecycle)
      ensures disk == if closureFails then old(disk) else old(disk).(closure := true)
    {
      if !closureFails {
        disk := disk.(closure := true);
      }
      CleanupFailure();
    }

    /** Take the marker and the workspace away, as far as that goes. */
    method RemoveTree(a: Releasing)
      requires Valid() && resourcesReleased && lifecycle.Terminating?
      modifies this`lifecycle, this`disk
      ensures Valid() && Failing(old(lifecycle), lifecycle) && lifecycle.Terminating?
      ensures disk.lock == old(disk).lock && (disk.work <==> a.removal.NotRemoved? && a.removal.workLeft)
      ensures Failed(lifecycle) || disk == Disk(false, false, false, disk.lock)
    {
      ghost var was := lifecycle;
      FailingSteps(was, was, was);
      if a.markerFails {
        CleanupFailure();
      }
      ghost var mid := lifecycle;
      TakeAway(a.removal);
      FailingSteps(was, mid, lifecycle);
    }

    method TakeAway(r: Removal)
      requires Valid() && resourcesReleased && lifecycle.Terminating?
      modifies this`lifecycle, this`disk
      ensures Valid() && Failing(old(lifecycle), lifecycle) && lifecycle.Terminating?
      ensures disk.lock == old(disk).lock && (disk.work <==> r.NotRemoved? && r.workLeft)
      ensures if r.Removed? then lifecycle == old(lifecycle) && disk == Disk(false, false, false, disk.lock)
              else Failed(lifecycle)
    {
      FailingSteps(lifecycle, lifecycle, lifecycle);
      match r {
        case Removed =>
          disk := Disk(false, false, false, disk.lock);
        case NotRemoved(workLeft, leaseLeft, closureLeft) =>
          disk := Disk(workLeft, leaseLeft, closureLeft, disk.lock);
          CleanupFailure();
      }
    }

    /** Whether a path is known to be gone; an inspection error is a failure and counts as present. */
    method DisposedPath(present: bool, fails: bool) returns (gone: bool)
      requires Valid() && lifecycle.Terminating?
      modifies this`lifecycle
      ensures Valid() && Failing(old(lifecycle), lifecycle) && lifecycle.Terminating?
      ensures gone <==> !present && !fails
      ensures fails ==> Failed(lifecycle)
    {
      FailingSteps(lifecycle, lifecycle, lifecycle);
      if fails {
        CleanupFailure();
        return false;
      }
      return !present;
    }

    /** Whether any of the workspace's metadata may be left. */
    method MetadataLeft(a: Ending) returns (left: bool)
      requires Valid() && lifecycle.Terminating?
      modifies this`lifecycle
      ensures Valid() && Failing(old(lifecycle), lifecycle) && lifecycle.Terminating?
      ensures left <==> disk.lock || disk.lease || a.leaseFails || disk.closure || a.closureFails
      ensures left ==> disk.lock || disk.lease || disk.closure || Failed(lifecycle)
    {
      ghost var was := lifecycle;
      FailingSteps(was, was, was);
      if disk.lock {
        return true;
      }
      var gone := DisposedPath(disk.lease, a.leaseFails);
      if !gone {
        return true;
      }
      ghost var mid := lifecycle;
      gone := DisposedPath(disk.closure, a.closureFails);
      FailingSteps(was, mid, lifecycle);
      return !gone;
    }

    /** What is left of the child: something, exactly when its disposal is not confirmed. */
    method ChildResiduals() returns (producer: bool, group: bool, relays: bool)
      requires Valid()
      ensures producer || group || relays <==> !NothingLeft(spawning, settlement)
      ensures producer <==> spawning.Underway?
    {
      var disposed := ChildDisposed();
      producer := acquisition.Some? && !acquisition.value.producerQuiescent;
      group := !disposed &&
               ((acquisition.Some? && !acquisition.value.hasChild) || settlement.None? ||
                !settlement.value.groupDisposed);
      relays := !disposed &&
                (settlement.None? || !(settlement.value.observersSettled && settlement.value.pipesClosed));
    }

    /** What is left of the workspace; anything left has a failure on record. */
    method WorkspaceResiduals(a: Ending) returns (work: bool, metadata: bool)
      requires Valid() && Released() && lifecycle.Terminating?
      modifies this`lifecycle
      ensures Valid() && LifeLater(old(lifecycle), lifecycle) && lifecycle.Terminating?
      ensures work <==> disk.work || a.workFails
      ensures metadata <==> disk.lock || disk.lease || a.leaseFails || disk.closure || a.closureFails
      ensures work || metadata || !NothingLeft(spawning, settlement) || leaseHeld ==> Failed(lifecycle)
    {
      ghost var was := lifecycle;
      var gone := DisposedPath(disk.work, a.workFails);
      ghost var mid := lifecycle;
      RecordStays(was, mid);
      metadata := MetadataLeft(a);
      LifeLaterSteps(was, mid, lifecycle);
      RecordStays(mid, lifecycle);
      work := !gone;
    }

    /**
     * The cleanup report. Its residuals agree with its statuses, an unsettled
     * attempt is never reported confirmed, and whatever is unconfirmed has a
     * failure on record.
     */
    method CleanupReportNow(a: Ending) returns (report: CleanupReport)
      requires Valid() && Released() && lifecycle.Terminating?
      modifies this`lifecycle
      ensures Valid() && LifeLater(old(lifecycle), lifecycle) && lifecycle.Terminating?
      ensures report.Valid()
      ensures report.child == ChildStatus(spawning, settlement, leaseHeld)
      ensures report.workspace == WorkspaceConfirmed || report.workspace == WorkspaceUnconfirmed
      ensures report.workspace == WorkspaceConfirmed ==> disk == Disk(false, false, false, false)
      ensures !report.IsConfirmed() ==> Failed(lifecycle)
      ensures lifecycle.held.Some? && lifecycle.held.value.Unsettled() ==> report.child == ChildUnconfirmed
    {
      ghost var was := lifecycle;
      report := ListResiduals(a);
      ghost var mid := lifecycle;
      SettleDisposed();
      LifeLaterSteps(was, mid, lifecycle);
      RecordStays(mid, lifecycle);
    }

    /** What is left of the child and of the workspace, as a report. */
    method ListResiduals(a: Ending) returns (report: CleanupReport)
      requires Valid() && Released() && lifecycle.Terminating?
      modifies this`lifecycle
      ensures Valid() && LifeLater(old(lifecycle), lifecycle) && lifecycle.Terminating?
      ensures report.Valid() && report.child == ChildStatus(spawning, settlement, leaseHeld)
      ensures report.workspace == WorkspaceConfirmed || report.workspace == WorkspaceUnconfirmed
      ensures report.workspace == WorkspaceConfirmed ==> disk == Disk(false, false, false, false)
      ensures !report.IsConfirmed() ==> Failed(lifecycle)
    {
      var producer, group, relays := ChildResiduals();
      var work, metadata := WorkspaceResiduals(a);
      report := ReportOf(Residuals(producer, group, relays, leaseHeld, work, metadata), childAcquired);
      ReportIsValid(producer, group, relays, leaseHeld, work, metadata, childAcquired);
    }

    method SettleDisposed()
      requires Valid() && lifecycle.Terminating? && resourcesReleased
      modifies this`lifecycle
      ensures Valid() && LifeLater(old(lifecycle), lifecycle) && lifecycle.Terminating?
      ensures Adds(old(lifecycle), lifecycle, [])
      ensures lifecycle.held.Some? && lifecycle.held.value.Unsettled() ==>
                !NothingLeft(spawning, settlement) || leaseHeld
    {
      LifeLaterSteps(lifecycle, lifecycle, lifecycle);
      AddsNothing(lifecycle, []);
      if acquisition.None? {
        UnenteredIsSettled(codec, output, events, order, lifecycle, request, relay, announced);
      } else if ChildDisposed() && !leaseHeld {
        SettleOwnersKeep(codec, output, events, order, lifecycle, request, acquisition, relay, announced);
        HeedsCall(input, lifecycle, SettleAttempt(acquisition.value.producerQuiescent, true), request,
                  inbox.leaseLoss, inbox.control);
        ExitedStays(lifecycle, SettleAttempt(acquisition.value.producerQuiescent, true), told, statuses, codec, output,
                    events, order, request, acquisition, relay, announced);
        lifecycle := Next(lifecycle, SettleAttempt(acquisition.value.producerQuiescent, true)).phase;
      }
    }

    /** Account what is still pending, then freeze the snapshot, unless freeze raises. */
    method FreezeSession(report: CleanupReport, signal: bool) returns (snapshot: Option<TerminalSnapshot>)
      requires Valid() && announced && lifecycle.Terminating?
      requires relay.Some? ==> relay.value.decision.Some?
      requires report.Valid() && (!report.IsConfirmed() ==> Failed(lifecycle))
      requires report.child == ChildNotAcquired ==> !childAcquired
      requires lifecycle.held.Some? && lifecycle.held.value.Unsettled() ==> report.child == ChildUnconfirmed
      modifies this`lifecycle, this`inbox, this`relay, this`output, this`events, this`order, this`child
      ensures Valid() && Later(old(Now()), Now()) && lifecycle.Terminating?
      ensures relay.Some? == old(relay).Some? && (relay.Some? ==> relay.value.decision.Some?)
      ensures inbox.control == old(inbox).control && !inbox.leaseLoss.Pending?
      ensures snapshot.Some? <==> !(UsesLog(request) && relay.None? && report.child == ChildUnconfirmed)
      ensures snapshot.Some? ==>
                && snapshot.value == TerminalSnapshot(lifecycle.outcome, report, LogReportFor(request, relay, report))
                && snapshot.value.Valid() && CodesPresent(snapshot.value)
    {
      ghost var was := Now();
      AccountWith(signal);
      RecordStays(was.lifecycle, lifecycle);
      if relay.Some? {
        DecisionStays(was, Now());
      }
      FreezeExactly(codec, output, events, order, lifecycle, request, acquisition, relay, report);
      var log := LogReportFor(request, relay, report);
      if !Freezable(lifecycle, report, log) {
        return None;
      }
      return Some(TerminalSnapshot(lifecycle.outcome, report, log));
    }

    /**
     * Close the session, publish the snapshot and drain. A refused admission
     * leaves no terminal; it, a failed write and a drain that leaves admitted
     * bytes unwritten are terminal delivery failures, and nothing else is.
     */
    method PublishEnd(snapshot: TerminalSnapshot, writes: seq<WriteResult>)
      requires Valid() && announced && lifecycle.Terminating?
      requires relay.Some? ==> relay.value.decision.Some?
      requires snapshot.Valid() && CodesPresent(snapshot) && snapshot.outcome == lifecycle.outcome
      requires snapshot.log == LogReportFor(request, relay, snapshot.cleanup)
      requires snapshot.cleanup.workspace != WorkspaceNotCreated
      requires snapshot.cleanup.child == ChildNotAcquired ==> !childAcquired
      modifies this`lifecycle, this`output, this`events
      ensures Acceptable(codec, output, events, request)
      ensures events == old(events) + [SessionEnded(snapshot)] || (events == old(events) && !HasEnd(events))
      ensures old(events) <= events && (old(events) == [] ==> events == [] || events == [SessionEnded(snapshot)])
      ensures HasEnd(events) ==> |events| > 0 && events[|events| - 1] == SessionEnded(snapshot)
      ensures lifecycle.Closed? && lifecycle.snapshot == snapshot
      ensures lifecycle.localDiagnostics == [] <==> events != old(events) && output.empty && !output.failed
      ensures lifecycle.localDiagnostics == [] ==> HasEnd(events) && output.wire == Flatten(output.history)
      ensures events != old(events) <==> Emitted(codec, old(output), SessionEnded(snapshot), false).Some?
      ensures LogTrue(relay, events, childAcquired)
    {
      EndAppended(events, SessionEnded(snapshot));
      var admitted := AdmitEnd(snapshot, writes);
      var delivered := admitted && output.empty && !output.failed;
      lifecycle := Closed(lifecycle.held, snapshot, if delivered then [] else [Fault(TerminalDelivery)]);
    }

    /** Admit the terminal and drain, or leave the stream open. */
    method AdmitEnd(snapshot: TerminalSnapshot, writes: seq<WriteResult>) returns (admitted: bool)
      requires Valid() && announced && lifecycle.Terminating?
      requires relay.Some? ==> relay.value.decision.Some?
      requires snapshot.Valid() && CodesPresent(snapshot) && snapshot.outcome == lifecycle.outcome
      requires snapshot.log == LogReportFor(request, relay, snapshot.cleanup)
      requires snapshot.cleanup.workspace != WorkspaceNotCreated
      requires snapshot.cleanup.child == ChildNotAcquired ==> !childAcquired
      modifies this`output, this`events
      ensures Acceptable(codec, output, events, request) && LogTrue(relay, events, childAcquired)
      ensures admitted <==> Emitted(codec, old(output), SessionEnded(snapshot), false).Some?
      ensures admitted ==> events == old(events) + [SessionEnded(snapshot)]
      ensures !admitted ==> events == old(events)
      ensures HasEnd(events) <==> admitted
      ensures admitted && output.empty && !output.failed ==> output.wire == Flatten(output.history)
    {
      SessionEnds(codec, output, events, order, lifecycle, request, acquisition, relay, snapshot, writes);
      var e := SessionEnded(snapshot);
      var next := Emitted(codec, output, e, false);
      if next.None? {
        return false;
      }
      EndAppended(events, e);
      output, events := RunWriter(next.value, writes), events + [e];
      return true;
    }

    /**
     * A snapshot that every constructor accepts and that tells the truth: of
     * the child by what spawning answered and how it was settled, of its exit
     * by the first one told, of the lease by the control input, of the log by
     * the relay.
     */
    ghost predicate Accurate(s: TerminalSnapshot)
      reads this`spawning, this`settlement, this`leaseHeld, this`told, this`inbox, this`request, this`relay
    {
      && s.Valid() && CodesPresent(s)
      && s.cleanup.child == ChildStatus(spawning, settlement, leaseHeld)
      && s.outcome.childResult == FirstOf(told)
      && (LEASE_LOSS in s.outcome.Recorded() <==> Lost(input.Decoders(), inbox.control))
      && s.log == LogReportFor(request, relay, s.cleanup)
    }

    /** Report, freeze, publish and drain. */
    method EndSession(a: Ending) returns (snapshot: Option<TerminalSnapshot>)
      requires Valid() && announced && Released() && lifecycle.Terminating?
      requires relay.Some? ==> relay.value.decision.Some?
      modifies this`lifecycle, this`inbox, this`relay, this`output, this`events, this`order, this`child
      ensures Acceptable(codec, output, events, request)
      ensures snapshot.None? <==>
              UsesLog(request) && relay.None? && (!NothingLeft(spawning, settlement) || leaseHeld)
      ensures snapshot.None? ==> !HasEnd(events)
      ensures relay.Some? == old(relay).Some? && old(events) <= events && inbox.control == old(inbox).control
      ensures old(events) == [] && request.None? ==>
                events == [] || (snapshot.Some? && events == [SessionEnded(snapshot.value)])
      ensures snapshot.Some? ==> LogTrue(relay, events, childAcquired)
      ensures snapshot.Some? ==>
                Accurate(snapshot.value) && LastWord(snapshot.value)
    {
      snapshot := FreezeReport(a);
      EndWith(snapshot, a.writes);
    }

    /** The snapshot is the session's last word: admitted last if at all, and delivered unless a diagnostic says so. */
    ghost predicate LastWord(snapshot: TerminalSnapshot)
      reads this`lifecycle, this`events, this`output
    {
      && lifecycle.Closed? && lifecycle.snapshot == snapshot
      && (HasEnd(events) ==> |events| > 0 && events[|events| - 1] == SessionEnded(snapshot))
      && (lifecycle.localDiagnostics == [] ==> HasEnd(events) && output.wire == Flatten(output.history))
    }

    /** Publish a snapshot that tells the truth; without one the stream stays open. */
    method EndWith(snapshot: Option<TerminalSnapshot>, writes: seq<WriteResult>)
      requires Valid() && announced && lifecycle.Terminating?
      requires relay.Some? ==> relay.value.decision.Some?
      requires snapshot.Some? ==>
                 && Accurate(snapshot.value) && snapshot.value.outcome == lifecycle.outcome
                 && snapshot.value.cleanup.workspace != WorkspaceNotCreated
                 && (snapshot.value.cleanup.child == ChildNotAcquired ==> !childAcquired)
      modifies this`lifecycle, this`output, this`events
      ensures Acceptable(codec, output, events, request)
      ensures snapshot.None? ==> events == old(events) && !HasEnd(events)
      ensures old(events) <= events
      ensures old(events) == [] ==> events == [] || (snapshot.Some? && events == [SessionEnded(snapshot.value)])
      ensures snapshot.Some? ==> LastWord(snapshot.value) && LogTrue(relay, events, childAcquired)
    {
      if snapshot.None? {
        OpenStream(codec, output, events, order, lifecycle, request, acquisition, relay);
      } else {
        PublishEnd(snapshot.value, writes);
      }
    }

    /** Report and freeze. */
    method FreezeReport(a: Ending) returns (snapshot: Option<TerminalSnapshot>)
      requires Valid() && announced && Released() && lifecycle.Terminating?
      requires relay.Some? ==> relay.value.decision.Some?
      modifies this`lifecycle, this`inbox, this`relay, this`output, this`events, this`order, this`child
      ensures Valid() && lifecycle.Terminating? && old(events) <= events && inbox.control == old(inbox).control
      ensures old(events) == [] && request.None? ==> events == []
      ensures relay.Some? == old(relay).Some? && (relay.Some? ==> relay.value.decision.Some?)
      ensures snapshot.None? <==> UsesLog(request) && relay.None? && (!NothingLeft(spawning, settlement) || leaseHeld)
      ensures snapshot.Some? ==>
                && Accurate(snapshot.value)
                && snapshot.value.outcome == lifecycle.outcome
                && snapshot.value.cleanup.workspace != WorkspaceNotCreated
                && (snapshot.value.cleanup.child == ChildNotAcquired ==> !childAcquired)
    {
      var report := CleanupReportNow(a);
      snapshot := FreezeNothingLost(report, a.signal);
    }

    /** Freeze; a session that admitted nothing and handled no START still has admitted nothing. */
    method FreezeNothingLost(report: CleanupReport, signal: bool) returns (snapshot: Option<TerminalSnapshot>)
      requires Valid() && announced && lifecycle.Terminating?
      requires relay.Some? ==> relay.value.decision.Some?
      requires report.Valid() && (!report.IsConfirmed() ==> Failed(lifecycle))
      requires report.child == ChildStatus(spawning, settlement, leaseHeld)
      requires report.child == ChildNotAcquired ==> !childAcquired
      requires lifecycle.held.Some? && lifecycle.held.value.Unsettled() ==> report.child == ChildUnconfirmed
      modifies this`lifecycle, this`inbox, this`relay, this`output, this`events, this`order, this`child
      ensures Valid() && lifecycle.Terminating? && old(events) <= events && inbox.control == old(inbox).control
      ensures old(events) == [] && request.None? ==> events == []
      ensures relay.Some? == old(relay).Some? && (relay.Some? ==> relay.value.decision.Some?)
      ensures snapshot.Some? <==> !(UsesLog(request) && relay.None? && report.child == ChildUnconfirmed)
      ensures snapshot.Some? ==>
                && snapshot.value == TerminalSnapshot(lifecycle.outcome, report, LogReportFor(request, relay, report))
                && Accurate(snapshot.value)
    {
      ghost var was := Now();
      snapshot := FreezeTruly(report, signal);
      EventsStay(was, Now());
      if was.events == [] && was.request.None? {
        NothingAdmitted(codec, output, order, acquisition, relay, was, Now());
      }
    }

    /** Freeze; the snapshot tells the truth if the report does. */
    method FreezeTruly(report: CleanupReport, signal: bool) returns (snapshot: Option<TerminalSnapshot>)
      requires Valid() && announced && lifecycle.Terminating?
      requires relay.Some? ==> relay.value.decision.Some?
      requires report.Valid() && (!report.IsConfirmed() ==> Failed(lifecycle))
      requires report.child == ChildStatus(spawning, settlement, leaseHeld)
      requires report.child == ChildNotAcquired ==> !childAcquired
      requires lifecycle.held.Some? && lifecycle.held.value.Unsettled() ==> report.child == ChildUnconfirmed
      modifies this`lifecycle, this`inbox, this`relay, this`output, this`events, this`order, this`child
      ensures Valid() && Later(old(Now()), Now()) && lifecycle.Terminating? && inbox.control == old(inbox).control
      ensures relay.Some? == old(relay).Some? && (relay.Some? ==> relay.value.decision.Some?)
      ensures snapshot.Some? <==> !(UsesLog(request) && relay.None? && report.child == ChildUnconfirmed)
      ensures snapshot.Some? ==>
                && snapshot.value == TerminalSnapshot(lifecycle.outcome, report, LogReportFor(request, relay, report))
                && Accurate(snapshot.value)
    {
      snapshot := FreezeSession(report, signal);
      HeedsOpen(input, lifecycle, request, inbox.leaseLoss, inbox.control);
      ExitedOpen(lifecycle, told, statuses);
      OutcomeHasResult(codec, output, events, order, lifecycle, request, acquisition, relay, announced);
    }

    /** Coordinate, and once more after a failure of the coordinator itself. */
    method CoordinateTwice(turns: seq<Turn>) returns (returned: bool)
      requires Ready(turns)
      modifies this
      ensures Valid() && Later(old(Now()), Now()) && Going()
      ensures returned ==>
                && lifecycle.Terminating? && stagingClosed
                && (child.None? || attemptFinished)
                && (relay.Some? ==> relay.value.decision.Some?)
    {
      ghost var was := Now();
      var end, used := Coordinate(turns);
      if end.Raising? {
        ghost var mid := Now();
        Fail(HelperFailure, HelperError);
        LaterSteps(was, mid, Now());
        mid := Now();
        end, used := Coordinate(turns[used..]);
        LaterSteps(was, mid, Now());
      }
      return end.Returned?;
    }

    /** Start the session and coordinate it; a failed start leaves one coordinator to wind it down. */
    method Drive(l: Launching, turns: seq<Turn>) returns (returned: bool)
      requires Valid() && !announced && lifecycle.Created? && events == [] && output == NewOutput()
      requires !resourcesReleased && request.None? && spawning.NotYet? && TurnsAmong(turns, statuses)
      modifies this
      ensures Valid() && Going()
      ensures returned ==>
                && lifecycle.Terminating? && stagingClosed
                && (child.None? || attemptFinished)
                && (relay.Some? ==> relay.value.decision.Some?)
      ensures l.writerFails ==> events == [] && request.None?
      ensures !l.writerFails
              && Emitted(codec, NewOutput(), SessionCreated(helper, sessionId, work), false).Some? ==>
                [SessionCreated(helper, sessionId, work)] <= events
    {
      var raised := Launch(l);
      ghost var was := Now();
      if raised {
        var end, _ := Coordinate(turns);
        returned := end.Returned?;
      } else {
        returned := CoordinateTwice(turns);
      }
      EventsStay(was, Now());
      if l.writerFails {
        NothingAdmitted(codec, output, order, acquisition, relay, was, Now());
      }
    }

    /** Everything after the coordinator returned, up to the report. */
    method Release(last: World, cancelled: seq<Cancelled>, releasing: Releasing)
      requires Valid() && Going() && lifecycle.Terminating? && Among(last.returncode, statuses)
      requires relay.Some? ==> relay.value.decision.Some?
      modifies this
      ensures Valid() && announced && Released() && lifecycle.Terminating? && Later(old(Now()), Now())
      ensures spawning == old(spawning) && settlement == old(settlement) && told == old(told)
      ensures disk.work <==>
              TreeStays(NothingLeft(spawning, settlement), leaseHeld, LogOpen(relay, releasing), releasing)
      ensures relay.Some? ==> relay.value.decision.Some?
      ensures relay.Some? == old(relay).Some?
      ensures leaseHeld ==> releasing.leaseCloseFails
    {
      ghost var was := Now();
      Quiesce(last, cancelled);
      ghost var mid := Now();
      ReleaseWorkspace(releasing);
      LaterLife(mid, lifecycle);
      LaterSteps(was, mid, Now());
    }

    /** Await the cancelled tasks; a log decision stays. */
    method Quiesce(last: World, cancelled: seq<Cancelled>)
      requires Valid() && announced && lifecycle.Terminating? && Among(last.returncode, statuses)
      requires relay.Some? ==> relay.value.decision.Some?
      modifies this`lifecycle, this`inbox, this`child, this`relay, this`output, this`events, this`order, this`credits
      ensures Valid() && lifecycle.Terminating? && Later(old(Now()), Now())
      ensures relay.Some? == old(relay).Some? && (relay.Some? ==> relay.value.decision.Some?)
    {
      ghost var was := Now();
      Interleave(last);
      ghost var mid := Now();
      Cancel(cancelled);
      LaterSteps(was, mid, Now());
      if relay.Some? {
        DecisionStays(was, Now());
      }
    }

    /** Release, then end the session. */
    method Conclude(last: World, cancelled: seq<Cancelled>, releasing: Releasing, ending: Ending)
      returns (snapshot: Option<TerminalSnapshot>)
      requires Valid() && Going() && lifecycle.Terminating? && Among(last.returncode, statuses)
      requires relay.Some? ==> relay.value.decision.Some?
      modifies this
      ensures Acceptable(codec, output, events, request) && old(events) <= events
      ensures spawning == old(spawning) && settlement == old(settlement) && told == old(told)
      ensures disk.work <==>
              TreeStays(NothingLeft(spawning, settlement), leaseHeld, LogOpen(relay, releasing), releasing)
      ensures request == old(request) && (request.Some? ==> Started(input, inbox.control) == request)
      ensures snapshot.None? <==> UsesLog(request) && relay.None? && leaseHeld
      ensures snapshot.None? ==> !HasEnd(events)
      ensures leaseHeld ==> releasing.leaseCloseFails
      ensures old(events) == [] && request.None? ==>
                events == [] || (snapshot.Some? && events == [SessionEnded(snapshot.value)])
      ensures snapshot.Some? ==> LogTrue(relay, events, childAcquired)
      ensures snapshot.Some? ==>
                Accurate(snapshot.value) && LastWord(snapshot.value)
    {
      ReleaseAll(last, cancelled, releasing);
      snapshot := EndSession(ending);
    }

    /** Release, with what it comes to for the end of the session. */
    method ReleaseAll(last: World, cancelled: seq<Cancelled>, releasing: Releasing)
      requires Valid() && Going() && lifecycle.Terminating? && Among(last.returncode, statuses)
      requires relay.Some? ==> relay.value.decision.Some?
      modifies this
      ensures Valid() && announced && Released() && lifecycle.Terminating?
      ensures spawning == old(spawning) && settlement == old(settlement) && told == old(told)
      ensures disk.work <==>
              TreeStays(NothingLeft(spawning, settlement), leaseHeld, LogOpen(relay, releasing), releasing)
      ensures relay.Some? == old(relay).Some? && (relay.Some? ==> relay.value.decision.Some?)
      ensures leaseHeld ==> releasing.leaseCloseFails
      ensures old(events) <= events && request == old(request)
      ensures request.Some? ==> Started(input, inbox.control) == request
      ensures old(events) == [] && request.None? ==> events == []
      ensures UsesLog(request) && relay.None? ==> spawning.NotYet?
    {
      ghost var was := Now();
      Release(last, cancelled, releasing);
      EventsStay(was, Now());
      RequestStays(was, Now());
      if was.events == [] && was.request.None? {
        NothingAdmitted(codec, output, order, acquisition, relay, was, Now());
      }
      HeedsOpen(input, lifecycle, request, inbox.leaseLoss, inbox.control);
      if UsesLog(request) && relay.None? {
        NoChannelNoChild(codec, output, events, order, lifecycle, request, acquisition, true);
      }
    }

    /** Start, coordinate, and, once the coordinator returned, conclude. */
    method Perform(launching: Launching, turns: seq<Turn>, last: World, cancelled: seq<Cancelled>,
                   releasing: Releasing, ending: Ending)
      returns (returned: bool, snapshot: Option<TerminalSnapshot>)
      requires Valid() && !announced && lifecycle.Created? && events == [] && output == NewOutput()
      requires !resourcesReleased && request.None? && spawning.NotYet? && TurnsAmong(turns, statuses)
      requires Among(last.returncode, statuses)
      modifies this
      ensures Acceptable(codec, output, events, request)
      ensures request.Some? ==> Started(input, inbox.control) == request
      ensures forall r | r in told :: r.returncode in statuses
      ensures launching.writerFails ==>
                request.None? && (events == [] || (snapshot.Some? && events == [SessionEnded(snapshot.value)]))
      ensures !launching.writerFails && CanEmit(NewOutput(), SessionCreated(helper, sessionId, work)) ==>
                [SessionCreated(helper, sessionId, work)] <= events
      ensures !returned ==> snapshot.None?
      ensures snapshot.None? ==> !HasEnd(events)
      ensures snapshot.Some? ==>
                Accurate(snapshot.value) && LastWord(snapshot.value) && LogTrue(relay, events, childAcquired)
      ensures returned ==>
                && (snapshot.None? <==> UsesLog(request) && relay.None? && leaseHeld)
                && (leaseHeld ==> releasing.leaseCloseFails)
                && (disk.work <==>
                      TreeStays(NothingLeft(spawning, settlement), leaseHeld, LogOpen(relay, releasing), releasing))
    {
      returned := Drive(launching, turns);
      ExitedOpen(lifecycle, told, statuses);
      snapshot := None;
      if returned {
        ghost var mid := events;
        snapshot := Conclude(last, cancelled, releasing, ending);
        assert mid <= events;
      } else {
        OpenStream(codec, output, events, order, lifecycle, request, acquisition, relay);
        HeedsOpen(input, lifecycle, request, inbox.leaseLoss, inbox.control);
      }
    }
  }

  /**
   * A whole helper session: start, announce, coordinate over any turns (twice,
   * when the first coordinator raises), cancel, release, freeze, publish and
   * drain. For every behaviour of the world, what it admits is one encodable
   * sequence that the controller's event order accepts under the request the
   * helper handled. Once the coordinator returned, freezing fails if and only
   * if START asked for the log, startup ended before its channel existed, and
   * the address lease is still held, which needs a failing close. A frozen
   * session's log report counts the log bytes it admitted, and a complete one
   * means those are the whole channel; it records the loss of the controller's
   * lease if and only if the input its control observer read was START alone
   * and ended there. Its child result is the first exit anybody reported for
   * its child; it reports the child gone, and the workspace is removed, only
   * if spawning made no process, or was undone for certain, or the child was
   * settled completely. Nothing is left undelivered without a local diagnostic.
   */
  method RunSession(codec: SoundCodec, input: Input<Request>, helper: text, sessionId: text, work: text,
                    launching: Launching, turns: seq<Turn>, last: World, cancelled: seq<Cancelled>,
                    releasing: Releasing, ending: Ending)
    returns (events: seq<Event>, output: Output, request: Option<Request>, returned: bool,
             snapshot: Option<TerminalSnapshot>, lease: bool, relay: Option<Relay>, acquired: bool,
             control: Control, delivered: bool, disk: Disk, settlement: Option<Settlement>,
             ghost spawning: Spawning, ghost told: seq<ChildResult>)
    ensures Acceptable(codec, output, events, request)
    ensures returned ==> (snapshot.None? <==> UsesLog(request) && relay.None? && lease)
    ensures lease ==> releasing.leaseCloseFails
    ensures snapshot.Some? ==> returned && snapshot.value.Valid() && CodesPresent(snapshot.value)
    ensures snapshot.Some? ==> snapshot.value.cleanup.child == ChildStatus(spawning, settlement, lease)
    ensures returned ==>
              (disk.work <==> TreeStays(NothingLeft(spawning, settlement), lease, LogOpen(relay, releasing), releasing))
    ensures spawning.Answered? && spawning.spawn.Spawned? && returned
            && (!disk.work || (snapshot.Some? && snapshot.value.cleanup.child == ChildConfirmed)) ==>
              && settlement.Some?
              && settlement.value.producerQuiescent && settlement.value.groupDisposed
              && settlement.value.observersSettled && settlement.value.pipesClosed
    ensures snapshot.Some? ==> snapshot.value.outcome.childResult == FirstOf(told)
    ensures forall r | r in told :: Says(turns, last, r.returncode)
    ensures !launching.writerFails
            && Emitted(codec, NewOutput(), SessionCreated(helper, sessionId, work), false).Some? ==>
              events != [] && events[0] == SessionCreated(helper, sessionId, work)
    ensures launching.writerFails ==>
              request.None? && (events == [] || (snapshot.Some? && events == [SessionEnded(snapshot.value)]))
    ensures request.Some? ==> Started(input, control) == request
    ensures snapshot.Some? ==>
              (LEASE_LOSS in snapshot.value.outcome.Recorded() <==>
               control.ended && Framing.Conforms(input.Decoders(), control.consumed, Framing.LeaseLost))
    ensures snapshot.Some? ==> snapshot.value.log == LogReportFor(request, relay, snapshot.value.cleanup)
    ensures snapshot.Some? && snapshot.value.log.Some? ==> snapshot.value.log.value.byteCount == |LogOf(events)|
    ensures snapshot.Some? && snapshot.value.log.Some? && snapshot.value.log.value.complete && relay.Some? ==>
              && relay.value.channel == LogOf(events)
              && (acquired ==> relay.value.endOfFile && relay.value.disposalConfirmed)
    ensures HasEnd(events) ==> snapshot.Some? && |events| > 0 && events[|events| - 1] == SessionEnded(snapshot.value)
    ensures delivered ==> HasEnd(events) && output.wire == Flatten(output.history)
  {
    ghost var statuses := iset n: int | Says(turns, last, n);
    SaidIsAmong(turns, last);
    var session := new HelperSession(codec, input, helper, sessionId, work, statuses);
    returned, snapshot := session.Perform(launching, turns, last, cancelled, releasing, ending);
    lease := returned && session.leaseHeld;
    delivered := snapshot.Some? && session.lifecycle.Closed? && session.lifecycle.localDiagnostics == [];
    events, output, request := session.events, session.output, session.request;
    relay, acquired, control := session.relay, session.childAcquired, session.inbox.control;
    disk, settlement, spawning, told := session.disk, session.settlement, session.spawning, session.told;
    Framing.ClassifyConforms(input.Decoders(), control.consumed, Framing.LeaseLost);
    if snapshot.Some? {
      ReportMeans(relay, events, request, acquired, snapshot.value.cleanup);
    }
  }
}
