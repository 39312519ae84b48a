/** What a helper session keeps true, stated on the values its fields hold. */
module SessionFacts {
  import opened Base
  import opened Outcomes
  import opened Lifecycle
  import opened Events
  import opened Streams
  import opened Relaying
  import opened Controls

  /** The queued log stays below its limit by at most one frame more. */
  const LOG_QUEUE_BOUND := LOG_CREDIT_BYTES + Framing.MAX_FRAME_SIZE

  type SoundCodec = c: Codec | c.Sound() ghost witness Codec((_: Event) => None, (_: bytes) => None)

  /** A validated START request, as far as the session reads it. */
  datatype Request = Request(startup: StartupRequest, usesLog: bool)

  function PolicyOf(request: Option<Request>): CompletionPolicy {
    if request.Some? then request.value.startup.policy else LiveServer
  }

  predicate UsesLog(request: Option<Request>) {
    request.Some? && request.value.usesLog
  }

  /** helper/_process.py ChildAcquisition. */
  datatype Acquisition = Acquisition(
    process: bool,
    hasChild: bool,
    producerQuiescent: bool,
    rollbackConfirmed: bool)

  predicate Acquired(acquisition: Option<Acquisition>) {
    acquisition.Some? && acquisition.value.process
  }

  /** helper/_process.py ChildSettlement. */
  datatype Settlement = Settlement(
    producerQuiescent: bool,
    groupDisposed: bool,
    observersSettled: bool,
    pipesClosed: bool)
  {
    predicate Confirmed() {
      producerQuiescent && groupDisposed && observersSettled && pipesClosed
    }
  }

  /** Every recorded failure can be encoded. */
  ghost predicate Coded(s: Phase) {
    forall i | 0 <= i < |s.Recorded()| :: CodePresent(s.Recorded()[i])
  }

  /** What the predicates below are about. */
  datatype Topic =
    | OfLife
    | OfRecord
    | OfRelay
    | OfOutput
    | OfStream
    | OfOwners
    | OfLog
    | OfInput
    | OfWire
    | OfLater
    | OfExit

  /**
   * A mention of Inspected asks the verifier to unfold the predicates on one
   * topic that quantify over it; it says nothing else.
   */
  predicate Inspected(topic: Topic, k: int) {
    true
  }

  /** What no later step undoes: the phase reached, the child result, the first failure, the record. */
  ghost predicate Grown(s: Phase, t: Phase) {
    && s.Rank() <= t.Rank()
    && (s.Result().Some? ==> t.Result() == s.Result())
    && (s.Reason().Some? ==> t.Reason() == s.Reason())
    && (s.Established() != NoFailure ==> t.Established() == s.Established())
    && s.Recorded() <= t.Recorded()
  }

  ghost predicate LifeLater(s: Phase, t: Phase) {
    forall k: int {:trigger Inspected(OfLife, k)} :: Inspected(OfLife, k) ==> Grown(s, t)
  }

  lemma LifeLaterSteps(s: Phase, t: Phase, u: Phase)
    ensures LifeLater(s, s)
    ensures LifeLater(s, t) && LifeLater(t, u) ==> LifeLater(s, u)
  {
    assert Inspected(OfOwners, 0);
  }

  /** Only failures and termination happened between s and t. */
  ghost predicate Failing(s: Phase, t: Phase) {
    t.Current() == s.Current() && (t == s || t.Terminating?) && LifeLater(s, t)
  }

  lemma FailingSteps(s: Phase, t: Phase, u: Phase)
    ensures Failing(s, s)
    ensures Failing(s, t) && Failing(t, u) ==> Failing(s, u)
  {
    LifeLaterSteps(s, t, u);
  }

  /** The record of t and what is still owed is that of s and everything due; behind Inspected. */
  ghost predicate Owes(s: Phase, t: Phase, rest: seq<Diagnostic>, due: seq<Diagnostic>) {
    forall k: int {:trigger Inspected(OfRecord, k)} :: Inspected(OfRecord, k) ==>
      t.Recorded() + rest == s.Recorded() + due
  }

  /** The record grew by exactly these failures, in this order. */
  ghost predicate Adds(s: Phase, t: Phase, failures: seq<Diagnostic>) {
    Owes(s, t, [], failures)
  }

  lemma AddsNothing(s: Phase, failures: seq<Diagnostic>)
    ensures Adds(s, s, [])
    ensures Adds(s, s, failures) ==> failures == []
    ensures Owes(s, s, failures, failures)
  {
    assert Inspected(OfRecord, 0);
  }

  lemma MakeAdds(s: Phase, t: Phase, failures: seq<Diagnostic>)
    requires t.Recorded() == s.Recorded() + failures
    ensures Adds(s, t, failures)
  {
    assert t.Recorded() + [] == t.Recorded();
  }

  lemma AddsSteps(s: Phase, t: Phase, u: Phase, a: seq<Diagnostic>, b: seq<Diagnostic>)
    requires Adds(s, t, a) && Adds(t, u, b)
    ensures Adds(s, u, a + b)
  {
    assert Inspected(OfOwners, 0);
    assert t.Recorded() + [] == t.Recorded();
    Assoc(s.Recorded(), a, b);
  }

  /** Paying the first part of what is owed. */
  lemma OwesLess(s: Phase, t: Phase, u: Phase, first: seq<Diagnostic>, rest: seq<Diagnostic>, due: seq<Diagnostic>)
    requires Owes(s, t, first + rest, due) && Adds(t, u, first)
    ensures Owes(s, u, rest, due)
  {
    assert Inspected(OfOwners, 0);
    Assoc(t.Recorded(), first, rest);
    assert u.Recorded() + [] == u.Recorded();
  }

  /** Some failure is on record; behind Inspected. */
  ghost predicate Failed(s: Phase) {
    forall k: int {:trigger Inspected(OfRecord, k)} :: Inspected(OfRecord, k) ==> s.Recorded() != []
  }

  /** The session is ending, for this reason unless it already was for another. */
  predicate EndedBy(s: Phase, t: Phase, trigger: Trigger) {
    t.Reason() == if s.Reason().Some? then s.Reason() else Some(trigger)
  }

  lemma ReasonStays(s: Phase, t: Phase, u: Phase, trigger: Trigger)
    requires EndedBy(s, t, trigger) && LifeLater(t, u)
    ensures EndedBy(s, u, trigger)
  {
    assert Inspected(OfLife, 0);
  }

  /** One lifecycle call whose failure, if any, can be encoded. */
  lemma CallKeeps(s: Phase, c: Call)
    requires PhaseInv(s) && Coded(s)
    requires c.Terminate? && c.failure.Some? ==> CodePresent(c.failure.value)
    ensures PhaseInv(Next(s, c).phase) && Coded(Next(s, c).phase)
    ensures LifeLater(s, Next(s, c).phase)
  {
    assert Inspected(OfOwners, 0);
    StepFacts(s, c);
    assert CodePresent(ATTEMPT_ADMISSION) && CodePresent(READY_ADMISSION);
  }

  /** A recorded failure: the phase terminates, or goes on terminating. */
  lemma FailureKeeps(s: Phase, trigger: Trigger, failure: Diagnostic)
    requires PhaseInv(s) && Coded(s) && !s.Closed? && CodePresent(failure)
    requires trigger == ChildExit ==> s.Result().Some?
    ensures
      var t := Terminated(s, trigger, Some(failure)).phase;
      && Failing(s, t) && PhaseInv(t) && Coded(t)
      && t.Terminating? && t.Recorded() == s.Recorded() + [failure] && EndedBy(s, t, trigger)
  {
    assert Inspected(OfOwners, 0);
    CallKeeps(s, Terminate(trigger, Some(failure)));
    StepFacts(s, Terminate(trigger, Some(failure)));
  }

  /** The relay's own invariant, behind Inspected. */
  ghost predicate RelayKept(r: Relay) {
    forall k: int {:trigger Inspected(OfRelay, k)} :: Inspected(OfRelay, k) ==> RelayInv(r)
  }

  ghost predicate OutputKept(o: Output) {
    forall k: int {:trigger Inspected(OfOutput, k)} :: Inspected(OfOutput, k) ==> OutputInv(o)
  }

  lemma InspectRelay(r: Relay)
    requires RelayKept(r)
    ensures RelayInv(r)
  {
    assert Inspected(OfRelay, 0);
  }

  lemma InspectOutput(o: Output)
    requires OutputKept(o)
    ensures OutputInv(o)
  {
    assert Inspected(OfOwners, 0) && Inspected(OfStream, 0) && Inspected(OfOutput, 0);
  }

  /** What is admitted, and the reader's view of it; behind Inspected. */
  ghost predicate Published(c: Codec, output: Output, events: seq<Event>, order: Order) {
    forall k: int {:trigger Inspected(OfStream, k)} :: Inspected(OfStream, k) ==> Accounted(c, output, events, order)
  }

  ghost predicate Accounted(c: Codec, output: Output, events: seq<Event>, order: Order) {
    && OutputKept(output)
    && c.Encodes(events)
    && output.history == Frames(c, events)
    && AcceptAll(NewOrder(order.policy, order.logRequested), events) == Some(order)
    && order.logBytes == |LogOf(events)|
  }

  lemma EmitPublishes(c: SoundCodec, output: Output, events: seq<Event>, order: Order, e: Event, log: bool)
    requires Published(c, output, events, order)
    requires Advance(order, e).Some? && Emitted(c, output, e, log).Some?
    ensures Published(c, Emitted(c, output, e, log).value, events + [e], Advance(order, e).value)
  {
    assert Inspected(OfStream, 0);
    InspectOutput(output);
    EnqueueKeeps(output, c.encode(e).value, log);
    FramesSnoc(c, events, e);
    AcceptAllSnoc(NewOrder(order.policy, order.logRequested), events, e);
    LogOfSnoc(events, e);
  }

  /** The reader's state after a contiguous run of LOG_DATA. */
  function AfterLog(order: Order, events: seq<Event>): Order {
    order.(logBytes := order.logBytes + |LogOf(events)|, outputSeen := order.outputSeen || events != [])
  }

  lemma {:induction false} ContiguousAccepted(c: Codec, order: Order, events: seq<Event>)
    requires Contiguous(events, order.logBytes) && c.Encodes(events)
    requires events != [] ==> order.created && order.attempted && order.logRequested && !order.ended
    ensures AcceptAll(order, events) == Some(AfterLog(order, events))
    decreases |events|
  {
    if |events| > 0 {
      assert events[0] in events;
      assert forall e | e in events[1..] :: e in events;
      ContiguousAccepted(c, Advance(order, events[0]).value, events[1..]);
    }
  }

  /** Whatever a pump admits, the reader accepts. */
  lemma PumpPublishes(c: SoundCodec, r: Relay, output: Output, events: seq<Event>, order: Order)
    requires Published(c, output, events, order)
    requires RelayKept(r) && r.sent == LogOf(events)
    requires r.buffer != [] ==> order.created && order.attempted && order.logRequested && !order.ended
    ensures
      var p := PumpAll(c, r, output);
      && PumpedFrom(c, r, output, p)
      && Published(c, p.output, events + p.events, AfterLog(order, p.events))
      && p.relay.sent == LogOf(events + p.events)
      && (r.buffer == [] ==> p.events == [])
  {
    assert Inspected(OfStream, 0);
    var p := PumpAll(c, r, output);
    InspectRelay(r);
    InspectOutput(output);
    PumpKeeps(c, r, output);
    ContiguousAccepted(c, order, p.events);
    AcceptAllAppend(NewOrder(order.policy, order.logRequested), events, p.events);
    FramesAppend(c, events, p.events);
    LogOfAppend(events, p.events);
  }

  /** The lifecycle against the request and the acquisition of a child. */
  ghost predicate LifeInv(s: Phase, request: Option<Request>, acquisition: Option<Acquisition>) {
    && PhaseInv(s) && Coded(s) && !s.Closed?
    && (s.Created? ==> request.None?)
    && (request.None? ==> s.Current().None?)
    && (s.Starting? || s.Active? ==> request.Some? && s.request == request.value.startup)
    && (s.Starting? ==> s.attempt.Observed().None?)
    && (acquisition.None? ==> s.Current().None? || s.Current().value.Authorized?)
    && (acquisition.Some? ==> request.Some? && s.Current().Some? && !s.Current().value.Authorized?)
    && (s.Result().Some? ==> Acquired(acquisition))
  }

  lemma FailingKeepsLife(s: Phase, t: Phase, request: Option<Request>, acquisition: Option<Acquisition>)
    requires LifeInv(s, request, acquisition) && Failing(s, t) && PhaseInv(t) && Coded(t)
    ensures LifeInv(t, request, acquisition)
  {
    assert Inspected(OfOwners, 0);
  }

  /** What the admitted events say about the session. */
  ghost predicate OrderInv(order: Order, events: seq<Event>, s: Phase, request: Option<Request>,
                           acquisition: Option<Acquisition>, announced: bool)
  {
    && order.policy == PolicyOf(request)
    && order.logRequested == UsesLog(request)
    && !order.ended
    && (request.None? ==> events == [] || (|events| == 1 && events[0].SessionCreated?))
    && (request.Some? ==> order.created)
    && (announced && s.Rank() < 3 ==> order.created)
    && (!announced ==> events == [])
    && (order.attempted <==> acquisition.Some?)
    && (order.ready ==> Acquired(acquisition) && !s.Starting?)
    && (order.outputSeen ==> Acquired(acquisition))
  }

  /** A complete decision is true: the whole channel was admitted. */
  ghost predicate CompleteIsWhole(r: Relay, acquired: bool) {
    r.decision.Some? && r.decision.value.complete ==>
      r.sent == r.channel && (acquired ==> Whole(r))
  }

  /** The relay against the rest of the session. */
  ghost predicate LogInv(relay: Option<Relay>, events: seq<Event>, s: Phase, request: Option<Request>,
                         acquisition: Option<Acquisition>)
  {
    && (relay.None? ==> LogOf(events) == [])
    && (UsesLog(request) && acquisition.Some? ==> relay.Some?)
    && (relay.Some? ==>
          && UsesLog(request)
          && RelayKept(relay.value)
          && relay.value.sent == LogOf(events)
          && (relay.value.channel != [] ==> Acquired(acquisition))
          && (relay.value.finalPhase || relay.value.decision.Some? ==> s.Rank() >= 3)
          && CompleteIsWhole(relay.value, Acquired(acquisition)))
  }

  /**
   * No credit is lost: while undecided log bytes are buffered, the queued log
   * is at its limit, so that a later write returns credit, or a return is
   * latched or already on its way to the coordinator. The queued log never
   * exceeds its limit by a frame.
   */
  predicate Credited(relay: Option<Relay>, output: Output, credits: nat) {
    && output.logPending < LOG_QUEUE_BOUND
    && (relay.Some? && relay.value.buffer != [] && relay.value.decision.None? ==>
          output.logPending >= LOG_CREDIT_BYTES || output.creditReturned || credits > 0)
  }

  /** A pump stopped here: nothing is buffered, or the log credit is spent. */
  predicate PumpedOut(r: Relay, output: Output) {
    && output.logPending < LOG_QUEUE_BOUND
    && (r.buffer == [] || output.logPending >= LOG_CREDIT_BYTES)
  }

  /** Everything that ties the owners' values together, behind Inspected. */
  ghost predicate Owners(c: Codec, output: Output, events: seq<Event>, order: Order, s: Phase,
                         request: Option<Request>, acquisition: Option<Acquisition>, relay: Option<Relay>,
                         announced: bool)
  {
    forall k: int {:trigger Inspected(OfOwners, k)} :: Inspected(OfOwners, k) ==>
      Agree(c, output, events, order, s, request, acquisition, relay, announced)
  }

  ghost predicate Agree(c: Codec, output: Output, events: seq<Event>, order: Order, s: Phase,
                        request: Option<Request>, acquisition: Option<Acquisition>, relay: Option<Relay>,
                        announced: bool)
  {
    && Published(c, output, events, order)
    && LifeInv(s, request, acquisition)
    && OrderInv(order, events, s, request, acquisition, announced)
    && LogInv(relay, events, s, request, acquisition)
  }

  /** A lifecycle that only moved forward, and does not return to Starting, keeps the rest. */
  lemma MoveKeeps(c: Codec, output: Output, events: seq<Event>, order: Order, s: Phase, t: Phase,
                  request: Option<Request>, acquisition: Option<Acquisition>, relay: Option<Relay>,
                  announced: bool)
    requires Owners(c, output, events, order, s, request, acquisition, relay, announced)
    requires LifeInv(t, request, acquisition) && s.Rank() <= t.Rank()
    requires t.Starting? ==> s.Starting?
    ensures Owners(c, output, events, order, t, request, acquisition, relay, announced)
  {
    assert Inspected(OfOwners, 0);
  }

  lemma FailingKeeps(c: Codec, output: Output, events: seq<Event>, order: Order, s: Phase, t: Phase,
                     request: Option<Request>, acquisition: Option<Acquisition>, relay: Option<Relay>,
                     announced: bool)
    requires Owners(c, output, events, order, s, request, acquisition, relay, announced)
    requires Failing(s, t) && PhaseInv(t) && Coded(t)
    ensures Owners(c, output, events, order, t, request, acquisition, relay, announced)
  {
    assert Inspected(OfOwners, 0);
    FailingKeepsLife(s, t, request, acquisition);
    MoveKeeps(c, output, events, order, s, t, request, acquisition, relay, announced);
  }

  /** A failure of one of the helper's own codes. */
  lemma FailKeeps(c: Codec, output: Output, events: seq<Event>, order: Order, s: Phase, trigger: Trigger,
                  code: Code, request: Option<Request>, acquisition: Option<Acquisition>,
                  relay: Option<Relay>, announced: bool)
    requires Owners(c, output, events, order, s, request, acquisition, relay, announced)
    requires !code.Other? && !trigger.ChildExit?
    ensures
      var t := Terminated(s, trigger, Some(Fault(code))).phase;
      && Owners(c, output, events, order, t, request, acquisition, relay, announced)
      && Failing(s, t) && t.Terminating? && Adds(s, t, [Fault(code)]) && Failed(t) && EndedBy(s, t, trigger)
  {
    assert Inspected(OfOwners, 0);
    FailureKeeps(s, trigger, Fault(code));
    FailingKeeps(c, output, events, order, s, Terminated(s, trigger, Some(Fault(code))).phase, request,
                 acquisition, relay, announced);
    MakeAdds(s, Terminated(s, trigger, Some(Fault(code))).phase, [Fault(code)]);
  }

  /** A controller end-of-file terminates without a failure. */
  lemma EofKeeps(c: Codec, output: Output, events: seq<Event>, order: Order, s: Phase,
                 request: Option<Request>, acquisition: Option<Acquisition>, relay: Option<Relay>,
                 announced: bool)
    requires Owners(c, output, events, order, s, request, acquisition, relay, announced)
    ensures
      var t := Next(s, Terminate(ControllerEof, None)).phase;
      && Owners(c, output, events, order, t, request, acquisition, relay, announced)
      && Failing(s, t) && t.Terminating? && Adds(s, t, []) && EndedBy(s, t, ControllerEof)
  {
    assert Inspected(OfOwners, 0);
    CallKeeps(s, Terminate(ControllerEof, None));
    StepFacts(s, Terminate(ControllerEof, None));
    assert s.Recorded() + [] == s.Recorded();
    MakeAdds(s, Next(s, Terminate(ControllerEof, None)).phase, []);
    MoveKeeps(c, output, events, order, s, Next(s, Terminate(ControllerEof, None)).phase, request, acquisition,
              relay, announced);
  }

  /** The announcement, admitted or refused. */
  lemma AnnounceKeeps(c: Codec, output: Output, events: seq<Event>, order: Order, output': Output,
                      events': seq<Event>, order': Order, s: Phase, request: Option<Request>,
                      acquisition: Option<Acquisition>, relay: Option<Relay>)
    requires Owners(c, output, events, order, s, request, acquisition, relay, false)
    requires Published(c, output', events', order') && LogOf(events') == LogOf(events)
    requires if s.Rank() >= 3 then events' == events && order' == order
             else order' == order.(created := true) && |events'| == 1 && events'[0].SessionCreated?
    ensures Owners(c, output', events', order', s, request, acquisition, relay, true)
  {
    assert Inspected(OfOwners, 0);
  }

  /** Before anything was announced. */
  lemma Unannounced(c: Codec, output: Output, events: seq<Event>, order: Order, s: Phase,
                    request: Option<Request>, acquisition: Option<Acquisition>, relay: Option<Relay>)
    requires Owners(c, output, events, order, s, request, acquisition, relay, false)
    ensures Published(c, output, events, order) && events == [] && order == NewOrder(order.policy, order.logRequested)
  {
    assert Inspected(OfOwners, 0) && Inspected(OfStream, 0);
  }

  /** The invariants, opened. */
  lemma Consult(c: Codec, output: Output, events: seq<Event>, order: Order, s: Phase,
                request: Option<Request>, acquisition: Option<Acquisition>, relay: Option<Relay>,
                announced: bool)
    requires Owners(c, output, events, order, s, request, acquisition, relay, announced)
    ensures Agree(c, output, events, order, s, request, acquisition, relay, announced)
  {
    assert Inspected(OfOwners, 0);
  }

  /** A terminating session's outcome carries the child's result. */
  lemma OutcomeHasResult(c: Codec, output: Output, events: seq<Event>, order: Order, s: Phase,
                         request: Option<Request>, acquisition: Option<Acquisition>, relay: Option<Relay>,
                         announced: bool)
    requires Owners(c, output, events, order, s, request, acquisition, relay, announced) && s.Terminating?
    ensures s.outcome.childResult == s.Result()
  {
    assert Inspected(OfOwners, 0);
  }

  lemma StartingIsUnobserved(c: Codec, output: Output, events: seq<Event>, order: Order, s: Phase,
                             request: Option<Request>, acquisition: Option<Acquisition>,
                             relay: Option<Relay>, announced: bool)
    requires Owners(c, output, events, order, s, request, acquisition, relay, announced) && s.Starting?
    ensures s.attempt.Observed().None?
  {
    assert Inspected(OfOwners, 0);
  }

  lemma CreatedIsFresh(c: Codec, output: Output, events: seq<Event>, order: Order, request: Option<Request>,
                       acquisition: Option<Acquisition>, relay: Option<Relay>)
    requires Owners(c, output, events, order, Created, request, acquisition, relay, true)
    ensures request.None? && acquisition.None? && relay.None?
    ensures forall start: StartupRequest :: LifeLater(Created, Starting(start, Authorized, {}))
  {
    assert Inspected(OfOwners, 0);
  }

  /** START: the reader's policy and log request do not matter before it. */
  lemma StartKeeps(c: Codec, output: Output, events: seq<Event>, order: Order, acquisition: Option<Acquisition>,
                   relay: Option<Relay>, start: Request)
    requires Owners(c, output, events, order, Created, None, acquisition, relay, true)
    ensures
      var next := order.(policy := start.startup.policy, logRequested := start.usesLog);
      && Owners(c, output, events, next, Starting(start.startup, Authorized, {}), Some(start), acquisition,
                relay, true)
      && relay.None?
  {
    assert Inspected(OfOwners, 0) && Inspected(OfStream, 0);
    var next := order.(policy := start.startup.policy, logRequested := start.usesLog);
    var was := NewOrder(order.policy, order.logRequested);
    assert AcceptAll(was, events) == Some(order);
    if |events| == 1 {
      assert AcceptAll(was, events) == AcceptAll(Advance(was, events[0]).value, events[1..]);
      var renewed := NewOrder(next.policy, next.logRequested);
      assert AcceptAll(renewed, events) == AcceptAll(Advance(renewed, events[0]).value, events[1..]);
    }
  }

  /** The log channel appears. */
  lemma ChannelKeeps(c: Codec, output: Output, events: seq<Event>, order: Order, s: Phase,
                     request: Option<Request>, acquisition: Option<Acquisition>, announced: bool)
    requires Owners(c, output, events, order, s, request, acquisition, None, announced) && UsesLog(request)
    ensures Owners(c, output, events, order, s, request, acquisition, Some(NewRelay()), announced)
  {
    assert Inspected(OfOwners, 0);
  }

  /** The reader accepts ATTEMPT before the attempt is entered. */
  lemma AttemptFits(c: Codec, output: Output, events: seq<Event>, order: Order, s: Phase, request: Option<Request>,
                    acquisition: Option<Acquisition>, relay: Option<Relay>, e: Event)
    requires Owners(c, output, events, order, s, request, acquisition, relay, true)
    requires s.Starting? && s.attempt.Authorized? && e.AttemptStarted? && ValidEvent(e)
    ensures Published(c, output, events, order) && Advance(order, e) == Some(order.(attempted := true))
    ensures acquisition.None?
  {
    assert Inspected(OfOwners, 0);
  }

  /** The reader accepts child output once a child is acquired. */
  lemma OutputFits(c: Codec, output: Output, events: seq<Event>, order: Order, s: Phase, request: Option<Request>,
                   acquisition: Option<Acquisition>, relay: Option<Relay>, e: Event)
    requires Owners(c, output, events, order, s, request, acquisition, relay, true) && Acquired(acquisition)
    requires e.ChildOutput? && ValidEvent(e)
    ensures Published(c, output, events, order) && Advance(order, e) == Some(order.(outputSeen := true))
  {
    assert Inspected(OfOwners, 0);
  }

  /** Entering the attempt that ATTEMPT announced. */
  lemma EnterKeeps(c: Codec, output: Output, events: seq<Event>, order: Order, output': Output, events': seq<Event>,
                   order': Order, s: Phase, request: Option<Request>, relay: Option<Relay>)
    requires Owners(c, output, events, order, s, request, None, relay, true)
    requires s.Starting? && s.attempt.Authorized? && (UsesLog(request) ==> relay.Some?)
    requires Published(c, output', events', order') && order' == order.(attempted := true)
    requires LogOf(events') == LogOf(events)
    ensures Owners(c, output', events', order', Next(s, EnterAttempt(true)).phase, request,
                   Some(Acquisition(false, false, false, false)), relay, true)
    ensures LifeLater(s, Next(s, EnterAttempt(true)).phase)
  {
    assert Inspected(OfOwners, 0);
    CallKeeps(s, EnterAttempt(true));
  }

  /** Nothing is decided about the log before termination. */
  lemma UndecidedBefore(c: Codec, output: Output, events: seq<Event>, order: Order, s: Phase,
                        request: Option<Request>, acquisition: Option<Acquisition>, relay: Option<Relay>,
                        announced: bool)
    requires Owners(c, output, events, order, s, request, acquisition, relay, announced) && s.Rank() < 3
    ensures relay.Some? ==> relay.value.decision.None?
  {
    assert Inspected(OfOwners, 0);
  }

  /** The acquisition learns more, while the log is undecided. */
  lemma AcquireKeeps(c: Codec, output: Output, events: seq<Event>, order: Order, s: Phase,
                     request: Option<Request>, was: Acquisition, now: Acquisition, relay: Option<Relay>)
    requires Owners(c, output, events, order, s, request, Some(was), relay, true)
    requires was.process ==> now.process
    requires relay.Some? ==> relay.value.decision.None?
    ensures Owners(c, output, events, order, s, request, Some(now), relay, true)
  {
    assert Inspected(OfOwners, 0);
  }

  /** Adoption of the produced child. */
  lemma AdoptKeeps(c: Codec, output: Output, events: seq<Event>, order: Order, s: Phase,
                   request: Option<Request>, acquisition: Option<Acquisition>, relay: Option<Relay>)
    requires Owners(c, output, events, order, s, request, acquisition, relay, true) && acquisition.Some?
    ensures
      var t := Next(s, AdoptAttempt).phase;
      && Owners(c, output, events, order, t, request, acquisition, relay, true)
      && LifeLater(s, t)
      && (t.Starting? && s.Current().value.Producing? ==> t.attempt.Owned?)
      && (s.Terminating? ==> t.Terminating?)
  {
    assert Inspected(OfOwners, 0);
    CallKeeps(s, AdoptAttempt);
    MoveKeeps(c, output, events, order, s, Next(s, AdoptAttempt).phase, request, acquisition, relay, true);
  }

  /** _record_exit on the lifecycle. */
  function ExitRecorded(s: Phase, requested: bool, returncode: int): Phase {
    var noted := if requested then Next(s, RecordChildTermination).phase else s;
    var step := Next(noted, ObserveChildExit(returncode));
    if step.ok && step.phase.Starting? && step.phase.request.policy.LiveServer?
    then Terminated(step.phase, StartupFailure, Some(Fault(StartupExit))).phase
    else step.phase
  }

  lemma ExitKeeps(s: Phase, requested: bool, returncode: int, request: Option<Request>,
                  acquisition: Option<Acquisition>)
    requires LifeInv(s, request, acquisition) && Acquired(acquisition)
    requires s.Starting? ==> s.attempt.Owned?
    ensures
      var t := ExitRecorded(s, requested, returncode);
      && LifeInv(t, request, acquisition)
      && LifeLater(s, t)
      && !t.Starting?
      && (s.Terminating? ==> t.Terminating?)
  {
    CallKeeps(s, RecordChildTermination);
    var noted := if requested then Next(s, RecordChildTermination).phase else s;
    LifeLaterSteps(s, s, s);
    CallKeeps(noted, ObserveChildExit(returncode));
    var step := Next(noted, ObserveChildExit(returncode));
    LifeLaterSteps(s, noted, step.phase);
    var t := ExitRecorded(s, requested, returncode);
    if step.ok && step.phase.Starting? {
      CallKeeps(step.phase, Terminate(StartupFailure, Some(Fault(StartupExit))));
      LifeLaterSteps(s, step.phase, t);
    }
  }

  lemma ExitOwnersKeep(c: Codec, output: Output, events: seq<Event>, order: Order, s: Phase, requested: bool,
                       returncode: int, request: Option<Request>, acquisition: Option<Acquisition>,
                       relay: Option<Relay>, announced: bool)
    requires Owners(c, output, events, order, s, request, acquisition, relay, announced)
    requires Acquired(acquisition) && (s.Starting? ==> s.attempt.Owned?)
    ensures
      var t := ExitRecorded(s, requested, returncode);
      && Owners(c, output, events, order, t, request, acquisition, relay, announced)
      && LifeLater(s, t) && !t.Starting? && (s.Terminating? ==> t.Terminating?)
      && PhaseInv(s) && !s.Closed? && (s.Starting? ==> s.Result().None?)
  {
    assert Inspected(OfOwners, 0);
    ExitKeeps(s, requested, returncode, request, acquisition);
    MoveKeeps(c, output, events, order, s, ExitRecorded(s, requested, returncode), request, acquisition, relay,
              announced);
  }

  /** Evidence seen while starting. */
  lemma EvidenceKeeps(s: Phase, name: string, request: Option<Request>, acquisition: Option<Acquisition>)
    requires LifeInv(s, request, acquisition) && s.Starting?
    ensures
      var t := Next(s, ObserveEvidence(name)).phase;
      && LifeInv(t, request, acquisition) && LifeLater(s, t)
      && t.Starting? && t.attempt == s.attempt && t.request == s.request
  {
    assert Inspected(OfOwners, 0);
    CallKeeps(s, ObserveEvidence(name));
  }

  lemma EvidenceOwnersKeep(c: Codec, output: Output, events: seq<Event>, order: Order, s: Phase, name: string,
                           request: Option<Request>, acquisition: Option<Acquisition>,
                           relay: Option<Relay>, announced: bool)
    requires Owners(c, output, events, order, s, request, acquisition, relay, announced) && s.Starting?
    ensures
      var t := Next(s, ObserveEvidence(name)).phase;
      && Owners(c, output, events, order, t, request, acquisition, relay, announced)
      && LifeLater(s, t) && t.Starting? && t.attempt == s.attempt && t.request == s.request
  {
    assert Inspected(OfOwners, 0);
    EvidenceKeeps(s, name, request, acquisition);
    MoveKeeps(c, output, events, order, s, Next(s, ObserveEvidence(name)).phase, request, acquisition, relay,
              announced);
  }

  /** The reader accepts READY whenever the lifecycle allows it. */
  lemma ReadyFits(c: Codec, output: Output, events: seq<Event>, order: Order, s: Phase, request: Option<Request>,
                  acquisition: Option<Acquisition>, relay: Option<Relay>, e: Event)
    requires Owners(c, output, events, order, s, request, acquisition, relay, true) && Acquired(acquisition)
    requires ReadyAllowed(s, true) && e.ReadyAt? && ValidEvent(e)
    ensures Published(c, output, events, order) && Advance(order, e) == Some(order.(ready := true))
  {
    assert Inspected(OfOwners, 0);
  }

  /** READY admitted: the session becomes active in the same step. */
  lemma ReadyKeeps(c: Codec, output: Output, events: seq<Event>, order: Order, output': Output, events': seq<Event>,
                   order': Order, s: Phase, request: Option<Request>, acquisition: Option<Acquisition>,
                   relay: Option<Relay>)
    requires Owners(c, output, events, order, s, request, acquisition, relay, true) && Acquired(acquisition)
    requires ReadyAllowed(s, true)
    requires Published(c, output', events', order') && order' == order.(ready := true)
    requires LogOf(events') == LogOf(events)
    ensures
      var t := Next(s, Call.Ready(true, true)).phase;
      && Owners(c, output', events', order', t, request, acquisition, relay, true)
      && t.Active? && LifeLater(s, t)
  {
    assert Inspected(OfOwners, 0);
    CallKeeps(s, Call.Ready(true, true));
  }

  /** Child output admitted. */
  lemma OutputKeeps(c: Codec, output: Output, events: seq<Event>, order: Order, output': Output, events': seq<Event>,
                    order': Order, s: Phase, request: Option<Request>, acquisition: Option<Acquisition>,
                    relay: Option<Relay>)
    requires Owners(c, output, events, order, s, request, acquisition, relay, true) && Acquired(acquisition)
    requires Published(c, output', events', order') && order' == order.(outputSeen := true)
    requires LogOf(events') == LogOf(events)
    ensures Owners(c, output', events', order', s, request, acquisition, relay, true)
  {
    assert Inspected(OfOwners, 0);
  }

  /** ATTEMPT admitted and the attempt entered, in one step. */
  lemma AttemptAdmitted(c: SoundCodec, output: Output, events: seq<Event>, order: Order, s: Phase,
                        request: Option<Request>, acquisition: Option<Acquisition>, relay: Option<Relay>, e: Event)
    requires Owners(c, output, events, order, s, request, acquisition, relay, true)
    requires s.Starting? && s.attempt.Authorized? && (UsesLog(request) ==> relay.Some?)
    requires e.AttemptStarted? && ValidEvent(e) && Emitted(c, output, e, false).Some?
    ensures Owners(c, Emitted(c, output, e, false).value, events + [e], order.(attempted := true),
                   Starting(s.request, Producing(false, None), s.evidence), request,
                   Some(Acquisition(false, false, false, false)), relay, true)
    ensures LifeLater(s, Starting(s.request, Producing(false, None), s.evidence))
    ensures Next(s, EnterAttempt(true)) == Done(Starting(s.request, Producing(false, None), s.evidence), true)
  {
    AttemptFits(c, output, events, order, s, request, acquisition, relay, e);
    EmitPublishes(c, output, events, order, e, false);
    LogOfSnoc(events, e);
    EnterKeeps(c, output, events, order, Emitted(c, output, e, false).value, events + [e],
               order.(attempted := true), s, request, relay);
  }

  /** READY admitted and the session active, in one step. */
  lemma ReadyAdmitted(c: SoundCodec, output: Output, events: seq<Event>, order: Order, s: Phase,
                      request: Option<Request>, acquisition: Option<Acquisition>, relay: Option<Relay>, e: Event)
    requires Owners(c, output, events, order, s, request, acquisition, relay, true) && Acquired(acquisition)
    requires ReadyAllowed(s, true) && e.ReadyAt? && ValidEvent(e) && Emitted(c, output, e, false).Some?
    ensures
      var t := Next(s, Call.Ready(true, true)).phase;
      && Owners(c, Emitted(c, output, e, false).value, events + [e], order.(ready := true), t, request,
                acquisition, relay, true)
      && t.Active? && LifeLater(s, t)
  {
    ReadyFits(c, output, events, order, s, request, acquisition, relay, e);
    EmitPublishes(c, output, events, order, e, false);
    LogOfSnoc(events, e);
    ReadyKeeps(c, output, events, order, Emitted(c, output, e, false).value, events + [e],
               order.(ready := true), s, request, acquisition, relay);
  }

  lemma OutputAdmitted(c: SoundCodec, output: Output, events: seq<Event>, order: Order, s: Phase,
                       request: Option<Request>, acquisition: Option<Acquisition>, relay: Option<Relay>, e: Event)
    requires Owners(c, output, events, order, s, request, acquisition, relay, true) && Acquired(acquisition)
    requires e.ChildOutput? && ValidEvent(e) && Emitted(c, output, e, false).Some?
    ensures Owners(c, Emitted(c, output, e, false).value, events + [e], order.(outputSeen := true), s, request,
                   acquisition, relay, true)
  {
    OutputFits(c, output, events, order, s, request, acquisition, relay, e);
    EmitPublishes(c, output, events, order, e, false);
    LogOfSnoc(events, e);
    OutputKeeps(c, output, events, order, Emitted(c, output, e, false).value, events + [e],
                order.(outputSeen := true), s, request, acquisition, relay);
  }

  /** Settling the attempt in the terminating phase. */
  lemma SettleKeeps(s: Phase, request: Option<Request>, acquisition: Option<Acquisition>)
    requires LifeInv(s, request, acquisition) && s.Terminating? && acquisition.Some?
    ensures
      var t := Next(s, SettleAttempt(true, true)).phase;
      && LifeInv(t, request, acquisition) && LifeLater(s, t)
      && t.Terminating? && t.held == Some(Settled(s.Result())) && t.Recorded() == s.Recorded()
  {
    assert Inspected(OfOwners, 0);
    CallKeeps(s, SettleAttempt(true, true));
  }

  lemma SettleOwnersKeep(c: Codec, output: Output, events: seq<Event>, order: Order, s: Phase,
                         request: Option<Request>, acquisition: Option<Acquisition>, relay: Option<Relay>,
                         announced: bool)
    requires Owners(c, output, events, order, s, request, acquisition, relay, announced)
    requires s.Terminating? && acquisition.Some?
    ensures
      var t := Next(s, SettleAttempt(true, true)).phase;
      && Owners(c, output, events, order, t, request, acquisition, relay, announced)
      && LifeLater(s, t) && t.Terminating? && t.held == Some(Lifecycle.Settled(s.Result()))
      && Adds(s, t, [])
  {
    assert Inspected(OfOwners, 0);
    SettleKeeps(s, request, acquisition);
    assert s.Recorded() + [] == s.Recorded();
    MakeAdds(s, Next(s, SettleAttempt(true, true)).phase, []);
    MoveKeeps(c, output, events, order, s, Next(s, SettleAttempt(true, true)).phase, request, acquisition, relay,
              announced);
  }

  /** The writer ran, or its credit latch was consumed. */
  lemma WriterKeeps(c: Codec, output: Output, events: seq<Event>, order: Order, results: seq<WriteResult>,
                    creditPublished: bool)
    requires Published(c, output, events, order)
    ensures
      var ran := RunWriter(output, results);
      Published(c, if creditPublished then ran.(creditReturned := false) else ran, events, order)
  {
    assert Inspected(OfStream, 0);
    InspectOutput(output);
    RunKeeps(output, results);
  }

  lemma WriterOwnersKeep(c: Codec, output: Output, events: seq<Event>, order: Order, s: Phase,
                         request: Option<Request>, acquisition: Option<Acquisition>, relay: Option<Relay>,
                         announced: bool, results: seq<WriteResult>, creditPublished: bool)
    requires Owners(c, output, events, order, s, request, acquisition, relay, announced)
    ensures
      var ran := RunWriter(output, results);
      Owners(c, if creditPublished then ran.(creditReturned := false) else ran, events, order, s, request,
             acquisition, relay, announced)
  {
    assert Inspected(OfOwners, 0);
    WriterKeeps(c, output, events, order, results, creditPublished);
  }

  /** The writer never takes queued log below its limit without latching the credit. */
  lemma WriterKeepsCredit(c: Codec, output: Output, events: seq<Event>, order: Order, s: Phase,
                          request: Option<Request>, acquisition: Option<Acquisition>, relay: Option<Relay>,
                          announced: bool, results: seq<WriteResult>)
    requires Owners(c, output, events, order, s, request, acquisition, relay, announced)
    ensures
      var ran := RunWriter(output, results);
      && ran.logPending <= output.logPending
      && (ran.logPending != output.logPending ==> ran.creditReturned)
      && (output.creditReturned ==> ran.creditReturned)
  {
    assert Inspected(OfOwners, 0) && Inspected(OfStream, 0);
    InspectOutput(output);
    RunKeeps(output, results);
  }

  /** The relay after a pump in log progress: decided if it is ready. */
  function DecidedIfReady(r: Relay): Relay {
    if ReadyToDecide(r) then Decided(r, false, true) else r
  }

  /** _log_progress: pump, then decide if the relay is ready; behind Inspected. */
  ghost predicate LogProgressed(c: Codec, r: Relay, o: Output, r': Relay, o': Output, log: seq<Event>) {
    forall k: int {:trigger Inspected(OfLog, k)} :: Inspected(OfLog, k) ==>
      Pumped(r', o', log) == PumpAll(c, r, o).(relay := DecidedIfReady(PumpAll(c, r, o).relay))
  }

  lemma AdmissionKeepsDisposal(r: Relay)
    requires r.buffer != []
    ensures Admitted(r).disposalConfirmed == r.disposalConfirmed && Admitted(r).reading == r.reading
    ensures Abandoned(r).disposalConfirmed == r.disposalConfirmed && Abandoned(r).reading == r.reading
  {
  }

  lemma {:induction false} PumpKeepsDisposal(c: Codec, r: Relay, o: Output)
    ensures PumpAll(c, r, o).relay.disposalConfirmed == r.disposalConfirmed
    ensures PumpAll(c, r, o).relay.reading == r.reading
    decreases |Flatten(r.buffer)|, |r.buffer|
  {
    if r.buffer != [] && o.logPending < LOG_CREDIT_BYTES {
      var next := Emitted(c, o, HeadEvent(r), true);
      AdmissionKeepsDisposal(r);
      if next.Some? {
        PoppedFlatten(r);
        PumpKeepsDisposal(c, Admitted(r), next.value);
      }
    }
  }

  /** Log progress does not dispose of anything, and does not stop or resume reading. */
  lemma ProgressKeepsDisposal(c: Codec, r: Relay, o: Output, r': Relay, o': Output, log: seq<Event>)
    requires LogProgressed(c, r, o, r', o', log)
    ensures r'.disposalConfirmed == r.disposalConfirmed && r'.reading == r.reading
  {
    assert Inspected(OfLog, 0);
    PumpKeepsDisposal(c, r, o);
  }

  lemma PumpKeepsLog(p: Pumped, c: Codec, r: Relay, output: Output, events: seq<Event>, s: Phase,
                     request: Option<Request>, acquisition: Option<Acquisition>)
    requires LogInv(Some(r), events, s, request, acquisition) && PumpedFrom(c, r, output, p)
    requires p.relay.sent == LogOf(events + p.events) && (r.buffer == [] ==> p.events == [])
    ensures LogInv(Some(p.relay), events + p.events, s, request, acquisition)
  {
    assert r.buffer == [] ==> events + p.events == events;
  }

  lemma DecideKeepsLog(r: Relay, deadline: bool, acquired: bool, events: seq<Event>, s: Phase,
                       request: Option<Request>, acquisition: Option<Acquisition>)
    requires LogInv(Some(r), events, s, request, acquisition) && (r.decision.Some? || s.Rank() >= 3)
    requires deadline || (acquired && ReadyToDecide(r)) || !Acquired(acquisition)
    requires Acquired(acquisition) ==> acquired
    ensures LogInv(Some(Decided(r, deadline, acquired)), events, s, request, acquisition)
  {
    InspectRelay(r);
    DecideKeeps(r, deadline, acquired);
    SentIsPrefix(r);
    if r.decision.None? && acquired && Acquired(acquisition)
       && Decided(r, deadline, true).decision.value.complete {
      DisciplinedDecisionIsTrue(r, deadline);
    }
  }

  lemma PumpKeepsOrder(c: Codec, p: Pumped, r: Relay, output: Output, events: seq<Event>, order: Order, s: Phase,
                       request: Option<Request>, acquisition: Option<Acquisition>, announced: bool)
    requires OrderInv(order, events, s, request, acquisition, announced)
    requires p.events != [] ==> request.Some? && announced && Acquired(acquisition)
    ensures OrderInv(AfterLog(order, p.events), events + p.events, s, request, acquisition, announced)
  {
    assert p.events == [] ==> events + p.events == events;
  }

  /** Log progress keeps everything, and a decision once made stays. */
  lemma ProgressKeeps(c: SoundCodec, output: Output, events: seq<Event>, order: Order, s: Phase,
                      request: Option<Request>, acquisition: Option<Acquisition>, r: Relay, announced: bool)
    requires Owners(c, output, events, order, s, request, acquisition, Some(r), announced)
    requires announced && output.logPending < LOG_QUEUE_BOUND
    ensures
      var p := PumpAll(c, r, output);
      && PumpedOut(DecidedIfReady(p.relay), p.output)
      && Owners(c, p.output, events + p.events, AfterLog(order, p.events), s, request, acquisition,
                Some(DecidedIfReady(p.relay)), announced)
      && (r.decision.Some? ==> DecidedIfReady(p.relay).decision == r.decision)
      && DecidedIfReady(p.relay).channel == r.channel
      && (p.events != [] ==> !p.events[0].SessionCreated?)
  {
    var p := PumpAll(c, r, output);
    PumpKeepsOwners(c, output, events, order, s, request, acquisition, r, announced);
    if ReadyToDecide(p.relay) {
      ReadyDecisionKeeps(c, p.output, events + p.events, AfterLog(order, p.events), s, request, acquisition,
                         p.relay, announced);
    }
  }

  lemma PumpKeepsOwners(c: SoundCodec, output: Output, events: seq<Event>, order: Order, s: Phase,
                        request: Option<Request>, acquisition: Option<Acquisition>, r: Relay, announced: bool)
    requires Owners(c, output, events, order, s, request, acquisition, Some(r), announced)
    requires announced && output.logPending < LOG_QUEUE_BOUND
    ensures
      var p := PumpAll(c, r, output);
      && PumpedOut(p.relay, p.output)
      && Owners(c, p.output, events + p.events, AfterLog(order, p.events), s, request, acquisition,
                Some(p.relay), announced)
      && p.relay.decision == r.decision && p.relay.channel == r.channel
      && (p.events != [] ==> !p.events[0].SessionCreated?)
  {
    assert Inspected(OfOwners, 0);
    BufferedMeansAcquired(r, events, s, request, acquisition);
    var p := PumpAll(c, r, output);
    InspectRelay(r);
    PumpWithinCredit(c, r, output);
    PumpPublishes(c, r, output, events, order);
    PumpKeepsLog(p, c, r, output, events, s, request, acquisition);
    PumpKeepsOrder(c, p, r, output, events, order, s, request, acquisition, announced);
  }

  lemma ReadyDecisionKeeps(c: Codec, output: Output, events: seq<Event>, order: Order, s: Phase,
                           request: Option<Request>, acquisition: Option<Acquisition>, r: Relay, announced: bool)
    requires Owners(c, output, events, order, s, request, acquisition, Some(r), announced) && ReadyToDecide(r)
    ensures Owners(c, output, events, order, s, request, acquisition, Some(Decided(r, false, true)), announced)
    ensures Decided(r, false, true).channel == r.channel
  {
    assert Inspected(OfOwners, 0);
    DecideKeepsLog(r, false, true, events, s, request, acquisition);
  }

  lemma ReadFailedKept(r: Relay)
    requires RelayKept(r)
    ensures RelayKept(ReadFailed(r)) && ReadFailed(r).decision == r.decision
  {
    InspectRelay(r);
  }

  /** A failed read closes the reader only. */
  lemma ReadFailedKeepsLog(r: Relay, events: seq<Event>, s: Phase, request: Option<Request>,
                           acquisition: Option<Acquisition>)
    requires LogInv(Some(r), events, s, request, acquisition)
    ensures LogInv(Some(ReadFailed(r)), events, s, request, acquisition)
    ensures ReadFailed(r).decision == r.decision
  {
    ReadFailedKept(r);
  }

  /** A chunk of the channel, or its end-of-file after the last writer closed. */
  lemma AcceptKeepsLog(r: Relay, chunk: bytes, events: seq<Event>, s: Phase, request: Option<Request>,
                       acquisition: Option<Acquisition>)
    requires LogInv(Some(r), events, s, request, acquisition)
    requires if chunk == [] then s.Rank() >= 3 else Acquired(acquisition) && !r.endOfFile
    ensures LogInv(Some(Accepted(r, chunk)), events, s, request, acquisition)
    ensures Accepted(r, chunk).decision == r.decision
    ensures Accepted(r, chunk).channel == r.channel + chunk
  {
    InspectRelay(r);
    AcceptKeeps(r, chunk);
    assert chunk == [] ==> r.channel + chunk == r.channel;
    AcceptedPhase(r, chunk);
  }

  lemma AcceptedPhase(r: Relay, chunk: bytes)
    ensures chunk != [] ==> Accepted(r, chunk).finalPhase == r.finalPhase
  {
  }

  /** _log_disposal on the relay: the final extent, or a cut. */
  function Disposed(r: Relay, confirmed: bool): Relay {
    if !confirmed then WasCut(r) else if r.disposalConfirmed then r else DisposalConfirmed(r)
  }

  lemma CutKept(r: Relay)
    requires RelayKept(r) && r.decision.None?
    ensures RelayKept(WasCut(r))
  {
    InspectRelay(r);
  }

  lemma ConfirmedKept(r: Relay)
    requires RelayKept(r) && r.decision.None?
    ensures RelayKept(DisposalConfirmed(r))
  {
    InspectRelay(r);
  }

  /** Disposal, confirmed or not, before a decision. */
  lemma DisposalKeepsLog(r: Relay, confirmed: bool, events: seq<Event>, s: Phase, request: Option<Request>,
                         acquisition: Option<Acquisition>)
    requires LogInv(Some(r), events, s, request, acquisition) && r.decision.None? && s.Rank() >= 3
    ensures LogInv(Some(Disposed(r, confirmed)), events, s, request, acquisition)
    ensures Disposed(r, confirmed).decision.None?
  {
    CutKept(r);
    ConfirmedKept(r);
  }

  /** A decision at a deadline, or without a child. */
  lemma DecisionKeeps(c: Codec, output: Output, events: seq<Event>, order: Order, s: Phase,
                      request: Option<Request>, acquisition: Option<Acquisition>, r: Relay, announced: bool,
                      deadline: bool)
    requires Owners(c, output, events, order, s, request, acquisition, Some(r), announced)
    requires s.Rank() >= 3 && (Acquired(acquisition) ==> deadline)
    ensures
      var d := Decided(r, deadline, deadline);
      && Owners(c, output, events, order, s, request, acquisition, Some(d), announced)
      && d.decision.Some? && (r.decision.Some? ==> d.decision == r.decision)
  {
    assert Inspected(OfOwners, 0);
    DecideKeepsLog(r, deadline, deadline, events, s, request, acquisition);
  }

  lemma CloseKeeps(c: Codec, output: Output, events: seq<Event>, order: Order, s: Phase,
                   request: Option<Request>, acquisition: Option<Acquisition>, r: Relay, announced: bool,
                   open: bool)
    requires Owners(c, output, events, order, s, request, acquisition, Some(r), announced)
    ensures Owners(c, output, events, order, s, request, acquisition,
                   Some(r.(readerOpen := open, writerOpen := open)), announced)
  {
    assert Inspected(OfOwners, 0);
  }

  lemma ReadFailedKeeps(c: Codec, output: Output, events: seq<Event>, order: Order, s: Phase,
                        request: Option<Request>, acquisition: Option<Acquisition>, r: Relay, announced: bool)
    requires Owners(c, output, events, order, s, request, acquisition, Some(r), announced)
    ensures Owners(c, output, events, order, s, request, acquisition, Some(ReadFailed(r)), announced)
    ensures ReadFailed(r).decision == r.decision
  {
    assert Inspected(OfOwners, 0);
    ReadFailedKeepsLog(r, events, s, request, acquisition);
  }

  lemma AcceptKeepsOwners(c: Codec, output: Output, events: seq<Event>, order: Order, s: Phase,
                          request: Option<Request>, acquisition: Option<Acquisition>, r: Relay,
                          announced: bool, chunk: bytes)
    requires Owners(c, output, events, order, s, request, acquisition, Some(r), announced)
    requires if chunk == [] then s.Rank() >= 3 else Acquired(acquisition) && !r.endOfFile
    ensures Owners(c, output, events, order, s, request, acquisition, Some(Accepted(r, chunk)), announced)
    ensures Accepted(r, chunk).decision == r.decision
    ensures Accepted(r, chunk).channel == r.channel + chunk
  {
    assert Inspected(OfOwners, 0);
    AcceptKeepsLog(r, chunk, events, s, request, acquisition);
  }

  lemma DisposalKeeps(c: Codec, output: Output, events: seq<Event>, order: Order, s: Phase,
                      request: Option<Request>, acquisition: Option<Acquisition>, r: Relay, announced: bool,
                      confirmed: bool)
    requires Owners(c, output, events, order, s, request, acquisition, Some(r), announced)
    requires r.decision.None? && s.Rank() >= 3
    ensures Owners(c, output, events, order, s, request, acquisition,
                   Some(Disposed(r, confirmed)), announced)
    ensures Disposed(r, confirmed).decision.None?
  {
    assert Inspected(OfOwners, 0);
    DisposalKeepsLog(r, confirmed, events, s, request, acquisition);
  }

  lemma BufferedMeansAcquired(r: Relay, events: seq<Event>, s: Phase, request: Option<Request>,
                              acquisition: Option<Acquisition>)
    requires LogInv(Some(r), events, s, request, acquisition)
    ensures r.buffer != [] ==> Acquired(acquisition) && UsesLog(request)
  {
    InspectRelay(r);
    if r.buffer != [] {
      assert |Flatten(r.buffer)| >= |r.buffer[0]| > 0;
      assert |r.channel| > 0;
    }
  }

  /** An attempt never entered is not unsettled. */
  lemma UnenteredIsSettled(c: Codec, output: Output, events: seq<Event>, order: Order, s: Phase,
                           request: Option<Request>, relay: Option<Relay>, announced: bool)
    requires Owners(c, output, events, order, s, request, None, relay, announced)
    ensures s.Current().Some? ==> !s.Current().value.Unsettled()
  {
    assert Inspected(OfOwners, 0);
  }

  /** Without its channel, a session that asked for the log acquired nothing. */
  lemma NoChannelNoChild(c: Codec, output: Output, events: seq<Event>, order: Order, s: Phase,
                         request: Option<Request>, acquisition: Option<Acquisition>, announced: bool)
    requires Owners(c, output, events, order, s, request, acquisition, None, announced) && UsesLog(request)
    ensures acquisition.None?
  {
    assert Inspected(OfOwners, 0);
  }

  lemma RecordStays(s: Phase, t: Phase)
    requires LifeLater(s, t)
    ensures Failed(s) ==> Failed(t)
  {
    assert Inspected(OfLife, 0);
  }

  /** A residual joined to a list of others. */
  function WithResidual(all: seq<Residual>, present: bool, r: Residual): seq<Residual> {
    if present then all + [r] else all
  }

  lemma WithResidualKeeps(all: seq<Residual>, present: bool, r: Residual)
    requires Distinct(all) && r !in all
    ensures Distinct(WithResidual(all, present, r))
    ensures forall x: Residual :: x in WithResidual(all, present, r) <==> x in all || (present && x == r)
  {
  }

  /** The residuals of a report, in the order the source lists them. */
  function Residuals(producer: bool, group: bool, relays: bool, lease: bool, work: bool, metadata: bool)
    : seq<Residual>
  {
    var child := ChildResidualList(producer, group, relays, lease);
    WithResidual(WithResidual(child, work, ResidualWorkspace), metadata, ResidualMetadata)
  }

  /** Those of the child. */
  function ChildResidualList(producer: bool, group: bool, relays: bool, lease: bool): seq<Residual> {
    var a := WithResidual([], producer, ResidualProducer);
    var b := WithResidual(a, group, ResidualGroup);
    WithResidual(WithResidual(b, relays, ResidualRelays), lease, ResidualAddressLease)
  }

  lemma ChildResidualsListed(producer: bool, group: bool, relays: bool, lease: bool)
    ensures
      var all := ChildResidualList(producer, group, relays, lease);
      && Distinct(all)
      && (ResidualProducer in all <==> producer)
      && (ResidualGroup in all <==> group)
      && (ResidualRelays in all <==> relays)
      && (ResidualAddressLease in all <==> lease)
      && ResidualWorkspace !in all && ResidualMetadata !in all
  {
    var a := WithResidual([], producer, ResidualProducer);
    WithResidualKeeps([], producer, ResidualProducer);
    var b := WithResidual(a, group, ResidualGroup);
    WithResidualKeeps(a, group, ResidualGroup);
    var c := WithResidual(b, relays, ResidualRelays);
    WithResidualKeeps(b, relays, ResidualRelays);
    WithResidualKeeps(c, lease, ResidualAddressLease);
  }

  lemma ResidualsListed(producer: bool, group: bool, relays: bool, lease: bool, work: bool, metadata: bool)
    ensures
      var all := Residuals(producer, group, relays, lease, work, metadata);
      && Distinct(all)
      && (ResidualProducer in all <==> producer)
      && (ResidualGroup in all <==> group)
      && (ResidualRelays in all <==> relays)
      && (ResidualAddressLease in all <==> lease)
      && (ResidualWorkspace in all <==> work)
      && (ResidualMetadata in all <==> metadata)
  {
    var d := ChildResidualList(producer, group, relays, lease);
    ChildResidualsListed(producer, group, relays, lease);
    var e := WithResidual(d, work, ResidualWorkspace);
    WithResidualKeeps(d, work, ResidualWorkspace);
    WithResidualKeeps(e, metadata, ResidualMetadata);
  }

  /** The report that goes with the residuals: its two statuses follow from them. */
  function ReportOf(residuals: seq<Residual>, childAcquired: bool): CleanupReport {
    CleanupReport(
      if ResidualProducer in residuals || ResidualGroup in residuals || ResidualRelays in residuals
         || ResidualAddressLease in residuals then ChildUnconfirmed
      else if childAcquired then ChildConfirmed else ChildNotAcquired,
      if ResidualWorkspace in residuals || ResidualMetadata in residuals then WorkspaceUnconfirmed
      else WorkspaceConfirmed,
      residuals)
  }

  /** The report's constructor accepts it exactly when an unconfirmed child kept its workspace. */
  lemma ReportIsValid(producer: bool, group: bool, relays: bool, lease: bool, work: bool, metadata: bool,
                      childAcquired: bool)
    ensures
      var report := ReportOf(Residuals(producer, group, relays, lease, work, metadata), childAcquired);
      && (report.child == ChildUnconfirmed <==> producer || group || relays || lease)
      && (report.workspace == WorkspaceUnconfirmed <==> work || metadata)
      && (report.Valid() <==> (producer || group || relays || lease ==> work || metadata))
  {
    var all := Residuals(producer, group, relays, lease, work, metadata);
    ResidualsListed(producer, group, relays, lease, work, metadata);
    var set_ := Elements(all);
    assert forall x: Residual :: x in set_ <==> x in all;
    assert producer ==> ResidualProducer in set_ - WORKSPACE_RESIDUALS;
    assert group ==> ResidualGroup in set_ - WORKSPACE_RESIDUALS;
    assert relays ==> ResidualRelays in set_ - WORKSPACE_RESIDUALS;
    assert lease ==> ResidualAddressLease in set_ - WORKSPACE_RESIDUALS;
    assert work ==> ResidualWorkspace in set_ * WORKSPACE_RESIDUALS;
    assert metadata ==> ResidualMetadata in set_ * WORKSPACE_RESIDUALS;
  }

  /** _log_report: null exactly when START did not request the log channel. */
  function LogReportFor(request: Option<Request>, relay: Option<Relay>, cleanup: CleanupReport): Option<LogReport> {
    if !UsesLog(request) then None
    else if relay.None? then Some(LogReport(0, true, None))
    else Some(Reported(relay.value, cleanup.child != ChildUnconfirmed))
  }

  /** A signal or a lost lease: captured when it happens, accounted once. */
  datatype Notice = Absent | Pending | Noticed

  function Raised(n: Notice, now: bool): Notice {
    if n.Absent? && now then Pending else n
  }

  function Noted(n: Notice): Notice {
    if n.Pending? then Noticed else n
  }

  /**
   * The exits the lifecycle was told of, each with whether the session, already
   * ending, had asked for it: the first is the child's result, and each status
   * is one that somebody reported.
   */
  ghost predicate ToldOf(s: Phase, told: seq<ChildResult>, statuses: iset<int>) {
    forall k: int {:trigger Inspected(OfExit, k)} :: Inspected(OfExit, k) ==>
      FirstExit(s, told) && forall r | r in told :: r.returncode in statuses
  }

  predicate FirstExit(s: Phase, told: seq<ChildResult>) {
    && s.Result() == (if told == [] then None else Some(told[0]))
    && (told == [] && s.Current().Some? && s.Current().value.Unsettled() ==> !s.Current().value.terminationRequested)
  }

  lemma ExitedOpen(s: Phase, told: seq<ChildResult>, statuses: iset<int>)
    requires ToldOf(s, told, statuses)
    ensures s.Result() == if told == [] then None else Some(told[0])
    ensures forall r | r in told :: r.returncode in statuses
  {
    assert Inspected(OfExit, 0);
  }

  /** Only an exit changes the child's result. */
  lemma ExitedStays(s: Phase, call: Call, told: seq<ChildResult>, statuses: iset<int>, c: Codec, output: Output,
                    events: seq<Event>, order: Order, request: Option<Request>, acquisition: Option<Acquisition>,
                    relay: Option<Relay>, announced: bool)
    requires Owners(c, output, events, order, s, request, acquisition, relay, announced)
    requires ToldOf(s, told, statuses) && !call.ObserveChildExit? && !call.RecordChildTermination?
    ensures ToldOf(Next(s, call).phase, told, statuses)
  {
    assert Inspected(OfOwners, 0) && Inspected(OfExit, 0);
    assert FirstExit(Next(s, call).phase, told);
  }

  lemma ExitedFailing(s: Phase, t: Phase, told: seq<ChildResult>, statuses: iset<int>)
    requires ToldOf(s, told, statuses) && t.Current() == s.Current()
    ensures ToldOf(t, told, statuses)
  {
    assert Inspected(OfExit, 0);
  }

  /** What is asked for while ending is noted, and nothing else changes. */
  lemma NotedPhase(s: Phase, requested: bool)
    requires PhaseInv(s) && !s.Closed? && s.Current().Some? && s.Current().value.Unsettled()
    ensures
      var t := if requested then Next(s, RecordChildTermination).phase else s;
      && PhaseInv(t) && t.Result() == s.Result() && t.Reason() == s.Reason() && t.Rank() == s.Rank()
      && t.Current().Some? && t.Current().value.Unsettled()
      && (t.Starting? ==> s.Starting? && t.attempt == s.attempt && t.request == s.request)
      && (s.Result().None? ==>
            (t.Current().value.terminationRequested <==>
               s.Current().value.terminationRequested || (requested && s.Terminating?)))
  {
    StepFacts(s, RecordChildTermination);
  }

  /** An exit is the result unless there is one, and ends what went on. */
  lemma ExitPhase(s: Phase, returncode: int)
    requires PhaseInv(s) && !s.Closed? && s.Current().Some? && s.Current().value.Unsettled()
    ensures
      var t := ExitRecorded(s, false, returncode);
      && t.Current().Some? && t.Current().value.Unsettled()
      && t.Result() == (if s.Result().Some? then s.Result()
                        else Some(ChildResult(returncode, s.Current().value.terminationRequested)))
      && (s.Active? ==> EndedBy(s, t, ChildExit))
      && (s.Starting? && s.attempt.Owned? && s.Result().None? ==> EndedBy(s, t, StartupFailure))
  {
    StepFacts(s, ObserveChildExit(returncode));
  }

  /** An exit of the child, told to the lifecycle. */
  lemma ExitTold(s: Phase, requested: bool, returncode: int, told: seq<ChildResult>, statuses: iset<int>)
    requires ToldOf(s, told, statuses) && PhaseInv(s) && !s.Closed? && returncode in statuses
    requires s.Current().Some? && s.Current().value.Unsettled()
    ensures
      var t := ExitRecorded(s, requested, returncode);
      && ToldOf(t, told + [ChildResult(returncode, requested && s.Terminating?)], statuses)
      && t.Current().Some? && t.Current().value.Unsettled()
      && (s.Active? ==> EndedBy(s, t, ChildExit))
      && (s.Starting? && s.attempt.Owned? && s.Result().None? ==> EndedBy(s, t, StartupFailure))
  {
    assert Inspected(OfExit, 0);
    var noted := if requested then Next(s, RecordChildTermination).phase else s;
    NotedPhase(s, requested);
    ExitPhase(noted, returncode);
    var t := ExitRecorded(noted, false, returncode);
    assert ExitRecorded(s, requested, returncode) == t;
    var all := told + [ChildResult(returncode, requested && s.Terminating?)];
    assert told != [] ==> all[0] == told[0];
    assert FirstExit(t, all);
  }

  const LEASE_LOSS := Fault(ControllerLeaseLost)

  /**
   * The session against its control input: the lease was noticed lost exactly
   * when the observer lost it, that is on record exactly when it was accounted,
   * and a request that was handled is the one START carried.
   */
  ghost predicate Heeds(input: Input<Request>, s: Phase, request: Option<Request>, loss: Notice, control: Control) {
    && ControlInv(input.Decoders(), control)
    && (loss.Absent? <==> !Lost(input.Decoders(), control))
    && (loss.Noticed? <==> LEASE_LOSS in s.Recorded())
    && (request.Some? ==> Started(input, control) == request)
  }

  /** The same, behind Inspected. */
  ghost predicate Heeded(input: Input<Request>, s: Phase, request: Option<Request>, loss: Notice, control: Control) {
    forall k: int {:trigger Inspected(OfInput, k)} :: Inspected(OfInput, k) ==> Heeds(input, s, request, loss, control)
  }

  lemma HeedsOpen(input: Input<Request>, s: Phase, request: Option<Request>, loss: Notice, control: Control)
    requires Heeded(input, s, request, loss, control)
    ensures Heeds(input, s, request, loss, control)
  {
    assert Inspected(OfInput, 0);
  }

  lemma HeedsNothing(input: Input<Request>)
    ensures Heeded(input, Created, None, Absent, NewControl())
  {
  }

  /** Terminating records its own failure and nothing else. */
  lemma TerminatedRecord(s: Phase, trigger: Trigger, failure: Option<Diagnostic>)
    requires failure != Some(LEASE_LOSS)
    ensures LEASE_LOSS in Terminated(s, trigger, failure).phase.Recorded() <==> LEASE_LOSS in s.Recorded()
  {
  }

  lemma AdoptedRecord(s: Phase)
    ensures LEASE_LOSS in Adopted(s).phase.Recorded() <==> LEASE_LOSS in s.Recorded()
  {
    if s.Starting? && s.attempt.Producing? {
      TerminatedRecord(Starting(s.request, Owned(s.attempt.terminationRequested, s.attempt.childResult), s.evidence),
                       ChildExit, None);
    }
  }

  lemma ExitedRecord(s: Phase, returncode: int)
    ensures LEASE_LOSS in ChildExited(s, returncode).phase.Recorded() <==> LEASE_LOSS in s.Recorded()
  {
    if s.Active? && s.attempt.Owned? {
      var result := ChildResult(returncode, s.attempt.terminationRequested);
      TerminatedRecord(Active(s.request, WithResult(s.attempt, result)), ChildExit, None);
    } else if s.Terminating? {
      assert ChildExited(s, returncode).phase.Recorded() == s.Recorded();
    }
  }

  /** So does every other lifecycle call. */
  lemma NextRecord(s: Phase, c: Call)
    requires c.Terminate? ==> c.failure != Some(LEASE_LOSS)
    ensures LEASE_LOSS in Next(s, c).phase.Recorded() <==> LEASE_LOSS in s.Recorded()
  {
    if c.Terminate? {
      TerminatedRecord(s, c.trigger, c.failure);
    } else if c.EnterAttempt? || c.Ready? {
      AdmissionRecord(s, c);
    } else if c.AdoptAttempt? {
      AdoptedRecord(s);
    } else if c.ObserveChildExit? {
      ExitedRecord(s, c.returncode);
    }
  }

  lemma AdmissionRecord(s: Phase, c: Call)
    requires c.EnterAttempt? || c.Ready?
    ensures LEASE_LOSS in Next(s, c).phase.Recorded() <==> LEASE_LOSS in s.Recorded()
  {
    TerminatedRecord(s, OutputFailure, Some(if c.Ready? then READY_ADMISSION else ATTEMPT_ADMISSION));
  }

  /** No lifecycle call but the accounting of the loss itself puts it on record. */
  lemma HeedsCall(input: Input<Request>, s: Phase, c: Call, request: Option<Request>, loss: Notice, control: Control)
    requires Heeded(input, s, request, loss, control) && (c.Terminate? ==> c.failure != Some(LEASE_LOSS))
    ensures Heeded(input, Next(s, c).phase, request, loss, control)
  {
    HeedsOpen(input, s, request, loss, control);
    NextRecord(s, c);
  }

  lemma HeedsFail(input: Input<Request>, s: Phase, trigger: Trigger, code: Code, request: Option<Request>, loss: Notice,
                  control: Control)
    requires Heeded(input, s, request, loss, control) && !code.ControllerLeaseLost?
    ensures Heeded(input, Terminated(s, trigger, Some(Fault(code))).phase, request, loss, control)
  {
    HeedsCall(input, s, Terminate(trigger, Some(Fault(code))), request, loss, control);
  }

  lemma HeedsExit(input: Input<Request>, s: Phase, requested: bool, returncode: int, request: Option<Request>,
                  loss: Notice, control: Control)
    requires Heeded(input, s, request, loss, control)
    ensures Heeded(input, ExitRecorded(s, requested, returncode), request, loss, control)
  {
    HeedsCall(input, s, RecordChildTermination, request, loss, control);
    var noted := if requested then Next(s, RecordChildTermination).phase else s;
    HeedsCall(input, noted, ObserveChildExit(returncode), request, loss, control);
    HeedsCall(input, Next(noted, ObserveChildExit(returncode)).phase,
              Terminate(StartupFailure, Some(Fault(StartupExit))), request, loss, control);
  }

  /** A pending loss is accounted. */
  lemma HeedsLoss(input: Input<Request>, s: Phase, request: Option<Request>, control: Control)
    requires Heeded(input, s, request, Pending, control)
    ensures Heeded(input, Terminated(s, ControllerEof, Some(LEASE_LOSS)).phase, request, Noticed, control)
  {
    HeedsOpen(input, s, request, Pending, control);
    LossRecorded(s);
  }

  lemma LossRecorded(s: Phase)
    ensures LEASE_LOSS in Terminated(s, ControllerEof, Some(LEASE_LOSS)).phase.Recorded()
  {
    var t := Terminated(s, ControllerEof, Some(LEASE_LOSS)).phase;
    assert |t.Recorded()| > 0;
    assert t.Recorded()[0] == LEASE_LOSS || t.Recorded()[|t.Recorded()| - 1] == LEASE_LOSS;
  }

  /** One more read of the control input. */
  lemma HeedsRead(input: Input<Request>, s: Phase, request: Option<Request>, loss: Notice, control: Control,
                  chunk: bytes)
    requires Heeded(input, s, request, loss, control)
    ensures
      var next := Read(input.Decoders(), control, chunk);
      Heeded(input, s, request, Raised(loss, Lost(input.Decoders(), next)), next)
  {
    HeedsOpen(input, s, request, loss, control);
    ReadKeeps(input, control, chunk);
  }

  /** START handled: the request it carried. */
  lemma HeedsStart(input: Input<Request>, start: Request, loss: Notice, control: Control)
    requires Heeded(input, Created, None, loss, control) && Started(input, control) == Some(start)
    ensures Heeded(input, Starting(start.startup, Authorized, {}), Some(start), loss, control)
  {
    HeedsOpen(input, Created, None, loss, control);
  }

  /**
   * Freezing, exactly. After a coordinator that returned, with a valid report
   * whose unconfirmed disposals are on record, freeze refuses the snapshot if
   * and only if START asked for the log, its channel never existed, and the
   * child side (then only the address lease) is unconfirmed.
   */
  lemma FreezeExactly(c: Codec, output: Output, events: seq<Event>, order: Order, s: Phase,
                      request: Option<Request>, acquisition: Option<Acquisition>, relay: Option<Relay>,
                      report: CleanupReport)
    requires Owners(c, output, events, order, s, request, acquisition, relay, true) && s.Terminating?
    requires relay.Some? ==> relay.value.decision.Some?
    requires report.Valid() && (!report.IsConfirmed() ==> Failed(s))
    requires report.child == ChildNotAcquired ==> !Acquired(acquisition)
    requires s.held.Some? && s.held.value.Unsettled() ==> report.child == ChildUnconfirmed
    ensures Freezable(s, report, LogReportFor(request, relay, report)) <==>
            !(UsesLog(request) && relay.None? && report.child == ChildUnconfirmed)
    ensures
      var snapshot := TerminalSnapshot(s.outcome, report, LogReportFor(request, relay, report));
      Freezable(s, report, LogReportFor(request, relay, report)) ==> snapshot.Valid() && CodesPresent(snapshot)
  {
    assert Inspected(OfOwners, 0) && Inspected(OfRecord, 0);
    var log := LogReportFor(request, relay, report);
    if relay.Some? {
      InspectRelay(relay.value);
    }
    var o := s.outcome;
    assert o.primary.Some? ==> s.Recorded()[0] == o.primary.value;
    forall d | d in o.diagnostics
      ensures CodePresent(d)
    {
      var i :| 0 <= i < |o.diagnostics| && o.diagnostics[i] == d;
      assert s.Recorded()[(if o.primary.Some? then 1 else 0) + i] == d;
    }
  }

  /** A codec that knows one event. */
  function OnlyEvent(e: Event): Codec {
    Codec((x: Event) => if x == e then Some([LF]) else None, (f: bytes) => if f == [LF] then Some(e) else None)
  }

  /** The call sequence of a session whose startup failed and whose address lease did not close. */
  function FailedStart(startup: StartupRequest): seq<Call> {
    [Start(startup),
     Terminate(StartupFailure, Some(Fault(StartupError))),
     Terminate(HelperFailure, Some(Fault(CleanupError)))]
  }

  lemma FailedStartRuns(startup: StartupRequest)
    ensures Run(Created, FailedStart(startup)) ==
            Terminating(Some(Authorized),
                        Outcome(StartupFailure, Some(Fault(StartupError)), [Fault(CleanupError)], None))
  {
    var calls := FailedStart(startup);
    var a := Next(Created, calls[0]).phase;
    var b := Next(a, calls[1..][0]).phase;
    assert calls[1..][1..] == [calls[2]];
    assert Run(b, [calls[2]]) == Run(Next(b, calls[2]).phase, [calls[2]][1..]);
    assert [] + [Fault(CleanupError)] == [Fault(CleanupError)];
  }

  /**
   * A session that freeze refuses: START asked for the log, startup failed
   * before the log channel existed, and the address lease stayed open.
   */
  lemma FreezeCanBeRefused(created: Event, startup: StartupRequest)
    requires created.SessionCreated? && ValidEvent(created)
    ensures
      var c := OnlyEvent(created);
      var request := Some(Request(startup, true));
      var output := Enqueued(NewOutput(), [LF], false);
      var order := NewOrder(startup.policy, true).(created := true);
      var s := Run(Created, FailedStart(startup));
      var report := ReportOf(Residuals(false, false, false, true, true, true), false);
      && c.Sound()
      && Emitted(c, NewOutput(), created, false) == output && output.Some?
      && Owners(c, output.value, [created], order, s, request, None, None, true)
      && s.Terminating? && Failed(s)
      && report.Valid() && report.child == ChildUnconfirmed
      && !Freezable(s, report, LogReportFor(request, None, report))
  {
    OnlyEventIsSound(created);
    FirstIsPublished(created, startup.policy, true);
    FailedStartRuns(startup);
    FailedStartIsOwned(created, startup, Enqueued(NewOutput(), [LF], false).value);
    ReportIsValid(false, false, false, true, true, true, false);
    var s := Run(Created, FailedStart(startup));
    assert s.Recorded() == [Fault(StartupError), Fault(CleanupError)];
  }

  /** The failed start, with its announcement published. */
  lemma FailedStartIsOwned(created: Event, startup: StartupRequest, output: Output)
    requires created.SessionCreated?
    requires Published(OnlyEvent(created), output, [created], NewOrder(startup.policy, true).(created := true))
    ensures Owners(OnlyEvent(created), output, [created], NewOrder(startup.policy, true).(created := true),
                   Run(Created, FailedStart(startup)), Some(Request(startup, true)), None, None, true)
  {
    FailedStartRuns(startup);
    var s := Run(Created, FailedStart(startup));
    var order := NewOrder(startup.policy, true).(created := true);
    var request := Some(Request(startup, true));
    FailedStartLife(startup);
    assert LogOf([created]) == [] by {
      LogOfSnoc([], created);
      assert [] + [created] == [created];
    }
    assert LogInv(None, [created], s, request, None);
    assert OrderInv(order, [created], s, request, None, true);
    assert Agree(OnlyEvent(created), output, [created], order, s, request, None, None, true);
  }

  lemma FailedStartLife(startup: StartupRequest)
    ensures LifeInv(Run(Created, FailedStart(startup)), Some(Request(startup, true)), None)
  {
    FailedStartRuns(startup);
    var s := Run(Created, FailedStart(startup));
    assert s.Recorded() == [Fault(StartupError)] + [Fault(CleanupError)];
    assert CodePresent(Fault(StartupError)) && CodePresent(Fault(CleanupError));
  }

  lemma OnlyEventIsSound(e: Event)
    ensures OnlyEvent(e).Sound()
  {
    assert Framing.FindLF([LF]) == 0;
  }

  /** One announcement, admitted by a new writer. */
  lemma FirstIsPublished(created: Event, policy: CompletionPolicy, logRequested: bool)
    requires created.SessionCreated? && ValidEvent(created)
    ensures
      var c := OnlyEvent(created);
      var output := Emitted(c, NewOutput(), created, false);
      output.Some? &&
      Published(c, output.value, [created], NewOrder(policy, logRequested).(created := true))
  {
    var c := OnlyEvent(created);
    OnlyEventIsSound(created);
    var start := NewOrder(policy, logRequested);
    assert Frames(c, []) == [];
    assert Published(c, NewOutput(), [], start) by {
      assert OutputInv(NewOutput());
    }
    EmitPublishes(c, NewOutput(), [], start, created, false);
    assert [] + [created] == [created];
  }

  /** The reader accepts the terminal snapshot of a helper that handled START. */
  lemma TerminalAccepted(c: Codec, output: Output, events: seq<Event>, order: Order, s: Phase,
                         request: Option<Request>, acquisition: Option<Acquisition>, relay: Option<Relay>,
                         snapshot: TerminalSnapshot)
    requires Owners(c, output, events, order, s, request, acquisition, relay, true) && s.Terminating?
    requires relay.Some? ==> relay.value.decision.Some?
    requires snapshot.Valid() && CodesPresent(snapshot)
    requires snapshot.outcome == s.outcome
    requires snapshot.log == LogReportFor(request, relay, snapshot.cleanup)
    requires snapshot.cleanup.workspace != WorkspaceNotCreated
    requires snapshot.cleanup.child == ChildNotAcquired ==> !Acquired(acquisition)
    ensures Published(c, output, events, order)
    ensures Advance(order, SessionEnded(snapshot)) == Some(order.(ended := true))
  {
    assert Inspected(OfOwners, 0) && Inspected(OfStream, 0);
    if relay.Some? {
      InspectRelay(relay.value);
    }
  }

  /** A decided log is truthful: it counts the bytes admitted, and complete means everything was. */
  ghost predicate LogTrue(relay: Option<Relay>, events: seq<Event>, acquired: bool) {
    if relay.None? then LogOf(events) == []
    else
      && relay.value.decision.Some?
      && relay.value.sent == LogOf(events)
      && relay.value.decision.value.byteCount == |LogOf(events)|
      && CompleteIsWhole(relay.value, acquired)
  }

  /** What the report of a true log says: the bytes admitted, and a complete one that they are the channel. */
  lemma ReportMeans(relay: Option<Relay>, events: seq<Event>, request: Option<Request>, acquired: bool,
                    cleanup: CleanupReport)
    requires LogTrue(relay, events, acquired)
    ensures
      var log := LogReportFor(request, relay, cleanup);
      log.Some? ==>
        && log.value.byteCount == |LogOf(events)|
        && (log.value.complete && relay.Some? ==>
              && relay.value.channel == LogOf(events)
              && (acquired ==> relay.value.endOfFile && relay.value.disposalConfirmed))
  {
  }

  lemma LogIsTrue(c: Codec, output: Output, events: seq<Event>, order: Order, s: Phase, request: Option<Request>,
                  acquisition: Option<Acquisition>, relay: Option<Relay>, snapshot: TerminalSnapshot)
    requires Owners(c, output, events, order, s, request, acquisition, relay, true)
    requires relay.Some? ==> relay.value.decision.Some?
    ensures LogTrue(relay, events, Acquired(acquisition))
    ensures LogTrue(relay, events + [SessionEnded(snapshot)], Acquired(acquisition))
  {
    assert Inspected(OfOwners, 0);
    LogOfSnoc(events, SessionEnded(snapshot));
    assert LogOf(events) + [] == LogOf(events);
    if relay.Some? {
      InspectRelay(relay.value);
    }
  }

  /** An encodable stream the reader accepts under the request that was handled; behind Inspected. */
  ghost predicate Acceptable(c: Codec, output: Output, events: seq<Event>, request: Option<Request>) {
    forall k: int {:trigger Inspected(OfWire, k)} :: Inspected(OfWire, k) ==>
      && c.Encodes(events) && output.history == Frames(c, events) && OutputInv(output)
      && AcceptAll(NewOrder(PolicyOf(request), UsesLog(request)), events).Some?
      && (request.None? ==> !HasAttempt(events))
  }

  /** Before its terminal, a session's stream is acceptable and open. */
  lemma OpenStream(c: Codec, output: Output, events: seq<Event>, order: Order, s: Phase, request: Option<Request>,
                   acquisition: Option<Acquisition>, relay: Option<Relay>)
    requires Owners(c, output, events, order, s, request, acquisition, relay, true)
    ensures Acceptable(c, output, events, request) && !HasEnd(events)
  {
    assert Inspected(OfOwners, 0) && Inspected(OfStream, 0) && Inspected(OfOutput, 0);
    AcceptsExactlyHistories(order.policy, order.logRequested, events);
  }

  /** The terminal snapshot admitted, or refused: either way the stream is acceptable. */
  lemma EndAdmitted(c: SoundCodec, output: Output, events: seq<Event>, order: Order, s: Phase,
                    request: Option<Request>, acquisition: Option<Acquisition>, relay: Option<Relay>,
                    snapshot: TerminalSnapshot)
    requires Owners(c, output, events, order, s, request, acquisition, relay, true) && s.Terminating?
    requires relay.Some? ==> relay.value.decision.Some?
    requires snapshot.Valid() && CodesPresent(snapshot) && snapshot.outcome == s.outcome
    requires snapshot.log == LogReportFor(request, relay, snapshot.cleanup)
    requires snapshot.cleanup.workspace != WorkspaceNotCreated
    requires snapshot.cleanup.child == ChildNotAcquired ==> !Acquired(acquisition)
    ensures
      var next := Emitted(c, output, SessionEnded(snapshot), false);
      next.Some? ==> Acceptable(c, next.value, events + [SessionEnded(snapshot)], request)
  {
    TerminalAccepted(c, output, events, order, s, request, acquisition, relay, snapshot);
    var e := SessionEnded(snapshot);
    var next := Emitted(c, output, e, false);
    if next.Some? {
      EmitPublishes(c, output, events, order, e, false);
      assert Inspected(OfOwners, 0) && Inspected(OfStream, 0) && Inspected(OfOutput, 0);
      assert forall x | x in events + [e] :: x in events || x == e;
    }
  }

  /** The writer drains an acceptable stream: the same stream, and whole on the wire if nothing is left. */
  lemma DrainKeeps(c: Codec, output: Output, events: seq<Event>, request: Option<Request>, writes: seq<WriteResult>)
    requires Acceptable(c, output, events, request)
    ensures
      var ran := RunWriter(output, writes);
      && Acceptable(c, ran, events, request)
      && (ran.empty && !ran.failed ==> ran.wire == Flatten(ran.history))
  {
    assert Inspected(OfWire, 0);
    RunKeeps(output, writes);
    if RunWriter(output, writes).empty && !RunWriter(output, writes).failed {
      DrainedIsWhole(RunWriter(output, writes));
    }
  }

  /**
   * The end of a session: its terminal refused, which leaves the stream open,
   * or admitted and drained as far as the writes went.
   */
  lemma SessionEnds(c: SoundCodec, output: Output, events: seq<Event>, order: Order, s: Phase,
                    request: Option<Request>, acquisition: Option<Acquisition>, relay: Option<Relay>,
                    snapshot: TerminalSnapshot, writes: seq<WriteResult>)
    requires Owners(c, output, events, order, s, request, acquisition, relay, true) && s.Terminating?
    requires relay.Some? ==> relay.value.decision.Some?
    requires snapshot.Valid() && CodesPresent(snapshot) && snapshot.outcome == s.outcome
    requires snapshot.log == LogReportFor(request, relay, snapshot.cleanup)
    requires snapshot.cleanup.workspace != WorkspaceNotCreated
    requires snapshot.cleanup.child == ChildNotAcquired ==> !Acquired(acquisition)
    ensures
      var e := SessionEnded(snapshot);
      var next := Emitted(c, output, e, false);
      if next.None? then
        && Acceptable(c, output, events, request) && !HasEnd(events)
        && LogTrue(relay, events, Acquired(acquisition))
      else
        var ran := RunWriter(next.value, writes);
        && Acceptable(c, ran, events + [e], request)
        && LogTrue(relay, events + [e], Acquired(acquisition))
        && (ran.empty && !ran.failed ==> ran.wire == Flatten(ran.history))
  {
    LogIsTrue(c, output, events, order, s, request, acquisition, relay, snapshot);
    OpenStream(c, output, events, order, s, request, acquisition, relay);
    EndAdmitted(c, output, events, order, s, request, acquisition, relay, snapshot);
    var next := Emitted(c, output, SessionEnded(snapshot), false);
    if next.Some? {
      DrainKeeps(c, next.value, events + [SessionEnded(snapshot)], request, writes);
    }
  }

  /** The parts of a session that no later step undoes. */
  datatype Trace = Trace(
    events: seq<Event>,
    request: Option<Request>,
    decision: Option<LogReport>,
    lifecycle: Phase)

  ghost predicate Extended(a: Trace, b: Trace) {
    && a.events <= b.events
    && (a.lifecycle.Rank() > 0 ==> b.request == a.request)
    && (a.events == [] && b.events != [] ==> !b.events[0].SessionCreated?)
    && (a.decision.Some? ==> b.decision == a.decision)
    && LifeLater(a.lifecycle, b.lifecycle)
  }

  ghost predicate Later(a: Trace, b: Trace) {
    forall k: int {:trigger Inspected(OfLater, k)} :: Inspected(OfLater, k) ==> Extended(a, b)
  }

  lemma MakeLater(a: Trace, b: Trace)
    requires Extended(a, b)
    ensures Later(a, b)
  {
  }

  /** Only the lifecycle moved. */
  lemma LaterLife(a: Trace, t: Phase)
    requires LifeLater(a.lifecycle, t)
    ensures Later(a, a.(lifecycle := t))
  {
    MakeLater(a, a.(lifecycle := t));
  }

  /** One event was admitted, and the lifecycle moved. */
  lemma LaterEvent(a: Trace, e: Event, t: Phase)
    requires LifeLater(a.lifecycle, t) && !e.SessionCreated?
    ensures Later(a, a.(events := a.events + [e], lifecycle := t))
  {
    MakeLater(a, a.(events := a.events + [e], lifecycle := t));
  }

  /** The relay pumped, or decided. */
  lemma LaterLog(a: Trace, log: seq<Event>, decision: Option<LogReport>)
    requires a.decision.Some? ==> decision == a.decision
    requires log != [] ==> !log[0].SessionCreated?
    ensures Later(a, a.(events := a.events + log, decision := decision))
    ensures Later(a, a.(decision := decision))
  {
    LifeLaterSteps(a.lifecycle, a.lifecycle, a.lifecycle);
    MakeLater(a, a.(events := a.events + log, decision := decision));
    MakeLater(a, a.(decision := decision));
  }

  lemma LaterSteps(a: Trace, b: Trace, c: Trace)
    ensures Later(a, a)
    ensures Later(a, b) && Later(b, c) ==> Later(a, c)
  {
    assert Inspected(OfLife, 0);
    LifeLaterSteps(a.lifecycle, b.lifecycle, c.lifecycle);
  }

  /** A session that ended before anything was admitted admits nothing but its end. */
  lemma NothingAdmitted(c: Codec, output: Output, order: Order, acquisition: Option<Acquisition>,
                        relay: Option<Relay>, a: Trace, b: Trace)
    requires Later(a, b) && a.events == [] && a.request.None? && a.lifecycle.Rank() > 0
    requires Owners(c, output, b.events, order, b.lifecycle, b.request, acquisition, relay, true)
    ensures b.events == [] && b.request.None?
  {
    assert Inspected(OfOwners, 0) && Inspected(OfLater, 0);
  }

  lemma EventsStay(a: Trace, b: Trace)
    requires Later(a, b)
    ensures a.events <= b.events
  {
    assert Inspected(OfLater, 0);
  }

  lemma RequestStays(a: Trace, b: Trace)
    requires Later(a, b) && a.lifecycle.Rank() > 0
    ensures b.request == a.request
  {
    assert Inspected(OfLater, 0);
  }

  lemma DecisionStays(a: Trace, b: Trace)
    requires Later(a, b) && a.decision.Some?
    ensures b.decision == a.decision
  {
    assert Inspected(OfLater, 0);
  }
}
