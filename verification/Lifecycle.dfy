/** The remote lifecycle authority of helper/lifecycle.py. */
module Lifecycle {
  import opened Base
  import opened Outcomes

  datatype StartupRequest = StartupRequest(policy: CompletionPolicy, evidence: seq<string>)

  datatype Attempt =
    | Authorized
    | Producing(terminationRequested: bool, childResult: Option<ChildResult>)
    | Owned(terminationRequested: bool, childResult: Option<ChildResult>)
    | Settled(childResult: Option<ChildResult>)
  {
    predicate Unsettled() {
      Producing? || Owned?
    }

    function Observed(): Option<ChildResult> {
      if Authorized? then None else childResult
    }
  }

  datatype Phase =
    | Created
    | Starting(request: StartupRequest, attempt: Attempt, evidence: set<string>)
    | Active(request: StartupRequest, attempt: Attempt)
    | Terminating(held: Option<Attempt>, outcome: Outcome)
    | Closed(held: Option<Attempt>, snapshot: TerminalSnapshot, localDiagnostics: seq<Diagnostic>)
  {
    function Current(): Option<Attempt> {
      match this
      case Created => None
      case Starting(_, a, _) => Some(a)
      case Active(_, a) => Some(a)
      case Terminating(a, _) => a
      case Closed(a, _, _) => a
    }

    /** The child result the session has observed, if any. */
    function Result(): Option<ChildResult> {
      if Current().None? then None else Current().value.Observed()
    }

    /** What ended the session, once it is ending. */
    function Reason(): Option<Trigger> {
      match this
      case Terminating(_, o) => Some(o.trigger)
      case Closed(_, s, _) => Some(s.outcome.trigger)
      case _ => None
    }

    function Rank(): nat {
      match this
      case Created => 0
      case Starting(_, _, _) => 1
      case Active(_, _) => 2
      case Terminating(_, _) => 3
      case Closed(_, _, _) => 4
    }

    /** Every failure recorded since the session began, in arrival order. */
    function Recorded(): seq<Diagnostic> {
      match this
      case Terminating(_, o) => o.Recorded()
      case Closed(_, s, local) => s.outcome.Recorded() + local
      case _ => []
    }

    function Established(): Origin {
      match this
      case Terminating(_, o) => o.Established()
      case Closed(_, s, _) => s.outcome.Established()
      case _ => NoFailure
    }
  }

  /** A coordinator call with its arguments. */
  datatype Call =
    | Start(request: StartupRequest)
    | EnterAttempt(admitted: bool)
    | AdoptAttempt
    | ObserveEvidence(name: string)
    | Ready(childLive: bool, admitted: bool)
    | ObserveChildExit(returncode: int)
    | RecordChildTermination
    | SettleAttempt(producerQuiescent: bool, resourcesDisposed: bool)
    | Terminate(trigger: Trigger, failure: Option<Diagnostic>)
    | Freeze(cleanup: CleanupReport, log: Option<LogReport>)

  /** The phase after a call, its Boolean result, and whether it raised. */
  datatype Step = Step(phase: Phase, ok: bool, raised: bool)

  const ATTEMPT_ADMISSION := Fault(AttemptAdmission)
  const READY_ADMISSION := Fault(ReadyAdmission)

  function Done(phase: Phase, ok: bool): Step {
    Step(phase, ok, false)
  }

  predicate EvidenceComplete(request: StartupRequest, evidence: set<string>) {
    forall name | name in request.evidence :: name in evidence
  }

  /** The attempt a phase holds, replaced; None where the source raises LifecycleError. */
  function Replaced(s: Phase, attempt: Attempt): Option<Phase> {
    match s
    case Starting(request, _, evidence) => Some(Starting(request, attempt, evidence))
    case Terminating(_, outcome) => Some(Terminating(Some(attempt), outcome))
    case Active(request, _) => if attempt.Owned? then Some(Active(request, attempt)) else None
    case _ => None
  }

  function Terminated(s: Phase, trigger: Trigger, failure: Option<Diagnostic>): Step {
    if !Outcome(trigger, failure, [], s.Result()).Valid() then Step(s, false, true)
    else
      match s
      case Closed(_, _, local) =>
        Done(if failure.None? then s else s.(localDiagnostics := local + [failure.value]), true)
      case Terminating(_, o) =>
        Done(if failure.None? then s else s.(outcome := o.WithFailure(failure.value)), true)
      case _ => Done(Terminating(s.Current(), Outcome(trigger, failure, [], s.Result())), true)
  }

  function Entered(s: Phase, admitted: bool): Step {
    if !s.Starting? || !s.attempt.Authorized? then Done(s, false)
    else if !admitted then Terminated(s, OutputFailure, Some(ATTEMPT_ADMISSION)).(ok := false)
    else Done(Starting(s.request, Producing(false, None), s.evidence), true)
  }

  function Adopted(s: Phase): Step {
    var attempt := s.Current();
    if attempt.None? || !attempt.value.Producing? then Done(s, false)
    else
      var owned := Owned(attempt.value.terminationRequested, attempt.value.childResult);
      match s
      case Starting(request, _, evidence) =>
        if request.policy.LiveServer? then Done(Starting(request, owned, evidence), true)
        else if owned.childResult.None? then Done(Active(request, owned), true)
        else Terminated(Starting(request, owned, evidence), ChildExit, None).(ok := true)
      case Terminating(_, outcome) => Done(Terminating(Some(owned), outcome), true)
      case _ => Done(s, false)
  }

  function EvidenceSeen(s: Phase, name: string): Step {
    if s.Starting? && s.request.policy.LiveServer? && s.attempt.Owned?
       && s.attempt.childResult.None? && name in s.request.evidence
    then Done(s.(evidence := s.evidence + {name}), true)
    else Done(s, false)
  }

  predicate ReadyAllowed(s: Phase, childLive: bool) {
    && s.Starting?
    && s.request.policy.LiveServer?
    && s.attempt.Owned?
    && s.attempt.childResult.None?
    && EvidenceComplete(s.request, s.evidence)
    && childLive
  }

  function MadeReady(s: Phase, childLive: bool, admitted: bool): Step {
    if !ReadyAllowed(s, childLive) then Done(s, false)
    else if !admitted then Terminated(s, OutputFailure, Some(READY_ADMISSION)).(ok := false)
    else Done(Active(s.request, s.attempt), true)
  }

  function WithResult(attempt: Attempt, result: ChildResult): Attempt {
    match attempt
    case Producing(requested, _) => Producing(requested, Some(result))
    case Owned(requested, _) => Owned(requested, Some(result))
    case _ => attempt
  }

  function ChildExited(s: Phase, returncode: int): Step {
    var attempt := s.Current();
    if attempt.None? || !attempt.value.Unsettled() || s.Closed? || attempt.value.childResult.Some?
    then Done(s, false)
    else
      var result := ChildResult(returncode, attempt.value.terminationRequested);
      var replaced := Replaced(s, WithResult(attempt.value, result));
      if replaced.None? then Step(s, false, true)
      else
        match replaced.value
        case Terminating(_, o) =>
          var outcome := o.WithChildResult(result);
          if outcome.None? then Step(replaced.value, false, true)
          else Done(Terminating(Some(WithResult(attempt.value, result)), outcome.value), true)
        case Active(_, _) => Terminated(replaced.value, ChildExit, None).(ok := true)
        case _ => Done(replaced.value, true)
  }

  function TerminationRecorded(s: Phase): Step {
    if s.Terminating? && s.held.Some? && s.held.value.Unsettled() && s.held.value.childResult.None?
    then
      var requested :=
        if s.held.value.Producing? then Producing(true, s.held.value.childResult)
        else Owned(true, s.held.value.childResult);
      Done(Terminating(Some(requested), s.outcome), true)
    else Done(s, false)
  }

  function AttemptSettled(s: Phase, producerQuiescent: bool, resourcesDisposed: bool): Step {
    if s.Current().Some? && (s.Starting? || s.Terminating?) && producerQuiescent && resourcesDisposed
    then Done(Replaced(s, Settled(s.Result())).value, true)
    else Done(s, false)
  }

  /** Exactly when freeze returns a snapshot instead of raising. */
  predicate Freezable(s: Phase, cleanup: CleanupReport, log: Option<LogReport>) {
    || s.Closed?
    || (&& s.Terminating?
        && (s.held.Some? && s.held.value.Unsettled() ==> cleanup.child == ChildUnconfirmed)
        && TerminalSnapshot(s.outcome, cleanup, log).Coherent())
  }

  function Frozen(s: Phase, cleanup: CleanupReport, log: Option<LogReport>): Step {
    if !Freezable(s, cleanup, log) then Step(s, false, true)
    else if s.Closed? then Done(s, true)
    else Done(Closed(s.held, TerminalSnapshot(s.outcome, cleanup, log), []), true)
  }

  /** One call of the authority, as a function of its phase. */
  function Next(s: Phase, c: Call): Step {
    match c
    case Start(request) =>
      if s.Created? then Done(Starting(request, Authorized, {}), true) else Step(s, false, true)
    case EnterAttempt(admitted) => Entered(s, admitted)
    case AdoptAttempt => Adopted(s)
    case ObserveEvidence(name) => EvidenceSeen(s, name)
    case Ready(childLive, admitted) => MadeReady(s, childLive, admitted)
    case ObserveChildExit(returncode) => ChildExited(s, returncode)
    case RecordChildTermination => TerminationRecorded(s)
    case SettleAttempt(quiescent, disposed) => AttemptSettled(s, quiescent, disposed)
    case Terminate(trigger, failure) => Terminated(s, trigger, failure)
    case Freeze(cleanup, log) => Frozen(s, cleanup, log)
  }

  /** What every reachable phase satisfies. */
  ghost predicate PhaseInv(s: Phase) {
    match s
    case Created => true
    case Starting(request, a, evidence) =>
      && (a.Unsettled() ==> !a.terminationRequested)
      && (a.Observed().Some? ==> !a.Observed().value.terminationRequested)
      && (a.Owned? ==> request.policy.LiveServer?)
      && (forall name | name in evidence :: name in request.evidence)
    case Active(_, a) => a == Owned(false, None)
    case Terminating(_, o) => o.Valid() && o.Ordered() && o.childResult == s.Result()
    case Closed(held, snapshot, _) =>
      && snapshot.outcome.Valid() && snapshot.outcome.Ordered() && snapshot.Coherent()
      && snapshot.outcome.childResult == s.Result()
      && (held.Some? && held.value.Unsettled() ==> snapshot.cleanup.child == ChildUnconfirmed)
  }

  /** The failure a call records, if it records one. */
  function Failures(s: Phase, c: Call): seq<Diagnostic> {
    match c
    case Terminate(trigger, failure) =>
      if failure.Some? && Outcome(trigger, failure, [], s.Result()).Valid() then [failure.value] else []
    case EnterAttempt(admitted) =>
      if s.Starting? && s.attempt.Authorized? && !admitted then [ATTEMPT_ADMISSION] else []
    case Ready(childLive, admitted) =>
      if ReadyAllowed(s, childLive) && !admitted then [READY_ADMISSION] else []
    case _ => []
  }

  /** Exactly when a call raises, in a reachable phase. */
  predicate Refused(s: Phase, c: Call) {
    match c
    case Start(_) => !s.Created?
    case Terminate(trigger, failure) => !Outcome(trigger, failure, [], s.Result()).Valid()
    case Freeze(cleanup, log) => !Freezable(s, cleanup, log)
    case _ => false
  }

  /** What any number of calls leading from s to t keep, having reported the given failures. */
  ghost predicate Kept(s: Phase, t: Phase, failures: seq<Diagnostic>) {
    && PhaseInv(t)
    && s.Rank() <= t.Rank()
    && (s.Result().Some? ==> t.Result() == s.Result())
    && (s.Reason().Some? ==> t.Reason() == s.Reason())
    && (s.Established() != NoFailure ==> t.Established() == s.Established())
    && (s.Closed? ==> t.Closed? && t.snapshot == s.snapshot)
    && t.Recorded() == s.Recorded() + failures
  }

  /** Starting, entering, adopting and readiness. */
  lemma StartupFacts(s: Phase, c: Call)
    requires PhaseInv(s)
    requires c.Start? || c.EnterAttempt? || c.AdoptAttempt? || c.ObserveEvidence? || c.Ready?
    ensures Next(s, c).raised <==> Refused(s, c)
    ensures Next(s, c).raised ==> Next(s, c).phase == s
    ensures Kept(s, Next(s, c).phase, Failures(s, c))
  {
    assert s.Active? ==> s.Recorded() == [];
  }

  /** The child's result, its termination and its settlement. */
  lemma ChildFacts(s: Phase, c: Call)
    requires PhaseInv(s) && (c.ObserveChildExit? || c.RecordChildTermination? || c.SettleAttempt?)
    ensures Next(s, c).raised <==> Refused(s, c)
    ensures Next(s, c).raised ==> Next(s, c).phase == s
    ensures Kept(s, Next(s, c).phase, Failures(s, c))
  {
    assert s.Active? ==> s.Recorded() == [];
  }

  /** Termination and freezing. */
  lemma EndFacts(s: Phase, c: Call)
    requires PhaseInv(s) && (c.Terminate? || c.Freeze?)
    ensures Next(s, c).raised <==> Refused(s, c)
    ensures Next(s, c).raised ==> Next(s, c).phase == s
    ensures Kept(s, Next(s, c).phase, Failures(s, c))
  {
    assert s.Active? ==> s.Recorded() == [];
  }

  /**
   * One call from a reachable phase: only the calls named by Refused raise, a
   * raise changes nothing, and the call keeps what Kept says, its own failure
   * being the only one added to the record.
   */
  lemma StepFacts(s: Phase, c: Call)
    requires PhaseInv(s)
    ensures Next(s, c).raised <==> Refused(s, c)
    ensures Next(s, c).raised ==> Next(s, c).phase == s
    ensures Kept(s, Next(s, c).phase, Failures(s, c))
  {
    if c.Terminate? || c.Freeze? {
      EndFacts(s, c);
    } else if c.ObserveChildExit? || c.RecordChildTermination? || c.SettleAttempt? {
      ChildFacts(s, c);
    } else {
      StartupFacts(s, c);
    }
  }

  lemma KeptTransitive(s: Phase, t: Phase, u: Phase, f: seq<Diagnostic>, g: seq<Diagnostic>)
    requires Kept(s, t, f) && Kept(t, u, g)
    ensures Kept(s, u, f + g)
  {
    Assoc(s.Recorded(), f, g);
  }

  /** The phase after a list of calls. */
  function Run(s: Phase, calls: seq<Call>): Phase
    decreases |calls|
  {
    if |calls| == 0 then s else Run(Next(s, calls[0]).phase, calls[1..])
  }

  function RunFailures(s: Phase, calls: seq<Call>): seq<Diagnostic>
    decreases |calls|
  {
    if |calls| == 0 then []
    else Failures(s, calls[0]) + RunFailures(Next(s, calls[0]).phase, calls[1..])
  }

  /**
   * Every sequence of calls: the invariant holds throughout, no observed child
   * result or established failure is ever displaced, a frozen snapshot never
   * changes, and the complete record of failures (primary, diagnostics, and
   * what arrived after freezing) is exactly the failures reported, in order.
   */
  lemma {:induction false} EveryRun(s: Phase, calls: seq<Call>)
    requires PhaseInv(s)
    ensures Kept(s, Run(s, calls), RunFailures(s, calls))
    decreases |calls|
  {
    if |calls| == 0 {
      assert s.Recorded() + [] == s.Recorded();
    } else {
      var t := Next(s, calls[0]).phase;
      StepFacts(s, calls[0]);
      EveryRun(t, calls[1..]);
      KeptTransitive(s, t, Run(t, calls[1..]), Failures(s, calls[0]), RunFailures(t, calls[1..]));
    }
  }

  /** How many calls of a run entered an attempt, or published readiness. */
  function Entries(s: Phase, calls: seq<Call>): nat
    decreases |calls|
  {
    if |calls| == 0 then 0
    else
      (if calls[0].EnterAttempt? && Next(s, calls[0]).ok then 1 else 0) +
      Entries(Next(s, calls[0]).phase, calls[1..])
  }

  function Readies(s: Phase, calls: seq<Call>): nat
    decreases |calls|
  {
    if |calls| == 0 then 0
    else
      (if calls[0].Ready? && Next(s, calls[0]).ok then 1 else 0) +
      Readies(Next(s, calls[0]).phase, calls[1..])
  }

  predicate MayEnter(s: Phase) {
    s.Created? || (s.Starting? && s.attempt.Authorized?)
  }

  /**
   * A session enters at most one attempt and becomes ready at most once, and
   * neither once it is past the phase that allows it.
   */
  lemma {:induction false} AtMostOneAttempt(s: Phase, calls: seq<Call>)
    requires PhaseInv(s)
    ensures Entries(s, calls) <= if MayEnter(s) then 1 else 0
    ensures Readies(s, calls) <= if s.Rank() <= 1 then 1 else 0
    decreases |calls|
  {
    if |calls| == 0 {
    } else {
      StepFacts(s, calls[0]);
      AtMostOneAttempt(Next(s, calls[0]).phase, calls[1..]);
    }
  }

  /** The authority itself: one field, reassigned by every transition. */
  class LifecycleAuthority {
    var state: Phase

    constructor ()
      ensures state == Created
    {
      state := Created;
    }

    method Start(request: StartupRequest) returns (raised: bool)
      modifies this
      ensures Step(state, !raised, raised) == Next(old(state), Call.Start(request))
    {
      if !state.Created? {
        return true;
      }
      state := Starting(request, Authorized, {});
      return false;
    }

    method ReplaceAttempt(attempt: Attempt) returns (raised: bool)
      modifies this
      ensures raised <==> Replaced(old(state), attempt).None?
      ensures state == if raised then old(state) else Replaced(old(state), attempt).value
    {
      if state.Starting? {
        state := Starting(state.request, attempt, state.evidence);
      } else if state.Terminating? {
        state := Terminating(Some(attempt), state.outcome);
      } else if state.Active? && attempt.Owned? {
        state := Active(state.request, attempt);
      } else {
        return true;
      }
      return false;
    }

    method EnterAttempt(admitted: bool) returns (ok: bool)
      modifies this
      ensures Step(state, ok, false) == Next(old(state), Call.EnterAttempt(admitted))
    {
      if !state.Starting? || !state.attempt.Authorized? {
        return false;
      }
      if !admitted {
        var _ := Terminate(OutputFailure, Some(ATTEMPT_ADMISSION));
        return false;
      }
      var _ := ReplaceAttempt(Producing(false, None));
      return true;
    }

    method AdoptAttempt() returns (ok: bool)
      requires PhaseInv(state)
      modifies this
      ensures Step(state, ok, false) == Next(old(state), Call.AdoptAttempt)
    {
      var attempt := state.Current();
      if attempt.None? || !attempt.value.Producing? || !(state.Starting? || state.Terminating?) {
        return false;
      }
      var owned := Owned(attempt.value.terminationRequested, attempt.value.childResult);
      var _ := ReplaceAttempt(owned);
      if state.Starting? && state.request.policy.ProcessExit? {
        if owned.childResult.None? {
          state := Active(state.request, owned);
        } else {
          var _ := Terminate(ChildExit, None);
        }
      }
      return true;
    }

    method ObserveEvidence(name: string) returns (ok: bool)
      modifies this
      ensures Step(state, ok, false) == Next(old(state), Call.ObserveEvidence(name))
    {
      if !state.Starting? || !state.request.policy.LiveServer? {
        return false;
      }
      if !state.attempt.Owned? || state.attempt.childResult.Some? {
        return false;
      }
      if name !in state.request.evidence {
        return false;
      }
      state := state.(evidence := state.evidence + {name});
      return true;
    }

    method Ready(childLive: bool, admitted: bool) returns (ok: bool)
      modifies this
      ensures Step(state, ok, false) == Next(old(state), Call.Ready(childLive, admitted))
    {
      if !state.Starting? || !state.request.policy.LiveServer? || !state.attempt.Owned? {
        return false;
      }
      if state.attempt.childResult.Some? || !EvidenceComplete(state.request, state.evidence) || !childLive {
        return false;
      }
      if !admitted {
        var _ := Terminate(OutputFailure, Some(READY_ADMISSION));
        return false;
      }
      state := Active(state.request, state.attempt);
      return true;
    }

    method ObserveChildExit(returncode: int) returns (ok: bool)
      requires PhaseInv(state)
      modifies this
      ensures Step(state, ok, false) == Next(old(state), Call.ObserveChildExit(returncode))
    {
      var attempt := state.Current();
      if attempt.None? || !attempt.value.Unsettled() || state.Closed? {
        return false;
      }
      if attempt.value.childResult.Some? {
        return false;
      }
      var result := ChildResult(returncode, attempt.value.terminationRequested);
      var _ := ReplaceAttempt(WithResult(attempt.value, result));
      if state.Terminating? {
        state := Terminating(state.held, state.outcome.WithChildResult(result).value);
      } else if state.Active? {
        var _ := Terminate(ChildExit, None);
      }
      return true;
    }

    method RecordChildTermination() returns (ok: bool)
      modifies this
      ensures Step(state, ok, false) == Next(old(state), Call.RecordChildTermination)
    {
      var attempt := state.Current();
      if !state.Terminating? || attempt.None? || !attempt.value.Unsettled() {
        return false;
      }
      if attempt.value.childResult.Some? {
        return false;
      }
      if attempt.value.Producing? {
        var _ := ReplaceAttempt(Producing(true, attempt.value.childResult));
      } else {
        var _ := ReplaceAttempt(Owned(true, attempt.value.childResult));
      }
      return true;
    }

    method SettleAttempt(producerQuiescent: bool, resourcesDisposed: bool) returns (ok: bool)
      modifies this
      ensures Step(state, ok, false) ==
              Next(old(state), Call.SettleAttempt(producerQuiescent, resourcesDisposed))
    {
      var attempt := state.Current();
      if attempt.None? || !(state.Starting? || state.Terminating?) {
        return false;
      }
      if !producerQuiescent || !resourcesDisposed {
        return false;
      }
      var _ := ReplaceAttempt(Settled(attempt.value.Observed()));
      return true;
    }

    method Terminate(trigger: Trigger, failure: Option<Diagnostic>) returns (raised: bool)
      modifies this
      ensures Step(state, !raised, raised) == Next(old(state), Call.Terminate(trigger, failure))
    {
      var outcome := Outcome(trigger, failure, [], state.Result());
      if !outcome.Valid() {
        return true;
      }
      if state.Closed? {
        if failure.Some? {
          state := state.(localDiagnostics := state.localDiagnostics + [failure.value]);
        }
      } else if state.Terminating? {
        if failure.Some? {
          state := state.(outcome := state.outcome.WithFailure(failure.value));
        }
      } else {
        state := Terminating(state.Current(), outcome);
      }
      return false;
    }

    method Freeze(cleanup: CleanupReport, log: Option<LogReport>) returns (snapshot: Option<TerminalSnapshot>)
      modifies this
      ensures Step(state, snapshot.Some?, snapshot.None?) == Next(old(state), Call.Freeze(cleanup, log))
      ensures snapshot.Some? ==> state.Closed? && snapshot.value == state.snapshot
    {
      if state.Closed? {
        return Some(state.snapshot);
      }
      if !state.Terminating? {
        return None;
      }
      if state.held.Some? && state.held.value.Unsettled() && cleanup.child != ChildUnconfirmed {
        return None;
      }
      var frozen := TerminalSnapshot(state.outcome, cleanup, log);
      if !frozen.Coherent() {
        return None;
      }
      state := Closed(state.held, frozen, []);
      return Some(frozen);
    }
  }
}
