/**
 * The lifecycle authority a second time, from what its callers told it: flags
 * and facts, no phases. Every call of helper/lifecycle.py answers as they say.
 */
module Histories {
  import opened Base
  import opened Outcomes
  import opened Lifecycle

  /** What has been established so far; nothing here is ever taken back. */
  datatype History = History(
    started: Option<StartupRequest>,
    entered: bool,
    adopted: bool,
    settled: bool,
    requested: bool,
    exit: Option<ChildResult>,
    seen: set<string>,
    ready: bool,
    outcome: Option<Outcome>,
    snapshot: Option<TerminalSnapshot>,
    late: seq<Diagnostic>)
  {
    /** Nothing ended it yet. */
    predicate Going() {
      outcome.None? && snapshot.None?
    }

    /** The attempt was entered and not settled, and nothing is frozen. */
    predicate Attempting() {
      entered && !settled && snapshot.None?
    }

    /** A ready server, or an adopted child that is to run to its end. */
    predicate Serving() {
      Going() && started.Some? && adopted && (ready || started.value.policy.ProcessExit?)
    }

    /** A live server's child is adopted and running, and READY is still to come. */
    predicate Awaiting() {
      Going() && started.Some? && adopted && !settled && !ready && exit.None? && started.value.policy.LiveServer?
    }

    /** What holds of everything told. */
    predicate Coherent() {
      && (entered || settled ==> started.Some?)
      && (adopted ==> entered)
      && (ready ==> adopted)
      && (started.None? ==> seen == {})
      && (snapshot.None? ==> late == [])
      && (exit.Some? || requested ==> entered)
      && (requested ==> !Going())
      && (Serving() ==> exit.None? && !settled)
      && (outcome.Some? ==> outcome.value.Valid() && outcome.value.childResult == exit)
      && (snapshot.Some? ==> outcome.Some? && snapshot.value.outcome == outcome.value)
    }

    function Attempt(): Option<Attempt> {
      if started.None? then None
      else Some(if settled then Settled(exit)
                else if !entered then Authorized
                else if !adopted then Producing(requested, exit)
                else Owned(requested, exit))
    }

    /** The phase these facts amount to. */
    function Phase(): Phase
      requires adopted ==> started.Some?
    {
      if snapshot.Some? then Closed(Attempt(), snapshot.value, late)
      else if outcome.Some? then Terminating(Attempt(), outcome.value)
      else if started.None? then Created
      else if Serving() then Active(started.value, Attempt().value)
      else Starting(started.value, Attempt().value, seen)
    }
  }

  function Untold(): History {
    History(None, false, false, false, false, None, {}, false, None, None, [])
  }

  /** Ended for this reason, with this failure, unless it had ended before: then the failure alone joins. */
  function Ending(h: History, trigger: Trigger, failure: Option<Diagnostic>): History {
    if h.snapshot.Some? then if failure.Some? then h.(late := h.late + [failure.value]) else h
    else if h.outcome.None? then h.(outcome := Some(Outcome(trigger, failure, [], h.exit)))
    else if failure.Some? then h.(outcome := Some(h.outcome.value.WithFailure(failure.value)))
    else h
  }

  /** Whether a call is heeded: what it needs of the facts. */
  predicate Heeds(h: History, c: Call)
    requires h.Coherent()
  {
    match c
    case Start(_) => h.started.None? && h.Going()
    case EnterAttempt(admitted) => h.started.Some? && !h.entered && !h.settled && h.Going()
    case AdoptAttempt => h.Attempting() && !h.adopted
    case ObserveEvidence(name) => h.Awaiting() && name in h.started.value.evidence
    case Ready(childLive, _) => h.Awaiting() && childLive && EvidenceComplete(h.started.value, h.seen)
    case ObserveChildExit(_) => h.Attempting() && h.exit.None?
    case RecordChildTermination => h.Attempting() && h.exit.None? && h.outcome.Some?
    case SettleAttempt(quiescent, disposed) =>
      h.started.Some? && h.snapshot.None? && !h.Serving() && quiescent && disposed
    case Terminate(trigger, failure) =>
      (failure.Some? || trigger.ControllerEof? || trigger.ChildExit?) && (trigger.ChildExit? ==> h.exit.Some?)
    case Freeze(cleanup, log) =>
      || h.snapshot.Some?
      || (&& h.outcome.Some?
          && (h.Attempting() ==> cleanup.child == ChildUnconfirmed)
          && TerminalSnapshot(h.outcome.value, cleanup, log).Coherent())
  }

  /** The calls that raise when they are not heeded; the others return False. */
  predicate Strict(c: Call) {
    c.Start? || c.Terminate? || c.Freeze?
  }

  /** An admission that was refused: the call is heeded, and answers False. */
  predicate Turned(c: Call) {
    (c.EnterAttempt? && !c.admitted) || (c.Ready? && !c.admitted)
  }

  function Answer(h: History, c: Call): bool
    requires h.Coherent()
  {
    Heeds(h, c) && !Turned(c)
  }

  /** What a heeded call establishes. */
  function Established(h: History, c: Call): History
    requires h.Coherent() && Heeds(h, c)
  {
    match c
    case Start(request) => h.(started := Some(request))
    case EnterAttempt(admitted) =>
      if admitted then h.(entered := true) else Ending(h, OutputFailure, Some(ATTEMPT_ADMISSION))
    case AdoptAttempt =>
      var owned := h.(adopted := true);
      if h.Going() && h.started.value.policy.ProcessExit? && h.exit.Some? then Ending(owned, ChildExit, None)
      else owned
    case ObserveEvidence(name) => h.(seen := h.seen + {name})
    case Ready(_, admitted) =>
      if admitted then h.(ready := true) else Ending(h, OutputFailure, Some(READY_ADMISSION))
    case ObserveChildExit(returncode) =>
      var result := Some(ChildResult(returncode, h.requested));
      var exited := h.(exit := result);
      if h.Serving() then Ending(exited, ChildExit, None)
      else if h.outcome.Some? then exited.(outcome := Some(h.outcome.value.(childResult := result)))
      else exited
    case RecordChildTermination => h.(requested := true)
    case SettleAttempt(_, _) => h.(settled := true)
    case Terminate(trigger, failure) => Ending(h, trigger, failure)
    case Freeze(cleanup, log) =>
      if h.snapshot.Some? then h else h.(snapshot := Some(TerminalSnapshot(h.outcome.value, cleanup, log)))
  }

  function Told(h: History, c: Call): History
    requires h.Coherent()
  {
    if Heeds(h, c) then Established(h, c) else h
  }

  lemma EndingCoherent(h: History, trigger: Trigger, failure: Option<Diagnostic>)
    requires h.Coherent() && Outcome(trigger, failure, [], h.exit).Valid()
    ensures Ending(h, trigger, failure).Coherent()
  {
  }

  lemma ExitCoherent(h: History, returncode: int)
    requires h.Coherent()
    ensures Told(h, ObserveChildExit(returncode)).Coherent()
  {
    if Heeds(h, ObserveChildExit(returncode)) && h.Serving() {
      assert Established(h, ObserveChildExit(returncode)).outcome.value.Valid();
    }
  }

  lemma ToldCoherent(h: History, c: Call)
    requires h.Coherent()
    ensures Told(h, c).Coherent()
  {
    if c.ObserveChildExit? {
      ExitCoherent(h, c.returncode);
    } else if Heeds(h, c) {
      if c.Terminate? {
        EndingCoherent(h, c.trigger, c.failure);
      } else if c.EnterAttempt? || c.Ready? {
        EndingCoherent(h, OutputFailure, Some(ATTEMPT_ADMISSION));
        EndingCoherent(h, OutputFailure, Some(READY_ADMISSION));
      }
    }
  }

  /** The authority answers a call, and moves, as the facts say. */
  ghost predicate Follows(h: History, c: Call)
    requires h.Coherent()
  {
    Told(h, c).Coherent() &&
    Next(h.Phase(), c) == Step(Told(h, c).Phase(), Answer(h, c), Strict(c) && !Heeds(h, c))
  }

  lemma StartFollows(h: History, c: Call)
    requires h.Coherent() && (c.Start? || c.EnterAttempt?)
    ensures Follows(h, c)
  {
  }

  lemma AdoptFollows(h: History, c: Call)
    requires h.Coherent() && (c.AdoptAttempt? || c.ObserveEvidence?)
    ensures Follows(h, c)
  {
  }

  lemma ReadyFollows(h: History, c: Call)
    requires h.Coherent() && (c.Ready?)
    ensures Follows(h, c)
  {
  }

  lemma ExitFollows(h: History, c: Call)
    requires h.Coherent() && (c.ObserveChildExit?)
    ensures Follows(h, c)
  {
  }

  lemma SettleFollows(h: History, c: Call)
    requires h.Coherent() && (c.RecordChildTermination? || c.SettleAttempt?)
    ensures Follows(h, c)
  {
  }

  lemma ResultIsExit(h: History)
    requires h.Coherent()
    ensures h.Phase().Result() == h.exit && h.Phase().Current() == h.Attempt()
  {
  }

  /** A failure after the session ended, or while it is ending, or what ends it. */
  lemma EndingFollows(h: History, trigger: Trigger, failure: Option<Diagnostic>)
    requires h.Coherent() && Outcome(trigger, failure, [], h.exit).Valid()
    ensures Terminated(h.Phase(), trigger, failure) == Done(Ending(h, trigger, failure).Phase(), true)
  {
    ResultIsExit(h);
    if h.snapshot.Some? {
      assert h.Phase().Closed?;
    } else if h.outcome.Some? {
      assert h.Phase().Terminating?;
    }
  }

  lemma EndFollows(h: History, c: Call)
    requires h.Coherent() && c.Terminate?
    ensures Follows(h, c)
  {
    ResultIsExit(h);
    ToldCoherent(h, c);
    if Heeds(h, c) {
      EndingFollows(h, c.trigger, c.failure);
    }
  }

  lemma FreezeFollows(h: History, c: Call)
    requires h.Coherent() && c.Freeze?
    ensures Follows(h, c)
  {
  }

  /** One call of the authority, whatever was told before. */
  lemma CallFollows(h: History, c: Call)
    requires h.Coherent()
    ensures Follows(h, c)
  {
    match c
    case Start(_) => StartFollows(h, c);
    case EnterAttempt(_) => StartFollows(h, c);
    case AdoptAttempt => AdoptFollows(h, c);
    case ObserveEvidence(_) => AdoptFollows(h, c);
    case Ready(_, _) => ReadyFollows(h, c);
    case ObserveChildExit(_) => ExitFollows(h, c);
    case RecordChildTermination => SettleFollows(h, c);
    case SettleAttempt(_, _) => SettleFollows(h, c);
    case Terminate(_, _) => EndFollows(h, c);
    case Freeze(_, _) => FreezeFollows(h, c);
  }

  function HistoryOf(h: History, calls: seq<Call>): (t: History)
    requires h.Coherent()
    ensures t.Coherent()
    decreases |calls|
  {
    if |calls| == 0 then h
    else
      ToldCoherent(h, calls[0]);
      HistoryOf(Told(h, calls[0]), calls[1..])
  }

  lemma {:induction false} RunFollows(h: History, calls: seq<Call>)
    requires h.Coherent()
    ensures Run(h.Phase(), calls) == HistoryOf(h, calls).Phase()
    decreases |calls|
  {
    if |calls| > 0 {
      CallFollows(h, calls[0]);
      RunFollows(Told(h, calls[0]), calls[1..]);
    }
  }

  /**
   * Over every sequence of calls, the phase the authority is in, and the
   * answer of the next call, are what the facts told so far say.
   */
  lemma EveryAnswer(calls: seq<Call>, c: Call)
    ensures
      var h := HistoryOf(Untold(), calls);
      && Run(Created, calls) == h.Phase()
      && Run(Created, calls).Result() == h.exit
      && Next(Run(Created, calls), c) == Step(Told(h, c).Phase(), Answer(h, c), Strict(c) && !Heeds(h, c))
  {
    RunFollows(Untold(), calls);
    CallFollows(HistoryOf(Untold(), calls), c);
  }

  /** A termination of the child was recorded: one such call returned True. */
  predicate Requested(s: Lifecycle.Phase, calls: seq<Call>)
    decreases |calls|
  {
    |calls| > 0 &&
    ((calls[0].RecordChildTermination? && Next(s, calls[0]).ok) || Requested(Next(s, calls[0]).phase, calls[1..]))
  }

  lemma {:induction false} RequestedFollows(h: History, calls: seq<Call>)
    requires h.Coherent()
    ensures HistoryOf(h, calls).requested <==> h.requested || Requested(h.Phase(), calls)
    decreases |calls|
  {
    if |calls| > 0 {
      CallFollows(h, calls[0]);
      RequestedFollows(Told(h, calls[0]), calls[1..]);
    }
  }

  /**
   * The status an exit is reported with is the child's result for good. From
   * any phase with an unsettled attempt and no result, the first exit is it,
   * with whatever status; it counts as asked for exactly when a termination
   * was recorded before.
   */
  lemma ExitIsRecorded(before: seq<Call>, returncode: int, after: seq<Call>)
    requires
      var s := Run(Created, before);
      s.Current().Some? && s.Current().value.Unsettled() && s.Result().None? && !s.Closed?
    ensures
      var exited := Next(Run(Created, before), ObserveChildExit(returncode));
      var result := Some(ChildResult(returncode, Requested(Created, before)));
      && exited.ok
      && exited.phase.Result() == result
      && Run(exited.phase, after).Result() == result
  {
    var h := HistoryOf(Untold(), before);
    var s := Run(Created, before);
    RunFollows(Untold(), before);
    RequestedFollows(Untold(), before);
    CallFollows(h, ObserveChildExit(returncode));
    ResultIsExit(h);
    ResultIsExit(Told(h, ObserveChildExit(returncode)));
    Lifecycle.EveryRun(Created, before);
    StepFacts(s, ObserveChildExit(returncode));
    Lifecycle.EveryRun(Next(s, ObserveChildExit(returncode)).phase, after);
  }

  lemma TriggerStays(h: History, c: Call)
    requires h.Coherent() && h.outcome.Some?
    ensures Told(h, c).outcome.Some? && Told(h, c).outcome.value.trigger == h.outcome.value.trigger
    ensures h.snapshot.Some? ==> Told(h, c).snapshot == h.snapshot
  {
  }

  /** The reason a session ends with stays the first: no later call replaces it, nor a frozen snapshot. */
  lemma {:induction false} FirstTriggerStays(h: History, calls: seq<Call>)
    requires h.Coherent() && h.outcome.Some?
    ensures HistoryOf(h, calls).outcome.Some? && HistoryOf(h, calls).outcome.value.trigger == h.outcome.value.trigger
    ensures h.snapshot.Some? ==> HistoryOf(h, calls).snapshot == h.snapshot
    decreases |calls|
  {
    if |calls| > 0 {
      ToldCoherent(h, calls[0]);
      TriggerStays(h, calls[0]);
      FirstTriggerStays(Told(h, calls[0]), calls[1..]);
    }
  }
}
