/** Immutable lifecycle results: the values that protocol/outcome.py freezes. */
module Outcomes {
  import opened Base

  datatype CompletionPolicy = LiveServer | ProcessExit

  datatype Trigger =
    | ControllerEof
    | Signal
    | ChildExit
    | StartupFailure
    | ProtocolFailure
    | OutputFailure
    | HelperFailure

  /** A diagnostic code: the ones the helper's own authorities record, or any other text. */
  datatype Code =
    | AttemptAdmission
    | ReadyAdmission
    | SessionAdmission
    | OutputAdmission
    | StartupError
    | StartupExit
    | ReadinessTimeout
    | ReadinessError
    | SpawnError
    | RemoteSignal
    | ControllerLeaseLost
    | ObserverError
    | HelperError
    | CleanupError
    | TerminalDelivery
    | LogOverflow
    | LogAdmission
    | LogReadError
    | LogDisposal
    | LogDeadline
    | LogUnsettled
    | Other(text: string)

  datatype Diagnostic = Diagnostic(code: Code, message: string, diagnostics: seq<Diagnostic>)

  /** A diagnostic of the given code; messages are not distinguished. */
  function Fault(code: Code): Diagnostic {
    Diagnostic(code, "", [])
  }

  datatype ChildResult = ChildResult(returncode: int, terminationRequested: bool) {
    predicate NaturalFailure() {
      !terminationRequested && returncode != 0
    }
  }

  /** What a terminating session counts as its operation failure. */
  datatype Origin = NoFailure | ByDiagnostic(diagnostic: Diagnostic) | ByChild(result: ChildResult)

  datatype Outcome = Outcome(
    trigger: Trigger,
    primary: Option<Diagnostic>,
    diagnostics: seq<Diagnostic>,
    childResult: Option<ChildResult>)
  {
    /** The facts the constructor accepts. */
    predicate Valid() {
      && (trigger !in {ControllerEof, ChildExit} ==> primary.Some?)
      && (trigger == ChildExit ==> childResult.Some?)
    }

    predicate ChildFailureIsPrimary() {
      primary.None? && childResult.Some? && childResult.value.NaturalFailure()
    }

    function WithFailure(failure: Diagnostic): Outcome {
      if primary.None? && !ChildFailureIsPrimary()
      then this.(primary := Some(failure))
      else this.(diagnostics := diagnostics + [failure])
    }

    /** None is the source's ValueError: an observed result cannot be replaced. */
    function WithChildResult(result: ChildResult): Option<Outcome> {
      if childResult.Some? && childResult.value != result then None
      else Some(this.(childResult := Some(result)))
    }

    predicate OperationFailed(policy: CompletionPolicy) {
      primary.Some? ||
      match policy
      case ProcessExit =>
        childResult.None? || childResult.value.terminationRequested || childResult.value.returncode != 0
      case LiveServer =>
        childResult.Some? && !childResult.value.terminationRequested && childResult.value.returncode != 0
    }

    /** The established failure: the first recorded diagnostic or an earlier natural child failure. */
    function Established(): Origin {
      if primary.Some? then ByDiagnostic(primary.value)
      else if ChildFailureIsPrimary() then ByChild(childResult.value)
      else NoFailure
    }

    /** Every failure recorded so far, in arrival order. */
    function Recorded(): seq<Diagnostic> {
      (if primary.Some? then [primary.value] else []) + diagnostics
    }

    /** Secondary diagnostics exist only behind an established failure. */
    predicate Ordered() {
      diagnostics != [] ==> Established() != NoFailure
    }
  }

  datatype ChildDisposal = ChildNotAcquired | ChildConfirmed | ChildUnconfirmed

  datatype WorkspaceDisposal = WorkspaceNotCreated | WorkspaceConfirmed | WorkspaceUnconfirmed

  datatype Residual =
    | ResidualProducer
    | ResidualGroup
    | ResidualRelays
    | ResidualAddressLease
    | ResidualWorkspace
    | ResidualMetadata

  const WORKSPACE_RESIDUALS := {ResidualWorkspace, ResidualMetadata}

  datatype CleanupReport = CleanupReport(
    child: ChildDisposal,
    workspace: WorkspaceDisposal,
    residuals: seq<Residual>)
  {
    predicate Valid() {
      var all := Elements(residuals);
      && Distinct(residuals)
      && (child == ChildUnconfirmed <==> all - WORKSPACE_RESIDUALS != {})
      && (workspace == WorkspaceUnconfirmed <==> all * WORKSPACE_RESIDUALS != {})
      && (child == ChildUnconfirmed ==> workspace == WorkspaceUnconfirmed)
    }

    predicate IsConfirmed() {
      child != ChildUnconfirmed && workspace != WorkspaceUnconfirmed
    }
  }

  datatype LogReport = LogReport(byteCount: int, complete: bool, diagnostic: Option<Diagnostic>) {
    predicate Valid() {
      byteCount >= 0 && (diagnostic.None? <==> complete)
    }
  }

  datatype TerminalSnapshot = TerminalSnapshot(
    outcome: Outcome,
    cleanup: CleanupReport,
    log: Option<LogReport>)
  {
    /** The checks that relate the three parts. */
    predicate Coherent() {
      && (cleanup.child == ChildNotAcquired ==> outcome.childResult.None?)
      && (log.Some? && log.value.complete ==> cleanup.child != ChildUnconfirmed)
      && (!cleanup.IsConfirmed() ==> outcome.primary.Some? || outcome.diagnostics != [])
    }

    /** A snapshot whose every constructor accepted its arguments. */
    predicate Valid() {
      && outcome.Valid()
      && cleanup.Valid()
      && (log.Some? ==> log.value.Valid())
      && Coherent()
    }

    predicate OperationFailed(policy: CompletionPolicy) {
      !cleanup.IsConfirmed() || outcome.OperationFailed(policy)
    }
  }

  /**
   * When an operation counts as a success: everything was disposed of, no
   * failure was recorded, and the child did what it was to do. One that runs
   * to its end exits with 0 of its own accord; a server has no result, exits
   * with 0, or was asked to exit.
   */
  lemma SuccessExactly(s: TerminalSnapshot, policy: CompletionPolicy)
    ensures !s.OperationFailed(policy) <==>
            && s.cleanup.child != ChildUnconfirmed && s.cleanup.workspace != WorkspaceUnconfirmed
            && s.outcome.primary.None?
            && (s.outcome.childResult == Some(ChildResult(0, false)) ||
                (policy.LiveServer? &&
                 (s.outcome.childResult.None? || s.outcome.childResult.value.returncode == 0 ||
                  s.outcome.childResult.value.terminationRequested)))
  {
  }

  function FoldFailures(o: Outcome, failures: seq<Diagnostic>): Outcome
    decreases |failures|
  {
    if |failures| == 0 then o
    else FoldFailures(o.WithFailure(failures[0]), failures[1..])
  }

  /**
   * Any number of later failures keeps the established one and appends the
   * rest in arrival order; nothing is dropped, repeated or reordered.
   */
  lemma {:induction false} FailuresJoinInArrivalOrder(o: Outcome, failures: seq<Diagnostic>)
    requires o.Ordered()
    ensures FoldFailures(o, failures).Recorded() == o.Recorded() + failures
    ensures o.Established() != NoFailure ==>
              FoldFailures(o, failures).Established() == o.Established()
    ensures o.Established() == NoFailure && failures != [] ==>
              FoldFailures(o, failures).Established() == ByDiagnostic(failures[0])
    ensures FoldFailures(o, failures).childResult == o.childResult
    decreases |failures|
  {
    if |failures| == 0 {
    } else {
      FailuresJoinInArrivalOrder(o.WithFailure(failures[0]), failures[1..]);
      assert failures == [failures[0]] + failures[1..];
    }
  }
}
