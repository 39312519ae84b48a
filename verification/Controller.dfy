/**
 * The controller's coordinator and its reader together: the authority, the
 * event order and the START pipe, in every interleaving of the two threads
 * (controller/helper_connection.py).
 */
module Controllers {
  import opened Base
  import opened Outcomes
  import opened Events
  import Admissions
  import Authorities

  /** `held` is an event the reader has accepted and not dispatched yet. */
  datatype Controller = Controller(
    authority: Authorities.Authority,
    order: Order,
    planned: bool,
    startSent: bool,
    held: Option<Event>)

  function NewController(): Controller {
    Controller(Authorities.NewAuthority(), NewOrder(LiveServer, false), false, false, None)
  }

  /** One atomic step of the coordinator or of the reader. */
  datatype Step =
    | SetPolicy(policy: CompletionPolicy)
    | SetOrder(policy: CompletionPolicy, logRequested: bool)
    | SendStart
    | Accept(event: Event)
    | Dispatch
    | Other(call: Authorities.Call)

  /**
   * The coordinator sets the policy, then the reader's expectations, then
   * writes START, once. A helper announces an attempt only under a START it
   * received. Everything else may call the authority at any time.
   */
  predicate Enabled(k: Controller, s: Step) {
    match s
    case SetPolicy(_) => !k.planned
    case SetOrder(_, _) => !k.planned
    case SendStart => k.planned
    case Accept(e) => k.held.None? && Advance(k.order, e).Some? && (e.AttemptStarted? ==> k.startSent)
    case Dispatch => k.held.Some?
    case Other(call) => !call.SetPolicy? && !call.RecordTerminal? && Authorities.CallOk(k.authority, call)
  }

  /** What dispatching an event tells the authority. */
  function Dispatched(a: Authorities.Authority, e: Event): Authorities.Authority {
    match e
    case ReadyAt(_, _) => Authorities.Do(a, Authorities.RecordReady).0
    case SessionEnded(snapshot) => Authorities.Do(a, Authorities.RecordTerminal(snapshot)).0
    case _ => a
  }

  function Do(k: Controller, s: Step): Controller {
    match s
    case SetPolicy(policy) => k.(authority := Authorities.Do(k.authority, Authorities.SetPolicy(policy)).0)
    case SetOrder(policy, requested) =>
      k.(order := k.order.(policy := policy, logRequested := requested), planned := true)
    case SendStart => k.(startSent := true)
    case Accept(e) =>
      var next := Advance(k.order, e);
      if next.None? then k else k.(order := next.value, held := Some(e))
    case Dispatch =>
      if k.held.None? then k
      else k.(authority := Dispatched(k.authority, k.held.value), held := None)
    case Other(call) => k.(authority := Authorities.Do(k.authority, call).0)
  }

  function Run(k: Controller, steps: seq<Step>): Controller
    decreases |steps|
  {
    if |steps| == 0 then k else Run(Do(k, steps[0]), steps[1..])
  }

  predicate AllEnabled(k: Controller, steps: seq<Step>)
    decreases |steps|
  {
    |steps| == 0 || (Enabled(k, steps[0]) && AllEnabled(Do(k, steps[0]), steps[1..]))
  }

  /** A terminal that reports no child result. */
  predicate Childless(t: Option<TerminalSnapshot>) {
    t.Some? && t.value.outcome.childResult.None?
  }

  /** The terminal, accepted or recorded, was the last event; its child result needs an attempt, so START was sent. */
  predicate ControllerInv(k: Controller) {
    && Authorities.AuthorityInv(k.authority)
    && (k.startSent ==> k.planned)
    && (k.order.attempted ==> k.startSent)
    && (k.held.Some? && k.held.value.SessionEnded? ==>
          && k.order.ended
          && k.authority.terminal.None?
          && (k.held.value.snapshot.outcome.childResult.Some? ==> k.startSent))
    && (k.authority.terminal.Some? ==> k.order.ended)
    && (k.order.ended ==> k.authority.terminal.Some? || (k.held.Some? && k.held.value.SessionEnded?))
    && (k.order.ready ==> k.authority.gate.remoteReady || (k.held.Some? && k.held.value.ReadyAt?))
    && (k.authority.terminal.Some? ==> Childless(k.authority.terminal) || k.startSent)
    && (Authorities.Judged(k.authority) || Childless(k.authority.terminal))
  }

  /** No call but its own changes the terminal or the policy. */
  lemma TerminalStays(a: Authorities.Authority, call: Authorities.Call)
    requires Authorities.AuthorityInv(a) && Authorities.CallOk(a, call)
    requires !call.SetPolicy? && !call.RecordTerminal?
    ensures Authorities.Do(a, call).0.terminal == a.terminal && Authorities.Do(a, call).0.policy == a.policy
  {
    match call
    case FinishControlExit => Authorities.FinishExactly(a);
    case _ =>
  }

  lemma DispatchKeeps(k: Controller)
    requires ControllerInv(k) && k.held.Some?
    ensures ControllerInv(Do(k, Dispatch))
  {
    var a := k.authority;
    match k.held.value
    case ReadyAt(_, _) =>
      Authorities.StepKeeps(a, Authorities.RecordReady);
    case SessionEnded(snapshot) =>
      Authorities.TerminalExactly(a, snapshot);
      Authorities.StepJudges(a, Authorities.RecordTerminal(snapshot));
    case _ =>
  }

  lemma StepKeeps(k: Controller, s: Step)
    requires ControllerInv(k) && Enabled(k, s)
    ensures ControllerInv(Do(k, s))
  {
    match s
    case SetPolicy(policy) => Authorities.StepKeeps(k.authority, Authorities.SetPolicy(policy));
    case Dispatch => DispatchKeeps(k);
    case Other(call) =>
      Authorities.StepKeeps(k.authority, call);
      TerminalStays(k.authority, call);
      if Authorities.Judged(k.authority) {
        Authorities.StepJudges(k.authority, call);
      }
    case _ =>
  }

  lemma {:induction false} EveryRun(k: Controller, steps: seq<Step>)
    requires ControllerInv(k) && AllEnabled(k, steps)
    ensures ControllerInv(Run(k, steps))
    decreases |steps|
  {
    if |steps| > 0 {
      StepKeeps(k, steps[0]);
      EveryRun(Do(k, steps[0]), steps[1..]);
    }
  }

  /**
   * What the reader accepted reaches the authority: with no event held, READY
   * was observed if the stream had it, and the terminal recorded exactly when
   * it did. From then on no dependent work is admitted.
   */
  lemma AcceptedReachesAuthority(steps: seq<Step>, required: set<Admissions.Forward>,
                                 forwarded: set<Admissions.Forward>, finalRefuses: bool)
    requires AllEnabled(NewController(), steps)
    ensures
      var k := Run(NewController(), steps);
      k.held.None? ==>
        && (k.order.ready ==> k.authority.gate.remoteReady)
        && (k.authority.terminal.Some? <==> k.order.ended)
        && (Authorities.Do(k.authority, Authorities.AdmitWork(required, forwarded, finalRefuses)).1.Granted? ==>
              !k.order.ended)
  {
    EveryRun(NewController(), steps);
    Authorities.EntryExactly(Run(NewController(), steps).authority, required, forwarded, finalRefuses);
  }

  /**
   * The status of an operation is never that of a failed child, for any
   * interleaving of coordinator and reader: START carries the policy, and only
   * an attempt, which needs START, gives a terminal a child result.
   */
  lemma OperationStatusIsTrue(steps: seq<Step>)
    requires AllEnabled(NewController(), steps)
    ensures
      var a := Run(NewController(), steps).authority;
      var answer := Authorities.Do(a, Authorities.OperationStatus).1;
      answer.Value? && answer.status.Some? ==>
        && a.terminal.Some? && !a.terminal.value.OperationFailed(a.policy)
        && a.terminal.value.cleanup.IsConfirmed()
        && (answer.status.value == 0 ||
            (a.policy.LiveServer? && a.terminal.value.outcome.childResult.value.terminationRequested))
  {
    EveryRun(NewController(), steps);
  }
}
