/** Local launch eligibility (controller/admission.py). */
module Admissions {
  import opened Base

  /** A forward specification, by identity. */
  type Forward = nat

  datatype GatePhase = Opening | Launched | Cancelling | Over

  datatype Gate = Gate(
    phase: GatePhase,
    ticket: Option<nat>,
    required: set<Forward>,
    forwarded: set<Forward>,
    remoteReady: bool,
    failure: Option<nat>)
  {
    /** Preparing a launch is refused. */
    predicate Denies() {
      phase.Cancelling? || phase.Over?
    }

    /** What entry checks. */
    predicate Eligible(presented: nat) {
      phase.Opening? && ticket == Some(presented) && remoteReady && required <= forwarded
    }
  }

  function NewGate(): Gate {
    Gate(Opening, None, {}, {}, false, None)
  }

  function NextTicket(g: Gate): nat {
    (if g.ticket.Some? then g.ticket.value else 0) + 1
  }

  /** None is LaunchDenied. */
  function PreparedGate(g: Gate, required: set<Forward>): Option<Gate> {
    if g.Denies() then None
    else Some(g.(ticket := Some(NextTicket(g)), required := required, phase := Opening))
  }

  function CancelledGate(g: Gate): Gate {
    if g.phase.Over? then g else g.(phase := Cancelling)
  }

  function FailedGate(g: Gate, failure: nat): Gate {
    CancelledGate(if g.failure.None? then g.(failure := Some(failure)) else g)
  }

  class AdmissionGate {
    var phase: GatePhase
    var ticket: Option<nat>
    var required: set<Forward>
    var forwarded: set<Forward>
    var remoteReady: bool
    var failure: Option<nat>

    function State(): Gate
      reads this
    {
      Gate(phase, ticket, required, forwarded, remoteReady, failure)
    }

    constructor ()
      ensures State() == NewGate()
    {
      phase, ticket, required, forwarded, remoteReady, failure := Opening, None, {}, {}, false, None;
    }

    method Prepare(forwards: set<Forward>) returns (presented: nat, denied: bool)
      modifies this
      ensures denied <==> old(State()).Denies()
      ensures denied ==> State() == old(State())
      ensures !denied ==> Some(State()) == PreparedGate(old(State()), forwards) && ticket == Some(presented)
    {
      if phase.Cancelling? || phase.Over? {
        return 0, true;
      }
      presented := (if ticket.Some? then ticket.value else 0) + 1;
      ticket := Some(presented);
      required := forwards;
      phase := Opening;
      return presented, false;
    }

    method ObserveRemoteReady()
      modifies this
      ensures State() == old(State()).(remoteReady := true)
    {
      remoteReady := true;
    }

    method ObserveForwarded(forwards: set<Forward>)
      modifies this
      ensures State() == old(State()).(forwarded := forwards)
    {
      forwarded := forwards;
    }

    method Enter(presented: nat) returns (entered: bool)
      modifies this
      ensures entered <==> old(State()).Eligible(presented)
      ensures State() == if entered then old(State()).(phase := Launched) else old(State())
    {
      if !phase.Opening? || ticket != Some(presented) || !remoteReady || !(required <= forwarded) {
        return false;
      }
      phase := Launched;
      return true;
    }

    method Cancel()
      modifies this
      ensures State() == CancelledGate(old(State()))
    {
      if !phase.Over? {
        phase := Cancelling;
      }
    }

    method Fail(diagnostic: nat)
      modifies this
      ensures State() == FailedGate(old(State()), diagnostic)
    {
      if failure.None? {
        failure := Some(diagnostic);
      }
      Cancel();
    }

    method End()
      modifies this
      ensures State() == old(State()).(phase := Over)
    {
      phase := Over;
    }
  }
}
