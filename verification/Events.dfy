/** Helper events and the controller's event-order validation (protocol/wire.py). */
module Events {
  import opened Base
  import opened Outcomes
  import opened Framing

  datatype Event =
    | SessionCreated(helper: string, sessionId: string, workspace: string)
    | AttemptStarted(argv: seq<string>)
    | ReadyAt(address: nat, childPid: int)
    | ChildOutput(stream: string, payload: string, lineEnd: bool)
    | LogData(offset: int, data: bytes)
    | SessionEnded(snapshot: TerminalSnapshot)

  const MAX_LOG_DATA_BYTES := 64 * 1024

  const LOOPBACK_FIRST := 0x7F40_0000
  const LOOPBACK_LAST := 0x7F7F_FFFF

  /** A usable address of 127.64.0.0/10: neither its network nor its broadcast address. */
  predicate UsableAddress(address: nat) {
    LOOPBACK_FIRST < address < LOOPBACK_LAST
  }

  predicate Text(s: string) {
    s != "" && '\0' !in s
  }

  predicate ValidArgv(argv: seq<string>) {
    argv != [] && argv[0] != "" && forall arg | arg in argv :: '\0' !in arg
  }

  /** A LOG_DATA payload is non-empty and bounded. */
  predicate Sized(e: Event) {
    e.LogData? ==> 0 < |e.data| <= MAX_LOG_DATA_BYTES
  }

  /** validate_event: the fields of one event, independently of history. */
  predicate ValidEvent(e: Event) {
    match e
    case SessionCreated(helper, id, workspace) => Text(helper) && Text(id) && Text(workspace)
    case AttemptStarted(argv) => ValidArgv(argv)
    case ReadyAt(address, pid) => UsableAddress(address) && pid >= 1
    case ChildOutput(stream, payload, lineEnd) =>
      stream in {"stdout", "stderr"} && '\n' !in payload && (payload != "" || lineEnd)
    case LogData(offset, data) => Sized(e) && offset >= 0
    case SessionEnded(snapshot) => snapshot.Valid() && CodesPresent(snapshot)
  }

  /** Every diagnostic code on the wire is non-empty, at every depth. */
  predicate CodePresent(d: Diagnostic) {
    (d.code.Other? ==> d.code.text != "") && forall x | x in d.diagnostics :: CodePresent(x)
  }

  predicate CodesPresent(s: TerminalSnapshot) {
    && (s.outcome.primary.Some? ==> CodePresent(s.outcome.primary.value))
    && (forall d | d in s.outcome.diagnostics :: CodePresent(d))
    && (s.log.Some? && s.log.value.diagnostic.Some? ==> CodePresent(s.log.value.diagnostic.value))
  }

  /** The bytes an event carries for the log. */
  function Payload(e: Event): bytes {
    if e.LogData? then e.data else []
  }

  /** All log bytes of an event sequence. */
  function LogOf(es: seq<Event>): bytes {
    if |es| == 0 then [] else Payload(es[0]) + LogOf(es[1..])
  }

  lemma LogOfCons(e: Event, es: seq<Event>)
    ensures LogOf([e] + es) == Payload(e) + LogOf(es)
  {
    assert ([e] + es)[1..] == es;
  }

  lemma {:induction false} LogOfAppend(a: seq<Event>, b: seq<Event>)
    ensures LogOf(a + b) == LogOf(a) + LogOf(b)
  {
    if |a| == 0 {
      assert a + b == b;
    } else {
      LogOfAppend(a[1..], b);
      assert (a + b)[0] == a[0] && (a + b)[1..] == a[1..] + b;
      Assoc(Payload(a[0]), LogOf(a[1..]), LogOf(b));
    }
  }

  lemma LogOfSnoc(a: seq<Event>, e: Event)
    ensures LogOf(a + [e]) == LogOf(a) + Payload(e)
  {
    LogOfAppend(a, [e]);
    assert LogOf([e]) == Payload(e) + LogOf([]);
  }

  /** The fields of an EventOrder. */
  datatype Order = Order(
    policy: CompletionPolicy,
    logRequested: bool,
    created: bool,
    attempted: bool,
    ready: bool,
    outputSeen: bool,
    logBytes: nat,
    ended: bool)

  function NewOrder(policy: CompletionPolicy, logRequested: bool): Order {
    Order(policy, logRequested, false, false, false, false, 0, false)
  }

  /** Whether a terminal snapshot agrees with the observed history. */
  predicate TerminalFits(o: Order, s: TerminalSnapshot) {
    && (s.outcome.childResult.Some? ==> o.attempted)
    && (s.log.Some? <==> o.logRequested)
    && (s.log.Some? ==> s.log.value.byteCount == o.logBytes)
    && (o.created ==> s.cleanup.workspace != WorkspaceNotCreated)
    && (o.ready || o.outputSeen ==> s.cleanup.child != ChildNotAcquired)
  }

  /** One event; None is the source's ProtocolError. */
  function Advance(o: Order, e: Event): Option<Order> {
    if !ValidEvent(e) || o.ended || (!o.created && !e.SessionCreated? && !e.SessionEnded?) then None
    else
      match e
      case SessionCreated(_, _, _) => if o.created then None else Some(o.(created := true))
      case AttemptStarted(_) => if o.attempted then None else Some(o.(attempted := true))
      case ReadyAt(_, _) =>
        if !o.policy.LiveServer? || o.ready || !o.attempted then None else Some(o.(ready := true))
      case ChildOutput(_, _, _) => if !o.attempted then None else Some(o.(outputSeen := true))
      case LogData(offset, _) =>
        if !o.attempted || !o.logRequested || offset != o.logBytes then None
        else Some(o.(logBytes := o.logBytes + |Payload(e)|, outputSeen := true))
      case SessionEnded(s) => if !TerminalFits(o, s) then None else Some(o.(ended := true))
  }

  function AcceptAll(o: Order, es: seq<Event>): Option<Order>
    decreases |es|
  {
    if |es| == 0 then Some(o)
    else
      var next := Advance(o, es[0]);
      if next.None? then None else AcceptAll(next.value, es[1..])
  }

  lemma {:induction false} AcceptAllAppend(o: Order, a: seq<Event>, b: seq<Event>)
    ensures AcceptAll(o, a + b) ==
            if AcceptAll(o, a).None? then None else AcceptAll(AcceptAll(o, a).value, b)
    decreases |a|
  {
    if |a| == 0 {
      assert a + b == b;
    } else {
      assert (a + b)[1..] == a[1..] + b;
      if Advance(o, a[0]).Some? {
        AcceptAllAppend(Advance(o, a[0]).value, a[1..], b);
      }
    }
  }

  lemma AcceptAllSnoc(o: Order, a: seq<Event>, e: Event)
    ensures AcceptAll(o, a + [e]) ==
            if AcceptAll(o, a).None? then None else Advance(AcceptAll(o, a).value, e)
  {
    AcceptAllAppend(o, a, [e]);
    if AcceptAll(o, a).Some? {
      var p := AcceptAll(o, a).value;
      assert Advance(p, e).Some? ==> AcceptAll(Advance(p, e).value, [e][1..]) == Advance(p, e);
    }
  }

  /** Which facts a history establishes, read off the events themselves. */
  predicate HasAttempt(es: seq<Event>) {
    exists e | e in es :: e.AttemptStarted?
  }

  predicate HasReady(es: seq<Event>) {
    exists e | e in es :: e.ReadyAt?
  }

  predicate HasOutput(es: seq<Event>) {
    exists e | e in es :: e.ChildOutput? || e.LogData?
  }

  predicate HasEnd(es: seq<Event>) {
    exists e | e in es :: e.SessionEnded?
  }

  predicate Opened(es: seq<Event>) {
    es != [] && es[0].SessionCreated?
  }

  /** When an event may follow a history: the protocol's grammar, without a machine. */
  predicate Allowed(policy: CompletionPolicy, logRequested: bool, before: seq<Event>, e: Event) {
    && ValidEvent(e)
    && !HasEnd(before)
    && match e
       case SessionCreated(_, _, _) => before == []
       case AttemptStarted(_) => Opened(before) && !HasAttempt(before)
       case ReadyAt(_, _) =>
         policy.LiveServer? && Opened(before) && HasAttempt(before) && !HasReady(before)
       case ChildOutput(_, _, _) => Opened(before) && HasAttempt(before)
       case LogData(offset, _) =>
         Opened(before) && HasAttempt(before) && logRequested && offset == |LogOf(before)|
       case SessionEnded(s) =>
         && (s.outcome.childResult.Some? ==> HasAttempt(before))
         && (s.log.Some? <==> logRequested)
         && (s.log.Some? ==> s.log.value.byteCount == |LogOf(before)|)
         && (Opened(before) ==> s.cleanup.workspace != WorkspaceNotCreated)
         && (HasReady(before) || HasOutput(before) ==> s.cleanup.child != ChildNotAcquired)
  }

  /** A session history: every event is allowed by what came before it. */
  predicate History(policy: CompletionPolicy, logRequested: bool, es: seq<Event>) {
    forall i | 0 <= i < |es| :: Allowed(policy, logRequested, es[..i], es[i])
  }

  /** The state an accepted history leaves behind. */
  ghost predicate Reflects(o: Order, policy: CompletionPolicy, logRequested: bool, es: seq<Event>) {
    && o.policy == policy && o.logRequested == logRequested
    && o.created == Opened(es)
    && o.attempted == HasAttempt(es)
    && o.ready == HasReady(es)
    && o.outputSeen == HasOutput(es)
    && o.logBytes == |LogOf(es)|
    && o.ended == HasEnd(es)
    && (es != [] ==> Opened(es) || HasEnd(es))
  }

  lemma Extends(o: Order, policy: CompletionPolicy, logRequested: bool, es: seq<Event>, e: Event)
    requires Reflects(o, policy, logRequested, es)
    ensures Advance(o, e).Some? <==> Allowed(policy, logRequested, es, e)
    ensures Advance(o, e).Some? ==> Reflects(Advance(o, e).value, policy, logRequested, es + [e])
  {
    LogOfSnoc(es, e);
    var all := es + [e];
    assert e in all && forall x | x in es :: x in all;
    assert forall x | x in all :: x in es || x == e;
    assert es != [] ==> all[0] == es[0];
  }

  /**
   * The event-order machine accepts exactly the histories of the protocol, for
   * every policy, log request and event sequence.
   */
  lemma {:induction false} AcceptsExactlyHistories(policy: CompletionPolicy, logRequested: bool, es: seq<Event>)
    ensures AcceptAll(NewOrder(policy, logRequested), es).Some? <==> History(policy, logRequested, es)
    ensures AcceptAll(NewOrder(policy, logRequested), es).Some? ==>
              Reflects(AcceptAll(NewOrder(policy, logRequested), es).value, policy, logRequested, es)
    decreases |es|
  {
    if |es| == 0 {
    } else {
      var n := |es| - 1;
      var before := es[..n];
      AcceptsExactlyHistories(policy, logRequested, before);
      AcceptAllSnoc(NewOrder(policy, logRequested), before, es[n]);
      assert es == before + [es[n]];
      assert forall i | 0 <= i < n :: before[..i] == es[..i] && before[i] == es[i];
      var p := AcceptAll(NewOrder(policy, logRequested), before);
      if p.Some? {
        Extends(p.value, policy, logRequested, before, es[n]);
      }
    }
  }

  /** protocol/wire.py EventOrder. */
  class EventOrder {
    var policy: CompletionPolicy
    var logRequested: bool
    var created: bool
    var attempted: bool
    var ready: bool
    var childOutputSeen: bool
    var logBytes: nat
    var ended: bool

    function State(): Order
      reads this
    {
      Order(policy, logRequested, created, attempted, ready, childOutputSeen, logBytes, ended)
    }

    constructor (policy: CompletionPolicy, logRequested: bool)
      ensures State() == NewOrder(policy, logRequested)
    {
      this.policy := policy;
      this.logRequested := logRequested;
      created, attempted, ready, childOutputSeen, logBytes, ended := false, false, false, false, 0, false;
    }

    method Accept(e: Event) returns (raised: bool)
      modifies this
      ensures raised <==> Advance(old(State()), e).None?
      ensures State() == if raised then old(State()) else Advance(old(State()), e).value
    {
      if !ValidEvent(e) {
        return true;
      }
      if ended || (!created && !e.SessionCreated? && !e.SessionEnded?) {
        return true;
      }
      match e {
        case SessionCreated(_, _, _) =>
          if created {
            return true;
          }
          created := true;
        case AttemptStarted(_) =>
          if attempted {
            return true;
          }
          attempted := true;
        case ReadyAt(_, _) =>
          if !policy.LiveServer? || ready || !attempted {
            return true;
          }
          ready := true;
        case ChildOutput(_, _, _) =>
          if !attempted {
            return true;
          }
          childOutputSeen := true;
        case LogData(offset, data) =>
          if !attempted || !logRequested {
            return true;
          }
          if offset != logBytes {
            return true;
          }
          logBytes := logBytes + |data|;
          childOutputSeen := true;
        case SessionEnded(s) =>
          if s.outcome.childResult.Some? && !attempted {
            return true;
          }
          if s.log.Some? != logRequested {
            return true;
          }
          if s.log.Some? && s.log.value.byteCount != logBytes {
            return true;
          }
          if created && s.cleanup.workspace.WorkspaceNotCreated? {
            return true;
          }
          if (ready || childOutputSeen) && s.cleanup.child.ChildNotAcquired? {
            return true;
          }
          ended := true;
      }
      return false;
    }
  }

  /** Frame text of events, and what the reader makes of a frame. */
  datatype Codec = Codec(encode: Event -> Option<bytes>, decode: bytes -> Option<Event>) {
    /** Encoded frames are single bounded frames, and decoding inverts encoding. */
    ghost predicate Sound() {
      forall e | Sized(e) && encode(e).Some? ::
        IsFrame(encode(e).value) && decode(encode(e).value) == Some(e)
    }

    ghost predicate Encodes(es: seq<Event>) {
      forall e | e in es :: encode(e).Some? && Sized(e)
    }
  }

  /** The frames of an event sequence. */
  ghost function Frames(c: Codec, es: seq<Event>): seq<bytes>
    requires c.Encodes(es)
  {
    seq(|es|, i requires 0 <= i < |es| => assert es[i] in es; c.encode(es[i]).value)
  }

  lemma FramesSnoc(c: Codec, es: seq<Event>, e: Event)
    requires c.Encodes(es) && c.encode(e).Some? && Sized(e)
    ensures c.Encodes(es + [e]) && Frames(c, es + [e]) == Frames(c, es) + [c.encode(e).value]
  {
  }

  lemma FramesAppend(c: Codec, a: seq<Event>, b: seq<Event>)
    requires c.Encodes(a) && c.Encodes(b)
    ensures c.Encodes(a + b) && Frames(c, a + b) == Frames(c, a) + Frames(c, b)
  {
    forall i | 0 <= i < |a| + |b|
      ensures (a + b)[i] == (if i < |a| then a[i] else b[i - |a|])
    {
    }
  }

  lemma FramesCons(c: Codec, e: Event, es: seq<Event>)
    requires c.Encodes(es) && c.encode(e).Some? && Sized(e)
    ensures c.Encodes([e] + es) && Frames(c, [e] + es) == [c.encode(e).value] + Frames(c, es)
  {
    FramesAppend(c, [e], es);
    assert Frames(c, [e]) == [c.encode(e).value];
  }
}
