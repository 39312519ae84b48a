/** The bounded, exact-prefix log relay of helper/_log_relay.py. */
module Relaying {
  import opened Base
  import opened Outcomes
  import opened Events
  import opened Streams

  const LOG_RELAY_BUFFER_BYTES := 8 * 1024 * 1024
  const LOG_CREDIT_BYTES := 256 * 1024

  /**
   * The relay's fields, with three histories: every byte read from the
   * channel, every byte admitted as LOG_DATA, and every byte given up.
   */
  datatype Relay = Relay(
    buffer: seq<bytes>,
    buffered: int,
    admitted: nat,
    continuityLost: bool,
    endOfFile: bool,
    reading: bool,
    finalPhase: bool,
    disposalConfirmed: bool,
    incomplete: Option<Diagnostic>,
    decision: Option<LogReport>,
    readerOpen: bool,
    writerOpen: bool,
    channel: bytes,
    sent: bytes,
    dropped: bytes)

  function NewRelay(): Relay {
    Relay([], 0, 0, false, false, true, false, false, None, None, true, true, [], [], [])
  }

  /** Retain the first cause; later causes cannot replace it. */
  function Recorded(r: Relay, code: Code): Relay {
    if r.incomplete.None? && r.decision.None? then r.(incomplete := Some(Fault(code))) else r
  }

  function Severed(r: Relay): Relay {
    r.(continuityLost := true, buffer := [], buffered := 0, dropped := Flatten(r.buffer) + r.dropped)
  }

  /** How much of an oversized chunk still fits. */
  function Fits(r: Relay, chunk: bytes): (n: nat)
    ensures n <= |chunk|
  {
    var room := LOG_RELAY_BUFFER_BYTES - r.buffered;
    if 0 < room < |chunk| then room else 0
  }

  function WithPart(buffer: seq<bytes>, part: bytes): seq<bytes> {
    if |part| > 0 then buffer + [part] else buffer
  }

  /** Keep what fits of a chunk and give up the rest, for good. */
  function Shortened(r: Relay, chunk: bytes): Relay {
    var fits := Fits(r, chunk);
    r.(buffer := WithPart(r.buffer, chunk[..fits]),
       buffered := r.buffered + fits,
       continuityLost := true,
       channel := r.channel + chunk,
       dropped := chunk[fits..])
  }

  function Overflowed(r: Relay, chunk: bytes): Relay {
    Recorded(Shortened(r, chunk), LogOverflow)
  }

  /** Bytes read from the channel; an empty chunk is its end-of-file. */
  function Accepted(r: Relay, chunk: bytes): Relay {
    if chunk == [] then r.(endOfFile := true, reading := false, finalPhase := true)
    else if r.continuityLost || r.decision.Some? then
      r.(channel := r.channel + chunk, dropped := r.dropped + chunk)
    else
      var room := LOG_RELAY_BUFFER_BYTES - r.buffered;
      if |chunk| <= room then
        r.(buffer := r.buffer + [chunk], buffered := r.buffered + |chunk|, channel := r.channel + chunk)
      else
        Overflowed(r, chunk)
  }

  /** One admission: the relay, the writer, the admitted event, and whether admission failed. */
  datatype Pumped = Pumped(relay: Relay, output: Output, events: seq<Event>)

  /** Split the head of the buffer at the LOG_DATA bound. */
  function Head(r: Relay): bytes
    requires r.buffer != []
  {
    if |r.buffer[0]| > MAX_LOG_DATA_BYTES then r.buffer[0][..MAX_LOG_DATA_BYTES] else r.buffer[0]
  }

  function Popped(r: Relay): Relay
    requires r.buffer != []
  {
    var rest := if |r.buffer[0]| > MAX_LOG_DATA_BYTES then [r.buffer[0][MAX_LOG_DATA_BYTES..]] else [];
    r.(buffer := rest + r.buffer[1..], buffered := r.buffered - |Head(r)|)
  }

  function HeadEvent(r: Relay): Event
    requires r.buffer != []
  {
    LogData(r.admitted, Head(r))
  }

  function Admitted(r: Relay): Relay
    requires r.buffer != []
  {
    Popped(r).(admitted := r.admitted + |Head(r)|, sent := r.sent + Head(r))
  }

  /** A refused admission: the head and everything after it is given up. */
  function Abandoned(r: Relay): Relay
    requires r.buffer != []
  {
    var popped := Severed(Popped(r));
    Recorded(popped.(dropped := Head(r) + popped.dropped), LogAdmission)
  }

  lemma PoppedFlatten(r: Relay)
    requires r.buffer != []
    ensures Flatten(r.buffer) == Head(r) + Flatten(Popped(r).buffer)
  {
    var rest := Popped(r).buffer;
    if |r.buffer[0]| > MAX_LOG_DATA_BYTES {
      var tail := r.buffer[0][MAX_LOG_DATA_BYTES..];
      FlattenCons(tail, r.buffer[1..]);
      Assoc(Head(r), tail, Flatten(r.buffer[1..]));
      assert r.buffer[0] == Head(r) + tail;
    } else {
      assert rest == r.buffer[1..];
    }
  }

  /** Admit buffered bytes as LOG_DATA while the writer's log credit allows. */
  function PumpAll(c: Codec, r: Relay, o: Output): Pumped
    decreases |Flatten(r.buffer)|, |r.buffer|
  {
    if r.buffer == [] || o.logPending >= LOG_CREDIT_BYTES then Pumped(r, o, [])
    else
      var next := Emitted(c, o, HeadEvent(r), true);
      if next.None? then Pumped(Abandoned(r), o, [])
      else
        PoppedFlatten(r);
        var rest := PumpAll(c, Admitted(r), next.value);
        rest.(events := [HeadEvent(r)] + rest.events)
  }

  /** Whether a pump meets an admission that is refused. */
  predicate Refuses(c: Codec, r: Relay, o: Output)
    decreases |Flatten(r.buffer)|, |r.buffer|
  {
    && r.buffer != [] && o.logPending < LOG_CREDIT_BYTES
    && var next := Emitted(c, o, HeadEvent(r), true);
       (PoppedFlatten(r); next.None? || Refuses(c, Admitted(r), next.value))
  }

  function DisposalConfirmed(r: Relay): Relay {
    r.(disposalConfirmed := true, finalPhase := true, writerOpen := false)
  }

  function WasCut(r: Relay): Relay {
    Recorded(r.(reading := false, finalPhase := true), LogDisposal)
  }

  function ReadFailed(r: Relay): Relay {
    Recorded(r.(reading := false), LogReadError)
  }

  predicate ReadyToDecide(r: Relay) {
    r.decision.None? && r.finalPhase && !r.reading && r.buffer == []
  }

  function Decided(r: Relay, deadline: bool, childAcquired: bool): Relay {
    if r.decision.Some? then r
    else
      var late := if deadline && (r.buffer != [] || r.reading) then Recorded(r, Code.LogDeadline) else r;
      var settled :=
        if childAcquired && !(r.endOfFile && r.disposalConfirmed) then Recorded(late, LogUnsettled)
        else late;
      var cut := Severed(settled);
      cut.(decision := Some(LogReport(cut.admitted, cut.incomplete.None?, cut.incomplete)))
  }

  /** The report projected from the decision; an undecided relay decides here. */
  function Reported(r: Relay, childDisposalConfirmed: bool): LogReport {
    var decision := Decided(r, false, true).decision.value;
    if decision.complete && !childDisposalConfirmed
    then LogReport(decision.byteCount, false, Some(Fault(LogDisposal)))
    else decision
  }

  ghost predicate Nonempty(chunks: seq<bytes>) {
    forall i | 0 <= i < |chunks| :: chunks[i] != []
  }

  /** The causes the relay records. */
  predicate RelayFault(d: Diagnostic) {
    && d == Fault(d.code)
    && (|| d.code.LogOverflow? || d.code.LogAdmission? || d.code.LogReadError?
        || d.code.LogDisposal? || d.code.LogDeadline? || d.code.LogUnsettled?)
  }

  /**
   * What every relay state satisfies: the channel is the admitted bytes, then
   * the buffered ones, then the ones given up; nothing is given up before
   * continuity is lost, something is by then, and that loss has a recorded
   * cause; the buffer is bounded; a decision counts exactly the admitted bytes and ends admission.
   */
  ghost predicate RelayInv(r: Relay) {
    && r.buffered == |Flatten(r.buffer)| <= LOG_RELAY_BUFFER_BYTES
    && Nonempty(r.buffer)
    && r.admitted == |r.sent|
    && r.sent + (Flatten(r.buffer) + r.dropped) == r.channel
    && (!r.continuityLost ==> r.dropped == [])
    && (r.continuityLost && r.decision.None? ==> r.incomplete.Some? && r.dropped != [])
    && (r.incomplete.Some? ==> RelayFault(r.incomplete.value))
    && (r.decision.Some? ==>
          && r.buffer == []
          && r.continuityLost
          && r.decision.value == LogReport(r.admitted, r.incomplete.None?, r.incomplete))
  }

  /** The conservation law when a chunk is kept in part and lost in part. */
  lemma LawAppend(sent: bytes, held: bytes, channel: bytes, kept: bytes, lost: bytes)
    requires sent + (held + []) == channel
    ensures sent + ((held + kept) + lost) == channel + (kept + lost)
  {
    assert held + [] == held;
    Assoc(held, kept, lost);
    Assoc(sent, held, kept + lost);
  }

  /** The law when a chunk is lost whole. */
  lemma LawLose(sent: bytes, held: bytes, dropped: bytes, channel: bytes, chunk: bytes)
    requires sent + (held + dropped) == channel
    ensures sent + (held + (dropped + chunk)) == channel + chunk
  {
    Assoc(held, dropped, chunk);
    Assoc(sent, held + dropped, chunk);
  }

  /** The law when the head of the buffer is admitted, or given up with the rest. */
  lemma LawPop(sent: bytes, head: bytes, rest: bytes, dropped: bytes, channel: bytes)
    requires sent + ((head + rest) + dropped) == channel
    ensures (sent + head) + (rest + dropped) == channel
    ensures sent + ([] + (head + (rest + dropped))) == channel
  {
    Assoc(head, rest, dropped);
    Assoc(sent, head, rest + dropped);
    assert [] + (head + (rest + dropped)) == head + (rest + dropped);
  }

  lemma PartLaw(buffer: seq<bytes>, part: bytes)
    requires Nonempty(buffer)
    ensures Flatten(WithPart(buffer, part)) == Flatten(buffer) + part
    ensures Nonempty(WithPart(buffer, part))
  {
    if |part| > 0 {
      FlattenSnoc(buffer, part);
    } else {
      assert Flatten(buffer) + part == Flatten(buffer);
    }
  }

  lemma SplitLaw(sent: bytes, held: bytes, channel: bytes, chunk: bytes, n: nat)
    requires sent + (held + []) == channel && n <= |chunk|
    ensures sent + ((held + chunk[..n]) + chunk[n..]) == channel + chunk
  {
    LawAppend(sent, held, channel, chunk[..n], chunk[n..]);
    assert chunk[..n] + chunk[n..] == chunk;
  }

  lemma OverflowKeeps(r: Relay, chunk: bytes)
    requires RelayInv(r) && !r.continuityLost && r.decision.None?
    requires |chunk| > LOG_RELAY_BUFFER_BYTES - r.buffered
    ensures RelayInv(Overflowed(r, chunk))
  {
    var fits := Fits(r, chunk);
    PartLaw(r.buffer, chunk[..fits]);
    SplitLaw(r.sent, Flatten(r.buffer), r.channel, chunk, fits);
  }

  lemma LoseKeeps(r: Relay, chunk: bytes)
    requires RelayInv(r) && chunk != [] && (r.continuityLost || r.decision.Some?)
    ensures RelayInv(Accepted(r, chunk))
  {
    LawLose(r.sent, Flatten(r.buffer), r.dropped, r.channel, chunk);
  }

  lemma BufferKeeps(r: Relay, chunk: bytes)
    requires RelayInv(r) && chunk != [] && !r.continuityLost && r.decision.None?
    requires |chunk| <= LOG_RELAY_BUFFER_BYTES - r.buffered
    ensures RelayInv(Accepted(r, chunk))
  {
    LawAppend(r.sent, Flatten(r.buffer), r.channel, chunk, []);
    FlattenSnoc(r.buffer, chunk);
    assert chunk + [] == chunk;
  }

  lemma AcceptKeeps(r: Relay, chunk: bytes)
    requires RelayInv(r)
    ensures RelayInv(Accepted(r, chunk))
    ensures Accepted(r, chunk).channel == r.channel + chunk
    ensures Accepted(r, chunk).sent == r.sent
    ensures Accepted(r, chunk).decision == r.decision
    ensures Accepted(r, chunk).endOfFile == (r.endOfFile || chunk == [])
    ensures Accepted(r, chunk).disposalConfirmed == r.disposalConfirmed
  {
    if chunk == [] {
      assert r.channel + chunk == r.channel;
    } else if r.continuityLost || r.decision.Some? {
      LoseKeeps(r, chunk);
    } else if |chunk| <= LOG_RELAY_BUFFER_BYTES - r.buffered {
      BufferKeeps(r, chunk);
    } else {
      OverflowKeeps(r, chunk);
    }
  }

  /** Bytes that would take what is buffered past the bound, while the log is still followed. */
  predicate Overflows(r: Relay, chunk: bytes) {
    !r.continuityLost && r.decision.None? && |Flatten(r.buffer)| + |chunk| > LOG_RELAY_BUFFER_BYTES
  }

  /** How far some bytes fit the bound. */
  function Bounded(all: bytes): (n: nat)
    ensures n <= |all|
  {
    Min(|all|, LOG_RELAY_BUFFER_BYTES)
  }

  lemma OverflowExactly(r: Relay, chunk: bytes)
    requires RelayInv(r) && Overflows(r, chunk)
    ensures
      var all := Flatten(r.buffer) + chunk;
      && Flatten(Overflowed(r, chunk).buffer) == all[..Bounded(all)]
      && Overflowed(r, chunk).dropped == all[Bounded(all)..]
  {
    var all, fits := Flatten(r.buffer) + chunk, Fits(r, chunk);
    PartLaw(r.buffer, chunk[..fits]);
    assert fits == LOG_RELAY_BUFFER_BYTES - |Flatten(r.buffer)|;
    assert all[..Bounded(all)] == Flatten(r.buffer) + chunk[..fits];
  }

  /**
   * What a chunk costs: while the log is followed, exactly the bytes past the
   * bound are given up, so nothing is if and only if the chunk fits.
   * Afterwards the whole chunk is.
   */
  lemma AcceptExactly(r: Relay, chunk: bytes)
    requires RelayInv(r)
    ensures !r.continuityLost && r.decision.None? ==>
              var all := Flatten(r.buffer) + chunk;
              && Flatten(Accepted(r, chunk).buffer) == all[..Bounded(all)]
              && Accepted(r, chunk).dropped == all[Bounded(all)..]
    ensures r.continuityLost || r.decision.Some? ==>
              Flatten(Accepted(r, chunk).buffer) == Flatten(r.buffer) && Accepted(r, chunk).dropped == r.dropped + chunk
  {
    if r.continuityLost || r.decision.Some? {
      assert chunk == [] ==> r.dropped + chunk == r.dropped;
    } else if Overflows(r, chunk) {
      OverflowExactly(r, chunk);
    } else if chunk == [] {
      assert Flatten(r.buffer) + chunk == Flatten(r.buffer);
    } else {
      FlattenSnoc(r.buffer, chunk);
    }
  }

  /** A chunk ends the following of the log, and records a cause, exactly when it overflows. */
  lemma AcceptCause(r: Relay, chunk: bytes)
    requires RelayInv(r)
    ensures
      var t := Accepted(r, chunk);
      && (t.continuityLost <==> r.continuityLost || Overflows(r, chunk))
      && t.incomplete == (if Overflows(r, chunk) && r.incomplete.None? then Some(Fault(LogOverflow)) else r.incomplete)
  {
    var bound := LOG_RELAY_BUFFER_BYTES - r.buffered;
    assert Overflows(r, chunk) ==> chunk != [] && Accepted(r, chunk) == Overflowed(r, chunk);
    assert !Overflows(r, chunk) ==> r.continuityLost || r.decision.Some? || |chunk| <= bound;
  }

  /** Giving up right after popping the head loses the head too. */
  lemma PoppedLoss(r: Relay)
    requires RelayInv(r) && r.buffer != []
    ensures RelayInv(Abandoned(r))
  {
    PoppedFlatten(r);
    LawPop(r.sent, Head(r), Flatten(Popped(r).buffer), r.dropped, r.channel);
  }

  lemma AdmittedKeeps(r: Relay)
    requires RelayInv(r) && r.buffer != []
    ensures RelayInv(Admitted(r))
    ensures 0 < |Head(r)| == Min(|r.buffer[0]|, MAX_LOG_DATA_BYTES)
    ensures Payload(HeadEvent(r)) == Head(r)
  {
    PoppedFlatten(r);
    LawPop(r.sent, Head(r), Flatten(Popped(r).buffer), r.dropped, r.channel);
  }

  /** LOG_DATA events that carry the given bytes contiguously from an offset. */
  ghost predicate Contiguous(events: seq<Event>, from: nat)
    decreases |events|
  {
    events == [] ||
    (&& events[0].LogData?
     && events[0].offset == from
     && Payload(events[0]) != []
     && Contiguous(events[1..], from + |Payload(events[0])|))
  }

  lemma ContiguousCons(e: Event, es: seq<Event>, from: nat)
    requires e.LogData? && e.offset == from && Payload(e) != []
    requires Contiguous(es, from + |Payload(e)|)
    ensures Contiguous([e] + es, from)
  {
    assert ([e] + es)[1..] == es;
  }

  /** What a pump leaves behind, relative to where it started. */
  ghost predicate PumpedFrom(c: Codec, r: Relay, o: Output, p: Pumped) {
    && RelayInv(p.relay)
    && OutputInv(p.output)
    && p.relay.channel == r.channel
    && p.relay.decision == r.decision
    && p.relay.endOfFile == r.endOfFile
    && p.relay.disposalConfirmed == r.disposalConfirmed
    && p.relay.finalPhase == r.finalPhase
    && p.relay.sent == r.sent + LogOf(p.events)
    && Contiguous(p.events, r.admitted)
    && c.Encodes(p.events)
    && p.output.history == o.history + Frames(c, p.events)
    && p.output.creditReturned == o.creditReturned
    && p.output.wire == o.wire
    && (p.relay.buffer == [] || p.output.logPending >= LOG_CREDIT_BYTES)
  }

  lemma PumpedNothing(c: Codec, r: Relay, o: Output, p: Pumped)
    requires p.events == [] && RelayInv(p.relay) && p.output == o && OutputInv(o)
    requires p.relay.channel == r.channel && p.relay.sent == r.sent && p.relay.decision == r.decision
    requires p.relay.endOfFile == r.endOfFile && p.relay.disposalConfirmed == r.disposalConfirmed
    requires p.relay.finalPhase == r.finalPhase
    requires p.relay.buffer == [] || o.logPending >= LOG_CREDIT_BYTES
    ensures PumpedFrom(c, r, o, p)
  {
    assert r.sent + [] == r.sent;
    assert o.history + [] == o.history;
  }

  /** One admitted event before the rest of a pump. */
  lemma PumpedCons(c: Codec, r: Relay, o: Output, e: Event, mid: Relay, next: Output, rest: Pumped)
    requires e.LogData? && Sized(e) && e.offset == r.admitted && c.encode(e).Some?
    requires mid.sent == r.sent + Payload(e) && mid.channel == r.channel
    requires mid.admitted == r.admitted + |Payload(e)| && mid.decision == r.decision
    requires mid.endOfFile == r.endOfFile && mid.disposalConfirmed == r.disposalConfirmed
    requires mid.finalPhase == r.finalPhase
    requires next.history == o.history + [c.encode(e).value]
    requires next.creditReturned == o.creditReturned && next.wire == o.wire
    requires PumpedFrom(c, mid, next, rest)
    ensures PumpedFrom(c, r, o, rest.(events := [e] + rest.events))
  {
    LogOfCons(e, rest.events);
    Assoc(r.sent, Payload(e), LogOf(rest.events));
    FramesCons(c, e, rest.events);
    Assoc(o.history, [c.encode(e).value], Frames(c, rest.events));
    ContiguousCons(e, rest.events, r.admitted);
  }

  /** A refused admission ends the pump. */
  lemma RefusedStep(c: Codec, r: Relay, o: Output)
    requires RelayInv(r) && OutputInv(o) && r.buffer != []
    ensures PumpedFrom(c, r, o, Pumped(Abandoned(r), o, []))
  {
    PoppedLoss(r);
    PumpedNothing(c, r, o, Pumped(Abandoned(r), o, []));
  }

  /** One accepted admission keeps both invariants. */
  lemma AdmitStep(c: Codec, r: Relay, o: Output)
    requires c.Sound() && RelayInv(r) && OutputInv(o) && r.buffer != []
    requires Emitted(c, o, HeadEvent(r), true).Some?
    ensures RelayInv(Admitted(r)) && OutputInv(Emitted(c, o, HeadEvent(r), true).value)
    ensures |Flatten(Admitted(r).buffer)| < |Flatten(r.buffer)|
  {
    AdmittedKeeps(r);
    PoppedFlatten(r);
    EnqueueKeeps(o, c.encode(HeadEvent(r)).value, true);
  }

  lemma AdmitThen(c: Codec, r: Relay, o: Output, rest: Pumped)
    requires RelayInv(r) && r.buffer != [] && Emitted(c, o, HeadEvent(r), true).Some?
    requires PumpedFrom(c, Admitted(r), Emitted(c, o, HeadEvent(r), true).value, rest)
    ensures PumpedFrom(c, r, o, rest.(events := [HeadEvent(r)] + rest.events))
  {
    AdmittedKeeps(r);
    PumpedCons(c, r, o, HeadEvent(r), Admitted(r), Emitted(c, o, HeadEvent(r), true).value, rest);
  }

  /**
   * Pumping keeps both owners' invariants; what it admits is a contiguous run
   * of LOG_DATA whose bytes extend the admitted prefix, and it stops only with
   * the buffer empty or the credit spent.
   */
  lemma {:induction false} PumpKeeps(c: Codec, r: Relay, o: Output)
    requires c.Sound() && RelayInv(r) && OutputInv(o)
    ensures PumpedFrom(c, r, o, PumpAll(c, r, o))
    decreases |Flatten(r.buffer)|
  {
    if r.buffer == [] || o.logPending >= LOG_CREDIT_BYTES {
      PumpedNothing(c, r, o, Pumped(r, o, []));
    } else if Emitted(c, o, HeadEvent(r), true).None? {
      RefusedStep(c, r, o);
    } else {
      var next := Emitted(c, o, HeadEvent(r), true).value;
      AdmitStep(c, r, o);
      PumpKeeps(c, Admitted(r), next);
      AdmitThen(c, r, o, PumpAll(c, Admitted(r), next));
    }
  }

  /** A pump never moves the queued log past the credit by more than one frame. */
  lemma {:induction false} PumpWithinCredit(c: Codec, r: Relay, o: Output)
    requires c.Sound() && RelayInv(r) && o.logPending < LOG_CREDIT_BYTES + Framing.MAX_FRAME_SIZE
    ensures PumpAll(c, r, o).output.logPending < LOG_CREDIT_BYTES + Framing.MAX_FRAME_SIZE
    decreases |Flatten(r.buffer)|, |r.buffer|
  {
    if r.buffer != [] && o.logPending < LOG_CREDIT_BYTES {
      var next := Emitted(c, o, HeadEvent(r), true);
      if next.Some? {
        AdmittedKeeps(r);
        PoppedFlatten(r);
        PumpWithinCredit(c, Admitted(r), next.value);
      }
    }
  }

  /** How a relay that follows the log, or gave it up, compares with an earlier one. */
  predicate GaveUp(r: Relay, t: Relay, lost: bool) {
    && t.decision.None? && t.reading == r.reading
    && (t.continuityLost <==> r.continuityLost || lost)
    && t.incomplete == (if lost && r.incomplete.None? then Some(Fault(LogAdmission)) else r.incomplete)
  }

  lemma AbandonedGivesUp(r: Relay)
    requires r.buffer != [] && r.decision.None?
    ensures GaveUp(r, Abandoned(r), true)
  {
  }

  lemma AdmittedGivesUpNothing(r: Relay)
    requires r.buffer != [] && r.decision.None?
    ensures GaveUp(r, Admitted(r), false)
  {
  }

  /** A pump gives something up, and records a cause, exactly when an admission is refused. */
  lemma {:induction false} PumpExactly(c: Codec, r: Relay, o: Output)
    requires r.decision.None?
    ensures GaveUp(r, PumpAll(c, r, o).relay, Refuses(c, r, o))
    decreases |Flatten(r.buffer)|, |r.buffer|
  {
    if r.buffer != [] && o.logPending < LOG_CREDIT_BYTES {
      var next := Emitted(c, o, HeadEvent(r), true);
      AbandonedGivesUp(r);
      AdmittedGivesUpNothing(r);
      if next.Some? {
        PoppedFlatten(r);
        PumpExactly(c, Admitted(r), next.value);
      }
    }
  }

  lemma DecideKeeps(r: Relay, deadline: bool, childAcquired: bool)
    requires RelayInv(r)
    ensures RelayInv(Decided(r, deadline, childAcquired))
    ensures Decided(r, deadline, childAcquired).decision.Some?
    ensures Decided(r, deadline, childAcquired).sent == r.sent
    ensures Decided(r, deadline, childAcquired).channel == r.channel
  {
    assert [] + (Flatten(r.buffer) + r.dropped) == Flatten(r.buffer) + r.dropped;
  }

  lemma SentIsPrefix(r: Relay)
    requires RelayInv(r)
    ensures r.sent <= r.channel
  {
  }

  /** The whole channel stream, read to its end after confirmed disposal, was admitted. */
  ghost predicate Whole(r: Relay) {
    r.sent == r.channel && r.endOfFile && r.disposalConfirmed
  }

  /**
   * When a decision for an acquired child claims completeness, and when that
   * claim is true: the relay claims it exactly when no cause is recorded, the
   * end-of-file was read and disposal was confirmed, and no expired deadline
   * found the drain unfinished; and the claim then holds exactly when nothing
   * was still buffered.
   */
  lemma CompletenessClaim(r: Relay, deadline: bool)
    requires RelayInv(r) && r.decision.None?
    ensures
      var d := Decided(r, deadline, true);
      && (d.decision.value.complete <==>
            && r.incomplete.None?
            && r.endOfFile && r.disposalConfirmed
            && !(deadline && (r.buffer != [] || r.reading)))
      && (d.decision.value.complete ==> (Whole(d) <==> r.buffer == []))
  {
    DecideKeeps(r, deadline, true);
    if r.buffer != [] {
      assert |Flatten(r.buffer)| >= |r.buffer[0]| > 0;
      assert |r.sent + (Flatten(r.buffer) + r.dropped)| > |r.sent|;
    } else if r.incomplete.None? {
      assert Flatten(r.buffer) + r.dropped == [];
      assert r.sent + [] == r.sent;
    }
  }

  /**
   * Deciding when the relay is ready, or at a deadline, makes complete mean
   * everything. Those are the only decisions the session makes for an acquired
   * child.
   */
  lemma DisciplinedDecisionIsTrue(r: Relay, deadline: bool)
    requires RelayInv(r) && r.decision.None?
    requires deadline || ReadyToDecide(r)
    requires Decided(r, deadline, true).decision.value.complete
    ensures Whole(Decided(r, deadline, true))
  {
    CompletenessClaim(r, deadline);
  }

  /**
   * Report decides without looking at the buffer. A new relay that accepted
   * one byte and the end-of-file, had its disposal confirmed and was never
   * pumped, reports a complete log of zero bytes.
   */
  lemma UndisciplinedReportCanClaimTooMuch(b: Byte)
    ensures
      var r := DisposalConfirmed(Accepted(Accepted(NewRelay(), [b]), []));
      && RelayInv(r)
      && Reported(r, true) == LogReport(0, true, None)
      && r.channel == [b]
      && !Whole(Decided(r, false, true))
  {
    var r := Accepted(NewRelay(), [b]);
    AcceptKeeps(NewRelay(), [b]);
    AcceptKeeps(r, []);
    assert [] + [b] == [b] == r.channel;
    CompletenessClaim(DisposalConfirmed(Accepted(r, [])), false);
  }

  /** Pumping from here, after the given events, ends where the whole pump ends. */
  ghost predicate PumpsTo(c: Codec, r: Relay, o: Output, events: seq<Event>, target: Pumped) {
    var p := PumpAll(c, r, o);
    p.relay == target.relay && p.output == target.output && events + p.events == target.events
  }

  lemma PumpUnfolds(c: Codec, r: Relay, o: Output, events: seq<Event>, target: Pumped)
    requires r.buffer != [] && o.logPending < LOG_CREDIT_BYTES
    requires PumpsTo(c, r, o, events, target)
    ensures
      var next := Emitted(c, o, HeadEvent(r), true);
      if next.Some? then PumpsTo(c, Admitted(r), next.value, events + [HeadEvent(r)], target)
      else target == Pumped(Abandoned(r), o, events)
  {
    var next := Emitted(c, o, HeadEvent(r), true);
    if next.Some? {
      Assoc(events, [HeadEvent(r)], PumpAll(c, Admitted(r), next.value).events);
    } else {
      assert events + [] == events;
    }
  }

  /** helper/_log_relay.py LogRelay. */
  class LogRelay {
    var buffer: seq<bytes>
    var buffered: int
    var admitted: nat
    var continuityLost: bool
    var endOfFile: bool
    var reading: bool
    var finalPhase: bool
    var disposalConfirmed: bool
    var incomplete: Option<Diagnostic>
    var decision: Option<LogReport>
    var readerOpen: bool
    var writerOpen: bool
    ghost var channel: bytes
    ghost var sent: bytes
    ghost var dropped: bytes

    ghost function State(): Relay
      reads this
    {
      Relay(buffer, buffered, admitted, continuityLost, endOfFile, reading, finalPhase,
            disposalConfirmed, incomplete, decision, readerOpen, writerOpen, channel, sent, dropped)
    }

    constructor ()
      ensures State() == NewRelay()
    {
      buffer, buffered, admitted := [], 0, 0;
      continuityLost, endOfFile, reading, finalPhase := false, false, true, false;
      disposalConfirmed, incomplete, decision := false, None, None;
      readerOpen, writerOpen := true, true;
      channel, sent, dropped := [], [], [];
    }

    method RecordIncomplete(code: Code)
      modifies this`incomplete
      ensures State() == Recorded(old(State()), code)
    {
      if incomplete.None? && decision.None? {
        incomplete := Some(Fault(code));
      }
    }

    method LoseContinuity()
      modifies this`continuityLost, this`buffer, this`buffered, this`dropped
      ensures State() == Severed(old(State()))
    {
      continuityLost := true;
      dropped := Flatten(buffer) + dropped;
      buffer := [];
      buffered := 0;
    }

    /** Keep what fits of a chunk and discard the rest. */
    method Overflow(chunk: bytes)
      modifies this
      ensures State() == Overflowed(old(State()), chunk)
    {
      var room := LOG_RELAY_BUFFER_BYTES - buffered;
      var fits := if 0 < room < |chunk| then room else 0;
      assert fits == Fits(State(), chunk);
      if fits != 0 {
        buffer := buffer + [chunk[..fits]];
        buffered := buffered + fits;
      }
      channel := channel + chunk;
      dropped := chunk[fits..];
      continuityLost := true;
      assert State() == Shortened(old(State()), chunk);
      RecordIncomplete(LogOverflow);
    }

    method Accept(chunk: bytes)
      modifies this
      ensures State() == Accepted(old(State()), chunk)
    {
      if chunk == [] {
        endOfFile := true;
        reading := false;
        finalPhase := true;
        return;
      }
      if continuityLost || decision.Some? {
        channel := channel + chunk;
        dropped := dropped + chunk;
        return;
      }
      if |chunk| > LOG_RELAY_BUFFER_BYTES - buffered {
        Overflow(chunk);
        return;
      }
      buffer := buffer + [chunk];
      buffered := buffered + |chunk|;
      channel := channel + chunk;
    }

    /** Take at most MAX_LOG_DATA_BYTES from the head of the buffer. */
    method PopHead() returns (data: bytes)
      requires buffer != []
      modifies this`buffer, this`buffered
      ensures data == Head(old(State())) && State() == Popped(old(State()))
    {
      data := buffer[0];
      buffer := buffer[1..];
      if |data| > MAX_LOG_DATA_BYTES {
        buffer := [data[MAX_LOG_DATA_BYTES..]] + buffer;
        data := data[..MAX_LOG_DATA_BYTES];
      } else {
        assert [] + buffer == buffer;
      }
      buffered := buffered - |data|;
    }

    /** Take the head of the buffer and admit it as LOG_DATA. */
    method AdmitHead(c: Codec, output: ProtocolOutput) returns (raised: bool)
      requires buffer != []
      modifies this, output
      ensures raised <==> Emitted(c, old(output.State()), HeadEvent(old(State())), true).None?
      ensures raised ==> output.State() == old(output.State()) && State() == Abandoned(old(State()))
      ensures !raised ==>
                && Some(output.State()) == Emitted(c, old(output.State()), HeadEvent(old(State())), true)
                && State() == Admitted(old(State()))
    {
      var data := PopHead();
      raised := output.Emit(c, LogData(admitted, data), true);
      if raised {
        Abandon(data);
        return;
      }
      admitted := admitted + |data|;
      sent := sent + data;
    }

    /** Give up popped bytes and everything after them. */
    method Abandon(data: bytes)
      modifies this
      ensures
        var severed := Severed(old(State()));
        State() == Recorded(severed.(dropped := data + severed.dropped), LogAdmission)
    {
      LoseContinuity();
      dropped := data + dropped;
      RecordIncomplete(LogAdmission);
    }

    method Pump(c: Codec, output: ProtocolOutput) returns (ghost events: seq<Event>)
      modifies this, output
      ensures Pumped(State(), output.State(), events) == PumpAll(c, old(State()), old(output.State()))
    {
      events := [];
      ghost var target := PumpAll(c, State(), output.State());
      while buffer != [] && output.logPending < LOG_CREDIT_BYTES
        invariant PumpsTo(c, State(), output.State(), events, target)
        decreases |Flatten(buffer)|, |buffer|
      {
        ghost var r, o := State(), output.State();
        PumpUnfolds(c, r, o, events, target);
        PoppedFlatten(r);
        var raised := AdmitHead(c, output);
        if raised {
          return;
        }
        events := events + [HeadEvent(r)];
      }
      assert events + [] == events;
    }

    method ConfirmDisposal()
      modifies this
      ensures State() == DisposalConfirmed(old(State()))
    {
      disposalConfirmed := true;
      finalPhase := true;
      writerOpen := false;
    }

    method Cut()
      modifies this
      ensures State() == WasCut(old(State()))
    {
      reading := false;
      finalPhase := true;
      RecordIncomplete(LogDisposal);
    }

    method ReadFailure()
      modifies this
      ensures State() == ReadFailed(old(State()))
    {
      reading := false;
      RecordIncomplete(LogReadError);
    }

    function Ready(): bool
      reads this
    {
      decision.None? && finalPhase && !reading && buffer == []
    }

    method Decide(deadline: bool, childAcquired: bool)
      modifies this
      ensures State() == Decided(old(State()), deadline, childAcquired)
    {
      if decision.Some? {
        return;
      }
      if deadline && (buffer != [] || reading) {
        RecordIncomplete(Code.LogDeadline);
      }
      if childAcquired && !(endOfFile && disposalConfirmed) {
        RecordIncomplete(LogUnsettled);
      }
      ghost var settled := State();
      LoseContinuity();
      assert State() == Severed(settled);
      decision := Some(LogReport(admitted, incomplete.None?, incomplete));
    }

    method Report(childDisposalConfirmed: bool) returns (report: LogReport)
      modifies this
      ensures report == Reported(old(State()), childDisposalConfirmed)
      ensures State() == Decided(old(State()), false, true)
    {
      if decision.None? {
        Decide(false, true);
      }
      if decision.value.complete && !childDisposalConfirmed {
        return LogReport(decision.value.byteCount, false, Some(Fault(LogDisposal)));
      }
      return decision.value;
    }

    method Close()
      modifies this
      ensures State() == old(State()).(readerOpen := false, writerOpen := false)
    {
      readerOpen := false;
      writerOpen := false;
    }
  }
}
