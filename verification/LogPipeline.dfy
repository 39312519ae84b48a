/**
 * The log path end to end, as one state machine: channel reader, relay, writer,
 * credit task, control stream, controller reader and local file, interleaved
 * in every order.
 */
module LogPipeline {
  import opened Base
  import opened Outcomes
  import opened Framing
  import opened Events
  import opened Streams
  import opened Relaying
  import opened Connection

  datatype Pipe = Pipe(
    relay: Relay,
    output: Output,
    events: seq<Event>,
    acquired: bool,
    credits: nat,
    reader: Reader)

  function NewPipe(policy: CompletionPolicy, logRequested: bool, logWriter: bool): Pipe {
    Pipe(NewRelay(), NewOutput(), [], false, 0, NewReader(policy, logRequested, logWriter))
  }

  /** One atomic step of one of the owners. */
  datatype Action =
    | AcquireChild
    | ReadChannel(chunk: bytes)
    | FailRead
    | ConfirmDisposal
    | CutRelay
    | ReachDeadline
    | DecideWithoutChild
    | EmitOther(event: Event)
    | RunOutput(results: seq<WriteResult>)
    | PublishCredit
    | HandleCredit
    | ReadControl(n: nat)

  /**
   * What the environment can do: only an acquired child writes to the
   * channel, nothing follows its end-of-file, a child is not acquired after
   * the decision, and only the relay emits LOG_DATA.
   */
  predicate Enabled(p: Pipe, a: Action) {
    match a
    case AcquireChild => p.relay.decision.None?
    case ReadChannel(chunk) => chunk == [] || (p.acquired && !p.relay.endOfFile)
    case DecideWithoutChild => !p.acquired
    case EmitOther(e) => !e.LogData?
    case PublishCredit => p.output.creditReturned
    case HandleCredit => p.credits > 0
    case ReadControl(n) => !p.reader.failed
    case _ => true
  }

  /** _log_progress: pump, then decide if the relay is ready. */
  function Progressed(c: Codec, p: Pipe): Pipe {
    var pumped := PumpAll(c, p.relay, p.output);
    var relay := if ReadyToDecide(pumped.relay) then Decided(pumped.relay, false, true) else pumped.relay;
    p.(relay := relay, output := pumped.output, events := p.events + pumped.events)
  }

  function Do(c: Codec, w: Writes, p: Pipe, a: Action): Pipe {
    match a
    case AcquireChild => p.(acquired := true)
    case ReadChannel(chunk) => Progressed(c, p.(relay := Accepted(p.relay, chunk)))
    case FailRead => Progressed(c, p.(relay := ReadFailed(p.relay)))
    case ConfirmDisposal =>
      if p.relay.decision.Some? then p else Progressed(c, p.(relay := DisposalConfirmed(p.relay)))
    case CutRelay =>
      if p.relay.decision.Some? then p else Progressed(c, p.(relay := WasCut(p.relay)))
    case ReachDeadline => p.(relay := Decided(p.relay, true, true))
    case DecideWithoutChild => p.(relay := Decided(p.relay, false, false))
    case EmitOther(e) =>
      var next := Emitted(c, p.output, e, false);
      if next.None? then p else p.(output := next.value, events := p.events + [e])
    case RunOutput(results) => p.(output := RunWriter(p.output, results))
    case PublishCredit => p.(output := p.output.(creditReturned := false), credits := p.credits + 1)
    case HandleCredit =>
      if p.credits == 0 then p else Progressed(c, p.(credits := p.credits - 1))
    case ReadControl(n) =>
      var unread := if |p.reader.read| <= |p.output.wire| then p.output.wire[|p.reader.read|..] else [];
      p.(reader := Received(c, w, p.reader, unread[..Min(n, |unread|)]))
  }

  function Run(c: Codec, w: Writes, p: Pipe, actions: seq<Action>): Pipe
    decreases |actions|
  {
    if |actions| == 0 then p else Run(c, w, Do(c, w, p, actions[0]), actions[1..])
  }

  predicate AllEnabled(c: Codec, w: Writes, p: Pipe, actions: seq<Action>)
    decreases |actions|
  {
    |actions| == 0 ||
    (Enabled(p, actions[0]) && AllEnabled(c, w, Do(c, w, p, actions[0]), actions[1..]))
  }

  /** The helper's side: exact admission, and a complete decision means everything. */
  ghost predicate HelperInv(c: Codec, p: Pipe) {
    && RelayInv(p.relay)
    && OutputInv(p.output)
    && c.Encodes(p.events)
    && p.output.history == Frames(c, p.events)
    && LogOf(p.events) == p.relay.sent
    && (!p.acquired ==> p.relay.channel == [])
    && (p.relay.decision.Some? && p.relay.decision.value.complete ==>
          && p.relay.sent == p.relay.channel
          && (p.acquired ==> p.relay.endOfFile && p.relay.disposalConfirmed))
  }

  /** No credit is lost: undecided buffered bytes always have a wakeup coming. */
  predicate CreditInv(p: Pipe) {
    && p.output.logPending < LOG_CREDIT_BYTES + MAX_FRAME_SIZE
    && (p.relay.buffer != [] && p.relay.decision.None? ==>
          p.output.logPending >= LOG_CREDIT_BYTES || p.output.creditReturned || p.credits > 0)
  }

  /** The controller's side: it has read a prefix of the wire and accepted a prefix of the events. */
  ghost predicate StreamInv(c: Codec, p: Pipe) {
    && ReaderInv(p.reader)
    && p.reader.read <= p.output.wire
    && p.reader.accepted <= p.events
    && (!p.reader.failed ==>
          && c.Encodes(p.reader.accepted)
          && p.reader.read == Flatten(Frames(c, p.reader.accepted)) + p.reader.buffer
          && ScanAll(p.reader.buffer) == Scan([], p.reader.buffer, false))
  }

  ghost predicate PipeInv(c: Codec, p: Pipe) {
    HelperInv(c, p) && CreditInv(p) && StreamInv(c, p)
  }

  lemma NewPipeInv(c: Codec, policy: CompletionPolicy, logRequested: bool, logWriter: bool)
    ensures PipeInv(c, NewPipe(policy, logRequested, logWriter))
  {
    OneFrame([]);
  }

  /** Events appended by the helper, with their frames and log bytes. */
  lemma EventsExtend(c: Codec, a: seq<Event>, b: seq<Event>, history: seq<bytes>, more: seq<bytes>)
    requires c.Encodes(a) && c.Encodes(b) && history == Frames(c, a) && more == Frames(c, b)
    ensures c.Encodes(a + b) && history + more == Frames(c, a + b)
    ensures LogOf(a + b) == LogOf(a) + LogOf(b)
    ensures a <= a + b
  {
    FramesAppend(c, a, b);
    LogOfAppend(a, b);
  }

  /** A helper step keeps its invariants and only extends the wire and the events. */
  ghost predicate HelperKept(c: Codec, p: Pipe, q: Pipe) {
    && HelperInv(c, q) && CreditInv(q)
    && p.output.wire <= q.output.wire && p.events <= q.events && q.reader == p.reader
  }

  /** What log progress preserves and establishes, from any helper state. */
  lemma ProgressKeeps(c: Codec, p: Pipe)
    requires c.Sound() && HelperInv(c, p)
    requires p.output.logPending < LOG_CREDIT_BYTES + MAX_FRAME_SIZE
    ensures HelperKept(c, p, Progressed(c, p))
  {
    var pumped := PumpAll(c, p.relay, p.output);
    PumpKeeps(c, p.relay, p.output);
    PumpWithinCredit(c, p.relay, p.output);
    EventsExtend(c, p.events, pumped.events, p.output.history, Frames(c, pumped.events));
    if ReadyToDecide(pumped.relay) {
      DecideKeeps(pumped.relay, false, true);
      if Decided(pumped.relay, false, true).decision.value.complete {
        DisciplinedDecisionIsTrue(pumped.relay, false);
      }
    }
  }

  /** The relay after a channel read or a disposal event, as far as the invariant goes. */
  ghost predicate RelayFollows(p: Pipe, r: Relay) {
    && RelayInv(r)
    && r.sent == p.relay.sent
    && r.decision == p.relay.decision
    && (!p.acquired ==> r.channel == [])
    && (r.decision.Some? && r.decision.value.complete ==>
          && r.channel == p.relay.channel
          && (p.acquired ==> r.endOfFile && r.disposalConfirmed))
  }

  lemma RelayStep(c: Codec, p: Pipe, r: Relay)
    requires c.Sound() && HelperInv(c, p) && CreditInv(p) && RelayFollows(p, r)
    ensures HelperKept(c, p, Progressed(c, p.(relay := r)))
  {
    ProgressKeeps(c, p.(relay := r));
  }

  lemma ReadFollows(p: Pipe, chunk: bytes, r: Relay)
    requires RelayInv(p.relay) && RelayFollows(p, p.relay) && Enabled(p, ReadChannel(chunk))
    requires r == Accepted(p.relay, chunk)
    ensures RelayFollows(p, r)
  {
    AcceptKeeps(p.relay, chunk);
    assert chunk == [] ==> p.relay.channel + chunk == p.relay.channel;
  }

  lemma ReadChannelStep(c: Codec, p: Pipe, chunk: bytes)
    requires c.Sound() && HelperInv(c, p) && CreditInv(p) && Enabled(p, ReadChannel(chunk))
    ensures HelperKept(c, p, Progressed(c, p.(relay := Accepted(p.relay, chunk))))
  {
    ReadFollows(p, chunk, Accepted(p.relay, chunk));
    RelayStep(c, p, Accepted(p.relay, chunk));
  }

  lemma DecideStep(c: Codec, p: Pipe, deadline: bool)
    requires HelperInv(c, p) && (deadline || !p.acquired)
    ensures HelperInv(c, p.(relay := Decided(p.relay, deadline, deadline)))
    ensures Decided(p.relay, deadline, deadline).decision.Some?
  {
    DecideKeeps(p.relay, deadline, deadline);
    SentIsPrefix(p.relay);
    if deadline && p.relay.decision.None? && Decided(p.relay, true, true).decision.value.complete {
      DisciplinedDecisionIsTrue(p.relay, true);
    }
  }

  /** The relay's steps keep the helper's invariant and the credit argument. */
  lemma RelayActionStep(c: Codec, w: Writes, p: Pipe, a: Action)
    requires c.Sound() && HelperInv(c, p) && CreditInv(p) && Enabled(p, a)
    requires a.ReadChannel? || a.FailRead? || a.ReachDeadline? || a.DecideWithoutChild?
    ensures HelperKept(c, p, Do(c, w, p, a))
  {
    match a
    case ReadChannel(chunk) => ReadChannelStep(c, p, chunk);
    case FailRead =>
      FailFollows(p);
      RelayStep(c, p, ReadFailed(p.relay));
    case ReachDeadline => DecideStep(c, p, true);
    case DecideWithoutChild => DecideStep(c, p, false);
  }

  /** The writer's and the credit task's steps. */
  lemma OutputActionStep(c: Codec, w: Writes, p: Pipe, a: Action)
    requires c.Sound() && HelperInv(c, p) && CreditInv(p) && Enabled(p, a)
    requires a.RunOutput? || a.PublishCredit? || a.HandleCredit?
    ensures HelperKept(c, p, Do(c, w, p, a))
  {
    match a
    case RunOutput(results) => RunKeeps(p.output, results);
    case PublishCredit =>
    case HandleCredit => ProgressKeeps(c, p.(credits := p.credits - 1));
  }

  lemma AcquireStep(c: Codec, p: Pipe)
    requires HelperInv(c, p) && CreditInv(p) && p.relay.decision.None?
    ensures HelperKept(c, p, p.(acquired := true))
  {
  }

  /** An event other than LOG_DATA, admitted or refused. */
  lemma OtherStep(c: Codec, w: Writes, p: Pipe, e: Event)
    requires c.Sound() && HelperInv(c, p) && CreditInv(p) && !e.LogData?
    ensures HelperKept(c, p, Do(c, w, p, EmitOther(e)))
  {
    if Emitted(c, p.output, e, false).Some? {
      EmitStep(c, p, e);
    }
  }

  /** So does every other step of the helper. */
  lemma HelperStep(c: Codec, w: Writes, p: Pipe, a: Action)
    requires c.Sound() && HelperInv(c, p) && CreditInv(p) && Enabled(p, a) && !a.ReadControl?
    ensures HelperKept(c, p, Do(c, w, p, a))
  {
    if a.AcquireChild? {
      AcquireStep(c, p);
    } else if a.ConfirmDisposal? || a.CutRelay? {
      DisposalStep(c, w, p, a);
    } else if a.EmitOther? {
      OtherStep(c, w, p, a.event);
    } else if a.RunOutput? || a.PublishCredit? || a.HandleCredit? {
      OutputActionStep(c, w, p, a);
    } else {
      RelayActionStep(c, w, p, a);
    }
  }

  lemma CutFollows(p: Pipe)
    requires RelayInv(p.relay) && RelayFollows(p, p.relay) && p.relay.decision.None?
    ensures RelayFollows(p, WasCut(p.relay))
  {
  }

  lemma ConfirmFollows(p: Pipe)
    requires RelayInv(p.relay) && RelayFollows(p, p.relay) && p.relay.decision.None?
    ensures RelayFollows(p, DisposalConfirmed(p.relay))
  {
  }

  lemma FailFollows(p: Pipe)
    requires RelayInv(p.relay) && RelayFollows(p, p.relay)
    ensures RelayFollows(p, ReadFailed(p.relay))
  {
  }

  /** Child disposal, confirmed or not, before a decision; afterwards nothing happens. */
  lemma DisposalStep(c: Codec, w: Writes, p: Pipe, a: Action)
    requires c.Sound() && HelperInv(c, p) && CreditInv(p) && (a.ConfirmDisposal? || a.CutRelay?)
    ensures HelperKept(c, p, Do(c, w, p, a))
  {
    if p.relay.decision.None? {
      if a.CutRelay? {
        CutFollows(p);
        RelayStep(c, p, WasCut(p.relay));
      } else {
        ConfirmFollows(p);
        RelayStep(c, p, DisposalConfirmed(p.relay));
      }
    }
  }

  lemma EmitStep(c: Codec, p: Pipe, e: Event)
    requires c.Sound() && HelperInv(c, p) && !e.LogData? && Emitted(c, p.output, e, false).Some?
    ensures HelperInv(c, p.(output := Emitted(c, p.output, e, false).value, events := p.events + [e]))
  {
    EnqueueKeeps(p.output, c.encode(e).value, false);
    FramesSnoc(c, p.events, e);
    LogOfSnoc(p.events, e);
    assert LogOf(p.events) + [] == LogOf(p.events);
  }

  /** Dispatching the frames of events accepts a prefix of them, all unless it fails. */
  lemma {:induction false} DispatchPrefix(c: Codec, w: Writes, k: Reader, es: seq<Event>) returns (i: nat)
    requires c.Sound() && c.Encodes(es) && !k.failed
    ensures i <= |es|
    ensures DispatchedAll(c, w, k, Frames(c, es)).accepted == k.accepted + es[..i]
    ensures !DispatchedAll(c, w, k, Frames(c, es)).failed ==> i == |es|
    decreases |es|
  {
    if |es| == 0 {
      assert k.accepted + es[..0] == k.accepted;
      return 0;
    }
    var fs := Frames(c, es);
    assert es[0] in es;
    EncodesTail(c, es);
    var next := Dispatched(c, w, k, fs[0]);
    if next.failed {
      assert k.accepted + es[..0] == k.accepted;
      return 0;
    }
    var n := DispatchPrefix(c, w, next, es[1..]);
    Assoc(k.accepted, [es[0]], es[1..][..n]);
    assert es[..n + 1] == [es[0]] + es[1..][..n];
    return n + 1;
  }

  lemma EncodesTail(c: Codec, es: seq<Event>)
    requires c.Encodes(es) && |es| > 0
    ensures c.Encodes(es[1..]) && Frames(c, es)[1..] == Frames(c, es[1..])
  {
    assert forall e | e in es[1..] :: e in es;
  }

  /** An encodable sequence split at a prefix of it. */
  lemma EncodesSplit(c: Codec, es: seq<Event>, head: seq<Event>) returns (rest: seq<Event>)
    requires c.Encodes(es) && head <= es
    ensures c.Encodes(head) && c.Encodes(rest) && es == head + rest
    ensures Frames(c, es) == Frames(c, head) + Frames(c, rest)
  {
    rest := es[|head|..];
    assert es == head + rest;
    assert forall e | e in head :: e in es;
    assert forall e | e in rest :: e in es;
    FramesAppend(c, head, rest);
  }

  lemma FramesAreFrames(c: Codec, es: seq<Event>)
    requires c.Sound() && c.Encodes(es)
    ensures forall f | f in Frames(c, es) :: IsFrame(f)
  {
    forall f | f in Frames(c, es)
      ensures IsFrame(f)
    {
      var i :| 0 <= i < |es| && Frames(c, es)[i] == f;
      assert es[i] in es;
    }
  }

  lemma CancelPrefix(a: bytes, x: bytes, y: bytes)
    requires a + x <= a + y
    ensures x <= y
  {
    assert (a + x)[|a|..] == x && (a + y)[|a|..] == y;
  }

  /** The next unread bytes complete exactly the next admitted events. */
  lemma UnreadEvents(c: Codec, p: Pipe, chunk: bytes) returns (next: seq<Event>)
    requires c.Sound() && HelperInv(c, p) && StreamInv(c, p) && !p.reader.failed
    requires p.reader.read + chunk <= p.output.wire
    ensures p.reader.accepted + next <= p.events && c.Encodes(next)
    ensures ScanAll(p.reader.buffer + chunk).frames == Frames(c, next)
    ensures !ScanAll(p.reader.buffer + chunk).oversize
  {
    var k := p.reader;
    var rest := EncodesSplit(c, p.events, k.accepted);
    var done := Flatten(Frames(c, k.accepted));
    FlattenAppend(Frames(c, k.accepted), Frames(c, rest));
    WireIsPrefix(p.output);
    Assoc(done, k.buffer, chunk);
    CancelPrefix(done, k.buffer + chunk, Flatten(Frames(c, rest)));
    FramesAreFrames(c, rest);
    var j := ScanPrefix(Frames(c, rest), k.buffer + chunk);
    next := FramesTake(c, rest, j);
    PrefixOfAppend(k.accepted, rest, j, p.events);
  }

  lemma FramesTake(c: Codec, es: seq<Event>, j: nat) returns (head: seq<Event>)
    requires c.Encodes(es) && j <= |es|
    ensures head == es[..j] && c.Encodes(head) && Frames(c, es)[..j] == Frames(c, head)
  {
    head := es[..j];
    assert forall e | e in head :: e in es;
  }

  /** One controller read keeps the stream invariant. */
  lemma ReadKeeps(c: Codec, w: Writes, p: Pipe, chunk: bytes)
    requires c.Sound() && HelperInv(c, p) && StreamInv(c, p) && !p.reader.failed
    requires p.reader.read + chunk <= p.output.wire
    ensures StreamInv(c, p.(reader := Received(c, w, p.reader, chunk)))
  {
    var k := p.reader;
    var t := ScanAll(k.buffer + chunk);
    var start := k.(buffer := t.rest, read := k.read + chunk);
    var next := UnreadEvents(c, p, chunk);
    DispatchAllKeeps(c, w, start, t.frames);
    var i := DispatchPrefix(c, w, start, next);
    ScanPartitions(k.buffer + chunk);
    StuckScan(t.rest);
    var n := DispatchedAll(c, w, start, t.frames);
    assert next[..i] <= next;
    PrefixOfAppend(k.accepted, next, i, p.events);
    if !n.failed {
      FramesAppend(c, k.accepted, next);
      var done := Flatten(Frames(c, k.accepted));
      FlattenAppend(Frames(c, k.accepted), t.frames);
      Assoc(done, k.buffer, chunk);
      Assoc(done, Flatten(t.frames), t.rest);
      assert next[..i] == next;
    }
  }

  lemma PrefixOfAppend(a: seq<Event>, b: seq<Event>, i: nat, all: seq<Event>)
    requires i <= |b| && a + b <= all
    ensures a + b[..i] <= all
  {
    assert (a + b)[..|a| + i] == a + b[..i];
  }

  /** The controller's side does not notice the helper's steps. */
  lemma StreamKept(c: Codec, p: Pipe, q: Pipe)
    requires StreamInv(c, p) && HelperKept(c, p, q)
    ensures StreamInv(c, q)
  {
  }

  /** The helper does not notice the controller's reads. */
  lemma ReaderMoves(c: Codec, p: Pipe, k: Reader)
    requires HelperInv(c, p) && CreditInv(p)
    ensures HelperInv(c, p.(reader := k)) && CreditInv(p.(reader := k))
  {
  }

  /** The next bytes behind a prefix make a longer prefix. */
  lemma NextBytes(read: bytes, wire: bytes, n: nat)
    requires read <= wire
    ensures
      var unread := wire[|read|..];
      read + unread[..Min(n, |unread|)] <= wire
  {
  }

  lemma ReadStep(c: Codec, w: Writes, p: Pipe, n: nat)
    requires c.Sound() && PipeInv(c, p) && !p.reader.failed
    ensures PipeInv(c, Do(c, w, p, ReadControl(n)))
  {
    var unread := p.output.wire[|p.reader.read|..];
    var chunk := unread[..Min(n, |unread|)];
    NextBytes(p.reader.read, p.output.wire, n);
    ReadKeeps(c, w, p, chunk);
    ReaderMoves(c, p, Received(c, w, p.reader, chunk));
  }

  lemma PipeStep(c: Codec, w: Writes, p: Pipe, a: Action)
    requires c.Sound() && PipeInv(c, p) && Enabled(p, a)
    ensures PipeInv(c, Do(c, w, p, a))
  {
    if a.ReadControl? {
      ReadStep(c, w, p, a.n);
    } else {
      HelperStep(c, w, p, a);
      StreamKept(c, p, Do(c, w, p, a));
    }
  }

  /** Every reachable state of every interleaving. */
  lemma {:induction false} EveryPipeRun(c: Codec, w: Writes, p: Pipe, actions: seq<Action>)
    requires c.Sound() && PipeInv(c, p) && AllEnabled(c, w, p, actions)
    ensures PipeInv(c, Run(c, w, p, actions))
    decreases |actions|
  {
    if |actions| > 0 {
      PipeStep(c, w, p, actions[0]);
      EveryPipeRun(c, w, Do(c, w, p, actions[0]), actions[1..]);
    }
  }

  /**
   * The log file theorem. In every interleaving of channel reads, pumps,
   * partial writes, control reads and failing local writes, the local file is
   * a prefix of the received LOG_DATA, which is a prefix of the admitted
   * bytes, which are a prefix of the channel; the bounds hold throughout.
   */
  lemma LocalFileIsExactPrefix(c: Codec, w: Writes, policy: CompletionPolicy, logWriter: bool,
                               actions: seq<Action>)
    requires c.Sound() && AllEnabled(c, w, NewPipe(policy, true, logWriter), actions)
    ensures
      var p := Run(c, w, NewPipe(policy, true, logWriter), actions);
      && p.reader.file <= p.reader.received <= LogOf(p.events) <= p.relay.channel
      && LogOf(p.events) == p.relay.sent
      && p.relay.buffered <= LOG_RELAY_BUFFER_BYTES
      && p.output.pendingBytes <= MAX_PROTOCOL_OUTPUT_BYTES
      && p.output.logPending < LOG_CREDIT_BYTES + MAX_FRAME_SIZE
  {
    NewPipeInv(c, policy, true, logWriter);
    EveryPipeRun(c, w, NewPipe(policy, true, logWriter), actions);
    var p := Run(c, w, NewPipe(policy, true, logWriter), actions);
    LogPrefix(p.reader.accepted, p.events);
    SentIsPrefix(p.relay);
  }

  lemma LogPrefix(a: seq<Event>, b: seq<Event>)
    requires a <= b
    ensures LogOf(a) <= LogOf(b)
  {
    assert b == a + b[|a|..];
    LogOfAppend(a, b[|a|..]);
  }

  /**
   * Complete means everything. When the helper decided completeness, its
   * output drained, and the controller read it all without a protocol or
   * write failure, the local file is the whole channel stream.
   */
  lemma CompleteLogIsWhole(c: Codec, w: Writes, policy: CompletionPolicy, actions: seq<Action>)
    requires c.Sound() && AllEnabled(c, w, NewPipe(policy, true, true), actions)
    requires
      var p := Run(c, w, NewPipe(policy, true, true), actions);
      && p.relay.decision.Some? && p.relay.decision.value.complete
      && p.output.empty && !p.output.failed
      && p.reader.read == p.output.wire && !p.reader.failed && !p.reader.writeFailed
    ensures
      var p := Run(c, w, NewPipe(policy, true, true), actions);
      p.reader.file == p.relay.channel && |p.reader.file| == p.relay.decision.value.byteCount
  {
    NewPipeInv(c, policy, true, true);
    EveryPipeRun(c, w, NewPipe(policy, true, true), actions);
    var p := Run(c, w, NewPipe(policy, true, true), actions);
    var k := p.reader;
    DrainedIsWhole(p.output);
    var rest := EncodesSplit(c, p.events, k.accepted);
    FlattenAppend(Frames(c, k.accepted), Frames(c, rest));
    CancelPrefix(Flatten(Frames(c, k.accepted)), k.buffer, Flatten(Frames(c, rest)));
    CancelPrefix(Flatten(Frames(c, k.accepted)), Flatten(Frames(c, rest)), k.buffer);
    assert k.buffer == Flatten(Frames(c, rest));
    if rest != [] {
      FramesAreFrames(c, rest);
      assert Frames(c, rest)[0] in Frames(c, rest);
      ScanFrame(Frames(c, rest)[0], Flatten(Frames(c, rest)[1..]));
      assert false;
    }
    assert k.accepted + [] == k.accepted;
  }

  /**
   * No returned credit is lost, in every interleaving: while undecided bytes
   * are buffered, either the queued log is at its limit, so a later write will
   * return credit, or a return is latched or on its way to the coordinator.
   */
  lemma NoCreditIsLost(c: Codec, w: Writes, policy: CompletionPolicy, logWriter: bool, actions: seq<Action>)
    requires c.Sound() && AllEnabled(c, w, NewPipe(policy, true, logWriter), actions)
    ensures
      var p := Run(c, w, NewPipe(policy, true, logWriter), actions);
      p.relay.buffer != [] && p.relay.decision.None? ==>
        p.output.logPending >= LOG_CREDIT_BYTES || p.output.creditReturned || p.credits > 0
  {
    NewPipeInv(c, policy, true, logWriter);
    EveryPipeRun(c, w, NewPipe(policy, true, logWriter), actions);
  }

  /** The causes of an incomplete log that log progress meets, from a relay and a writer. */
  function ProgressCauses(c: Codec, r: Relay, o: Output): seq<Code> {
    (if Refuses(c, r, o) then [LogAdmission] else []) +
    (if ReadyToDecide(PumpAll(c, r, o).relay) then Unsettled(r, true) else [])
  }

  /** An acquired child's log is settled once it was read to its end after a confirmed disposal. */
  function Unsettled(r: Relay, acquired: bool): seq<Code> {
    if acquired && !(r.endOfFile && r.disposalConfirmed) then [LogUnsettled] else []
  }

  /** Why a step leaves the log incomplete; nothing counts after the decision. */
  function Causes(c: Codec, p: Pipe, a: Action): seq<Code> {
    var r := p.relay;
    if r.decision.Some? then []
    else
      match a
      case ReadChannel(chunk) =>
        (if Overflows(r, chunk) then [LogOverflow] else []) + ProgressCauses(c, Accepted(r, chunk), p.output)
      case FailRead => [LogReadError] + ProgressCauses(c, ReadFailed(r), p.output)
      case ConfirmDisposal => ProgressCauses(c, DisposalConfirmed(r), p.output)
      case CutRelay => [LogDisposal] + ProgressCauses(c, WasCut(r), p.output)
      case ReachDeadline =>
        (if r.buffer != [] || r.reading then [Code.LogDeadline] else []) + Unsettled(r, true)
      case HandleCredit => if p.credits == 0 then [] else ProgressCauses(c, r, p.output)
      case _ => []
  }

  function CausesOf(c: Codec, w: Writes, p: Pipe, actions: seq<Action>): seq<Code>
    decreases |actions|
  {
    if |actions| == 0 then []
    else Causes(c, p, actions[0]) + CausesOf(c, w, Do(c, w, p, actions[0]), actions[1..])
  }

  /** The first of an earlier cause and some later ones. */
  function First(cause: Option<Diagnostic>, codes: seq<Code>): Option<Diagnostic> {
    if cause.Some? || codes == [] then cause else Some(Fault(codes[0]))
  }

  /** Bytes are given up for these causes alone, before the decision. */
  predicate Loses(codes: seq<Code>) {
    LogOverflow in codes || LogAdmission in codes
  }

  /** The relay's record of causes after a step that met some. */
  predicate Explained(r: Relay, t: Relay, codes: seq<Code>) {
    && t.incomplete == First(r.incomplete, codes)
    && (t.decision.None? ==> r.decision.None? && (t.continuityLost <==> r.continuityLost || Loses(codes)))
  }

  lemma ExplainedSteps(r: Relay, s: Relay, t: Relay, a: seq<Code>, b: seq<Code>)
    requires Explained(r, s, a) && Explained(s, t, b)
    ensures Explained(r, t, a + b)
  {
  }

  lemma DecidedExplained(r: Relay, deadline: bool, acquired: bool)
    requires r.decision.None?
    ensures
      var late := if deadline && (r.buffer != [] || r.reading) then [Code.LogDeadline] else [];
      Explained(r, Decided(r, deadline, acquired), late + Unsettled(r, acquired))
  {
  }

  lemma ProgressExplained(c: Codec, p: Pipe)
    requires c.Sound() && RelayInv(p.relay) && OutputInv(p.output) && p.relay.decision.None?
    ensures Explained(p.relay, Progressed(c, p).relay, ProgressCauses(c, p.relay, p.output))
  {
    var t := PumpAll(c, p.relay, p.output).relay;
    var refused := if Refuses(c, p.relay, p.output) then [LogAdmission] else [];
    PumpExactly(c, p.relay, p.output);
    PumpKeeps(c, p.relay, p.output);
    assert Explained(p.relay, t, refused);
    if ReadyToDecide(t) {
      DecidedExplained(t, false, true);
      assert [] + Unsettled(t, true) == Unsettled(p.relay, true);
      ExplainedSteps(p.relay, t, Progressed(c, p).relay, refused, Unsettled(p.relay, true));
    } else {
      assert refused + [] == refused;
    }
  }

  /** Log progress after the relay learned something. */
  lemma LearnedExplained(c: Codec, p: Pipe, r: Relay, codes: seq<Code>)
    requires c.Sound() && RelayInv(r) && OutputInv(p.output) && r.decision.None?
    requires Explained(p.relay, r, codes)
    ensures Explained(p.relay, Progressed(c, p.(relay := r)).relay, codes + ProgressCauses(c, r, p.output))
  {
    var q := p.(relay := r);
    ProgressExplained(c, q);
    ExplainedSteps(p.relay, r, Progressed(c, q).relay, codes, ProgressCauses(c, r, p.output));
  }

  /** Log progress does nothing to a decided relay, whatever it learned. */
  lemma DecidedProgress(c: Codec, p: Pipe, r: Relay)
    requires r.decision.Some? && r.buffer == []
    ensures Progressed(c, p.(relay := r)).relay == r
  {
  }

  /** What a decided relay learns. */
  lemma DecidedLearns(r: Relay, chunk: bytes)
    requires RelayInv(r) && r.decision.Some?
    ensures Accepted(r, chunk).buffer == [] && Accepted(r, chunk).decision == r.decision
    ensures Accepted(r, chunk).incomplete == r.incomplete
    ensures ReadFailed(r).buffer == [] && ReadFailed(r).decision == r.decision
    ensures ReadFailed(r).incomplete == r.incomplete
  {
  }

  /** A decided relay records nothing more. */
  lemma DecidedStays(c: Codec, w: Writes, p: Pipe, a: Action)
    requires RelayInv(p.relay) && p.relay.decision.Some?
    ensures Do(c, w, p, a).relay.incomplete == p.relay.incomplete
    ensures Do(c, w, p, a).relay.decision == p.relay.decision
  {
    DecidedLearns(p.relay, if a.ReadChannel? then a.chunk else []);
    if a.ReadChannel? {
      DecidedProgress(c, p, Accepted(p.relay, a.chunk));
    } else if a.FailRead? {
      DecidedProgress(c, p, ReadFailed(p.relay));
    } else if a.HandleCredit? && p.credits > 0 {
      DecidedProgress(c, p.(credits := p.credits - 1), p.relay);
    }
  }

  lemma ReadExplained(c: Codec, p: Pipe, chunk: bytes)
    requires c.Sound() && HelperInv(c, p) && p.relay.decision.None?
    ensures Explained(p.relay, Progressed(c, p.(relay := Accepted(p.relay, chunk))).relay,
                      Causes(c, p, ReadChannel(chunk)))
  {
    AcceptCause(p.relay, chunk);
    AcceptKeeps(p.relay, chunk);
    LearnedExplained(c, p, Accepted(p.relay, chunk), if Overflows(p.relay, chunk) then [LogOverflow] else []);
  }

  /** What a failed read, a confirmed disposal and a cut do to a relay. */
  lemma EndingsExplained(r: Relay)
    requires RelayInv(r) && r.decision.None?
    ensures RelayInv(ReadFailed(r)) && Explained(r, ReadFailed(r), [LogReadError])
    ensures RelayInv(DisposalConfirmed(r)) && Explained(r, DisposalConfirmed(r), [])
    ensures RelayInv(WasCut(r)) && Explained(r, WasCut(r), [LogDisposal])
  {
  }

  lemma EndingExplained(c: Codec, p: Pipe, r: Relay, codes: seq<Code>)
    requires c.Sound() && RelayInv(p.relay) && OutputInv(p.output) && p.relay.decision.None?
    requires (r == ReadFailed(p.relay) && codes == [LogReadError]) || (r == DisposalConfirmed(p.relay) && codes == [])
             || (r == WasCut(p.relay) && codes == [LogDisposal])
    ensures Explained(p.relay, Progressed(c, p.(relay := r)).relay, codes + ProgressCauses(c, r, p.output))
  {
    EndingsExplained(p.relay);
    LearnedExplained(c, p, r, codes);
  }

  /** A decision, or a returned credit. */
  lemma DecisionExplained(c: Codec, w: Writes, p: Pipe, a: Action)
    requires c.Sound() && HelperInv(c, p) && p.relay.decision.None? && Enabled(p, a)
    requires a.ReachDeadline? || a.DecideWithoutChild? || a.HandleCredit?
    ensures Explained(p.relay, Do(c, w, p, a).relay, Causes(c, p, a))
  {
    match a
    case ReachDeadline => DecidedExplained(p.relay, true, true);
    case DecideWithoutChild =>
      DecidedExplained(p.relay, false, false);
      assert [] + Unsettled(p.relay, false) == [];
    case HandleCredit => ProgressExplained(c, p.(credits := p.credits - 1));
  }

  lemma StepExplained(c: Codec, w: Writes, p: Pipe, a: Action)
    requires c.Sound() && HelperInv(c, p) && Enabled(p, a)
    ensures Explained(p.relay, Do(c, w, p, a).relay, Causes(c, p, a))
  {
    if p.relay.decision.Some? {
      DecidedStays(c, w, p, a);
    } else if a.ReadChannel? {
      ReadExplained(c, p, a.chunk);
    } else if a.FailRead? {
      EndingExplained(c, p, ReadFailed(p.relay), [LogReadError]);
    } else if a.ConfirmDisposal? {
      EndingExplained(c, p, DisposalConfirmed(p.relay), []);
      assert [] + Causes(c, p, a) == Causes(c, p, a);
    } else if a.CutRelay? {
      EndingExplained(c, p, WasCut(p.relay), [LogDisposal]);
    } else if a.ReachDeadline? || a.DecideWithoutChild? || a.HandleCredit? {
      DecisionExplained(c, w, p, a);
    }
  }

  lemma {:induction false} RunExplained(c: Codec, w: Writes, p: Pipe, actions: seq<Action>)
    requires c.Sound() && PipeInv(c, p) && AllEnabled(c, w, p, actions)
    ensures Explained(p.relay, Run(c, w, p, actions).relay, CausesOf(c, w, p, actions))
    decreases |actions|
  {
    if |actions| > 0 {
      var q := Do(c, w, p, actions[0]);
      StepExplained(c, w, p, actions[0]);
      PipeStep(c, w, p, actions[0]);
      RunExplained(c, w, q, actions[1..]);
      ExplainedSteps(p.relay, q.relay, Run(c, w, p, actions).relay, Causes(c, p, actions[0]),
                     CausesOf(c, w, q, actions[1..]));
    }
  }

  /**
   * Nothing is given up without a reason. In every interleaving, until the
   * decision every byte read is admitted or still buffered, in order, if and
   * only if no chunk overflowed the buffer and no admission was refused; and
   * the log is decided incomplete exactly when some cause arose, with the
   * first one as its diagnostic.
   */
  lemma NothingIsLostUnexplained(c: Codec, w: Writes, policy: CompletionPolicy, logWriter: bool,
                                 actions: seq<Action>)
    requires c.Sound() && AllEnabled(c, w, NewPipe(policy, true, logWriter), actions)
    ensures
      var r := Run(c, w, NewPipe(policy, true, logWriter), actions).relay;
      var codes := CausesOf(c, w, NewPipe(policy, true, logWriter), actions);
      && (r.decision.None? ==> (r.sent + Flatten(r.buffer) == r.channel <==> !Loses(codes)))
      && (r.decision.Some? ==>
            && (r.decision.value.complete <==> codes == [])
            && r.decision.value.diagnostic == (if codes == [] then None else Some(Fault(codes[0]))))
  {
    var p := NewPipe(policy, true, logWriter);
    NewPipeInv(c, policy, true, logWriter);
    EveryPipeRun(c, w, p, actions);
    RunExplained(c, w, p, actions);
    var r := Run(c, w, p, actions).relay;
    assert Flatten(r.buffer) + [] == Flatten(r.buffer);
    assert |r.sent + (Flatten(r.buffer) + r.dropped)| == |r.sent + Flatten(r.buffer)| + |r.dropped|;
  }

  /** The controller's reader, over a whole run. */
  lemma {:induction false} RunGivesUp(c: Codec, w: Writes, logWriter: bool, p: Pipe, actions: seq<Action>)
    requires GivesUp(w, logWriter, p.reader)
    ensures GivesUp(w, logWriter, Run(c, w, p, actions).reader)
    decreases |actions|
  {
    if |actions| > 0 {
      var q := Do(c, w, p, actions[0]);
      StepGivesUp(c, w, logWriter, p, actions[0]);
      RunGivesUp(c, w, logWriter, q, actions[1..]);
    }
  }

  lemma StepGivesUp(c: Codec, w: Writes, logWriter: bool, p: Pipe, a: Action)
    requires GivesUp(w, logWriter, p.reader)
    ensures GivesUp(w, logWriter, Do(c, w, p, a).reader)
  {
    if a.ReadControl? && !p.reader.failed {
      var unread := if |p.reader.read| <= |p.output.wire| then p.output.wire[|p.reader.read|..] else [];
      var chunk := unread[..Min(a.n, |unread|)];
      var t := ScanAll(p.reader.buffer + chunk);
      DispatchAllGivesUp(c, w, logWriter, p.reader.(buffer := t.rest, read := p.reader.read + chunk), t.frames);
    }
  }

  /**
   * The local file stops growing for one reason only. In every interleaving it
   * is the whole of the received LOG_DATA, as long as no local write of an
   * accepted event's bytes failed.
   */
  lemma LocalFileFollows(c: Codec, w: Writes, policy: CompletionPolicy, actions: seq<Action>)
    requires c.Sound() && AllEnabled(c, w, NewPipe(policy, true, true), actions)
    ensures
      var k := Run(c, w, NewPipe(policy, true, true), actions).reader;
      && (k.writeFailed <==> LocalFails(w, k.accepted, 0))
      && (!LocalFails(w, k.accepted, 0) ==> k.file == k.received)
  {
    NewPipeInv(c, policy, true, true);
    EveryPipeRun(c, w, NewPipe(policy, true, true), actions);
    RunGivesUp(c, w, true, NewPipe(policy, true, true), actions);
  }

  /** Reading the channel stops: at its end, at a cut, or at an error. */
  predicate Stops(a: Action) {
    a.CutRelay? || a.FailRead? || a == ReadChannel([])
  }

  /** The channel's extent is final: at its end, once the child is disposed of, or at a cut. */
  predicate Settles(a: Action) {
    a.CutRelay? || a.ConfirmDisposal? || a == ReadChannel([])
  }

  /** A decision that does not wait for the log. */
  predicate Forces(a: Action) {
    a.ReachDeadline? || a.DecideWithoutChild?
  }

  /** How far an undecided relay has come, and that it does not put its decision off. */
  predicate Moved(r: Relay, t: Relay, stops: bool, settles: bool, forces: bool) {
    && (t.decision.None? ==>
          && r.decision.None?
          && (t.reading <==> r.reading && !stops) && (t.finalPhase <==> r.finalPhase || settles)
          && (Waits(r) ==> Waits(t)))
    && (t.decision.Some? && r.decision.None? ==> forces || ((!r.reading || stops) && (r.finalPhase || settles)))
  }

  /** There is still something to wait for. */
  predicate Waits(r: Relay) {
    r.reading || !r.finalPhase || r.buffer != []
  }

  lemma MovedSteps(r: Relay, s: Relay, t: Relay, a: bool, b: bool, c: bool, a': bool, b': bool, c': bool)
    requires Moved(r, s, a, b, c) && Moved(s, t, a', b', c')
    ensures Moved(r, t, a || a', b || b', c || c')
  {
  }

  /** Log progress decides exactly when there is nothing left to wait for. */
  lemma ProgressMoves(c: Codec, p: Pipe, r: Relay)
    requires c.Sound() && RelayInv(r) && OutputInv(p.output) && r.decision.None?
    ensures
      var t := Progressed(c, p.(relay := r)).relay;
      && (t.decision.None? ==> t.reading == r.reading && t.finalPhase == r.finalPhase && Waits(t))
      && (t.decision.Some? ==> !r.reading && r.finalPhase)
  {
    PumpExactly(c, r, p.output);
    PumpKeeps(c, r, p.output);
  }

  /** Log progress after the relay learned that reading stopped, or that the extent is final. */
  lemma LearnedMoves(c: Codec, p: Pipe, r: Relay, stops: bool, settles: bool)
    requires c.Sound() && RelayInv(r) && OutputInv(p.output) && r.decision.None? && p.relay.decision.None?
    requires (r.reading <==> p.relay.reading && !stops) && (r.finalPhase <==> p.relay.finalPhase || settles)
    ensures Moved(p.relay, Progressed(c, p.(relay := r)).relay, stops, settles, false)
  {
    ProgressMoves(c, p, r);
  }

  lemma ChunkMoves(r: Relay, chunk: bytes)
    requires r.decision.None?
    ensures
      var t := Accepted(r, chunk);
      (t.reading <==> r.reading && chunk != []) && (t.finalPhase <==> r.finalPhase || chunk == [])
  {
    if chunk != [] && !r.continuityLost {
      assert Overflowed(r, chunk).reading == r.reading && Overflowed(r, chunk).finalPhase == r.finalPhase;
    }
  }

  /** What the ends of reading and of the channel do to a relay's flags. */
  lemma EndingFlags(r: Relay)
    ensures !ReadFailed(r).reading && ReadFailed(r).finalPhase == r.finalPhase
    ensures DisposalConfirmed(r).reading == r.reading && DisposalConfirmed(r).finalPhase
    ensures !WasCut(r).reading && WasCut(r).finalPhase
  {
  }

  /** Reads, disposal and returned credits. */
  lemma RelayMoves(c: Codec, w: Writes, p: Pipe, a: Action)
    requires c.Sound() && RelayInv(p.relay) && OutputInv(p.output) && p.relay.decision.None?
    requires a.ReadChannel? || a.FailRead? || a.ConfirmDisposal? || a.CutRelay?
    ensures Moved(p.relay, Do(c, w, p, a).relay, Stops(a), Settles(a), Forces(a))
  {
    EndingsExplained(p.relay);
    EndingFlags(p.relay);
    if a.ReadChannel? {
      AcceptKeeps(p.relay, a.chunk);
      ChunkMoves(p.relay, a.chunk);
      LearnedMoves(c, p, Accepted(p.relay, a.chunk), Stops(a), Settles(a));
    } else if a.FailRead? {
      LearnedMoves(c, p, ReadFailed(p.relay), true, false);
    } else if a.ConfirmDisposal? {
      LearnedMoves(c, p, DisposalConfirmed(p.relay), false, true);
    } else {
      LearnedMoves(c, p, WasCut(p.relay), true, true);
    }
  }

  /** Forced decisions, and everything that is not about the relay. */
  lemma OtherMoves(c: Codec, w: Writes, p: Pipe, a: Action)
    requires p.relay.decision.None? && !a.ReadChannel? && !a.FailRead? && !a.ConfirmDisposal? && !a.CutRelay?
    requires !a.HandleCredit?
    ensures Moved(p.relay, Do(c, w, p, a).relay, Stops(a), Settles(a), Forces(a))
  {
  }

  lemma StepMoves(c: Codec, w: Writes, p: Pipe, a: Action)
    requires c.Sound() && HelperInv(c, p) && p.relay.decision.None?
    ensures Moved(p.relay, Do(c, w, p, a).relay, Stops(a), Settles(a), Forces(a))
  {
    if a.ReadChannel? || a.FailRead? || a.ConfirmDisposal? || a.CutRelay? {
      RelayMoves(c, w, p, a);
    } else if !a.HandleCredit? {
      OtherMoves(c, w, p, a);
    } else if p.credits > 0 {
      LearnedMoves(c, p.(credits := p.credits - 1), p.relay, false, false);
    }
  }

  /** Whether reading stopped, the extent became final, or a decision was forced, in some actions. */
  function Course(actions: seq<Action>): (bool, bool, bool)
    decreases |actions|
  {
    if |actions| == 0 then (false, false, false)
    else
      var (stops, settles, forces) := Course(actions[1..]);
      (Stops(actions[0]) || stops, Settles(actions[0]) || settles, Forces(actions[0]) || forces)
  }

  lemma {:induction false} RunMoves(c: Codec, w: Writes, p: Pipe, actions: seq<Action>)
    requires c.Sound() && PipeInv(c, p) && AllEnabled(c, w, p, actions) && p.relay.decision.None?
    ensures
      var (stops, settles, forces) := Course(actions);
      Moved(p.relay, Run(c, w, p, actions).relay, stops, settles, forces)
    decreases |actions|
  {
    if |actions| > 0 {
      var q := Do(c, w, p, actions[0]);
      var (stops, settles, forces) := Course(actions[1..]);
      StepMoves(c, w, p, actions[0]);
      PipeStep(c, w, p, actions[0]);
      if q.relay.decision.None? {
        RunMoves(c, w, q, actions[1..]);
        MovedSteps(p.relay, q.relay, Run(c, w, p, actions).relay, Stops(actions[0]), Settles(actions[0]),
                   Forces(actions[0]), stops, settles, forces);
      } else {
        DecisionLasts(c, w, q, actions[1..]);
      }
    }
  }

  lemma {:induction false} DecisionLasts(c: Codec, w: Writes, p: Pipe, actions: seq<Action>)
    requires c.Sound() && PipeInv(c, p) && AllEnabled(c, w, p, actions) && p.relay.decision.Some?
    ensures Run(c, w, p, actions).relay.decision == p.relay.decision
    decreases |actions|
  {
    if |actions| > 0 {
      DecidedStays(c, w, p, actions[0]);
      PipeStep(c, w, p, actions[0]);
      DecisionLasts(c, w, Do(c, w, p, actions[0]), actions[1..]);
    }
  }

  /**
   * The log is decided in time, and not before. In every interleaving, unless
   * a deadline or the absence of a child forces it, a decision is made only
   * once reading has stopped and the extent is final; and then it is made as
   * soon as nothing is buffered any more.
   */
  lemma DecidedInTime(c: Codec, w: Writes, policy: CompletionPolicy, logWriter: bool, actions: seq<Action>)
    requires c.Sound() && AllEnabled(c, w, NewPipe(policy, true, logWriter), actions)
    ensures
      var r := Run(c, w, NewPipe(policy, true, logWriter), actions).relay;
      var (stops, settles, forces) := Course(actions);
      && (r.decision.Some? ==> forces || (stops && settles))
      && (stops && settles && r.buffer == [] ==> r.decision.Some?)
  {
    NewPipeInv(c, policy, true, logWriter);
    RunMoves(c, w, NewPipe(policy, true, logWriter), actions);
  }
}
