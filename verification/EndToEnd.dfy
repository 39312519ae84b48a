/** Helper and controller together: what one admits, the other understands. */
module EndToEnd {
  import opened Base
  import opened Outcomes
  import opened Framing
  import opened Events
  import opened Streams
  import opened Connection
  import opened LogPipeline
  import opened Relaying
  import opened Controls
  import opened SessionFacts
  import HelperSessions

  /** A reader fed a stream in the given chunks. */
  function ReceivedAll(c: Codec, w: Writes, k: Reader, chunks: seq<bytes>): Reader
    decreases |chunks|
  {
    if |chunks| == 0 then k else ReceivedAll(c, w, Received(c, w, k, chunks[0]), chunks[1..])
  }

  /** A reader that understood the first j events and holds part of the next frame. */
  ghost predicate Follows(c: Codec, start: Order, es: seq<Event>, k: Reader, j: nat) {
    && j <= |es|
    && c.Encodes(es[..j])
    && !k.failed
    && k.accepted == es[..j]
    && AcceptAll(start, es[..j]) == Some(k.order)
    && k.read == Flatten(Frames(c, es[..j])) + k.buffer
    && ScanAll(k.buffer) == Scan([], k.buffer, false)
  }

  lemma AcceptedPrefix(start: Order, es: seq<Event>, j: nat)
    requires AcceptAll(start, es).Some? && j <= |es|
    ensures AcceptAll(start, es[..j]).Some?
    ensures AcceptAll(AcceptAll(start, es[..j]).value, es[j..]).Some?
  {
    assert es == es[..j] + es[j..];
    AcceptAllAppend(start, es[..j], es[j..]);
  }

  /** The frames the next chunk completes are those of the next events. */
  lemma NextEvents(c: Codec, start: Order, es: seq<Event>, k: Reader, j: nat, chunk: bytes) returns (n: nat)
    requires c.Sound() && c.Encodes(es) && Follows(c, start, es, k, j)
    requires k.read + chunk <= Flatten(Frames(c, es))
    ensures j <= n <= |es|
    ensures c.Encodes(es[j..n]) && ScanAll(k.buffer + chunk).frames == Frames(c, es[j..n])
    ensures !ScanAll(k.buffer + chunk).oversize
  {
    var rest := EncodesSplit(c, es, es[..j]);
    var done := Flatten(Frames(c, es[..j]));
    FlattenAppend(Frames(c, es[..j]), Frames(c, rest));
    Assoc(done, k.buffer, chunk);
    CancelPrefix(done, k.buffer + chunk, Flatten(Frames(c, rest)));
    FramesAreFrames(c, rest);
    var i := ScanPrefix(Frames(c, rest), k.buffer + chunk);
    var head := FramesTake(c, rest, i);
    n := j + i;
    assert es == es[..j] + es[j..];
    assert rest == es[j..];
    assert es[j..n] == rest[..i];
  }

  /** One read follows on. */
  lemma ReceivedFollows(c: Codec, w: Writes, start: Order, es: seq<Event>, k: Reader, j: nat, chunk: bytes)
    returns (n: nat)
    requires c.Sound() && c.Encodes(es) && AcceptAll(start, es).Some? && Follows(c, start, es, k, j)
    requires k.read + chunk <= Flatten(Frames(c, es))
    ensures Follows(c, start, es, Received(c, w, k, chunk), n)
    ensures Received(c, w, k, chunk).read == k.read + chunk
  {
    n := NextEvents(c, start, es, k, j, chunk);
    var t := ScanAll(k.buffer + chunk);
    var next := es[j..n];
    var from := k.(buffer := t.rest, read := k.read + chunk);
    assert es[..n] == es[..j] + next;
    AcceptedPrefix(start, es, n);
    AcceptAllAppend(start, es[..j], next);
    DispatchEvents(c, w, from, next);
    DispatchedKeep(c, w, from, t.frames);
    FramesAppend(c, es[..j], next);
    var done := Flatten(Frames(c, es[..j]));
    FlattenAppend(Frames(c, es[..j]), t.frames);
    ScanPartitions(k.buffer + chunk);
    StuckScan(t.rest);
    Assoc(done, k.buffer, chunk);
    Assoc(done, Flatten(t.frames), t.rest);
  }

  /** Dispatching does not touch the buffer or what was read. */
  lemma {:induction false} DispatchedKeep(c: Codec, w: Writes, k: Reader, frames: seq<bytes>)
    ensures DispatchedAll(c, w, k, frames).read == k.read
    ensures DispatchedAll(c, w, k, frames).buffer == k.buffer
    decreases |frames|
  {
    if |frames| > 0 && !k.failed {
      DispatchedKeep(c, w, Dispatched(c, w, k, frames[0]), frames[1..]);
    }
  }

  /** Any number of reads follow on. */
  lemma {:induction false} ReceivedAllFollows(c: Codec, w: Writes, start: Order, es: seq<Event>, k: Reader, j: nat,
                                              chunks: seq<bytes>)
    returns (n: nat)
    requires c.Sound() && c.Encodes(es) && AcceptAll(start, es).Some? && Follows(c, start, es, k, j)
    requires k.read + Flatten(chunks) <= Flatten(Frames(c, es))
    ensures Follows(c, start, es, ReceivedAll(c, w, k, chunks), n)
    ensures ReceivedAll(c, w, k, chunks).read == k.read + Flatten(chunks)
    decreases |chunks|
  {
    if |chunks| == 0 {
      assert k.read + [] == k.read;
      return j;
    }
    Assoc(k.read, chunks[0], Flatten(chunks[1..]));
    PrefixOf(k.read + chunks[0], Flatten(chunks[1..]), Flatten(Frames(c, es)));
    n := ReceivedFollows(c, w, start, es, k, j, chunks[0]);
    n := ReceivedAllFollows(c, w, start, es, Received(c, w, k, chunks[0]), n, chunks[1..]);
  }

  lemma PrefixOf(a: bytes, b: bytes, all: bytes)
    requires a + b <= all
    ensures a <= all
  {
    assert (a + b)[..|a|] == a;
  }

  /**
   * The two ends agree. Whatever a helper session admits, a controller that
   * expects the request the helper handled reads without a protocol failure:
   * after any part of the wire, in any chunks, it has accepted a prefix of the
   * admitted events, and after a completed drain all of them.
   */
  lemma ControllerUnderstands(c: SoundCodec, w: Writes, output: Output, events: seq<Event>,
                              request: Option<Request>, logWriter: bool, chunks: seq<bytes>)
    requires Acceptable(c, output, events, request) && Flatten(chunks) <= output.wire
    ensures
      var k := ReceivedAll(c, w, NewReader(PolicyOf(request), UsesLog(request), logWriter), chunks);
      && !k.failed
      && k.accepted <= events
      && (output.empty && !output.failed && Flatten(chunks) == output.wire ==> k.accepted == events && k.buffer == [])
  {
    assert Inspected(OfWire, 0);
    var k := NewReader(PolicyOf(request), UsesLog(request), logWriter);
    OneFrame([]);
    WireIsPrefix(output);
    assert [] + Flatten(chunks) == Flatten(chunks);
    assert events[..0] == [];
    var n := ReceivedAllFollows(c, w, k.order, events, k, 0, chunks);
    var r := ReceivedAll(c, w, k, chunks);
    if output.empty && !output.failed && Flatten(chunks) == output.wire {
      DrainedIsWhole(output);
      WholeIsAll(c, events, n, r.buffer);
    }
  }

  lemma {:induction false} ReceivedAllKeeps(c: Codec, w: Writes, k: Reader, chunks: seq<bytes>)
    requires ReaderInv(k)
    ensures ReaderInv(ReceivedAll(c, w, k, chunks))
    decreases |chunks|
  {
    if |chunks| > 0 {
      if !k.failed {
        var t := ScanAll(k.buffer + chunks[0]);
        DispatchAllKeeps(c, w, k.(buffer := t.rest, read := k.read + chunks[0]), t.frames);
      }
      ReceivedAllKeeps(c, w, Received(c, w, k, chunks[0]), chunks[1..]);
    }
  }

  /** Nothing follows the end: a prefix of a history that has it is the whole history. */
  lemma EndIsLast(policy: CompletionPolicy, requested: bool, head: seq<Event>, events: seq<Event>)
    requires AcceptAll(NewOrder(policy, requested), events).Some? && head <= events && HasEnd(head)
    ensures head == events
  {
    AcceptsExactlyHistories(policy, requested, events);
    forall i | 0 <= i < |events|
      ensures !HasEnd(events[..i])
    {
      assert Allowed(policy, requested, events[..i], events[i]);
    }
    assert head == events[..|head|];
    assert events[..|events|] == events;
  }

  /** A controller that has accepted the end has accepted everything, and received every log byte. */
  lemma AcceptedEndIsWhole(c: SoundCodec, w: Writes, output: Output, events: seq<Event>, request: Option<Request>,
                           logWriter: bool, chunks: seq<bytes>)
    requires Acceptable(c, output, events, request) && Flatten(chunks) <= output.wire
    ensures
      var k := ReceivedAll(c, w, NewReader(PolicyOf(request), UsesLog(request), logWriter), chunks);
      HasEnd(k.accepted) ==>
        && k.accepted == events
        && k.received == LogOf(events)
        && k.file <= LogOf(events)
        && (!k.writeFailed ==> k.file == LogOf(events))
  {
    assert Inspected(OfWire, 0);
    ControllerUnderstands(c, w, output, events, request, logWriter, chunks);
    var start := NewReader(PolicyOf(request), UsesLog(request), logWriter);
    ReceivedAllKeeps(c, w, start, chunks);
    var k := ReceivedAll(c, w, start, chunks);
    if HasEnd(k.accepted) {
      EndIsLast(PolicyOf(request), UsesLog(request), k.accepted, events);
    }
  }

  /** A whole stream leaves no event unread. */
  lemma WholeIsAll(c: Codec, es: seq<Event>, n: nat, buffer: bytes)
    requires c.Sound() && c.Encodes(es) && n <= |es| && c.Encodes(es[..n])
    requires ScanAll(buffer) == Scan([], buffer, false)
    requires Flatten(Frames(c, es[..n])) + buffer == Flatten(Frames(c, es))
    ensures n == |es| && buffer == []
  {
    var rest := EncodesSplit(c, es, es[..n]);
    FlattenAppend(Frames(c, es[..n]), Frames(c, rest));
    var done := Flatten(Frames(c, es[..n]));
    assert buffer == (done + buffer)[|done|..] == Flatten(Frames(c, rest));
    if rest != [] {
      FramesAreFrames(c, rest);
      assert Frames(c, rest)[0] in Frames(c, rest);
      ScanFrame(Frames(c, rest)[0], Flatten(Frames(c, rest)[1..]));
      assert false;
    }
    assert |es[..n] + rest| == |es|;
  }

  /** A byte stream read in pieces of the given sizes, as far as they go. */
  function Pieces(s: bytes, sizes: seq<nat>): seq<bytes>
    decreases |sizes|
  {
    if |sizes| == 0 then []
    else
      var n := Min(sizes[0], |s|);
      [s[..n]] + Pieces(s[n..], sizes[1..])
  }

  lemma {:induction false} PiecesArePrefix(s: bytes, sizes: seq<nat>)
    ensures Flatten(Pieces(s, sizes)) <= s
    decreases |sizes|
  {
    if |sizes| > 0 {
      var n := Min(sizes[0], |s|);
      FlattenCons(s[..n], Pieces(s[n..], sizes[1..]));
      PiecesArePrefix(s[n..], sizes[1..]);
      assert s == s[..n] + s[n..];
    }
  }

  /** Of a controller's input, the first whole frame that can arrive is START. */
  lemma FirstFrame(start: bytes, release: bytes, sent: bytes, arrived: bytes)
    requires IsFrame(start) && ControllerInput(start, release, sent) && arrived <= sent
    ensures |ScanAll(arrived).frames| > 0 ==> ScanAll(arrived).frames[0] == start
  {
    if |arrived| >= |start| {
      assert arrived == start + arrived[|start|..];
      ScanFrame(start, arrived[|start|..]);
    } else {
      assert start == arrived + start[|arrived|..];
      FindLFExtends(arrived, start[|arrived|..]);
      StuckScan(arrived);
    }
  }

  /** A helper that handled START handled the one the controller sent. */
  lemma HandledIsPlanned(input: Input<Request>, start: bytes, release: bytes, sent: bytes, control: Control,
                         request: Option<Request>)
    requires IsStart(input.Decoders(), start) && ControllerInput(start, release, sent) && control.consumed <= sent
    requires request.Some? ==> Started(input, control) == request
    ensures request.Some? ==> request == input.start(start)
  {
    FirstFrame(start, release, sent, control.consumed);
  }

  lemma LossNeedsWholeStart(d: Decoders, start: bytes, release: bytes, sent: bytes, arrived: bytes)
    requires IsStart(d, start) && IsRelease(d, release)
    requires ControllerInput(start, release, sent) && arrived <= sent
    ensures Conforms(d, arrived, LeaseLost) <==> arrived == start
  {
    var v := Classify(d, ScanAll(arrived));
    ClassifyConforms(d, arrived, v);
    ClassifyConforms(d, arrived, LeaseLost);
    LeaseLossExactly(d, start, release, sent, arrived, v);
  }

  /** A stream without START reads the same under any policy that does not ask for the log. */
  lemma PlannedIsAcceptable(c: Codec, output: Output, events: seq<Event>, planned: Request)
    requires Acceptable(c, output, events, None) && !planned.usesLog
    ensures Acceptable(c, output, events, Some(planned))
  {
    assert Inspected(OfWire, 0);
    if HasReady(events) {
      ReadyNeedsAttempt(LiveServer, false, events);
    }
    PolicyOnlyMattersForReady(LiveServer, planned.startup.policy, false, events);
  }

  /**
   * A helper session and the controller it talks to. The controller wrote
   * START for its plan, perhaps in part, and perhaps RELEASE; the helper's
   * control observer read some of that; the controller reads what the helper
   * wrote, as far as it got, in pieces of any sizes, and expects its own plan.
   * It meets no protocol failure, unless it asked for the log and the helper
   * never handled START. Once it accepted SESSION_ENDED it has the helper's
   * terminal snapshot and every event; if that reports a complete log and no
   * local write failed, the local file is the whole channel, of the reported
   * length; and the snapshot has the loss of the lease on record if and only if
   * the helper read START whole, nothing of RELEASE, and then the end. The exit
   * status in it, if there is one, is one that was reported for the child.
   */
  method Converse(codec: SoundCodec, input: Input<Request>, helper: HelperSessions.text,
                  sessionId: HelperSessions.text, work: HelperSessions.text, launching: HelperSessions.Launching,
                  turns: seq<HelperSessions.Turn>, last: HelperSessions.World,
                  cancelled: seq<HelperSessions.Cancelled>, releasing: HelperSessions.Releasing,
                  ending: HelperSessions.Ending, start: bytes, ghost release: bytes, ghost sent: bytes,
                  w: Writes, logWriter: bool, sizes: seq<nat>)
    returns (k: Reader, events: seq<Event>, request: Option<Request>, snapshot: Option<TerminalSnapshot>,
             relay: Option<Relay>, control: Control)
    requires IsStart(input.Decoders(), start) && IsRelease(input.Decoders(), release)
    requires ControllerInput(start, release, sent)
    ensures control.consumed <= sent ==>
              (request.Some? ==> request == input.start(start)) &&
              (request.Some? || !input.start(start).value.usesLog ==>
                 ControllerOutcome(k, events, snapshot, relay))
    ensures control.consumed <= sent && snapshot.Some? ==>
              (LEASE_LOSS in snapshot.value.outcome.Recorded() <==> control.ended && control.consumed == start)
    ensures snapshot.Some? && snapshot.value.outcome.childResult.Some? ==>
              HelperSessions.Says(turns, last, snapshot.value.outcome.childResult.value.returncode)
  {
    var output, returned, lease, acquired, delivered, disk, settlement;
    ghost var spawning, told;
    events, output, request, returned, snapshot, lease, relay, acquired, control, delivered, disk, settlement,
    spawning, told :=
      HelperSessions.RunSession(codec, input, helper, sessionId, work, launching, turns, last, cancelled, releasing,
                                ending);
    var chunks := Pieces(output.wire, sizes);
    PiecesArePrefix(output.wire, sizes);
    var planned := input.start(start);
    k := ReceivedAll(codec, w, NewReader(PolicyOf(planned), UsesLog(planned), logWriter), chunks);
    if control.consumed <= sent {
      HandledIsPlanned(input, start, release, sent, control, request);
      LossNeedsWholeStart(input.Decoders(), start, release, sent, control.consumed);
      if request.Some? || !planned.value.usesLog {
        if request.None? {
          PlannedIsAcceptable(codec, output, events, planned.value);
        }
        Understood(codec, w, output, events, planned, logWriter, chunks);
      }
    }
  }

  /** What a controller has once it read some of a helper's output. */
  ghost predicate ControllerOutcome(k: Reader, events: seq<Event>, snapshot: Option<TerminalSnapshot>,
                                    relay: Option<Relay>)
  {
    && !k.failed && k.accepted <= events
    && k.file <= k.received <= LogOf(events)
    && (HasEnd(k.accepted) ==>
          && k.accepted == events
          && snapshot.Some? && events != [] && events[|events| - 1] == SessionEnded(snapshot.value)
          && (snapshot.value.log.Some? ==> |k.received| == snapshot.value.log.value.byteCount)
          && (snapshot.value.log.Some? && snapshot.value.log.value.complete && !k.writeFailed ==>
                && k.file == (if relay.None? then [] else relay.value.channel)
                && |k.file| == snapshot.value.log.value.byteCount))
  }

  /** Reading an acceptable stream: what is accepted, received and written. */
  lemma Understood(c: SoundCodec, w: Writes, output: Output, events: seq<Event>, request: Option<Request>,
                   logWriter: bool, chunks: seq<bytes>)
    requires Acceptable(c, output, events, request) && Flatten(chunks) <= output.wire
    ensures
      var k := ReceivedAll(c, w, NewReader(PolicyOf(request), UsesLog(request), logWriter), chunks);
      && !k.failed && k.accepted <= events && k.file <= k.received <= LogOf(events)
      && (HasEnd(k.accepted) ==>
            && k.accepted == events && k.received == LogOf(events)
            && (!k.writeFailed ==> k.file == LogOf(events)))
  {
    ControllerUnderstands(c, w, output, events, request, logWriter, chunks);
    AcceptedEndIsWhole(c, w, output, events, request, logWriter, chunks);
    var start := NewReader(PolicyOf(request), UsesLog(request), logWriter);
    ReceivedAllKeeps(c, w, start, chunks);
    LogPrefix(ReceivedAll(c, w, start, chunks).accepted, events);
  }

  /** What the end of an accepted session fixes about its reader: the log request. */
  lemma TerminalFixesLogRequest(policy: CompletionPolicy, requested: bool, other: bool, events: seq<Event>,
                                snapshot: TerminalSnapshot)
    requires AcceptAll(NewOrder(policy, requested), events + [SessionEnded(snapshot)]).Some?
    ensures AcceptAll(NewOrder(policy, other), events + [SessionEnded(snapshot)]).Some? <==> other == requested
  {
    AcceptAllSnoc(NewOrder(policy, requested), events, SessionEnded(snapshot));
    AcceptAllSnoc(NewOrder(policy, other), events, SessionEnded(snapshot));
    AcceptsExactlyHistories(policy, requested, events);
    AcceptsExactlyHistories(policy, other, events);
  }

  /** The policy decides nothing about a stream without READY. */
  lemma PolicyOnlyMattersForReady(p: CompletionPolicy, q: CompletionPolicy, requested: bool, events: seq<Event>)
    requires !HasReady(events)
    ensures AcceptAll(NewOrder(p, requested), events).Some? <==> AcceptAll(NewOrder(q, requested), events).Some?
  {
    AcceptsExactlyHistories(p, requested, events);
    AcceptsExactlyHistories(q, requested, events);
    forall i | 0 <= i < |events|
      ensures Allowed(p, requested, events[..i], events[i]) <==> Allowed(q, requested, events[..i], events[i])
    {
      assert events[i] in events;
    }
  }

  lemma ReadyNeedsAttempt(policy: CompletionPolicy, requested: bool, events: seq<Event>)
    requires AcceptAll(NewOrder(policy, requested), events).Some? && HasReady(events)
    ensures HasAttempt(events)
  {
    AcceptsExactlyHistories(policy, requested, events);
    var i :| 0 <= i < |events| && events[i].ReadyAt?;
    assert Allowed(policy, requested, events[..i], events[i]);
  }

  /**
   * A helper that ended without handling START. The controller has set its
   * policy and log request already; it accepts the helper's whole stream if
   * and only if it did not ask for the log, whatever its policy.
   */
  lemma UnhandledStart(c: SoundCodec, output: Output, front: seq<Event>, events: seq<Event>,
                       snapshot: TerminalSnapshot, policy: CompletionPolicy, requested: bool)
    requires Acceptable(c, output, events, None) && events == front + [SessionEnded(snapshot)]
    ensures AcceptAll(NewOrder(policy, requested), events).Some? <==> !requested
  {
    assert Inspected(OfWire, 0);
    if HasReady(events) {
      ReadyNeedsAttempt(LiveServer, false, events);
    }
    PolicyOnlyMattersForReady(LiveServer, policy, requested, events);
    TerminalFixesLogRequest(LiveServer, false, requested, front, snapshot);
  }

  /** A codec that knows two events. */
  function TwoEvents(first: Event, last: Event): Codec {
    Codec((x: Event) => if x == first then Some([LF]) else if x == last then Some([ZERO, LF]) else None,
          (f: bytes) => if f == [LF] then Some(first) else if f == [ZERO, LF] then Some(last) else None)
  }

  const ZERO := Byte(0, 0, 0, 0)

  lemma TwoEventsAreSound(first: Event, last: Event)
    requires first != last
    ensures TwoEvents(first, last).Sound()
  {
    assert FindLF([LF]) == 0;
    assert FindLF([ZERO, LF]) == 1 + FindLF([ZERO, LF][1..]);
  }

  /** A helper that lost its input before it handled START: nothing failed, and there was no log. */
  function Unstarted(): TerminalSnapshot {
    TerminalSnapshot(Outcome(ControllerEof, None, [], None),
                     CleanupReport(ChildNotAcquired, WorkspaceConfirmed, []), None)
  }

  /**
   * Such a session's stream is one a helper may publish, and a controller that
   * had asked for the log rejects it.
   */
  lemma UnhandledStartIsRejected(created: Event, policy: CompletionPolicy)
    requires created.SessionCreated? && ValidEvent(created)
    ensures
      var end := SessionEnded(Unstarted());
      var c := TwoEvents(created, end);
      var first := Emitted(c, NewOutput(), created, false);
      var last := if first.None? then None else Emitted(c, first.value, end, false);
      && c.Sound()
      && last.Some? && Acceptable(c, last.value, [created, end], None)
      && AcceptAll(NewOrder(policy, true), [created, end]).None?
      && AcceptAll(NewOrder(policy, false), [created, end]).Some?
  {
    var end := SessionEnded(Unstarted());
    var c := TwoEvents(created, end);
    UnstartedIsPublished(created);
    var last := Emitted(c, Emitted(c, NewOutput(), created, false).value, end, false).value;
    assert [created] + [end] == [created, end];
    UnhandledStart(c, last, [created], [created, end], Unstarted(), policy, true);
    UnhandledStart(c, last, [created], [created, end], Unstarted(), policy, false);
  }

  lemma UnstartedIsPublished(created: Event)
    requires created.SessionCreated? && ValidEvent(created)
    ensures
      var end := SessionEnded(Unstarted());
      var c := TwoEvents(created, end);
      var first := Emitted(c, NewOutput(), created, false);
      var last := if first.None? then None else Emitted(c, first.value, end, false);
      c.Sound() && last.Some? && Acceptable(c, last.value, [created, end], None)
  {
    var end := SessionEnded(Unstarted());
    var c := TwoEvents(created, end);
    TwoEventsAreSound(created, end);
    var order := NewOrder(LiveServer, false);
    assert Elements<Residual>([]) == {};
    assert SessionFacts.Published(c, NewOutput(), [], order) by {
      assert Frames(c, []) == [];
    }
    EmitPublishes(c, NewOutput(), [], order, created, false);
    assert [] + [created] == [created];
    var first := Emitted(c, NewOutput(), created, false).value;
    EmitPublishes(c, first, [created], order.(created := true), end, false);
    assert [created] + [end] == [created, end];
    PublishedIsAcceptable(c, Emitted(c, first, end, false).value, [created, end],
                          order.(created := true, ended := true));
  }

  /** A published stream without an attempt, under the default request. */
  lemma PublishedIsAcceptable(c: Codec, output: Output, events: seq<Event>, order: Order)
    requires SessionFacts.Published(c, output, events, order) && !HasAttempt(events)
    requires order.policy == PolicyOf(None) && order.logRequested == UsesLog(None)
    ensures Acceptable(c, output, events, None)
  {
    assert Inspected(OfStream, 0) && Inspected(OfOutput, 0);
  }
}
