/**
 * The controller's end of the control channel: controller/helper_connection.py
 * and controller/_log_file.py.
 */
module Connection {
  import opened Base
  import opened Events
  import opened Framing
  import opened Streams
  import opened Outcomes

  /** What one os.write on the local log file reported. */
  datatype LocalWrite = Count(n: int) | Raised

  /** The part of a chunk that reached the file, and whether the write failed. */
  datatype Local = Local(written: bytes, failed: bool)

  /** A chunk written by short writes; no progress, or running out of results, is failure. */
  function WriteAll(data: bytes, results: seq<LocalWrite>): Local
    decreases |results|
  {
    if data == [] then Local([], false)
    else if results == [] || results[0].Raised? || results[0].n <= 0 then Local([], true)
    else
      var n := Min(results[0].n, |data|);
      var rest := WriteAll(data[n..], results[1..]);
      Local(data[..n] + rest.written, rest.failed)
  }

  /** A failed write leaves a prefix; a successful one leaves the whole chunk. */
  lemma {:induction false} WriteAllPrefix(data: bytes, results: seq<LocalWrite>)
    ensures WriteAll(data, results).written <= data
    ensures !WriteAll(data, results).failed ==> WriteAll(data, results).written == data
    decreases |results|
  {
    if data == [] || results == [] || results[0].Raised? || results[0].n <= 0 {
    } else {
      var n := Min(results[0].n, |data|);
      WriteAllPrefix(data[n..], results[1..]);
      assert data == data[..n] + data[n..];
    }
  }

  /** A write that made progress. */
  predicate Progress(w: LocalWrite) {
    w.Count? && w.n > 0
  }

  /**
   * A chunk fails only at a write that made no progress: as many writes as it
   * has bytes, each making some, write all of it.
   */
  lemma {:induction false} WriteAllSucceeds(data: bytes, results: seq<LocalWrite>)
    requires |results| >= |data| && forall i | 0 <= i < |data| :: Progress(results[i])
    ensures WriteAll(data, results) == Local(data, false)
    decreases |results|
  {
    if data != [] {
      var n := Min(results[0].n, |data|);
      assert Progress(results[0]);
      assert forall i | 0 <= i < |data[n..]| :: results[1..][i] == results[i + 1];
      WriteAllSucceeds(data[n..], results[1..]);
      assert data == data[..n] + data[n..];
    }
  }

  /** controller/_log_file.py LocalLogFile. */
  class LocalLogFile {
    ghost var contents: bytes

    constructor ()
      ensures contents == []
    {
      contents := [];
    }

    method Write(data: bytes, results: seq<LocalWrite>) returns (failed: bool)
      modifies this
      ensures contents == old(contents) + WriteAll(data, results).written
      ensures failed == WriteAll(data, results).failed
    {
      var view := data;
      var i := 0;
      assert old(contents) + [] == old(contents);
      while view != []
        invariant i <= |results|
        invariant WriteAll(data, results).failed == WriteAll(view, results[i..]).failed
        invariant old(contents) + WriteAll(data, results).written ==
                  contents + WriteAll(view, results[i..]).written
        decreases |results| - i
      {
        if i == |results| || results[i].Raised? || results[i].n <= 0 {
          assert contents + [] == contents;
          return true;
        }
        var count := Min(results[i].n, |view|);
        Assoc(contents, view[..count], WriteAll(view[count..], results[i..][1..]).written);
        contents := contents + view[..count];
        view := view[count..];
        i := i + 1;
      }
      assert contents + [] == contents;
      return false;
    }
  }

  /**
   * The reader's fields, with the events it accepted, the log bytes they
   * carried, every byte it read, and the local file.
   */
  datatype Reader = Reader(
    buffer: bytes,
    order: Order,
    writeFailed: bool,
    failed: bool,
    accepted: seq<Event>,
    received: bytes,
    read: bytes,
    file: bytes)

  /** A new reader; without a borrowed log writer it writes nothing, as after a failed write. */
  function NewReader(policy: CompletionPolicy, logRequested: bool, logWriter: bool): Reader {
    Reader([], NewOrder(policy, logRequested), !logWriter, false, [], [], [], [])
  }

  /** Local write results, indexed by the number of events accepted before. */
  type Writes = nat -> seq<LocalWrite>

  /** Decode, order and dispatch one frame. */
  function Dispatched(c: Codec, w: Writes, k: Reader, frame: bytes): Reader {
    var e := c.decode(frame);
    if e.None? then k.(failed := true)
    else
      var order := Advance(k.order, e.value);
      if order.None? then k.(failed := true)
      else
        var data := Payload(e.value);
        var local := if k.writeFailed then Local([], true) else WriteAll(data, w(|k.accepted|));
        k.(order := order.value,
           accepted := k.accepted + [e.value],
           received := k.received + data,
           file := k.file + local.written,
           writeFailed := local.failed)
  }

  function DispatchedAll(c: Codec, w: Writes, k: Reader, frames: seq<bytes>): Reader
    decreases |frames|
  {
    if |frames| == 0 || k.failed then k
    else DispatchedAll(c, w, Dispatched(c, w, k, frames[0]), frames[1..])
  }

  /** One read of the control stream; a failed reader has stopped. */
  function Received(c: Codec, w: Writes, k: Reader, chunk: bytes): Reader {
    if k.failed then k
    else
      var t := ScanAll(k.buffer + chunk);
      var next := DispatchedAll(c, w, k.(buffer := t.rest, read := k.read + chunk), t.frames);
      if t.oversize then next.(failed := true) else next
  }

  /**
   * What the reader has established: the log bytes are those of the accepted
   * events in order, and the file is a prefix of them, whole until the first
   * failed write.
   */
  ghost predicate ReaderInv(k: Reader) {
    && k.received == LogOf(k.accepted)
    && k.file <= k.received
    && (!k.writeFailed ==> k.file == k.received)
  }

  lemma DispatchKeeps(c: Codec, w: Writes, k: Reader, frame: bytes)
    requires ReaderInv(k)
    ensures ReaderInv(Dispatched(c, w, k, frame))
  {
    var e := c.decode(frame);
    if e.Some? {
      LogOfSnoc(k.accepted, e.value);
      WriteAllPrefix(Payload(e.value), w(|k.accepted|));
      assert k.file + [] == k.file;
    }
  }

  lemma {:induction false} DispatchAllKeeps(c: Codec, w: Writes, k: Reader, frames: seq<bytes>)
    requires ReaderInv(k)
    ensures ReaderInv(DispatchedAll(c, w, k, frames))
    ensures DispatchedAll(c, w, k, frames).read == k.read
    ensures DispatchedAll(c, w, k, frames).buffer == k.buffer
    decreases |frames|
  {
    if |frames| == 0 || k.failed {
    } else {
      DispatchKeeps(c, w, k, frames[0]);
      DispatchAllKeeps(c, w, Dispatched(c, w, k, frames[0]), frames[1..]);
    }
  }

  /** The local writing of one of these events' bytes failed; the first of them is the n-th accepted. */
  predicate LocalFails(w: Writes, events: seq<Event>, n: nat)
    decreases |events|
  {
    |events| > 0 && (WriteAll(Payload(events[0]), w(n)).failed || LocalFails(w, events[1..], n + 1))
  }

  lemma {:induction false} LocalFailsAppend(w: Writes, a: seq<Event>, b: seq<Event>, n: nat)
    ensures LocalFails(w, a + b, n) <==> LocalFails(w, a, n) || LocalFails(w, b, n + |a|)
    decreases |a|
  {
    if |a| == 0 {
      assert a + b == b;
    } else {
      assert (a + b)[1..] == a[1..] + b;
      LocalFailsAppend(w, a[1..], b, n + 1);
    }
  }

  /** The reader gives up its file exactly when a local write failed, or it had no file to begin with. */
  predicate GivesUp(w: Writes, logWriter: bool, k: Reader) {
    k.writeFailed <==> !logWriter || LocalFails(w, k.accepted, 0)
  }

  lemma DispatchGivesUp(c: Codec, w: Writes, logWriter: bool, k: Reader, frame: bytes)
    requires GivesUp(w, logWriter, k)
    ensures GivesUp(w, logWriter, Dispatched(c, w, k, frame))
  {
    var e := c.decode(frame);
    if e.Some? {
      LocalFailsAppend(w, k.accepted, [e.value], 0);
      assert LocalFails(w, [e.value], |k.accepted|) <==> WriteAll(Payload(e.value), w(|k.accepted|)).failed;
    }
  }

  /** Over any frames. */
  lemma {:induction false} DispatchAllGivesUp(c: Codec, w: Writes, logWriter: bool, k: Reader, frames: seq<bytes>)
    requires GivesUp(w, logWriter, k)
    ensures GivesUp(w, logWriter, DispatchedAll(c, w, k, frames))
    decreases |frames|
  {
    if |frames| > 0 && !k.failed {
      DispatchGivesUp(c, w, logWriter, k, frames[0]);
      DispatchAllGivesUp(c, w, logWriter, Dispatched(c, w, k, frames[0]), frames[1..]);
    }
  }

  /** The frames of events the order accepts are dispatched one by one, without failure. */
  lemma {:induction false} DispatchEvents(c: Codec, w: Writes, k: Reader, es: seq<Event>)
    requires c.Sound() && c.Encodes(es) && !k.failed
    requires AcceptAll(k.order, es).Some?
    ensures
      var n := DispatchedAll(c, w, k, Frames(c, es));
      !n.failed && n.accepted == k.accepted + es && Some(n.order) == AcceptAll(k.order, es)
    decreases |es|
  {
    if |es| == 0 {
      assert k.accepted + es == k.accepted;
    } else {
      var fs := Frames(c, es);
      assert es[0] in es;
      assert c.Encodes(es[1..]) by {
        forall e | e in es[1..]
          ensures c.encode(e).Some?
        {
          assert e in es;
        }
      }
      assert Frames(c, es[1..]) == fs[1..];
      DispatchEvents(c, w, Dispatched(c, w, k, fs[0]), es[1..]);
      assert k.accepted + es == (k.accepted + [es[0]]) + es[1..];
    }
  }

  /** A prefix of a sequence of frames scans to a prefix of those frames, and never overflows. */
  lemma {:induction false} ScanPrefix(fs: seq<bytes>, s: bytes) returns (j: nat)
    requires forall f | f in fs :: IsFrame(f)
    requires s <= Flatten(fs)
    ensures j <= |fs|
    ensures ScanAll(s).frames == fs[..j] && !ScanAll(s).oversize
    decreases |fs|
  {
    if |fs| == 0 {
      OneFrame(s);
      return 0;
    }
    assert fs[0] in fs;
    if |s| < |fs[0]| {
      assert s == fs[0][..|s|];
      PartialFrame(fs[0], |s|);
      return 0;
    }
    var t := s[|fs[0]|..];
    PastPrefix(s, fs[0], Flatten(fs[1..]));
    var n := ScanPrefix(fs[1..], t);
    ScanFrame(fs[0], t);
    assert fs[..n + 1] == [fs[0]] + fs[1..][..n];
    return n + 1;
  }

  lemma PastPrefix(s: bytes, a: bytes, b: bytes)
    requires s <= a + b && |s| >= |a|
    ensures s == a + s[|a|..] && s[|a|..] <= b
  {
    assert (a + b)[..|a|] == a && (a + b)[|a|..] == b;
    assert s[..|a|] == (a + b)[..|a|];
  }

  lemma PartialFrame(f: bytes, n: nat)
    requires IsFrame(f) && n < |f|
    ensures ScanAll(f[..n]) == Scan([], f[..n], false)
  {
    assert f == f[..n] + f[n..];
    FindLFExtends(f[..n], f[n..]);
    StuckScan(f[..n]);
  }

  /** One pass of the START write loop: the authority's admission, then the pipe's answer. */
  datatype Admission = Granted | Deferred | Refused

  datatype PipeWrite = Taken(n: nat) | Full | Broken

  datatype ControlStep = ControlStep(admission: Admission, write: PipeWrite)

  /** How much of total bytes the write loop has written after the given steps. */
  function Offset(total: nat, offset: nat, inputClosed: bool, steps: seq<ControlStep>): (n: nat)
    requires offset <= total
    ensures offset <= n <= total
    decreases |steps|
  {
    if offset == total || steps == [] || steps[0].admission.Refused? then offset
    else if steps[0].admission.Deferred? || inputClosed then Offset(total, offset, inputClosed, steps[1..])
    else
      match steps[0].write
      case Taken(n) => Offset(total, offset + Min(n, total - offset), inputClosed, steps[1..])
      case Full => Offset(total, offset, inputClosed, steps[1..])
      case Broken => Offset(total, offset, true, steps[1..])
  }

  /** A pass that was admitted and took some bytes. */
  predicate Took(s: ControlStep) {
    s.admission.Granted? && s.write.Taken? && s.write.n > 0
  }

  /**
   * START is written whole unless something stops it: with no refusal and no
   * broken pipe, and as many passes that take some bytes as there are bytes,
   * whatever waits lie between them.
   */
  lemma {:induction false} StartCompletes(total: nat, offset: nat, steps: seq<ControlStep>, left: nat)
    requires offset <= total <= offset + left
    requires forall s | s in steps :: !s.admission.Refused? && (s.admission.Granted? ==> !s.write.Broken?)
    requires Passes(steps) >= left
    ensures Offset(total, offset, false, steps) == total
    decreases |steps|
  {
    if offset < total {
      assert steps[0] in steps;
      assert forall s | s in steps[1..] :: s in steps;
      if Took(steps[0]) {
        StartCompletes(total, offset + Min(steps[0].write.n, total - offset), steps[1..], left - 1);
      } else {
        StartCompletes(total, offset, steps[1..], left);
      }
    }
  }

  /** How many passes took some bytes. */
  function Passes(steps: seq<ControlStep>): nat {
    if |steps| == 0 then 0 else (if Took(steps[0]) then 1 else 0) + Passes(steps[1..])
  }

  /** Dispatching the rest of a scanned chunk from here ends where the whole chunk ends. */
  ghost predicate ContinuesTo(c: Codec, w: Writes, k: Reader, scan: Scan, buffer: bytes, target: Reader) {
    var t := ScanAll(buffer);
    && t.rest == scan.rest
    && t.oversize == scan.oversize
    && DispatchedAll(c, w, k.(buffer := scan.rest), t.frames) == target
  }

  lemma ContinuesWith(c: Codec, w: Writes, k: Reader, scan: Scan, frame: bytes, rest: bytes, target: Reader)
    requires IsFrame(frame) && !k.failed
    requires ContinuesTo(c, w, k, scan, frame + rest, target)
    ensures
      var next := Dispatched(c, w, k.(buffer := rest), frame);
      && ContinuesTo(c, w, next, scan, rest, target)
      && (next.failed ==> target == next.(buffer := scan.rest))
  {
    ScanFrame(frame, rest);
    assert ([frame] + ScanAll(rest).frames)[1..] == ScanAll(rest).frames;
  }

  /** controller/helper_connection.py HelperConnection: its reader and its lease. */
  class HelperConnection {
    const frames: ControlFrameBuffer
    const order: EventOrder
    const file: LocalLogFile
    var logWriteFailed: bool
    var startWritten: bool
    var readerFailed: bool
    var accepted: seq<Event>
    ghost var received: bytes
    ghost var read: bytes
    var sent: bytes

    ghost function State(): Reader
      reads this, frames, order, file
    {
      Reader(frames.buffer, order.State(), logWriteFailed, readerFailed, accepted, received, read, file.contents)
    }

    constructor (policy: CompletionPolicy, logRequested: bool, logWriter: bool)
      ensures State() == NewReader(policy, logRequested, logWriter)
      ensures !startWritten && sent == []
      ensures fresh(frames) && fresh(order) && fresh(file)
    {
      frames := new ControlFrameBuffer();
      order := new EventOrder(policy, logRequested);
      file := new LocalLogFile();
      logWriteFailed := !logWriter;
      startWritten, readerFailed := false, false;
      accepted, received, read, sent := [], [], [], [];
    }

    /** Write synchronously; after a failure keep validating but write nothing. */
    method WriteLog(data: bytes, results: seq<LocalWrite>)
      modifies this`logWriteFailed, file
      ensures
        var local := if old(logWriteFailed) then Local([], true) else WriteAll(data, results);
        logWriteFailed == local.failed && file.contents == old(file.contents) + local.written
    {
      if logWriteFailed {
        assert file.contents + [] == file.contents;
        return;
      }
      logWriteFailed := file.Write(data, results);
    }

    /** Decode, validate and dispatch one frame. */
    method DispatchFrame(c: Codec, w: Writes, frame: bytes)
      requires !readerFailed
      modifies this, order, file
      ensures frames.buffer == old(frames.buffer)
      ensures startWritten == old(startWritten) && sent == old(sent)
      ensures State() == Dispatched(c, w, old(State()), frame)
    {
      var event := c.decode(frame);
      if event.None? {
        readerFailed := true;
        return;
      }
      var raised := order.Accept(event.value);
      if raised {
        readerFailed := true;
        return;
      }
      assert file.contents + [] == file.contents;
      if event.value.LogData? {
        WriteLog(event.value.data, w(|accepted|));
      } else if !logWriteFailed {
        assert WriteAll([], w(|accepted|)) == Local([], false);
      }
      assert received + [] == received;
      received := received + Payload(event.value);
      accepted := accepted + [event.value];
    }

    /**
     * One chunk of the control stream: every complete frame, then any
     * overflow. A failure leaves undispatched input in the buffer.
     */
    method DispatchFrames(c: Codec, w: Writes, chunk: bytes)
      requires !readerFailed
      modifies this, frames, order, file
      ensures State().(buffer := []) == Received(c, w, old(State()), chunk).(buffer := [])
      ensures !readerFailed ==> State() == Received(c, w, old(State()), chunk)
      ensures startWritten == old(startWritten) && sent == old(sent)
    {
      ghost var was := State();
      ghost var scan := ScanAll(frames.buffer + chunk);
      ghost var start := was.(buffer := scan.rest, read := was.read + chunk);
      ghost var target := DispatchedAll(c, w, start, scan.frames);
      frames.Feed(chunk);
      read := read + chunk;
      while true
        invariant !readerFailed
        invariant ContinuesTo(c, w, State(), scan, frames.buffer, target)
        invariant startWritten == old(startWritten) && sent == old(sent)
        decreases |frames.buffer|
      {
        var frame, raised := frames.PopFrame();
        if raised {
          StuckScan(frames.buffer);
          readerFailed := true;
          return;
        }
        if frame.None? {
          StuckScan(frames.buffer);
          return;
        }
        ContinuesWith(c, w, State(), scan, frame.value, frames.buffer, target);
        DispatchFrame(c, w, frame.value);
        if readerFailed {
          return;
        }
      }
    }

    /** Write START without blocking, across partial writes and a closed pipe. */
    method WriteControl(data: bytes, steps: seq<ControlStep>) returns (complete: bool)
      modifies this`sent
      ensures sent == old(sent) + data[..Offset(|data|, 0, false, steps)]
      ensures complete <==> Offset(|data|, 0, false, steps) == |data|
    {
      var offset: nat := 0;
      var inputClosed := false;
      var i: nat := 0;
      assert sent + [] == sent;
      while offset < |data| && i < |steps|
        invariant offset <= |data| && i <= |steps|
        invariant sent == old(sent) + data[..offset]
        invariant Offset(|data|, offset, inputClosed, steps[i..]) == Offset(|data|, 0, false, steps)
        decreases |steps| - i
      {
        var step := steps[i];
        i := i + 1;
        if step.admission.Refused? {
          return false;
        }
        if step.admission.Deferred? || inputClosed {
          continue;
        }
        match step.write {
          case Taken(n) =>
            var count := Min(n, |data| - offset);
            assert data[..offset] + data[offset..offset + count] == data[..offset + count];
            Assoc(old(sent), data[..offset], data[offset..offset + count]);
            sent := sent + data[offset..offset + count];
            offset := offset + count;
          case Full =>
          case Broken =>
            inputClosed := true;
        }
      }
      return offset == |data|;
    }

    /** Send START; only a complete START makes the session one to release. */
    method StartProcess(start: bytes, steps: seq<ControlStep>)
      requires !startWritten && sent == []
      modifies this`sent, this`startWritten
      ensures sent == start[..Offset(|start|, 0, false, steps)]
      ensures startWritten <==> sent == start
    {
      var complete := WriteControl(start, steps);
      startWritten := complete;
      assert sent == start[..Offset(|start|, 0, false, steps)];
    }

    /** Write RELEASE once, whole or not at all, while a started session may still read it. */
    method ReleaseLease(release: bytes, ended: bool, delivered: bool)
      modifies this`sent
      ensures sent == old(sent) + if startWritten && !ended && delivered then release else []
    {
      assert sent + [] == sent;
      if !startWritten || ended {
        return;
      }
      if delivered {
        sent := sent + release;
      }
    }
  }

  /** Everything a controller can have sent: part of START, START, or START and RELEASE. */
  ghost predicate ControllerInput(start: bytes, release: bytes, sent: bytes) {
    sent <= start || sent == start + release
  }

  /** A whole controller session on one helper connection, up to its closed stdin. */
  method ControlSession(start: bytes, release: bytes, steps: seq<ControlStep>, ended: bool, delivered: bool)
    returns (sent: bytes)
    ensures ControllerInput(start, release, sent)
    ensures sent == start + release && release != [] ==>
              Offset(|start|, 0, false, steps) == |start| && !ended && delivered
  {
    var connection := new HelperConnection(LiveServer, false, false);
    connection.StartProcess(start, steps);
    assert connection.sent + [] == connection.sent;
    connection.ReleaseLease(release, ended, delivered);
    sent := connection.sent;
  }

  /** How a prefix of START and RELEASE scans, according to where it was cut. */
  lemma CutInput(start: bytes, release: bytes, p: bytes)
    requires IsFrame(start) && IsFrame(release)
    ensures p < start ==> ScanAll(p) == Scan([], p, false)
    ensures p < release ==> ScanAll(start + p) == Scan([start], p, false)
  {
    if p < start {
      assert p == start[..|p|];
      PartialFrame(start, |p|);
    }
    if p < release {
      assert p == release[..|p|];
      PartialFrame(release, |p|);
      ScanFrame(start, p);
    }
  }

  /** Where a prefix of a two-part input was cut. */
  lemma WhereCut(start: bytes, release: bytes, arrived: bytes) returns (p: bytes)
    requires arrived <= start + release
    ensures arrived < start || (arrived == start + p && (p < release || p == release))
  {
    p := [];
    if |arrived| < |start| {
      assert arrived == start[..|arrived|];
    } else {
      p := arrived[|start|..];
      assert arrived == start + p;
      assert p == release[..|p|];
    }
  }

  lemma SameAfter(start: bytes, p: bytes, q: bytes)
    ensures start + p == start + q <==> p == q
  {
    assert (start + p)[|start|..] == p && (start + q)[|start|..] == q;
  }

  /** Less than START: nothing at all, or a torn frame. */
  lemma VerdictBeforeStart(d: Decoders, start: bytes, release: bytes, arrived: bytes)
    requires IsFrame(start) && IsFrame(release) && arrived < start
    ensures Classify(d, ScanAll(arrived)) == if arrived == [] then Idle else Malformed
  {
    CutInput(start, release, arrived);
  }

  /** START and some of RELEASE: none of it, all of it, or a torn frame. */
  lemma VerdictAfterStart(d: Decoders, start: bytes, release: bytes, p: bytes)
    requires IsStart(d, start) && IsRelease(d, release) && (p < release || p == release)
    ensures Classify(d, ScanAll(start + p)) ==
            if p == [] then LeaseLost else if p == release then Released else Malformed
  {
    if p == release {
      TwoFrames(start, release);
    } else {
      CutInput(start, release, p);
    }
  }

  /**
   * Lease loss, end to end. Of what the controller sent, the helper receives
   * some prefix before a clean end-of-file. It classifies lease loss exactly
   * when START arrived whole and nothing of RELEASE did; an orderly release
   * exactly when both arrived whole; and every torn frame is a protocol
   * failure instead.
   */
  lemma LeaseLossExactly(d: Decoders, start: bytes, release: bytes, sent: bytes, arrived: bytes, v: Verdict)
    requires IsStart(d, start) && IsRelease(d, release)
    requires ControllerInput(start, release, sent) && arrived <= sent
    requires Conforms(d, arrived, v)
    ensures v == LeaseLost <==> arrived == start
    ensures v == Released <==> arrived == start + release
    ensures v == Idle <==> arrived == []
  {
    ClassifyConforms(d, arrived, v);
    var p := WhereCut(start, release, arrived);
    if arrived < start {
      VerdictBeforeStart(d, start, release, arrived);
    } else {
      VerdictAfterStart(d, start, release, p);
      SameAfter(start, p, release);
      SameAfter(start, p, []);
      assert start + [] == start;
    }
  }
}
