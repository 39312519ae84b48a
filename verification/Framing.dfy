/** LF-delimited control framing (protocol/wire.py) and the grammar of controller input. */
module Framing {
  import opened Base

  const MAX_FRAME_SIZE := 1024 * 1024

  /** Where the first LF is, or the length when there is none. */
  function FindLF(s: bytes): (i: nat)
    ensures i <= |s|
    ensures forall k :: 0 <= k < i ==> s[k] != LF
    ensures i < |s| ==> s[i] == LF
  {
    if |s| == 0 || s[0] == LF then 0 else 1 + FindLF(s[1..])
  }

  /** One complete frame within the bound. */
  predicate IsFrame(f: bytes) {
    0 < |f| <= MAX_FRAME_SIZE && FindLF(f) == |f| - 1
  }

  /** The frames of a byte string, what follows them, and whether the bound was exceeded there. */
  datatype Scan = Scan(frames: seq<bytes>, rest: bytes, oversize: bool)

  function Prepend(fs: seq<bytes>, t: Scan): Scan {
    Scan(fs + t.frames, t.rest, t.oversize)
  }

  function ScanAll(s: bytes): Scan
    decreases |s|
  {
    var i := FindLF(s);
    if i + 1 > MAX_FRAME_SIZE then Scan([], s, true)
    else if i == |s| then Scan([], s, false)
    else Prepend([s[..i + 1]], ScanAll(s[i + 1..]))
  }

  /** Whether scanning stops at the head of s. */
  predicate Stuck(s: bytes) {
    FindLF(s) == |s| || FindLF(s) + 1 > MAX_FRAME_SIZE
  }

  lemma FindLFAt(s: bytes, i: nat)
    requires i < |s| && s[i] == LF
    requires forall k :: 0 <= k < i ==> s[k] != LF
    ensures FindLF(s) == i
  {
  }

  /** The first LF of a string is unaffected by what follows it. */
  lemma FindLFExtends(a: bytes, b: bytes)
    ensures FindLF(a) < |a| ==> FindLF(a + b) == FindLF(a)
    ensures FindLF(a) == |a| ==> FindLF(a + b) >= |a|
  {
    assert forall k :: 0 <= k < |a| ==> (a + b)[k] == a[k];
    if FindLF(a) < |a| {
      FindLFAt(a + b, FindLF(a));
    }
  }

  lemma StuckScan(s: bytes)
    requires Stuck(s)
    ensures ScanAll(s) == Scan([], s, FindLF(s) + 1 > MAX_FRAME_SIZE)
  {
  }

  /** A string that is not stuck is a frame and a rest. */
  lemma HeadFrame(s: bytes) returns (f: bytes, t: bytes)
    requires !Stuck(s)
    ensures IsFrame(f) && s == f + t && |t| < |s|
  {
    var i := FindLF(s);
    f, t := s[..i + 1], s[i + 1..];
    FindLFAt(f, i);
  }

  /** A leading frame is popped whole, whatever follows it. */
  lemma ScanFrame(f: bytes, s: bytes)
    requires IsFrame(f)
    ensures ScanAll(f + s) == Prepend([f], ScanAll(s))
  {
    FindLFExtends(f, s);
    assert (f + s)[..|f|] == f && (f + s)[|f|..] == s;
  }

  lemma PrependTwice(a: seq<bytes>, b: seq<bytes>, t: Scan)
    ensures Prepend(a, Prepend(b, t)) == Prepend(a + b, t)
  {
    Assoc(a, b, t.frames);
  }

  /** Scanning is a partition of the input into frames and a tail without LF. */
  lemma {:induction false} ScanPartitions(s: bytes)
    ensures Flatten(ScanAll(s).frames) + ScanAll(s).rest == s
    ensures forall f | f in ScanAll(s).frames :: IsFrame(f)
    ensures ScanAll(s).oversize || FindLF(ScanAll(s).rest) == |ScanAll(s).rest| < MAX_FRAME_SIZE
    decreases |s|
  {
    if Stuck(s) {
      StuckScan(s);
    } else {
      var f, t := HeadFrame(s);
      ScanPartitions(t);
      ScanFrame(f, t);
      FlattenCons(f, ScanAll(t).frames);
      Assoc(f, Flatten(ScanAll(t).frames), ScanAll(t).rest);
    }
  }

  /** The scan of a frame sequence followed by a tail. */
  lemma {:induction false} ScanFrames(fs: seq<bytes>, s: bytes)
    requires forall f | f in fs :: IsFrame(f)
    ensures ScanAll(Flatten(fs) + s) == Prepend(fs, ScanAll(s))
  {
    if |fs| == 0 {
      assert Flatten(fs) + s == s;
    } else {
      ScanFrames(fs[1..], s);
      ScanFrame(fs[0], Flatten(fs[1..]) + s);
      PrependTwice([fs[0]], fs[1..], ScanAll(s));
      Assoc(fs[0], Flatten(fs[1..]), s);
      assert fs == [fs[0]] + fs[1..];
    }
  }

  /**
   * More input after a scan: a failure is final and keeps its frames; otherwise
   * the scan goes on from the tail.
   */
  lemma {:induction false} ScanExtends(a: bytes, b: bytes)
    ensures ScanAll(a).oversize ==>
              ScanAll(a + b).oversize && ScanAll(a + b).frames == ScanAll(a).frames
    ensures !ScanAll(a).oversize ==>
              ScanAll(a + b) == Prepend(ScanAll(a).frames, ScanAll(ScanAll(a).rest + b))
    decreases |a|
  {
    if Stuck(a) {
      StuckScan(a);
      FindLFExtends(a, b);
      if FindLF(a) + 1 > MAX_FRAME_SIZE {
        StuckScan(a + b);
      }
    } else {
      var f, t := HeadFrame(a);
      ScanExtends(t, b);
      ScanFrame(f, t);
      ScanFrame(f, t + b);
      Assoc(f, t, b);
      PrependTwice([f], ScanAll(t).frames, ScanAll(ScanAll(t).rest + b));
    }
  }

  /** protocol/wire.py ControlFrameBuffer: the only mutable framing storage. */
  class ControlFrameBuffer {
    var buffer: bytes

    constructor ()
      ensures buffer == []
    {
      buffer := [];
    }

    method Feed(chunk: bytes)
      modifies this
      ensures buffer == old(buffer) + chunk
    {
      buffer := buffer + chunk;
    }

    /** None and no raise: no complete frame yet. */
    method PopFrame() returns (frame: Option<bytes>, raised: bool)
      modifies this
      ensures raised <==> FindLF(old(buffer)) + 1 > MAX_FRAME_SIZE
      ensures frame.Some? <==> !raised && FindLF(old(buffer)) < |old(buffer)|
      ensures frame.Some? ==> IsFrame(frame.value) && old(buffer) == frame.value + buffer
      ensures frame.None? ==> buffer == old(buffer)
    {
      var delimiter := FindLF(buffer);
      var size := if delimiter < |buffer| then delimiter + 1 else |buffer| + 1;
      if size > MAX_FRAME_SIZE {
        return None, true;
      }
      if delimiter == |buffer| {
        return None, false;
      }
      var popped := buffer[..delimiter + 1];
      FindLFAt(popped, delimiter);
      buffer := buffer[delimiter + 1..];
      return Some(popped), false;
    }

    method Finish() returns (raised: bool)
      ensures raised <==> buffer != []
    {
      return buffer != [];
    }

    /** Feed one chunk and pop every complete frame: the loop of both stream readers. */
    method PopAll(chunk: bytes) returns (frames: seq<bytes>, raised: bool)
      modifies this
      ensures Scan(frames, buffer, raised) == ScanAll(old(buffer) + chunk)
    {
      Feed(chunk);
      frames := [];
      ghost var whole := buffer;
      while true
        invariant ScanAll(whole) == Prepend(frames, ScanAll(buffer))
        decreases |buffer|
      {
        var frame, failed := PopFrame();
        if failed {
          return frames, true;
        }
        if frame.None? {
          return frames, false;
        }
        ScanFrame(frame.value, buffer);
        PrependTwice(frames, [frame.value], ScanAll(buffer));
        frames := frames + [frame.value];
      }
    }
  }

  /**
   * Read a stream in the given chunks until it ends or framing fails. For every
   * split the frames, their order and the outcome are those of the whole
   * string: read boundaries are not frame boundaries.
   */
  method ReadFrames(chunks: seq<bytes>) returns (frames: seq<bytes>, oversize: bool, truncated: bool)
    ensures frames == ScanAll(Flatten(chunks)).frames
    ensures oversize == ScanAll(Flatten(chunks)).oversize
    ensures truncated <==> !oversize && ScanAll(Flatten(chunks)).rest != []
  {
    var buffer := new ControlFrameBuffer();
    frames := [];
    ghost var consumed: bytes := [];
    OneFrame([]);
    assert chunks[0..] == chunks;
    for i := 0 to |chunks|
      invariant fresh(buffer)
      invariant consumed + Flatten(chunks[i..]) == Flatten(chunks)
      invariant ScanAll(consumed) == Scan(frames, buffer.buffer, false)
    {
      FlattenDrop(chunks, i);
      Assoc(consumed, chunks[i], Flatten(chunks[i + 1..]));
      ScanExtends(consumed, chunks[i]);
      var more, failed := buffer.PopAll(chunks[i]);
      consumed := consumed + chunks[i];
      frames := frames + more;
      if failed {
        ScanExtends(consumed, Flatten(chunks[i + 1..]));
        return frames, true, false;
      }
    }
    assert consumed + [] == consumed;
    var partial := buffer.Finish();
    return frames, false, partial;
  }

  /** How controller input ended, as the helper classifies it. */
  datatype Verdict = Idle | LeaseLost | Released | Malformed

  /** The decoders of START and RELEASE, as acceptance predicates on one frame. */
  datatype Decoders = Decoders(start: bytes -> bool, release: bytes -> bool)

  predicate IsStart(d: Decoders, f: bytes) {
    IsFrame(f) && d.start(f)
  }

  predicate IsRelease(d: Decoders, f: bytes) {
    IsFrame(f) && d.release(f)
  }

  /** The grammar `START [RELEASE] EOF` on a whole input. */
  ghost predicate Conforms(d: Decoders, s: bytes, v: Verdict) {
    match v
    case Idle => s == []
    case LeaseLost => IsStart(d, s)
    case Released => exists f, g :: IsStart(d, f) && IsRelease(d, g) && s == f + g
    case Malformed =>
      && s != []
      && !IsStart(d, s)
      && !(exists f, g :: IsStart(d, f) && IsRelease(d, g) && s == f + g)
  }

  /** The verdict computed from the scan of a whole input. */
  function Classify(d: Decoders, t: Scan): Verdict {
    if t.oversize || t.rest != [] then Malformed
    else if |t.frames| == 0 then Idle
    else if !d.start(t.frames[0]) then Malformed
    else if |t.frames| == 1 then LeaseLost
    else if |t.frames| == 2 && d.release(t.frames[1]) then Released
    else Malformed
  }

  /** Short scans determine their input. */
  lemma ScanInverse(s: bytes)
    ensures ScanAll(s) == Scan([], [], false) ==> s == []
    ensures ScanAll(s).rest == [] && |ScanAll(s).frames| == 1 ==> ScanAll(s).frames[0] == s && IsFrame(s)
    ensures ScanAll(s).rest == [] && |ScanAll(s).frames| == 2 ==>
              && IsFrame(ScanAll(s).frames[0])
              && IsFrame(ScanAll(s).frames[1])
              && s == ScanAll(s).frames[0] + ScanAll(s).frames[1]
  {
    var t := ScanAll(s);
    ScanPartitions(s);
    if t.rest == [] && |t.frames| == 1 {
      assert t.frames == [t.frames[0]];
      FlattenOne(t.frames[0]);
    }
    if t.rest == [] && |t.frames| == 2 {
      assert t.frames == [t.frames[0]] + [t.frames[1]];
      FlattenSnoc([t.frames[0]], t.frames[1]);
      FlattenOne(t.frames[0]);
    }
  }

  lemma TwoFrames(f: bytes, g: bytes)
    requires IsFrame(f) && IsFrame(g)
    ensures ScanAll(f + g) == Scan([f, g], [], false)
  {
    OneFrame(g);
    ScanFrame(f, g);
  }

  /** The scan computes the grammar's verdict, and no other verdict conforms. */
  lemma ClassifyConforms(d: Decoders, s: bytes, v: Verdict)
    ensures Conforms(d, s, v) <==> v == Classify(d, ScanAll(s))
  {
    ScanInverse(s);
    OneFrame(s);
    forall f, g | IsFrame(f) && IsFrame(g) && s == f + g
      ensures ScanAll(s) == Scan([f, g], [], false)
    {
      TwoFrames(f, g);
    }
  }

  lemma OneFrame(s: bytes)
    ensures IsFrame(s) ==> ScanAll(s) == Scan([s], [], false)
    ensures s == [] ==> ScanAll(s) == Scan([], [], false)
  {
    if IsFrame(s) {
      ScanFrame(s, []);
      assert s + [] == s;
    }
  }

  /** Whether START has been published for the frames of a scan. */
  predicate Published(d: Decoders, t: Scan) {
    |t.frames| > 0 && d.start(t.frames[0])
  }

  /** What the recogniser's flags say about the frames popped so far. */
  ghost predicate Progress(d: Decoders, head: seq<bytes>, started: bool, released: bool) {
    && |head| == (if released then 2 else if started then 1 else 0)
    && (released ==> started)
    && (|head| >= 1 ==> d.start(head[0]))
    && (|head| >= 2 ==> d.release(head[1]))
  }

  ghost predicate Seen(d: Decoders, t: Scan, buffer: bytes, started: bool, released: bool) {
    t == Scan(t.frames, buffer, false) && Progress(d, t.frames, started, released)
  }

  /** No continuation of s is well formed, and START publication is settled. */
  ghost predicate Doomed(d: Decoders, s: bytes, started: bool) {
    forall later: bytes :: DoomedWith(d, s, later, started)
  }

  ghost predicate DoomedWith(d: Decoders, s: bytes, later: bytes, started: bool) {
    && Classify(d, ScanAll(s + later)) == Malformed
    && Published(d, ScanAll(s + later)) == started
  }

  predicate Wrong(d: Decoders, t: Scan) {
    || t.oversize
    || (|t.frames| >= 1 && !d.start(t.frames[0]))
    || (|t.frames| >= 2 && (!d.release(t.frames[1]) || t.rest != []))
    || |t.frames| >= 3
  }

  /** A fault recognised in a prefix is final, however the input is split after it. */
  lemma WrongIsFinal(d: Decoders, s: bytes)
    requires Wrong(d, ScanAll(s))
    ensures Doomed(d, s, Published(d, ScanAll(s)))
  {
    var t := ScanAll(s);
    forall later: bytes
      ensures DoomedWith(d, s, later, Published(d, t))
    {
      ScanExtends(s, later);
      var u := ScanAll(s + later);
      assert u.frames[..|t.frames|] == t.frames;
      assert |t.frames| >= 1 ==> u.frames[0] == t.frames[0];
      assert |t.frames| >= 2 ==> u.frames[1] == t.frames[1];
      if !t.oversize && t.rest != [] {
        assert t.rest + later != [];
        ScanNonempty(t.rest + later);
      }
    }
  }

  lemma ScanNonempty(s: bytes)
    requires s != []
    ensures ScanAll(s).oversize || ScanAll(s).rest != [] || ScanAll(s).frames != []
  {
  }

  /** One read: the body of the recogniser's loop. */
  method ObserveChunk(d: Decoders, frames: ControlFrameBuffer, chunk: bytes, wasStarted: bool,
                      wasReleased: bool, ghost consumed: bytes)
    returns (started: bool, released: bool, failed: bool)
    requires chunk != []
    requires Seen(d, ScanAll(consumed), frames.buffer, wasStarted, wasReleased)
    requires wasReleased ==> frames.buffer == []
    modifies frames
    ensures failed <==> Wrong(d, ScanAll(consumed + chunk))
    ensures failed ==> Doomed(d, consumed + chunk, started)
    ensures !failed ==> Seen(d, ScanAll(consumed + chunk), frames.buffer, started, released)
    ensures !failed && released ==> frames.buffer == []
  {
    started, released := wasStarted, wasReleased;
    ghost var s, head := consumed + chunk, ScanAll(consumed).frames;
    ScanExtends(consumed, chunk);
    if released {
      assert [] + chunk == chunk;
      ScanNonempty(chunk);
      WrongIsFinal(d, s);
      return started, released, true;
    }
    frames.Feed(chunk);
    while true
      invariant ScanAll(s) == Prepend(head, ScanAll(frames.buffer))
      invariant Progress(d, head, started, released)
      decreases |frames.buffer|
    {
      if FindLF(frames.buffer) + 1 > MAX_FRAME_SIZE {
        StuckScan(frames.buffer);
      }
      var frame, raised := frames.PopFrame();
      if raised {
        WrongIsFinal(d, s);
        return started, released, true;
      }
      if frame.None? {
        StuckScan(frames.buffer);
        assert head + [] == head;
        break;
      }
      ScanFrame(frame.value, frames.buffer);
      PrependTwice(head, [frame.value], ScanAll(frames.buffer));
      head := head + [frame.value];
      if released || (if started then !d.release(frame.value) else !d.start(frame.value)) {
        WrongIsFinal(d, s);
        return started, released, true;
      }
      if started {
        released := true;
      } else {
        started := true;
      }
    }
    if released && frames.buffer != [] {
      WrongIsFinal(d, s);
      return started, released, true;
    }
    return started, released, false;
  }

  /**
   * helper/_session.py _observe_control: recognise controller input from raw
   * reads. Whatever the read boundaries, the verdict is the one the grammar
   * gives the whole input, and START is published exactly when the first frame
   * of the input is a valid START.
   */
  method ObserveControl(d: Decoders, chunks: seq<bytes>) returns (verdict: Verdict, published: bool)
    requires forall c | c in chunks :: c != []
    ensures Conforms(d, Flatten(chunks), verdict)
    ensures published == Published(d, ScanAll(Flatten(chunks)))
  {
    var frames := new ControlFrameBuffer();
    var started, released := false, false;
    ghost var consumed: bytes := [];
    OneFrame([]);
    assert chunks[0..] == chunks;
    for i := 0 to |chunks|
      invariant fresh(frames)
      invariant consumed + Flatten(chunks[i..]) == Flatten(chunks)
      invariant Seen(d, ScanAll(consumed), frames.buffer, started, released)
      invariant released ==> frames.buffer == []
    {
      FlattenDrop(chunks, i);
      Assoc(consumed, chunks[i], Flatten(chunks[i + 1..]));
      assert chunks[i] in chunks;
      var failed;
      started, released, failed := ObserveChunk(d, frames, chunks[i], started, released, consumed);
      consumed := consumed + chunks[i];
      if failed {
        assert DoomedWith(d, consumed, Flatten(chunks[i + 1..]), started);
        ClassifyConforms(d, Flatten(chunks), Malformed);
        return Malformed, started;
      }
    }
    assert consumed + [] == consumed;
    var partial := frames.Finish();
    verdict := if partial then Malformed
               else if started && !released then LeaseLost
               else if released then Released
               else Idle;
    ClassifyConforms(d, Flatten(chunks), verdict);
    return verdict, started;
  }
}
