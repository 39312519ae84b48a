/** The helper's bounded protocol output (helper/_streams.py). */
module Streams {
  import opened Base
  import opened Events

  const MAX_PROTOCOL_OUTPUT_BYTES := 16 * 1024 * 1024

  datatype Queued = Queued(frame: bytes, log: bool)

  /** What one nonblocking write reported. */
  datatype WriteResult = Wrote(count: nat) | WouldBlock | WriteFailed

  /**
   * The writer's fields, with two histories: every frame ever admitted and
   * every byte ever written.
   */
  datatype Output = Output(
    frames: seq<Queued>,
    pendingBytes: int,
    logPending: int,
    creditReturned: bool,
    offset: nat,
    empty: bool,
    failed: bool,
    history: seq<bytes>,
    wire: bytes)

  function NewOutput(): Output {
    Output([], 0, 0, false, 0, true, false, [], [])
  }

  function Texts(q: seq<Queued>): bytes {
    if |q| == 0 then [] else q[0].frame + Texts(q[1..])
  }

  function LogSize(q: seq<Queued>): nat {
    if |q| == 0 then 0 else (if q[0].log then |q[0].frame| else 0) + LogSize(q[1..])
  }

  lemma {:induction false} QueueSnoc(q: seq<Queued>, x: Queued)
    ensures Texts(q + [x]) == Texts(q) + x.frame
    ensures LogSize(q + [x]) == LogSize(q) + if x.log then |x.frame| else 0
  {
    if |q| == 0 {
      assert q + [x] == [x];
      assert Texts([x]) == x.frame + Texts([]);
      assert LogSize([x][1..]) == 0;
    } else {
      QueueSnoc(q[1..], x);
      assert (q + [x])[1..] == q[1..] + [x];
      Assoc(q[0].frame, Texts(q[1..]), x.frame);
    }
  }

  /** Nothing admitted is lost, repeated or reordered, and the counters are exact. */
  ghost predicate OutputInv(o: Output) {
    && (forall x | x in o.frames :: x.frame != [])
    && (if o.frames == [] then o.offset == 0 else o.offset < |o.frames[0].frame|)
    && o.offset <= |Texts(o.frames)|
    && o.wire + Texts(o.frames)[o.offset..] == Flatten(o.history)
    && o.pendingBytes == |Texts(o.frames)| - o.offset <= MAX_PROTOCOL_OUTPUT_BYTES
    && o.logPending == LogSize(o.frames)
    && (o.empty && !o.failed ==> o.frames == [])
  }

  /** None is a refused admission: the recorded failure or a backlog overflow. */
  function Enqueued(o: Output, frame: bytes, log: bool): Option<Output> {
    if o.failed || o.pendingBytes + |frame| > MAX_PROTOCOL_OUTPUT_BYTES then None
    else
      Some(o.(frames := o.frames + [Queued(frame, log)],
              pendingBytes := o.pendingBytes + |frame|,
              logPending := o.logPending + (if log then |frame| else 0),
              empty := false,
              history := o.history + [frame]))
  }

  /** Encode and admit one event. */
  function Emitted(c: Codec, o: Output, e: Event, log: bool): Option<Output> {
    var frame := c.encode(e);
    if frame.None? then None else Enqueued(o, frame.value, log)
  }

  lemma EnqueueKeeps(o: Output, frame: bytes, log: bool)
    requires OutputInv(o) && frame != [] && Enqueued(o, frame, log).Some?
    ensures OutputInv(Enqueued(o, frame, log).value)
  {
    var next := Enqueued(o, frame, log).value;
    QueueSnoc(o.frames, Queued(frame, log));
    FlattenSnoc(o.history, frame);
    var text := Texts(o.frames);
    assert Texts(next.frames)[next.offset..] == text[o.offset..] + frame;
    Assoc(o.wire, text[o.offset..], frame);
    if o.frames != [] {
      assert next.frames[0] == o.frames[0];
    }
  }

  function Min(a: nat, b: nat): nat {
    if a <= b then a else b
  }

  /** The next at most n bytes of the first frame. */
  function Slice(o: Output, n: nat): bytes
    requires o.frames != []
  {
    var first := o.frames[0].frame;
    var rest := if o.offset <= |first| then first[o.offset..] else [];
    rest[..Min(n, |rest|)]
  }

  /** One successful write. */
  function Written(o: Output, n: nat): Output
    requires o.frames != []
  {
    var first := o.frames[0];
    var bytes := Slice(o, n);
    var next := o.(offset := o.offset + |bytes|, pendingBytes := o.pendingBytes - |bytes|, wire := o.wire + bytes);
    if next.offset != |first.frame| then next
    else
      next.(frames := o.frames[1..],
            offset := 0,
            logPending := if first.log then o.logPending - |first.frame| else o.logPending,
            creditReturned := first.log || o.creditReturned)
  }

  /** What is left of a queue without its first frame. */
  lemma RestQueued(q: seq<Queued>)
    requires q != [] && forall x | x in q :: x.frame != []
    ensures forall x | x in q[1..] :: x.frame != []
    ensures q[1..] != [] ==> 0 < |q[1..][0].frame|
  {
    assert forall x | x in q[1..] :: x in q;
    if q[1..] != [] {
      assert q[1] in q && q[1].frame != [];
    }
  }

  /** The next bytes of a frame, and what is left of it and of the text behind it. */
  lemma TakeNext(first: bytes, rest: bytes, offset: nat, count: nat)
    requires offset + count <= |first|
    ensures (first + rest)[offset..] == first[offset..offset + count] + (first + rest)[offset + count..]
    ensures offset + count == |first| ==> (first + rest)[offset + count..] == rest
  {
  }

  /** The written bytes leave the queue and join the wire. */
  lemma WrittenLaw(o: Output, n: nat)
    requires OutputInv(o) && o.frames != []
    ensures
      var first := o.frames[0].frame;
      var count := Min(n, |first| - o.offset);
      var text := Texts(o.frames);
      && Slice(o, n) == first[o.offset..o.offset + count] && |Slice(o, n)| == count
      && o.offset + count <= |text| && |text| == |first| + |Texts(o.frames[1..])|
      && (o.wire + Slice(o, n)) + text[o.offset + count..] == Flatten(o.history)
      && (o.offset + count == |first| ==> text[o.offset + count..] == Texts(o.frames[1..]))
  {
    var first := o.frames[0].frame;
    var count := Min(n, |first| - o.offset);
    var text := Texts(o.frames);
    var offset := o.offset;
    TakeNext(first, Texts(o.frames[1..]), offset, count);
    assert text[offset + count..] == (first + Texts(o.frames[1..]))[offset + count..];
    assert first[offset..][..count] == first[offset..offset + count];
    Assoc(o.wire, Slice(o, n), text[offset + count..]);
  }

  lemma WrittenKeeps(o: Output, n: nat)
    requires OutputInv(o) && o.frames != []
    ensures OutputInv(Written(o, n))
    ensures o.wire <= Written(o, n).wire && |Written(o, n).wire| == |o.wire| + Min(n, |o.frames[0].frame| - o.offset)
    ensures Written(o, n).creditReturned <==> o.creditReturned || Written(o, n).logPending != o.logPending
  {
    var first := o.frames[0];
    assert first in o.frames;
    var count := Min(n, |first.frame| - o.offset);
    WrittenLaw(o, n);
    if o.offset + count == |first.frame| {
      RestQueued(o.frames);
    }
  }

  /** The writer's loop over the results of successive writes, until it must wait. */
  function RunWriter(o: Output, results: seq<WriteResult>): Output
    decreases |results|
  {
    if o.failed then o
    else if o.frames == [] then o.(empty := true)
    else if results == [] || results[0].WouldBlock? then o
    else if results[0].WriteFailed? then o.(failed := true, empty := true)
    else RunWriter(Written(o, results[0].count), results[1..])
  }

  /**
   * Any run of the writer keeps the conservation law, admits nothing, only
   * extends the wire, and leaves the credit latch set exactly when it was or
   * the queued log fell; it fails only at a failing write.
   */
  lemma {:induction false} RunKeeps(o: Output, results: seq<WriteResult>)
    requires OutputInv(o)
    ensures OutputInv(RunWriter(o, results))
    ensures RunWriter(o, results).history == o.history
    ensures o.wire <= RunWriter(o, results).wire
    ensures o.creditReturned ==> RunWriter(o, results).creditReturned
    ensures RunWriter(o, results).logPending <= o.logPending
    ensures RunWriter(o, results).creditReturned <==>
            o.creditReturned || RunWriter(o, results).logPending != o.logPending
    ensures RunWriter(o, results).failed ==> o.failed || WriteFailed in results
    decreases |results|
  {
    if o.failed || o.frames == [] || results == [] || !results[0].Wrote? {
    } else {
      var next := Written(o, results[0].count);
      WrittenKeeps(o, results[0].count);
      RunKeeps(next, results[1..]);
    }
  }

  /**
   * A writer that is not refused delivers: as many writes as there are
   * unwritten bytes, each taking at least one, put everything on the wire.
   */
  lemma {:induction false} WriterDelivers(o: Output, results: seq<WriteResult>)
    requires OutputInv(o) && !o.failed
    requires forall r | r in results :: r.Wrote? && r.count > 0
    requires |results| >= |Flatten(o.history)| - |o.wire|
    ensures RunWriter(o, results).empty && !RunWriter(o, results).failed
    ensures RunWriter(o, results).wire == Flatten(o.history)
    decreases |results|
  {
    Unwritten(o);
    if o.frames == [] {
      DrainedIsWhole(o.(empty := true));
    } else {
      assert o.frames[0] in o.frames && results[0] in results;
      WrittenKeeps(o, results[0].count);
      assert forall r | r in results[1..] :: r in results;
      WriterDelivers(Written(o, results[0].count), results[1..]);
    }
  }

  /** What is queued is what was admitted and is not on the wire yet. */
  lemma Unwritten(o: Output)
    requires OutputInv(o)
    ensures o.pendingBytes == |Flatten(o.history)| - |o.wire|
    ensures o.frames == [] <==> o.pendingBytes == 0
  {
    if o.frames != [] {
      assert |Texts(o.frames)| == |o.frames[0].frame| + |Texts(o.frames[1..])|;
    }
  }

  /**
   * Admission, exactly: a frame is refused only after a failed write, or when
   * it would take what is admitted and not yet written past the bound; an
   * admitted frame joins the end of the history, and nothing is written.
   */
  lemma AdmissionExactly(o: Output, frame: bytes, log: bool)
    requires OutputInv(o)
    ensures Enqueued(o, frame, log).None? <==>
            o.failed || |Flatten(o.history)| - |o.wire| + |frame| > MAX_PROTOCOL_OUTPUT_BYTES
    ensures Enqueued(o, frame, log).Some? ==>
              && Enqueued(o, frame, log).value.history == o.history + [frame]
              && Enqueued(o, frame, log).value.wire == o.wire
              && Enqueued(o, frame, log).value.logPending == o.logPending + if log then |frame| else 0
  {
    Unwritten(o);
  }

  /** A completed drain: the empty event without a failure means every admitted byte was written. */
  lemma DrainedIsWhole(o: Output)
    requires OutputInv(o) && o.empty && !o.failed
    ensures o.wire == Flatten(o.history)
  {
    assert Texts(o.frames) == [];
    assert o.wire + [] == o.wire;
  }

  /** What is on the wire is always a prefix of what was admitted. */
  lemma WireIsPrefix(o: Output)
    requires OutputInv(o)
    ensures o.wire <= Flatten(o.history)
  {
  }

  /** helper/_streams.py ProtocolOutput on an owned descriptor. */
  class ProtocolOutput {
    var frames: seq<Queued>
    var pendingBytes: int
    var logPending: int
    var creditReturned: bool
    var offset: nat
    var empty: bool
    var failed: bool
    ghost var history: seq<bytes>
    ghost var wire: bytes

    ghost function State(): Output
      reads this
    {
      Output(frames, pendingBytes, logPending, creditReturned, offset, empty, failed, history, wire)
    }

    constructor ()
      ensures State() == NewOutput()
    {
      frames, pendingBytes, logPending, creditReturned := [], 0, 0, false;
      offset, empty, failed := 0, true, false;
      history, wire := [], [];
    }

    method Enqueue(frame: bytes, log: bool) returns (raised: bool)
      modifies this
      ensures raised <==> Enqueued(old(State()), frame, log).None?
      ensures State() == if raised then old(State()) else Enqueued(old(State()), frame, log).value
    {
      if failed {
        return true;
      }
      if pendingBytes + |frame| > MAX_PROTOCOL_OUTPUT_BYTES {
        return true;
      }
      frames := frames + [Queued(frame, log)];
      history := history + [frame];
      pendingBytes := pendingBytes + |frame|;
      if log {
        logPending := logPending + |frame|;
      }
      empty := false;
      return false;
    }

    method Emit(c: Codec, e: Event, log: bool) returns (raised: bool)
      modifies this
      ensures raised <==> Emitted(c, old(State()), e, log).None?
      ensures State() == if raised then old(State()) else Emitted(c, old(State()), e, log).value
    {
      var frame := c.encode(e);
      if frame.None? {
        return true;
      }
      raised := Enqueue(frame.value, log);
    }

    /** Account one successful write of at most n bytes. */
    method Advance(n: nat)
      requires OutputInv(State()) && frames != []
      modifies this
      ensures State() == Written(old(State()), n)
    {
      var first := frames[0];
      var count := Min(n, |first.frame| - offset);
      wire := wire + first.frame[offset..offset + count];
      offset := offset + count;
      pendingBytes := pendingBytes - count;
      if offset == |first.frame| {
        frames := frames[1..];
        offset := 0;
        if first.log {
          logPending := logPending - |first.frame|;
          creditReturned := true;
        }
      }
    }

    /** A write that would block, or failed for good. */
    method Stop(result: WriteResult)
      requires OutputInv(State()) && !failed && frames != [] && !result.Wrote?
      modifies this
      ensures State() == RunWriter(old(State()), [result]) && OutputInv(State())
    {
      if result.WriteFailed? {
        failed := true;
        empty := true;
      }
    }

    /** The writer task from one wakeup to the next wait. */
    method Run(results: seq<WriteResult>)
      requires OutputInv(State())
      modifies this
      ensures State() == RunWriter(old(State()), results)
      ensures OutputInv(State())
    {
      RunKeeps(State(), results);
      if failed {
        return;
      }
      var i := 0;
      while frames != [] && i < |results|
        invariant i <= |results|
        invariant OutputInv(State()) && !failed
        invariant RunWriter(State(), results[i..]) == RunWriter(old(State()), results)
        decreases |results| - i
      {
        var result := results[i];
        if !result.Wrote? {
          Stop(result);
          return;
        }
        WrittenKeeps(State(), result.count);
        Advance(result.count);
        i := i + 1;
      }
      if frames == [] {
        empty := true;
      }
    }

    /** Returns normally only when every admitted byte is on the wire. */
    method Drain(timedOut: bool) returns (raised: bool)
      requires OutputInv(State())
      requires !timedOut ==> empty
      ensures raised <==> timedOut || failed
      ensures !raised ==> wire == Flatten(history)
    {
      if timedOut {
        return true;
      }
      if failed {
        return true;
      }
      DrainedIsWhole(State());
      return false;
    }
  }
}
