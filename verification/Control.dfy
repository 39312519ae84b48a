/** The helper's control observer (helper/_session.py) as a function of what it has read. */
module Controls {
  import opened Base
  import opened Framing

  /** What decodes one frame as START, and which frames are RELEASE. */
  datatype Input<!R> = Input(start: bytes -> Option<R>, release: bytes -> bool) {
    function Decoders(): Framing.Decoders {
      Framing.Decoders((f: bytes) => start(f).Some?, release)
    }
  }

  /** The bytes read so far, whether the observer is over, and whether that was the end-of-file. */
  datatype Control = Control(consumed: bytes, over: bool, ended: bool)

  function NewControl(): Control {
    Control([], false, false)
  }

  /** One read; an empty one is the end-of-file. */
  function Read(d: Decoders, c: Control, chunk: bytes): Control {
    if c.over then c
    else if chunk == [] then Control(c.consumed, true, true)
    else Control(c.consumed + chunk, Wrong(d, ScanAll(c.consumed + chunk)), false)
  }

  /** Whether a read raises: input that cannot become well formed, or a torn frame at the end. */
  predicate Raises(d: Decoders, c: Control, chunk: bytes) {
    !c.over &&
    if chunk == [] then ScanAll(c.consumed).rest != [] else Wrong(d, ScanAll(c.consumed + chunk))
  }

  /** The end-of-file was read after START and without RELEASE. */
  predicate Lost(d: Decoders, c: Control) {
    c.ended && Classify(d, ScanAll(c.consumed)) == LeaseLost
  }

  /** The end-of-file was read at the end of a frame. */
  predicate Ended(c: Control) {
    c.ended && ScanAll(c.consumed).rest == []
  }

  /** The request of the START that was published, if one was. */
  function Started<R>(input: Input<R>, c: Control): Option<R> {
    var t := ScanAll(c.consumed);
    if |t.frames| == 0 then None else input.start(t.frames[0])
  }

  /** An observer that goes on, or read its end-of-file, has seen nothing wrong. */
  ghost predicate ControlInv(d: Decoders, c: Control) {
    && (c.ended ==> c.over)
    && (!c.over || c.ended ==> !Wrong(d, ScanAll(c.consumed)))
  }

  lemma ReadKeeps<R>(input: Input<R>, c: Control, chunk: bytes)
    requires ControlInv(input.Decoders(), c)
    ensures ControlInv(input.Decoders(), Read(input.Decoders(), c, chunk))
    ensures Started(input, c).Some? ==> Started(input, Read(input.Decoders(), c, chunk)) == Started(input, c)
    ensures Lost(input.Decoders(), c) ==> Read(input.Decoders(), c, chunk) == c
  {
    ScanExtends(c.consumed, chunk);
    var t, u := ScanAll(c.consumed), ScanAll(c.consumed + chunk);
    assert u.frames[..|t.frames|] == t.frames;
    assert |t.frames| > 0 ==> u.frames[0] == t.frames[0];
  }

  /** Reads in turn. */
  function ReadAll(d: Decoders, c: Control, chunks: seq<bytes>): Control
    decreases |chunks|
  {
    if |chunks| == 0 then c else ReadAll(d, Read(d, c, chunks[0]), chunks[1..])
  }

  /** Reading a whole input: the observer loses the lease exactly when the grammar says so. */
  lemma {:induction false} ReadAllConforms<R>(input: Input<R>, c: Control, chunks: seq<bytes>)
    requires ControlInv(input.Decoders(), c) && !c.over
    requires forall chunk | chunk in chunks :: chunk != []
    ensures
      var d := input.Decoders();
      var whole := c.consumed + Flatten(chunks);
      var end := Read(d, ReadAll(d, c, chunks), []);
      && end.over
      && (Lost(d, end) <==> Conforms(d, whole, LeaseLost))
      && (Started(input, end).Some? <==> Framing.Published(d, ScanAll(whole)))
    decreases |chunks|
  {
    var d := input.Decoders();
    var whole := c.consumed + Flatten(chunks);
    if |chunks| == 0 {
      assert whole == c.consumed;
      ClassifyConforms(d, whole, LeaseLost);
    } else {
      assert chunks[0] in chunks;
      var next := Read(d, c, chunks[0]);
      Assoc(c.consumed, chunks[0], Flatten(chunks[1..]));
      ReadKeeps(input, c, chunks[0]);
      if next.over {
        OverStays(d, next, chunks[1..]);
        WrongIsFinal(d, next.consumed);
        assert DoomedWith(d, next.consumed, Flatten(chunks[1..]), Framing.Published(d, ScanAll(next.consumed)));
        ClassifyConforms(d, whole, LeaseLost);
      } else {
        assert forall chunk | chunk in chunks[1..] :: chunk in chunks;
        ReadAllConforms(input, next, chunks[1..]);
      }
    }
  }

  lemma {:induction false} OverStays(d: Decoders, c: Control, chunks: seq<bytes>)
    requires c.over
    ensures ReadAll(d, c, chunks) == c
    decreases |chunks|
  {
    if |chunks| > 0 {
      OverStays(d, c, chunks[1..]);
    }
  }
}
