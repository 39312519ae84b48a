/** Incremental child output decoding (helper/_child_output.py). */
module ChildOutputs {
  import opened Base
  import opened Events
  import opened Framing

  const RELAY_CHUNK_SIZE := 64 * 1024

  /** An incremental text decoder, one byte at a time; flushing ends the stream. */
  datatype Decoder<!D> = Decoder(initial: D, step: (D, Byte) -> (D, string), flush: D -> string)

  /** The text of some bytes, and where the decoder is after them. */
  function Decode<D>(m: Decoder<D>, d: D, data: bytes): (D, string) {
    if |data| == 0 then (d, [])
    else
      var (next, text) := m.step(d, data[0]);
      var (last, rest) := Decode(m, next, data[1..]);
      (last, text + rest)
  }

  lemma {:induction false} DecodeAppend<D>(m: Decoder<D>, d: D, a: bytes, b: bytes)
    ensures
      var first := Decode(m, d, a);
      var second := Decode(m, first.0, b);
      Decode(m, d, a + b) == (second.0, first.1 + second.1)
    decreases |a|
  {
    if |a| == 0 {
      assert a + b == b;
      assert [] + Decode(m, d, b).1 == Decode(m, d, b).1;
    } else {
      var (next, text) := m.step(d, a[0]);
      DecodeAppend(m, next, a[1..], b);
      assert (a + b)[1..] == a[1..] + b;
      var rest := Decode(m, next, a[1..]);
      Assoc(text, rest.1, Decode(m, rest.0, b).1);
    }
  }

  /** One chunk's text: an empty chunk flushes the decoder. */
  function ChunkText<D>(m: Decoder<D>, d: D, chunk: bytes): (D, string) {
    if chunk == [] then (m.initial, m.flush(d)) else Decode(m, d, chunk)
  }

  datatype Fragment = Fragment(payload: string, lineEnd: bool)

  /** What writing a fragment out produces. */
  function Written(f: Fragment): string {
    f.payload + if f.lineEnd then ['\n'] else []
  }

  function AllWritten(fs: seq<Fragment>): string {
    if |fs| == 0 then [] else Written(fs[0]) + AllWritten(fs[1..])
  }

  lemma {:induction false} AllWrittenAppend(a: seq<Fragment>, b: seq<Fragment>)
    ensures AllWritten(a + b) == AllWritten(a) + AllWritten(b)
  {
    if |a| == 0 {
      assert a + b == b;
    } else {
      AllWrittenAppend(a[1..], b);
      assert (a + b)[1..] == a[1..] + b;
      Assoc(Written(a[0]), AllWritten(a[1..]), AllWritten(b));
    }
  }

  lemma AllWrittenSnoc(a: seq<Fragment>, f: Fragment)
    ensures AllWritten(a + [f]) == AllWritten(a) + Written(f)
  {
    AllWrittenAppend(a, [f]);
    assert AllWritten([f]) == Written(f) + AllWritten([]);
  }

  /** What every fragment satisfies: it is a CHILD_OUTPUT the protocol accepts, and it is bounded. */
  predicate Sound(f: Fragment) {
    '\n' !in f.payload && (f.payload != [] || f.lineEnd) && |f.payload| <= RELAY_CHUNK_SIZE
  }

  predicate AllSound(fs: seq<Fragment>) {
    forall i | 0 <= i < |fs| :: Sound(fs[i])
  }

  /** A sound fragment is a valid event of either stream. */
  lemma SoundIsValid(f: Fragment, stdout: bool)
    requires |f.payload| <= RELAY_CHUNK_SIZE
    ensures Sound(f) <==> ValidEvent(ChildOutput(if stdout then "stdout" else "stderr", f.payload, f.lineEnd))
  {
    var stream := if stdout then "stdout" else "stderr";
    assert stream in {"stdout", "stderr"};
  }

  // The text of a CHILD_OUTPUT frame: JSON in ASCII (section 7 of RFC 8259), keys sorted, no spaces.

  function HexDigit(n: nat): char
    requires n < 16
  {
    if n < 10 then '0' + n as char else 'a' + (n - 10) as char
  }

  /** Four hexadecimal digits, as they follow a backslash and u. */
  function Hex4(n: nat): string
    requires n < 0x1_0000
  {
    [HexDigit(n / 0x1000), HexDigit(n / 0x100 % 16), HexDigit(n / 16 % 16), HexDigit(n % 16)]
  }

  /** The letter of a two-character escape, if the character has one. */
  function ShortEscape(c: char): Option<char> {
    if c == '"' then Some('"')
    else if c == '\\' then Some('\\')
    else if c == '\n' then Some('n')
    else if c == '\r' then Some('r')
    else if c == '\t' then Some('t')
    else if c == '\U{C}' then Some('f')
    else if c == '\U{8}' then Some('b')
    else None
  }

  /** One character of a JSON string; above the first plane it is a surrogate pair. */
  function Escaped(c: char): string {
    if ShortEscape(c).Some? then ['\\', ShortEscape(c).value]
    else if ' ' <= c <= '~' then [c]
    else if c <= '\U{FFFF}' then ['\\', 'u'] + Hex4(c as int)
    else
      var n := c as int - 0x1_0000;
      (['\\', 'u'] + Hex4(0xD800 + n / 0x400)) + (['\\', 'u'] + Hex4(0xDC00 + n % 0x400))
  }

  function EscapedText(s: string): string {
    if s == [] then [] else Escaped(s[0]) + EscapedText(s[1..])
  }

  /** The fields before the payload's text, and after it. */
  function FrameHead(lineEnd: bool): string {
    if lineEnd then "{\"line_end\":true,\"payload\":\"" else "{\"line_end\":false,\"payload\":\""
  }

  function StreamField(stdout: bool): string {
    if stdout then "\",\"stream\":\"stdout\"" else "\",\"stream\":\"stderr\""
  }

  const LAST_FIELDS: string := ",\"type\":\"CHILD_OUTPUT\",\"version\":1}"

  function FrameTail(stdout: bool): string {
    StreamField(stdout) + LAST_FIELDS
  }

  /** A frame's text, without its final line feed. */
  function FrameText(f: Fragment, stdout: bool): string {
    FrameHead(f.lineEnd) + (EscapedText(f.payload) + FrameTail(stdout))
  }

  /** Printable ASCII: one byte a character, and no line feed. */
  predicate Printable(s: string) {
    forall i | 0 <= i < |s| :: ' ' <= s[i] <= '~'
  }

  lemma EscapedIsPrintable(c: char)
    ensures Printable(Escaped(c)) && 1 <= |Escaped(c)| <= 12
  {
  }

  lemma {:induction false} EscapedTextIsPrintable(s: string)
    ensures Printable(EscapedText(s)) && |s| <= |EscapedText(s)| <= 12 * |s|
  {
    if s != [] {
      EscapedIsPrintable(s[0]);
      EscapedTextIsPrintable(s[1..]);
    }
  }

  /** Every relayed fragment encodes into one line of ASCII below the frame limit, whatever its characters. */
  lemma FragmentsFit(f: Fragment, stdout: bool)
    requires Sound(f)
    ensures Printable(FrameText(f, stdout))
    ensures |FrameText(f, stdout)| + 1 < MAX_FRAME_SIZE
  {
    EscapedTextIsPrintable(f.payload);
    HeadIsPrintable(f.lineEnd);
    TailIsPrintable(stdout);
    PrintableAppend(EscapedText(f.payload), FrameTail(stdout));
    PrintableAppend(FrameHead(f.lineEnd), EscapedText(f.payload) + FrameTail(stdout));
  }

  lemma HeadIsPrintable(lineEnd: bool)
    ensures Printable(FrameHead(lineEnd)) && |FrameHead(lineEnd)| <= 29
  {
  }

  lemma TailIsPrintable(stdout: bool)
    ensures Printable(FrameTail(stdout)) && |FrameTail(stdout)| <= 54
  {
    assert Printable(StreamField(stdout));
    assert Printable(LAST_FIELDS);
    PrintableAppend(StreamField(stdout), LAST_FIELDS);
  }

  lemma PrintableAppend(a: string, b: string)
    requires Printable(a) && Printable(b)
    ensures Printable(a + b)
  {
  }

  function HexValue(c: char): Option<nat> {
    if '0' <= c <= '9' then Some(c as int - '0' as int)
    else if 'a' <= c <= 'f' then Some(c as int - 'a' as int + 10)
    else if 'A' <= c <= 'F' then Some(c as int - 'A' as int + 10)
    else None
  }

  function ReadHex4(s: string): Option<nat> {
    if |s| < 4 then None
    else
      var a, b, c, d := HexValue(s[0]), HexValue(s[1]), HexValue(s[2]), HexValue(s[3]);
      if a.None? || b.None? || c.None? || d.None? then None
      else Some(0x1000 * a.value + 0x100 * b.value + 16 * c.value + d.value)
  }

  /** The character a two-character escape stands for. */
  function ShortMeaning(c: char): Option<char> {
    match c
    case '"' => Some('"')
    case '\\' => Some('\\')
    case '/' => Some('/')
    case 'n' => Some('\n')
    case 'r' => Some('\r')
    case 't' => Some('\t')
    case 'f' => Some('\U{C}')
    case 'b' => Some('\U{8}')
    case _ => None
  }

  /** A reader of one character of a JSON string, and what follows it; isolated surrogates are refused. */
  function ReadEscaped(s: string): Option<(char, string)> {
    if s == [] || s[0] == '"' || s[0] < ' ' then None
    else if s[0] != '\\' then Some((s[0], s[1..]))
    else if |s| == 1 then None
    else if s[1] != 'u' then
      var meaning := ShortMeaning(s[1]);
      if meaning.None? then None else Some((meaning.value, s[2..]))
    else
      var n := ReadHex4(s[2..]);
      if n.None? then None
      else if n.value < 0xD800 || 0xE000 <= n.value < 0x1_0000 then Some((n.value as char, s[6..]))
      else if n.value >= 0xDC00 || |s| < 8 || s[6] != '\\' || s[7] != 'u' then None
      else
        var low := ReadHex4(s[8..]);
        if low.None? || !(0xDC00 <= low.value < 0xE000) then None
        else Some(((0x1_0000 + 0x400 * (n.value - 0xD800) + (low.value - 0xDC00)) as char, s[12..]))
  }

  /** The string up to its closing quote. */
  function ReadText(s: string): Option<string>
    decreases |s|
  {
    if s != [] && s[0] == '"' then Some([])
    else
      var first := ReadEscaped(s);
      if first.None? || |first.value.1| >= |s| then None
      else
        var rest := ReadText(first.value.1);
        if rest.None? then None else Some([first.value.0] + rest.value)
  }

  lemma Hex4ReadsBack(n: nat, t: string)
    requires n < 0x1_0000
    ensures ReadHex4(Hex4(n) + t) == Some(n)
  {
    var a, b, c, d := n / 0x1000, n / 0x100 % 16, n / 16 % 16, n % 16;
    DigitReadsBack(a);
    DigitReadsBack(b);
    DigitReadsBack(c);
    DigitReadsBack(d);
    FourDigits(n);
    var s := Hex4(n) + t;
    assert s[0] == HexDigit(a) && s[1] == HexDigit(b) && s[2] == HexDigit(c) && s[3] == HexDigit(d);
  }

  lemma DigitReadsBack(k: nat)
    requires k < 16
    ensures HexValue(HexDigit(k)) == Some(k)
  {
  }

  lemma FourDigits(n: nat)
    requires n < 0x1_0000
    ensures n == 0x1000 * (n / 0x1000) + 0x100 * (n / 0x100 % 16) + 16 * (n / 16 % 16) + n % 16
  {
    assert n / 0x100 == 16 * (n / 0x100 / 16) + n / 0x100 % 16;
    assert n / 16 == 16 * (n / 16 / 16) + n / 16 % 16;
  }

  lemma EscapedReadsBack(c: char, t: string)
    ensures ReadEscaped(Escaped(c) + t) == Some((c, t))
  {
    var s := Escaped(c) + t;
    if ShortEscape(c).Some? {
      assert s[2..] == t;
    } else if ' ' <= c <= '~' {
      assert s[1..] == t;
    } else if c <= '\U{FFFF}' {
      Hex4ReadsBack(c as int, t);
      assert s[2..] == Hex4(c as int) + t && s[6..] == t;
    } else {
      PairReadsBack(c, t);
    }
  }

  /** Where the digits of two escapes are. */
  lemma PairSlices(high: string, low: string, t: string)
    requires |high| == |low| == 4
    ensures
      var s := ((['\\', 'u'] + high) + (['\\', 'u'] + low)) + t;
      && |s| >= 12 && s[0] == s[6] == '\\' && s[1] == s[7] == 'u'
      && s[2..] == high + ((['\\', 'u'] + low) + t) && s[8..] == low + t && s[12..] == t
  {
  }

  /** A surrogate pair reads as the character it stands for. */
  lemma PairRead(high: nat, low: nat, t: string)
    requires 0xD800 <= high < 0xDC00 <= low < 0xE000
    ensures ReadEscaped(((['\\', 'u'] + Hex4(high)) + (['\\', 'u'] + Hex4(low))) + t) ==
            Some(((0x1_0000 + 0x400 * (high - 0xD800) + (low - 0xDC00)) as char, t))
  {
    Hex4ReadsBack(high, (['\\', 'u'] + Hex4(low)) + t);
    Hex4ReadsBack(low, t);
    PairSlices(Hex4(high), Hex4(low), t);
  }

  /** The surrogates of a character above the first plane. */
  function Surrogates(c: char): (pair: (nat, nat))
    requires c > '\U{FFFF}'
    ensures 0xD800 <= pair.0 < 0xDC00 <= pair.1 < 0xE000
    ensures 0x1_0000 + 0x400 * (pair.0 - 0xD800) + (pair.1 - 0xDC00) == c as int
  {
    var n := c as int - 0x1_0000;
    assert n == 0x400 * (n / 0x400) + n % 0x400;
    (0xD800 + n / 0x400, 0xDC00 + n % 0x400)
  }

  lemma EscapedPair(c: char)
    requires c > '\U{FFFF}'
    ensures Escaped(c) == (['\\', 'u'] + Hex4(Surrogates(c).0)) + (['\\', 'u'] + Hex4(Surrogates(c).1))
  {
  }

  lemma PairReadsBack(c: char, t: string)
    requires c > '\U{FFFF}'
    ensures ReadEscaped(Escaped(c) + t) == Some((c, t))
  {
    var (high, low) := Surrogates(c);
    EscapedPair(c);
    PairRead(high, low, t);
  }

  /** A JSON reader gets every payload back, control characters and surrogate pairs included. */
  lemma {:induction false} PayloadReadsBack(s: string, t: string)
    ensures ReadText(EscapedText(s) + ['"'] + t) == Some(s)
    decreases |s|
  {
    if s == [] {
      assert EscapedText(s) + ['"'] + t == ['"'] + t;
    } else {
      var rest := EscapedText(s[1..]) + ['"'] + t;
      assert EscapedText(s) + ['"'] + t == Escaped(s[0]) + rest;
      EscapedIsPrintable(s[0]);
      EscapedReadsBack(s[0], rest);
      PayloadReadsBack(s[1..], t);
      assert (Escaped(s[0]) + rest)[0] == Escaped(s[0])[0] != '"';
      assert [s[0]] + s[1..] == s;
    }
  }

  /** The payload a reader finds in a frame is the fragment's. */
  lemma FrameHoldsPayload(f: Fragment, stdout: bool)
    ensures ReadText(FrameText(f, stdout)[|FrameHead(f.lineEnd)|..]) == Some(f.payload)
  {
    var tail := FrameTail(stdout);
    assert tail[0] == '"' by {
      assert StreamField(stdout)[0] == '"';
    }
    assert tail == ['"'] + tail[1..];
    Assoc(EscapedText(f.payload), ['"'], tail[1..]);
    PayloadReadsBack(f.payload, tail[1..]);
    assert FrameText(f, stdout)[|FrameHead(f.lineEnd)|..] == EscapedText(f.payload) + tail;
  }

  /** helper/_child_output.py OutputDecoder. */
  class OutputDecoder<D> {
    const machine: Decoder<D>
    var decoder: D
    var pending: string

    constructor (machine: Decoder<D>)
      ensures this.machine == machine && decoder == machine.initial && pending == []
    {
      this.machine := machine;
      decoder := machine.initial;
      pending := [];
    }

    /**
     * Decode one chunk into fragments. Writing them out gives back the decoded
     * text exactly; every fragment is sound; nothing stays pending.
     */
    method Feed(chunk: bytes) returns (fragments: seq<Fragment>)
      requires pending == []
      modifies this
      ensures pending == [] && decoder == ChunkText(machine, old(decoder), chunk).0
      ensures AllWritten(fragments) == ChunkText(machine, old(decoder), chunk).1
      ensures AllSound(fragments)
    {
      var (next, text) := ChunkText(machine, decoder, chunk);
      decoder := next;
      fragments := [];
      for i := 0 to |text|
        invariant AllWritten(fragments) + pending == text[..i]
        invariant AllSound(fragments)
        invariant '\n' !in pending && |pending| < RELAY_CHUNK_SIZE
        invariant decoder == next
      {
        assert text[..i + 1] == text[..i] + [text[i]];
        fragments := Take(fragments, text[i]);
      }
      assert text[..|text|] == text;
      if pending != [] {
        fragments := Cut(fragments, false);
      }
      assert AllWritten(fragments) + [] == AllWritten(fragments);
    }

    /** End the pending text as one fragment. */
    method Cut(fragments: seq<Fragment>, lineEnd: bool) returns (more: seq<Fragment>)
      modifies this`pending
      ensures pending == [] && more == fragments + [Fragment(old(pending), lineEnd)]
      ensures AllWritten(more) == AllWritten(fragments) + old(pending) + if lineEnd then ['\n'] else []
    {
      AllWrittenSnoc(fragments, Fragment(pending, lineEnd));
      Assoc(AllWritten(fragments), pending, if lineEnd then ['\n'] else []);
      more := fragments + [Fragment(pending, lineEnd)];
      pending := [];
    }

    /** One decoded character. */
    method Take(fragments: seq<Fragment>, character: char) returns (more: seq<Fragment>)
      requires AllSound(fragments) && '\n' !in pending && |pending| < RELAY_CHUNK_SIZE
      modifies this`pending
      ensures AllWritten(more) + pending == AllWritten(fragments) + old(pending) + [character]
      ensures AllSound(more) && '\n' !in pending && |pending| < RELAY_CHUNK_SIZE
    {
      more := fragments;
      if character == '\n' {
        more := Cut(more, true);
        assert AllWritten(more) + [] == AllWritten(more);
        return;
      }
      Assoc(AllWritten(fragments), pending, [character]);
      pending := pending + [character];
      if |pending| >= RELAY_CHUNK_SIZE {
        more := Cut(more, false);
        assert AllWritten(fragments) + old(pending) + [character] + [] == AllWritten(more) + [];
      }
    }
  }

  /**
   * A whole stream, in any chunks, then its end-of-file: the fragments write
   * out the decoded text of all its bytes and the final flush, no matter where
   * the chunks were cut.
   */
  method DecodeStream<D>(machine: Decoder<D>, chunks: seq<bytes>) returns (fragments: seq<Fragment>)
    requires forall i | 0 <= i < |chunks| :: chunks[i] != []
    ensures
      var (d, text) := Decode(machine, machine.initial, Flatten(chunks));
      AllWritten(fragments) == text + machine.flush(d)
    ensures AllSound(fragments)
  {
    var output := new OutputDecoder<D>(machine);
    fragments := [];
    ghost var consumed: bytes := [];
    assert chunks[0..] == chunks;
    for i := 0 to |chunks|
      invariant fresh(output) && output.pending == [] && output.machine == machine
      invariant consumed + Flatten(chunks[i..]) == Flatten(chunks)
      invariant (output.decoder, AllWritten(fragments)) == Decode(machine, machine.initial, consumed)
      invariant AllSound(fragments)
    {
      FlattenDrop(chunks, i);
      Assoc(consumed, chunks[i], Flatten(chunks[i + 1..]));
      DecodeAppend(machine, machine.initial, consumed, chunks[i]);
      var more := output.Feed(chunks[i]);
      AllWrittenAppend(fragments, more);
      fragments := fragments + more;
      consumed := consumed + chunks[i];
    }
    assert consumed + [] == consumed;
    var last := output.Feed([]);
    AllWrittenAppend(fragments, last);
    fragments := fragments + last;
  }
}
