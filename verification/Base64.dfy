/** Canonical base64 of LOG_DATA payloads: sections 3.5 and 4 of RFC 4648. */
module Base64 {
  import opened Base
  import opened Framing
  import opened Events

  const MAX_LOG_DATA_TEXT := 4 * ((MAX_LOG_DATA_BYTES + 2) / 3)

  const PAD := '='

  /** Six bits, as base-4 digits: a third of the digits of three bytes. */
  datatype Sextet = Sextet(d2: crumb, d1: crumb, d0: crumb) {
    function Value(): nat {
      16 * d2 + 4 * d1 + d0
    }
  }

  function SextetOf(n: nat): Sextet {
    Sextet(n / 16 % 4, n / 4 % 4, n % 4)
  }

  /** A base64 alphabet and its inverse; None for padding and every other character. */
  datatype Alphabet = Alphabet(symbol: Sextet -> char, value: char -> Option<Sextet>) {
    ghost predicate Invertible() {
      forall x: Sextet :: value(symbol(x)) == Some(x) && symbol(x) != PAD
    }
  }

  function Symbol(n: nat): char
    requires n < 64
  {
    if n < 26 then 'A' + n as char
    else if n < 52 then 'a' + (n - 26) as char
    else if n < 62 then '0' + (n - 52) as char
    else if n == 62 then '+'
    else '/'
  }

  function Index(c: char): Option<nat> {
    if 'A' <= c <= 'Z' then Some((c - 'A') as int)
    else if 'a' <= c <= 'z' then Some((c - 'a') as int + 26)
    else if '0' <= c <= '9' then Some((c - '0') as int + 52)
    else if c == '+' then Some(62)
    else if c == '/' then Some(63)
    else None
  }

  function SymbolOf(x: Sextet): char {
    Symbol(x.Value())
  }

  function SextetAt(c: char): Option<Sextet> {
    if Index(c).None? then None else Some(SextetOf(Index(c).value))
  }

  /** Table 1 of RFC 4648. */
  function Standard(): Alphabet {
    Alphabet(SymbolOf, SextetAt)
  }

  /** A byte of a short group, zero past its end. */
  function At(d: bytes, i: nat): Byte {
    if i < |d| then d[i] else Byte(0, 0, 0, 0)
  }

  /** One to three bytes as one padded quantum: their digits regrouped by three. */
  function Quantum(t: Alphabet, d: bytes): (q: string)
    requires 1 <= |d| <= 3
    ensures |q| == 4
  {
    var a, b, c := d[0], At(d, 1), At(d, 2);
    [t.symbol(Sextet(a.d3, a.d2, a.d1)),
     t.symbol(Sextet(a.d0, b.d3, b.d2)),
     if |d| > 1 then t.symbol(Sextet(b.d1, b.d0, c.d3)) else PAD,
     if |d| > 2 then t.symbol(Sextet(c.d2, c.d1, c.d0)) else PAD]
  }

  function EncodeWith(t: Alphabet, data: bytes): string {
    if |data| == 0 then ""
    else if |data| <= 3 then Quantum(t, data)
    else Quantum(t, data[..3]) + EncodeWith(t, data[3..])
  }

  /** One complete quantum; unused padding bits are not inspected here. */
  function DecodeQuantum(t: Alphabet, q: string): (r: Option<bytes>)
    requires |q| == 4
    ensures r.Some? ==> 1 <= |r.value| <= 3
  {
    var w, x, y, z := t.value(q[0]), t.value(q[1]), t.value(q[2]), t.value(q[3]);
    if w.None? || x.None? then None
    else
      var a := Byte(w.value.d2, w.value.d1, w.value.d0, x.value.d2);
      if q[2] == PAD && q[3] == PAD then Some([a])
      else if y.None? then None
      else
        var b := Byte(x.value.d1, x.value.d0, y.value.d2, y.value.d1);
        if q[3] == PAD then Some([a, b])
        else if z.None? then None
        else Some([a, b, Byte(y.value.d0, z.value.d2, z.value.d1, z.value.d0)])
  }

  /** The library's strict decoder: padding only ends the text. */
  function DecodeWith(t: Alphabet, text: string): Option<bytes> {
    if |text| == 0 then Some([])
    else if |text| < 4 then None
    else
      var head := DecodeQuantum(t, text[..4]);
      if head.None? then None
      else if |head.value| < 3 then (if |text| == 4 then head else None)
      else
        var tail := DecodeWith(t, text[4..]);
        if tail.None? then None else Some(head.value + tail.value)
  }

  lemma QuantumRoundTrip(t: Alphabet, d: bytes)
    requires t.Invertible() && 1 <= |d| <= 3
    ensures DecodeQuantum(t, Quantum(t, d)) == Some(d)
  {
    if |d| == 1 {
      assert d == [d[0]];
    } else if |d| == 2 {
      assert d == [d[0], d[1]];
    } else {
      assert d == [d[0], d[1], d[2]];
    }
  }

  /** Decoding text that starts with a given quantum. */
  lemma DecodeStep(t: Alphabet, q: string, rest: string, data: bytes)
    requires |q| == 4 && DecodeQuantum(t, q) == Some(data)
    ensures rest == [] ==> DecodeWith(t, q + rest) == Some(data)
    ensures |data| == 3 && DecodeWith(t, rest).Some? ==>
              DecodeWith(t, q + rest) == Some(data + DecodeWith(t, rest).value)
  {
    assert (q + rest)[..4] == q && (q + rest)[4..] == rest;
    assert data + [] == data;
  }

  lemma {:induction false} RoundTripWith(t: Alphabet, data: bytes)
    requires t.Invertible()
    ensures DecodeWith(t, EncodeWith(t, data)) == Some(data)
    ensures |EncodeWith(t, data)| == 4 * ((|data| + 2) / 3)
  {
    if |data| == 0 {
    } else if |data| <= 3 {
      QuantumRoundTrip(t, data);
      DecodeStep(t, Quantum(t, data), [], data);
      assert Quantum(t, data) + [] == Quantum(t, data);
    } else {
      QuantumRoundTrip(t, data[..3]);
      RoundTripWith(t, data[3..]);
      DecodeStep(t, Quantum(t, data[..3]), EncodeWith(t, data[3..]), data[..3]);
      assert data[..3] + data[3..] == data;
    }
  }

  lemma SymbolInverse(n: nat)
    requires n < 64
    ensures Index(Symbol(n)) == Some(n) && Symbol(n) != PAD
  {
  }

  lemma DigitsInverse(a: crumb, b: crumb, c: crumb, n: nat)
    requires n == 16 * a + 4 * b + c
    ensures n < 64 && n / 16 % 4 == a && n / 4 % 4 == b && n % 4 == c
  {
    assert n / 4 == 4 * a + b;
    assert n / 16 == a;
  }

  lemma StandardAt(x: Sextet, n: nat)
    requires n == x.Value()
    ensures n < 64 && SextetOf(n) == x
    ensures Index(Symbol(n)) == Some(n) && Symbol(n) != PAD
  {
    DigitsInverse(x.d2, x.d1, x.d0, n);
    SymbolInverse(n);
  }

  lemma StandardInvertible()
    ensures Standard().Invertible()
  {
    forall x: Sextet
      ensures SextetAt(SymbolOf(x)) == Some(x) && SymbolOf(x) != PAD
    {
      StandardAt(x, x.Value());
    }
  }

  function Encode(data: bytes): string {
    EncodeWith(Standard(), data)
  }

  /** Encoding loses nothing, so it is injective, and its length is fixed by the data's. */
  lemma RoundTrip(data: bytes)
    ensures DecodeWith(Standard(), Encode(data)) == Some(data)
    ensures |Encode(data)| == 4 * ((|data| + 2) / 3)
  {
    StandardInvertible();
    RoundTripWith(Standard(), data);
  }

  /** The bytes of a LOG_DATA payload; None is the source's ProtocolError. */
  function LogBytes(text: string): Option<bytes> {
    if !(0 < |text| <= MAX_LOG_DATA_TEXT) then None
    else
      var data := DecodeWith(Standard(), text);
      if data.None? || Encode(data.value) != text then None
      else if !(0 < |data.value| <= MAX_LOG_DATA_BYTES) then None
      else data
  }

  /** A payload is accepted for d exactly when it is the one canonical text of d, within the bound. */
  lemma LogBytesIsCanonical(text: string, d: bytes)
    ensures LogBytes(text) == Some(d) <==> 0 < |d| <= MAX_LOG_DATA_BYTES && text == Encode(d)
  {
    RoundTrip(d);
    if 0 < |d| <= MAX_LOG_DATA_BYTES && text == Encode(d) {
      assert (|d| + 2) / 3 <= (MAX_LOG_DATA_BYTES + 2) / 3;
    }
  }

  /** An event as the JSON text carries it: LOG_DATA payloads are base64 text. */
  datatype Message = LogText(offset: int, text: string) | Plain(event: Event)

  /** The JSON library's encoder and decoder of messages. */
  datatype Json = Json(encode: Message -> Option<bytes>, decode: bytes -> Option<Message>) {
    ghost predicate Sound() {
      forall m | encode(m).Some? :: IsFrame(encode(m).value) && decode(encode(m).value) == Some(m)
    }
  }

  /** encode_log_data, and every other event as it is. */
  function ToMessage(e: Event): Message {
    if e.LogData? then LogText(e.offset, Encode(e.data)) else Plain(e)
  }

  /** log_data, and every other event as it is. */
  function FromMessage(m: Message): Option<Event> {
    match m
    case LogText(offset, text) =>
      var data := LogBytes(text);
      if data.None? then None else Some(LogData(offset, data.value))
    case Plain(e) => if e.LogData? then None else Some(e)
  }

  /** The event codec of the protocol: JSON text over base64 payloads. */
  function Wire(j: Json): Codec {
    Codec(e => j.encode(ToMessage(e)),
          f => var m := j.decode(f); if m.None? then None else FromMessage(m.value))
  }

  /** Whatever its kind, a bounded event survives as a message. */
  lemma MessageRoundTrip(e: Event)
    requires Sized(e)
    ensures FromMessage(ToMessage(e)) == Some(e)
  {
    if e.LogData? {
      LogBytesIsCanonical(Encode(e.data), e.data);
    }
  }

  lemma WireRoundTrip(j: Json, e: Event)
    requires j.Sound() && Sized(e) && Wire(j).encode(e).Some?
    ensures IsFrame(Wire(j).encode(e).value) && Wire(j).decode(Wire(j).encode(e).value) == Some(e)
  {
    var m := ToMessage(e);
    var text := j.encode(m);
    assert Wire(j).encode(e) == text;
    assert j.decode(text.value) == Some(m);
    MessageRoundTrip(e);
  }

  /**
   * The whole codec is sound when the JSON library inverts itself: every event
   * that fits a frame comes back as it was, log bytes included, and nothing
   * but the canonical text of a bounded payload is read as LOG_DATA.
   */
  lemma WireIsSound(j: Json)
    requires j.Sound()
    ensures Wire(j).Sound()
  {
    forall e | Sized(e) && Wire(j).encode(e).Some?
      ensures IsFrame(Wire(j).encode(e).value) && Wire(j).decode(Wire(j).encode(e).value) == Some(e)
    {
      WireRoundTrip(j, e);
    }
  }
}
