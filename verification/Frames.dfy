/** Length-prefixed frames, written and read on both sides of the connection
    (backend/services/ws-gateway/protocol.go, sdk/sdk-js/src/codec.ts). */
module Frames {
  import opened Wrappers

  type Byte = n: int | 0 <= n < 256

  const HEADER: nat := 4

  // ---------- The header ----------

  /** A number as four big-endian bytes; what does not fit is cut off. */
  function Put32(n: nat): (h: seq<Byte>)
    ensures |h| == 4
  {
    [n / 0x100_0000 % 256, n / 0x1_0000 % 256, n / 0x100 % 256, n % 256]
  }

  function Get32(h: seq<Byte>): (n: nat)
    requires |h| == 4
    ensures n < 0x1_0000_0000
  {
    var a: int, b: int, c: int, d: int := h[0], h[1], h[2], h[3];
    a * 0x100_0000 + b * 0x1_0000 + c * 0x100 + d
  }

  lemma DivTwice(n: nat)
    ensures n / 0x1_0000 == n / 0x100 / 0x100
  {
  }

  lemma HeaderRoundTrip(n: nat)
    ensures Get32(Put32(n)) == n % 0x1_0000_0000
    ensures var h := Put32(n);
            var a: int, b: int, c: int, d: int := h[0], h[1], h[2], h[3];
            a * 0x100_0000 + b * 0x1_0000 + c * 0x100 + d == n % 0x1_0000_0000
  {
    var a := n / 0x100;
    var b := a / 0x100;
    var c := b / 0x100;
    var d := c / 0x100;
    DivTwice(n);
    DivTwice(a);
    assert n / 0x100_0000 == a / 0x1_0000 == c;
    assert n == d * 0x1_0000_0000 + c % 256 * 0x100_0000 + b % 256 * 0x1_0000 + a % 256 * 0x100 + n % 256;
  }

  lemma NumberRoundTrip(h: seq<Byte>)
    requires |h| == 4
    ensures Put32(Get32(h)) == h
  {
    var n := Get32(h);
    var a: int, b: int, c: int := h[0], h[1], h[2];
    assert n / 0x100 == a * 0x1_0000 + b * 0x100 + c;
    assert n / 0x1_0000 == a * 0x100 + b;
    assert n / 0x100_0000 == a;
  }

  // ---------- Frames ----------

  function Framed(payload: seq<Byte>): seq<Byte> { Put32(|payload|) + payload }

  /** The payload of the frame that data begins with, if it is all there. */
  function Unframed(data: seq<Byte>): Option<seq<Byte>> {
    if |data| < HEADER then None
    else
      var length := Get32(data[..HEADER]);
      if |data| < HEADER + length then None else Some(data[HEADER..HEADER + length])
  }

  /** Allocates the frame, writes the length into its first four bytes and copies the payload
      behind it. */
  method EncodeFrame(payload: seq<Byte>) returns (frame: array<Byte>)
    ensures frame[..] == Framed(payload)
  {
    frame := new Byte[HEADER + |payload|](_ => 0);
    var header := Put32(|payload|);
    for i := 0 to HEADER
      invariant frame[..i] == header[..i]
    {
      frame[i] := header[i];
    }
    for i := 0 to |payload|
      invariant frame[..HEADER] == header && frame[HEADER..HEADER + i] == payload[..i]
    {
      frame[HEADER + i] := payload[i];
    }
    assert frame[..] == frame[..HEADER] + frame[HEADER..HEADER + |payload|];
  }

  // ---------- Messages ----------

  /** Marshalling and unmarshalling of one message type. */
  datatype Codec<!M> = Codec(marshal: M -> Option<seq<Byte>>, unmarshal: seq<Byte> -> Option<M>)

  ghost predicate Inverse<M(!new)>(c: Codec<M>) {
    forall m :: c.marshal(m).Some? ==> c.unmarshal(c.marshal(m).value) == Some(m)
  }

  /** The encoders: a message that does not marshal gives no frame. */
  method EncodeMessage<M>(c: Codec<M>, m: M) returns (frame: Option<array<Byte>>)
    ensures frame.Some? <==> c.marshal(m).Some?
    ensures frame.Some? ==> frame.value[..] == Framed(c.marshal(m).value)
  {
    var payload := c.marshal(m);
    if payload.None? { return None; }
    var bytes := EncodeFrame(payload.value);
    return Some(bytes);
  }

  datatype DecodeError = TooShort | LengthMismatch | BadPayload

  /** The Go decoders. */
  function DecodeFrame<M>(c: Codec<M>, data: seq<Byte>): Result<M, DecodeError> {
    if |data| < HEADER then Err(TooShort)
    else
      var length, payload := Get32(data[..HEADER]), data[HEADER..];
      if |payload| < length then Err(LengthMismatch)
      else match c.unmarshal(payload[..length]) case Some(m) => Ok(m) case None => Err(BadPayload)
  }

  /** Which data the Go decoders refuse, and how. */
  lemma RefusedHow<M>(c: Codec<M>, data: seq<Byte>)
    ensures DecodeFrame(c, data) == Err(TooShort) <==> |data| < 4
    ensures DecodeFrame(c, data) == Err(LengthMismatch) <==> |data| >= 4 && |data| < 4 + Get32(data[..4])
    ensures DecodeFrame(c, data) == Err(BadPayload) <==>
              |data| >= 4 && |data| >= 4 + Get32(data[..4]) && c.unmarshal(data[4..4 + Get32(data[..4])]).None?
  {
    if |data| >= 4 && |data| >= 4 + Get32(data[..4]) {
      assert data[4..][..Get32(data[..4])] == data[4..4 + Get32(data[..4])];
    }
  }

  /** `Thrown` is what the TypeScript reader does with a payload that does not unmarshal. */
  datatype ReadResult<M> = Incomplete | Thrown | Event(event: M, bytesRead: nat)

  function ReadServerEvent<M>(c: Codec<M>, buffer: seq<Byte>): ReadResult<M> {
    if |buffer| < HEADER then Incomplete
    else
      var total := HEADER + Get32(buffer[..HEADER]);
      if |buffer| < total then Incomplete
      else match c.unmarshal(buffer[HEADER..total]) case Some(m) => Event(m, total) case None => Thrown
  }

  // ---------- Decoding undoes encoding ----------

  lemma UnframedOfFramed(p: seq<Byte>, rest: seq<Byte>)
    ensures Unframed(Framed(p) + rest) == Some((p + rest)[..|p| % 0x1_0000_0000])
  {
    HeaderRoundTrip(|p|);
    var data := Framed(p) + rest;
    assert data[..HEADER] == Put32(|p|) && data[HEADER..] == p + rest;
    var n := |p| % 0x1_0000_0000;
    assert n <= |p|;
    assert data[HEADER..HEADER + n] == data[HEADER..][..n];
  }

  /** A frame gives its payload back, whatever follows, if and only if the payload is shorter
      than 2^32 bytes. */
  lemma PayloadRoundTrip(p: seq<Byte>, rest: seq<Byte>)
    ensures Unframed(Framed(p) + rest) == Some(p) <==> |p| < 0x1_0000_0000
  {
    UnframedOfFramed(p, rest);
    if |p| < 0x1_0000_0000 {
      assert (p + rest)[..|p|] == p;
    } else {
      assert |p| % 0x1_0000_0000 < |p|;
    }
  }

  /** Data yields a payload exactly when it begins with that payload's frame. */
  lemma UnframedIffFrame(data: seq<Byte>, p: seq<Byte>)
    ensures Unframed(data) == Some(p) <==>
            |p| < 0x1_0000_0000 && |data| >= HEADER + |p| && data[..HEADER + |p|] == Framed(p)
  {
    if |data| >= HEADER {
      NumberRoundTrip(data[..HEADER]);
      HeaderRoundTrip(|p|);
      if Unframed(data) == Some(p) {
        assert data[..HEADER + |p|] == data[..HEADER] + data[HEADER..HEADER + |p|];
      }
      if |data| >= HEADER + |p| && data[..HEADER + |p|] == Framed(p) {
        assert data[..HEADER] == Framed(p)[..HEADER] == Put32(|p|);
        assert data[HEADER..HEADER + |p|] == Framed(p)[HEADER..] == p;
      }
    }
  }

  /** No frame is accepted before its last byte is there. */
  lemma StrictPrefixIsRefused(p: seq<Byte>, k: nat)
    requires |p| < 0x1_0000_0000 && k < |Framed(p)|
    ensures Unframed(Framed(p)[..k]) == None
  {
    if k >= HEADER {
      HeaderRoundTrip(|p|);
      assert Framed(p)[..k][..HEADER] == Put32(|p|);
    }
  }

  /** Both decoders see the same payload; they differ only in how they report. */
  lemma DecodersAgree<M>(c: Codec<M>, data: seq<Byte>)
    ensures match Unframed(data)
            case None => DecodeFrame(c, data).Err? && ReadServerEvent(c, data).Incomplete?
            case Some(p) =>
              match c.unmarshal(p)
              case Some(m) => DecodeFrame(c, data) == Ok(m) && ReadServerEvent(c, data) == Event(m, HEADER + |p|)
              case None => DecodeFrame(c, data) == Err(BadPayload) && ReadServerEvent(c, data).Thrown?
  {
    if |data| >= HEADER {
      var length := Get32(data[..HEADER]);
      if |data| >= HEADER + length {
        assert data[HEADER..][..length] == data[HEADER..HEADER + length];
      }
    }
  }

  /** A message framed on one side is recovered on the other, whatever follows it, and no
      strict prefix of the frame is taken for a message. */
  lemma MessageRoundTrip<M(!new)>(c: Codec<M>, m: M, rest: seq<Byte>, k: nat)
    requires Inverse(c) && c.marshal(m).Some? && |c.marshal(m).value| < 0x1_0000_0000
    ensures var frame := Framed(c.marshal(m).value);
            && DecodeFrame(c, frame + rest) == Ok(m)
            && ReadServerEvent(c, frame + rest) == Event(m, |frame|)
            && (k < |frame| ==> DecodeFrame(c, frame[..k]).Err? && ReadServerEvent(c, frame[..k]).Incomplete?)
  {
    var p := c.marshal(m).value;
    PayloadRoundTrip(p, rest);
    DecodersAgree(c, Framed(p) + rest);
    if k < |Framed(p)| {
      StrictPrefixIsRefused(p, k);
      DecodersAgree(c, Framed(p)[..k]);
    }
  }

  // ---------- A stream of frames ----------

  datatype Stream<M> = Stream(events: seq<M>, rest: seq<Byte>, thrown: bool)

  /** Reads frame after frame, each time moving on by `bytesRead`. */
  function ReadAll<M>(c: Codec<M>, data: seq<Byte>): Stream<M>
    decreases |data|
  {
    match ReadServerEvent(c, data)
    case Incomplete => Stream([], data, false)
    case Thrown => Stream([], data, true)
    case Event(m, n) =>
      var tail := ReadAll(c, data[n..]);
      Stream([m] + tail.events, tail.rest, tail.thrown)
  }

  function Frame<M>(c: Codec<M>, m: M): seq<Byte>
    requires c.marshal(m).Some?
  {
    Framed(c.marshal(m).value)
  }

  ghost predicate Encodable<M>(c: Codec<M>, ms: seq<M>) {
    forall i :: 0 <= i < |ms| ==> c.marshal(ms[i]).Some? && |c.marshal(ms[i]).value| < 0x1_0000_0000
  }

  function Concatenated<M>(c: Codec<M>, ms: seq<M>): seq<Byte>
    requires Encodable(c, ms)
  {
    if ms == [] then [] else Frame(c, ms[0]) + Concatenated(c, ms[1..])
  }

  /** Concatenated frames with any part of a further frame behind them are read as exactly the
      messages framed, leaving exactly that part. */
  lemma {:induction false} StreamRoundTrip<M(!new)>(c: Codec<M>, ms: seq<M>, next: seq<Byte>, k: nat)
    requires Inverse(c) && Encodable(c, ms) && |next| < 0x1_0000_0000 && k < |Framed(next)|
    ensures ReadAll(c, Concatenated(c, ms) + Framed(next)[..k]) == Stream(ms, Framed(next)[..k], false)
  {
    var part := Framed(next)[..k];
    var data := Concatenated(c, ms) + part;
    if ms == [] {
      assert data == part;
      StrictPrefixIsRefused(next, k);
      DecodersAgree(c, part);
    } else {
      var frame, others := Frame(c, ms[0]), Concatenated(c, ms[1..]) + part;
      assert data == frame + others;
      MessageRoundTrip(c, ms[0], others, 0);
      assert data[|frame|..] == others;
      StreamRoundTrip(c, ms[1..], next, k);
    }
  }
}
