/** Length-prefixed framing, proved once for both dialects: the bridge's big-endian frames
    (connector-sdk/src/protocol/envelope.ts) and Chrome's little-endian messages
    (browser-connectors/chrome/native-host/src/framing.ts). Turning a body into a value is a
    parameter that may fail, as JSON.parse may throw. */
module Framing {
  import opened Basics

  type Bytes = seq<byte>

  datatype Dialect = Dialect(bigEndian: bool, cap: nat)

  const Bridge := Dialect(true, 8 * 1024 * 1024)
  const Chrome := Dialect(false, 1024 * 1024)

  const UINT32_LIMIT := 0x1_0000_0000

  function Header(d: Dialect, n: nat): (h: Bytes)
    requires n < UINT32_LIMIT
    ensures |h| == 4
  {
    var b0, b1, b2, b3 := n / 0x100_0000, n / 0x1_0000 % 256, n / 0x100 % 256, n % 256;
    if d.bigEndian then [b0, b1, b2, b3] else [b3, b2, b1, b0]
  }

  function FourBytes(b0: int, b1: int, b2: int, b3: int): int {
    b0 * 0x100_0000 + b1 * 0x1_0000 + b2 * 0x100 + b3
  }

  function ReadLength(d: Dialect, b: Bytes): (n: nat)
    requires |b| >= 4
    ensures n < UINT32_LIMIT
  {
    if d.bigEndian then FourBytes(b[0], b[1], b[2], b[3]) else FourBytes(b[3], b[2], b[1], b[0])
  }

  /** Reading back a written length gives the length, in either byte order. */
  lemma HeaderRoundTrip(d: Dialect, n: nat, more: Bytes)
    requires n < UINT32_LIMIT
    ensures ReadLength(d, Header(d, n) + more) == n
  {
    var h := Header(d, n) + more;
    assert h[0] == Header(d, n)[0] && h[1] == Header(d, n)[1] && h[2] == Header(d, n)[2] && h[3] == Header(d, n)[3];
    assert n / 0x1_0000 == n / 0x100 / 256 && n / 0x100_0000 == n / 0x1_0000 / 256;
  }

  datatype FramingError = TooLong | BadBody

  /** encodeFrame / encodeMessage on an already serialized body. */
  function Encode(d: Dialect, body: Bytes): (r: Result<Bytes, FramingError>)
    requires d.cap < UINT32_LIMIT
    ensures r.Ok? <==> |body| <= d.cap
    ensures r.Ok? ==> |r.value| == 4 + |body| && r.value[4..] == body && ReadLength(d, r.value) == |body|
  {
    if |body| > d.cap then Err(TooLong)
    else
      HeaderRoundTrip(d, |body|, body);
      Ok(Header(d, |body|) + body)
  }

  /** What one decoding pass over a buffer yields: the frames and the bytes kept for later, or a
      thrown error and the bytes left in the buffer by the throw. */
  datatype Decoded<+J> = Frames(frames: seq<J>, rest: Bytes) | Corrupt(error: FramingError, left: Bytes)

  function Prepend<J>(fs: seq<J>, r: Decoded<J>): Decoded<J> {
    match r
    case Frames(gs, rest) => Frames(fs + gs, rest)
    case Corrupt(_, _) => r
  }

  function Decode<J>(d: Dialect, parse: Bytes -> Option<J>, buf: Bytes): Decoded<J>
    decreases |buf|
  {
    if |buf| < 4 then Frames([], buf) else
    var n := ReadLength(d, buf);
    if n > d.cap then Corrupt(TooLong, buf)
    else if |buf| < 4 + n then Frames([], buf)
    else match parse(buf[4..4 + n])
      case None => Corrupt(BadBody, buf[4 + n..])
      case Some(j) => Prepend([j], Decode(d, parse, buf[4 + n..]))
  }

  /** A pass that does not throw leaves less than one frame's worth of bytes, and passing over
      them again yields nothing. */
  lemma {:induction false} LeftoverIsBounded<J>(d: Dialect, parse: Bytes -> Option<J>, buf: Bytes)
    requires Decode(d, parse, buf).Frames?
    ensures |Decode(d, parse, buf).rest| < 4 + d.cap
    ensures var rest := Decode(d, parse, buf).rest; Decode(d, parse, rest) == Frames([], rest)
    decreases |buf|
  {
    if |buf| >= 4 && |buf| >= 4 + ReadLength(d, buf) {
      LeftoverIsBounded(d, parse, buf[4 + ReadLength(d, buf)..]);
    }
  }

  lemma PrependAssociative<J>(a: seq<J>, b: seq<J>, r: Decoded<J>)
    ensures Prepend(a, Prepend(b, r)) == Prepend(a + b, r)
  {
    if r.Frames? { assert a + (b + r.frames) == a + b + r.frames; }
  }

  /** Decoding a then b is decoding a and then what it left together with b. */
  lemma {:induction false} DecodeSplit<J>(d: Dialect, parse: Bytes -> Option<J>, a: Bytes, b: Bytes)
    ensures match Decode(d, parse, a)
            case Frames(fs, rest) => Decode(d, parse, a + b) == Prepend(fs, Decode(d, parse, rest + b))
            case Corrupt(e, _) => Decode(d, parse, a + b).Corrupt? && Decode(d, parse, a + b).error == e
    decreases |a|
  {
    if |a| < 4 {
      PrependNothing(Decode(d, parse, a + b));
    } else {
      var n := ReadLength(d, a);
      assert ReadLength(d, a + b) == n;
      if n <= d.cap && |a| < 4 + n {
        PrependNothing(Decode(d, parse, a + b));
      } else if n <= d.cap {
        DecodeSplit(d, parse, a[4 + n..], b);
        SplitAfterFrame(d, parse, a, b, n);
      }
    }
  }

  /** What DecodeSplit states. */
  ghost predicate Splits<J>(whole: Decoded<J>, first: Decoded<J>, second: Decoded<J>) {
    match first
    case Frames(fs, _) => whole == Prepend(fs, second)
    case Corrupt(e, _) => whole.Corrupt? && whole.error == e
  }

  function Second<J>(d: Dialect, parse: Bytes -> Option<J>, first: Decoded<J>, b: Bytes): Decoded<J> {
    if first.Frames? then Decode(d, parse, first.rest + b) else first
  }

  lemma SplitsAfter<J>(j: J, whole: Decoded<J>, first: Decoded<J>, second: Decoded<J>)
    requires Splits(whole, first, second)
    ensures Splits(Prepend([j], whole), Prepend([j], first), second)
  {
    if first.Frames? { PrependAssociative([j], first.frames, second); }
  }

  /** Decoding a buffer that starts with a whole frame. */
  lemma DecodeFrame<J>(d: Dialect, parse: Bytes -> Option<J>, buf: Bytes, n: nat)
    requires |buf| >= 4 + n && n == ReadLength(d, buf) && n <= d.cap
    ensures Decode(d, parse, buf) ==
      match parse(buf[4..4 + n]) {
        case None => Corrupt(BadBody, buf[4 + n..])
        case Some(j) => Prepend([j], Decode(d, parse, buf[4 + n..]))
      }
  {
  }

  lemma SplitAfterFrame<J>(d: Dialect, parse: Bytes -> Option<J>, a: Bytes, b: Bytes, n: nat)
    requires |a| >= 4 + n && n == ReadLength(d, a) == ReadLength(d, a + b) && n <= d.cap
    requires var first := Decode(d, parse, a[4 + n..]);
             Splits(Decode(d, parse, a[4 + n..] + b), first, Second(d, parse, first, b))
    ensures var first := Decode(d, parse, a); Splits(Decode(d, parse, a + b), first, Second(d, parse, first, b))
  {
    var tail := a[4 + n..];
    var first, j := Decode(d, parse, tail), parse(a[4..4 + n]);
    assert (a + b)[4..4 + n] == a[4..4 + n] && (a + b)[4 + n..] == tail + b;
    DecodeFrame(d, parse, a, n);
    DecodeFrame(d, parse, a + b, n);
    if j.Some? { SplitsAfter(j.value, Decode(d, parse, tail + b), first, Second(d, parse, first, b)); }
  }

  lemma PrependNothing<J>(r: Decoded<J>)
    ensures Prepend([], r) == r
  {
    if r.Frames? { assert [] + r.frames == r.frames; }
  }

  /** Successive pushes of chunks, up to and including the first that throws. */
  function Feed<J>(d: Dialect, parse: Bytes -> Option<J>, buf: Bytes, chunks: seq<Bytes>): Decoded<J>
    decreases |chunks|
  {
    if chunks == [] then Frames([], buf) else
    match Decode(d, parse, buf + chunks[0])
    case Corrupt(e, left) => Corrupt(e, left)
    case Frames(fs, rest) => Prepend(fs, Feed(d, parse, rest, chunks[1..]))
  }

  lemma {:induction false} FeedIsDecode<J>(d: Dialect, parse: Bytes -> Option<J>, buf: Bytes, chunks: seq<Bytes>)
    requires Decode(d, parse, buf) == Frames([], buf)
    ensures var one, many := Decode(d, parse, buf + Flatten(chunks)), Feed(d, parse, buf, chunks);
            if one.Frames? then many == one else many.Corrupt? && many.error == one.error
    decreases |chunks|
  {
    if chunks == [] {
      assert buf + Flatten(chunks) == buf;
    } else {
      var a, b := buf + chunks[0], Flatten(chunks[1..]);
      assert buf + Flatten(chunks) == a + b;
      DecodeSplit(d, parse, a, b);
      var first := Decode(d, parse, a);
      if first.Frames? {
        LeftoverIsBounded(d, parse, a);
        FeedIsDecode(d, parse, first.rest, chunks[1..]);
      }
    }
  }

  /** Chunk boundaries never matter: any two splits of the same bytes either both throw, for the
      same reason, or yield the same frames in order and keep the same bytes. */
  lemma ChunkIndependence<J>(d: Dialect, parse: Bytes -> Option<J>, chunks: seq<Bytes>, chunks': seq<Bytes>)
    requires Flatten(chunks) == Flatten(chunks')
    ensures var x, y := Feed(d, parse, [], chunks), Feed(d, parse, [], chunks');
            (x.Frames? ==> y == x) && (x.Corrupt? ==> y.Corrupt? && y.error == x.error)
  {
    FeedIsDecode(d, parse, [], chunks);
    FeedIsDecode(d, parse, [], chunks');
  }

  // ---------------------------------------------------------------- round trip

  ghost predicate AllFit(d: Dialect, bodies: seq<Bytes>) {
    forall i :: 0 <= i < |bodies| ==> |bodies[i]| <= d.cap
  }

  ghost predicate AllParse<J>(parse: Bytes -> Option<J>, bodies: seq<Bytes>, values: seq<J>) {
    |bodies| == |values| && forall i :: 0 <= i < |bodies| ==> parse(bodies[i]) == Some(values[i])
  }

  /** The concatenation of the encoded frames. */
  function EncodeAll(d: Dialect, bodies: seq<Bytes>): Bytes
    requires d.cap < UINT32_LIMIT && forall i :: 0 <= i < |bodies| ==> |bodies[i]| <= d.cap
  {
    if bodies == [] then [] else Encode(d, bodies[0]).value + EncodeAll(d, bodies[1..])
  }

  lemma DecodeOne<J>(d: Dialect, parse: Bytes -> Option<J>, body: Bytes, j: J, more: Bytes)
    requires d.cap < UINT32_LIMIT && |body| <= d.cap && parse(body) == Some(j)
    ensures Decode(d, parse, Encode(d, body).value + more) == Prepend([j], Decode(d, parse, more))
  {
    var f := Encode(d, body).value;
    var s := f + more;
    assert s == Header(d, |body|) + (body + more);
    HeaderRoundTrip(d, |body|, body + more);
    assert s[4..4 + |body|] == body;
    assert s[4 + |body|..] == more;
  }

  lemma DecodeBad<J>(d: Dialect, parse: Bytes -> Option<J>, body: Bytes, more: Bytes)
    requires d.cap < UINT32_LIMIT && |body| <= d.cap
    ensures parse(body).None? ==> Decode(d, parse, Header(d, |body|) + body + more) == Corrupt(BadBody, more)
  {
    var s := Header(d, |body|) + body + more;
    assert s == Header(d, |body|) + (body + more);
    HeaderRoundTrip(d, |body|, body + more);
    assert s[4..4 + |body|] == body;
    assert s[4 + |body|..] == more;
  }

  lemma {:induction false} DecodeInvertsEncode<J>(d: Dialect, parse: Bytes -> Option<J>, bodies: seq<Bytes>,
      values: seq<J>)
    requires d.cap < UINT32_LIMIT && AllFit(d, bodies) && AllParse(parse, bodies, values)
    ensures Decode(d, parse, EncodeAll(d, bodies)) == Frames(values, [])
    decreases |bodies|
  {
    if bodies == [] {
    } else {
      DecodeInvertsEncode(d, parse, bodies[1..], values[1..]);
      DecodeOne(d, parse, bodies[0], values[0], EncodeAll(d, bodies[1..]));
      assert values == [values[0]] + values[1..];
    }
  }

  /** However the encoded frames are cut into chunks, the pushes yield exactly the values, in
      order, and leave the buffer empty. */
  lemma FramingRoundTrip<J>(d: Dialect, parse: Bytes -> Option<J>, bodies: seq<Bytes>, values: seq<J>,
      chunks: seq<Bytes>)
    requires d.cap < UINT32_LIMIT && AllFit(d, bodies) && AllParse(parse, bodies, values)
    requires Flatten(chunks) == EncodeAll(d, bodies)
    ensures Feed(d, parse, [], chunks) == Frames(values, [])
  {
    FeedIsDecode(d, parse, [], chunks);
    DecodeInvertsEncode(d, parse, bodies, values);
    assert [] + Flatten(chunks) == Flatten(chunks);
  }

  /** Both shipped dialects are instances. */
  lemma ShippedDialectsRoundTrip<J>(parse: Bytes -> Option<J>, bodies: seq<Bytes>, values: seq<J>,
      chunks: seq<Bytes>, chrome: bool)
    requires AllFit(if chrome then Chrome else Bridge, bodies) && AllParse(parse, bodies, values)
    requires Flatten(chunks) == EncodeAll(if chrome then Chrome else Bridge, bodies)
    ensures Feed(if chrome then Chrome else Bridge, parse, [], chunks) == Frames(values, [])
  {
    FramingRoundTrip(if chrome then Chrome else Bridge, parse, bodies, values, chunks);
  }

  // ---------------------------------------------------------------- the bytes on the wire

  /** An unsigned 32-bit number, most significant byte first. */
  function BigEndian(n: nat): Bytes
    requires n < 4294967296
  {
    [n / 16777216, n / 65536 % 256, n / 256 % 256, n % 256]
  }

  function LittleEndian(n: nat): Bytes
    requires n < 4294967296
  {
    [n % 256, n / 256 % 256, n / 65536 % 256, n / 16777216]
  }

  /** The bridge writes and reads a big-endian length of at most 8 MiB before the body. */
  lemma BridgeWire<J>(parse: Bytes -> Option<J>, body: Bytes, more: Bytes)
    ensures |body| <= 8388608 ==> Encode(Bridge, body) == Ok(BigEndian(|body|) + body)
    ensures |body| > 8388608 ==> Encode(Bridge, body) == Err(TooLong)
    ensures |body| <= 8388608 && parse(body).Some? ==>
      Decode(Bridge, parse, BigEndian(|body|) + body + more) ==
      Prepend([parse(body).value], Decode(Bridge, parse, more))
    ensures |body| <= 8388608 && parse(body).None? ==>
      Decode(Bridge, parse, BigEndian(|body|) + body + more) == Corrupt(BadBody, more)
  {
    if |body| <= 8388608 {
      assert Header(Bridge, |body|) == BigEndian(|body|);
      if parse(body).Some? { DecodeOne(Bridge, parse, body, parse(body).value, more); }
      DecodeBad(Bridge, parse, body, more);
    }
  }

  /** Chrome's messages have a little-endian length of at most 1 MiB. */
  lemma ChromeWire<J>(parse: Bytes -> Option<J>, body: Bytes, more: Bytes)
    ensures |body| <= 1048576 ==> Encode(Chrome, body) == Ok(LittleEndian(|body|) + body)
    ensures |body| > 1048576 ==> Encode(Chrome, body) == Err(TooLong)
    ensures |body| <= 1048576 && parse(body).Some? ==>
      Decode(Chrome, parse, LittleEndian(|body|) + body + more) ==
      Prepend([parse(body).value], Decode(Chrome, parse, more))
    ensures |body| <= 1048576 && parse(body).None? ==>
      Decode(Chrome, parse, LittleEndian(|body|) + body + more) == Corrupt(BadBody, more)
  {
    if |body| <= 1048576 {
      assert Header(Chrome, |body|) == LittleEndian(|body|);
      if parse(body).Some? { DecodeOne(Chrome, parse, body, parse(body).value, more); }
      DecodeBad(Chrome, parse, body, more);
    }
  }

  /** What a decoder does with a header alone: it throws over the cap and waits below it. */
  lemma HeaderOnWire<J>(parse: Bytes -> Option<J>, n: nat, some: Bytes)
    requires n < 4294967296
    ensures var buf := BigEndian(n) + some;
      && (n > 8388608 ==> Decode(Bridge, parse, buf) == Corrupt(TooLong, buf))
      && (|some| < n <= 8388608 ==> Decode(Bridge, parse, buf) == Frames([], buf))
    ensures var buf := LittleEndian(n) + some;
      && (n > 1048576 ==> Decode(Chrome, parse, buf) == Corrupt(TooLong, buf))
      && (|some| < n <= 1048576 ==> Decode(Chrome, parse, buf) == Frames([], buf))
  {
    assert Header(Bridge, n) == BigEndian(n) && Header(Chrome, n) == LittleEndian(n);
    HeaderRoundTrip(Bridge, n, some);
    HeaderRoundTrip(Chrome, n, some);
  }

  /** An over-long header stays at the front of the buffer, so every later push throws too and
      the buffer only grows: the decoder never recovers. */
  lemma {:induction false} OverlongHeaderIsPermanent<J>(d: Dialect, parse: Bytes -> Option<J>, buf: Bytes, more: Bytes)
    requires Decode(d, parse, buf).Corrupt? && Decode(d, parse, buf).error == TooLong
    ensures var left := Decode(d, parse, buf).left; Decode(d, parse, left + more) == Corrupt(TooLong, left + more)
    decreases |buf|
  {
    var n := ReadLength(d, buf);
    if n <= d.cap {
      OverlongHeaderIsPermanent(d, parse, buf[4 + n..], more);
    }
  }

  /** The incremental reader. */
  class Decoder<J> {
    const dialect: Dialect
    const parse: Bytes -> Option<J>
    var buffer: Bytes

    constructor (dialect: Dialect, parse: Bytes -> Option<J>)
      ensures this.dialect == dialect && this.parse == parse && buffer == []
    {
      this.dialect := dialect;
      this.parse := parse;
      buffer := [];
    }

    method Push(chunk: Bytes) returns (r: Result<seq<J>, FramingError>)
      modifies this
      ensures match Decode(dialect, parse, old(buffer) + chunk)
              case Frames(fs, rest) => r == Ok(fs) && buffer == rest
              case Corrupt(e, left) => r == Err(e) && buffer == left
    {
      buffer := if |buffer| == 0 then chunk else buffer + chunk;
      assert buffer == old(buffer) + chunk;
      ghost var whole := Decode(dialect, parse, buffer);
      var frames: seq<J> := [];
      PrependNothing(whole);
      while |buffer| >= 4
        invariant whole == Prepend(frames, Decode(dialect, parse, buffer))
        decreases |buffer|
      {
        var length := ReadLength(dialect, buffer);
        if length > dialect.cap { return Err(TooLong); }
        if |buffer| < 4 + length { break; }
        var body := buffer[4..4 + length];
        ghost var rest := Decode(dialect, parse, buffer[4 + length..]);
        buffer := buffer[4 + length..];
        match parse(body) {
          case None => return Err(BadBody);
          case Some(j) =>
            PrependAssociative(frames, [j], rest);
            frames := frames + [j];
        }
      }
      assert frames + [] == frames;
      return Ok(frames);
    }
  }
}
