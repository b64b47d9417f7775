/** Length-prefixed framing: what a byte stream means, independently of how it is chunked. */
module Wire {
  import opened Bytes

  /** The three framings of the system: log stream, bitcoin protocol, control channel. */
  datatype Format = LogFormat | BitcoinFormat | CtrlFormat

  function HeaderSize(f: Format): (n: nat)
    ensures 4 <= n <= 24
  {
    match f
    case LogFormat => 4
    case BitcoinFormat => 24
    case CtrlFormat => 6
  }

  /** The payload length announced by a header. */
  function PayloadSize(f: Format, b: Bytes): U32
    requires |b| >= HeaderSize(f)
  {
    match f
    case LogFormat => FromBE(b[0..4])
    case BitcoinFormat => FromLE(b[16..20])
    case CtrlFormat => FromBE(b[1..5])
  }

  function MessageSize(f: Format, b: Bytes): nat
    requires |b| >= HeaderSize(f)
  {
    HeaderSize(f) + PayloadSize(f, b)
  }

  /** The stream starts with a whole message. */
  predicate Complete(f: Format, s: Bytes) {
    |s| >= HeaderSize(f) && |s| >= MessageSize(f, s)
  }

  /** Exactly one message, header included. */
  predicate IsMessage(f: Format, m: Bytes) {
    |m| >= HeaderSize(f) && |m| == MessageSize(f, m)
  }

  predicate AllMessages(f: Format, ms: seq<Bytes>) {
    forall i :: 0 <= i < |ms| ==> IsMessage(f, ms[i])
  }

  /** The reference parse: the whole messages at the front of the stream, in order. */
  function Messages(f: Format, s: Bytes): seq<Bytes>
    decreases |s|
  {
    if Complete(f, s) then
      var n := MessageSize(f, s);
      [s[..n]] + Messages(f, s[n..])
    else []
  }

  /** What the parse leaves over: an incomplete message. */
  function Remainder(f: Format, s: Bytes): Bytes
    decreases |s|
  {
    if Complete(f, s) then Remainder(f, s[MessageSize(f, s)..]) else s
  }

  /** Where a header has the length of the payload, and in which byte order. */
  lemma LengthField(f: Format, h: Bytes)
    requires |h| >= HeaderSize(f)
    ensures PayloadSize(f, h) == match f
                                 case LogFormat => Number(h[0..4])
                                 case CtrlFormat => Number(h[1..5])
                                 case BitcoinFormat =>
                                   h[16] as int + 256 * h[17] as int + 65536 * h[18] as int + 0x100_0000 * h[19] as int
  {
    match f
    case LogFormat => ByteOrders(h[0..4]); assert h[0..4][..4] == h[0..4];
    case CtrlFormat => ByteOrders(h[1..5]); assert h[1..5][..4] == h[1..5];
    case BitcoinFormat => ByteOrders(h[16..20]); NumberOfFour(Reversed(h[16..20][..4]));
  }

  lemma HeaderDecides(f: Format, s: Bytes, t: Bytes)
    requires |s| >= HeaderSize(f)
    ensures PayloadSize(f, s + t) == PayloadSize(f, s)
    ensures PayloadSize(f, s[..HeaderSize(f)]) == PayloadSize(f, s)
  {
    var h := HeaderSize(f);
    assert (s + t)[0..4] == s[0..4] && (s[..h])[0..4] == s[0..4];
    if f == BitcoinFormat {
      assert (s + t)[16..20] == s[16..20] && (s[..h])[16..20] == s[16..20];
    } else if f == CtrlFormat {
      assert (s + t)[1..5] == s[1..5] && (s[..h])[1..5] == s[1..5];
    }
  }

  /** The parse loses nothing and its remainder holds no whole message. */
  lemma {:induction false} ParseIsExact(f: Format, s: Bytes)
    ensures Flatten(Messages(f, s)) + Remainder(f, s) == s
    ensures AllMessages(f, Messages(f, s))
    ensures !Complete(f, Remainder(f, s))
    decreases |s|
  {
    if Complete(f, s) {
      var n := MessageSize(f, s);
      ParseIsExact(f, s[n..]);
      HeaderDecides(f, s[..n], s[n..]);
      assert s[..n] + s[n..] == s;
      assert Flatten(Messages(f, s)) == s[..n] + Flatten(Messages(f, s[n..]));
      assert s[..n] + (Flatten(Messages(f, s[n..])) + Remainder(f, s[n..])) == s;
    }
  }

  lemma ParseStep(f: Format, m: Bytes, rest: Bytes)
    requires IsMessage(f, m)
    ensures Messages(f, m + rest) == [m] + Messages(f, rest)
    ensures Remainder(f, m + rest) == Remainder(f, rest)
  {
    HeaderDecides(f, m, rest);
    assert (m + rest)[..|m|] == m && (m + rest)[|m|..] == rest;
  }

  /** The parse is the only one: any split into messages followed by `t` parses to those messages first. */
  lemma {:induction false} ParseIsUnique(f: Format, ms: seq<Bytes>, t: Bytes)
    requires AllMessages(f, ms)
    ensures Messages(f, Flatten(ms) + t) == ms + Messages(f, t)
    ensures Remainder(f, Flatten(ms) + t) == Remainder(f, t)
  {
    if ms == [] {
      assert Flatten(ms) + t == t;
    } else {
      var m, tail := ms[0], ms[1..];
      ParseIsUnique(f, tail, t);
      ParseStep(f, m, Flatten(tail) + t);
      Associate(m, Flatten(tail), t);
      Associate([m], tail, Messages(f, t));
      assert ms == [m] + tail;
    }
  }

  /** A stream that grows only ever completes more messages. */
  lemma ParseIsMonotone(f: Format, s: Bytes, t: Bytes)
    requires s <= t
    ensures Messages(f, s) <= Messages(f, t)
  {
    ParseIsExact(f, s);
    var ms, r := Messages(f, s), Remainder(f, s);
    ParseIsUnique(f, ms, r + t[|s|..]);
    Associate(Flatten(ms), r, t[|s|..]);
    assert s + t[|s|..] == t;
  }

  // ---------------------------------------------------------------- bitcoin messages

  /** A message of the bitcoin protocol: magic, command, length (least significant byte first), checksum, payload. */
  function BitcoinMessage(magic: Bytes, command: Bytes, checksum: Bytes, payload: Bytes): (m: Bytes)
    requires |magic| == |checksum| == 4 && |command| == 12 && |payload| < U32_RANGE
    ensures |m| == 24 + |payload|
  {
    magic + command + ToLE(|payload|) + checksum + payload
  }

  /** Round trip: a message built this way is one message, and the parse of any stream finds it. */
  lemma BitcoinRoundTrip(magic: Bytes, command: Bytes, checksum: Bytes, payload: Bytes, rest: Bytes)
    requires |magic| == |checksum| == 4 && |command| == 12 && |payload| < U32_RANGE
    ensures var m := BitcoinMessage(magic, command, checksum, payload);
            && IsMessage(BitcoinFormat, m) && PayloadSize(BitcoinFormat, m) == |payload|
            && m[4..16] == command && m[24..] == payload
            && Messages(BitcoinFormat, m + rest) == [m] + Messages(BitcoinFormat, rest)
  {
    var m := BitcoinMessage(magic, command, checksum, payload);
    assert m[16..20] == ToLE(|payload|);
    LittleEndianRoundTrip(|payload|);
    ParseStep(BitcoinFormat, m, rest);
  }

  // ---------------------------------------------------------------- log frames

  /** A log frame: the (narrowed) length, then the body. */
  function Encode(body: Bytes): (m: Bytes)
    ensures |m| == 4 + |body|
  {
    ToBE(Narrow(|body|)) + body
  }

  function Encoded(bodies: seq<Bytes>): (ms: seq<Bytes>)
    ensures |ms| == |bodies| && forall i :: 0 <= i < |ms| ==> ms[i] == Encode(bodies[i])
  {
    seq(|bodies|, i requires 0 <= i < |bodies| => Encode(bodies[i]))
  }

  function EncodeAll(bodies: seq<Bytes>): Bytes {
    Flatten(Encoded(bodies))
  }

  function Body(m: Bytes): Bytes
    requires |m| >= 4
  {
    m[4..]
  }

  function Bodies(ms: seq<Bytes>): (bs: seq<Bytes>)
    requires AllMessages(LogFormat, ms)
    ensures |bs| == |ms| && forall i :: 0 <= i < |ms| ==> bs[i] == Body(ms[i])
  {
    seq(|ms|, i requires 0 <= i < |ms| => Body(ms[i]))
  }

  /** The whole frames of a log stream, as bodies. */
  function Frames(s: Bytes): seq<Bytes> {
    ParseIsExact(LogFormat, s);
    Bodies(Messages(LogFormat, s))
  }

  /** Every body is short enough for its length to fit the 32-bit prefix. */
  predicate Fits(bodies: seq<Bytes>) {
    forall i :: 0 <= i < |bodies| ==> |bodies[i]| < U32_RANGE
  }

  predicate NoneEmpty(bodies: seq<Bytes>) {
    forall i :: 0 <= i < |bodies| ==> bodies[i] != []
  }

  /** A length prefix is right exactly when the body fits. */
  lemma PrefixIsRight(body: Bytes)
    ensures IsMessage(LogFormat, Encode(body)) <==> |body| < U32_RANGE
  {
    BigEndianRoundTrip(Narrow(|body|), body);
    assert Encode(body)[0..4] == ToBE(Narrow(|body|));
  }

  lemma MessageIsEncodedBody(m: Bytes)
    requires IsMessage(LogFormat, m)
    ensures Encode(Body(m)) == m && |Body(m)| < U32_RANGE
  {
    BigEndianInjective(m[0..4]);
    var n := FromBE(m[0..4]);
    assert |Body(m)| == n && Narrow(n) == n;
    assert m == m[0..4] + m[4..];
  }

  lemma EncodeAllAppend(a: seq<Bytes>, b: seq<Bytes>)
    ensures EncodeAll(a + b) == EncodeAll(a) + EncodeAll(b)
  {
    assert Encoded(a + b) == Encoded(a) + Encoded(b);
    FlattenAppend(Encoded(a), Encoded(b));
  }

  lemma EncodeAllSnoc(a: seq<Bytes>, b: Bytes)
    ensures EncodeAll(a + [b]) == EncodeAll(a) + Encode(b)
  {
    assert Encoded(a + [b]) == Encoded(a) + [Encode(b)];
    FlattenSnoc(Encoded(a), Encode(b));
  }

  lemma EncodeAllCons(b: Bytes, bs: seq<Bytes>)
    ensures EncodeAll([b] + bs) == Encode(b) + EncodeAll(bs)
  {
    assert Encoded([b] + bs) == [Encode(b)] + Encoded(bs);
    assert ([Encode(b)] + Encoded(bs))[1..] == Encoded(bs);
  }

  /** Encoding the parsed bodies gives the messages back. */
  lemma EncodeBodies(ms: seq<Bytes>)
    requires AllMessages(LogFormat, ms)
    ensures Encoded(Bodies(ms)) == ms
    ensures Fits(Bodies(ms))
  {
    forall i | 0 <= i < |ms|
      ensures Encode(Bodies(ms)[i]) == ms[i] && |Bodies(ms)[i]| < U32_RANGE
    {
      MessageIsEncodedBody(ms[i]);
    }
  }

  lemma EncodedAreMessages(bodies: seq<Bytes>)
    requires Fits(bodies)
    ensures AllMessages(LogFormat, Encoded(bodies))
    ensures Bodies(Encoded(bodies)) == bodies
  {
    forall i | 0 <= i < |bodies|
      ensures IsMessage(LogFormat, Encoded(bodies)[i]) && Body(Encoded(bodies)[i]) == bodies[i]
    {
      PrefixIsRight(bodies[i]);
    }
  }

  lemma BodiesAppend(a: seq<Bytes>, b: seq<Bytes>)
    requires AllMessages(LogFormat, a) && AllMessages(LogFormat, b)
    ensures AllMessages(LogFormat, a + b)
    ensures Bodies(a + b) == Bodies(a) + Bodies(b)
  {
  }

  /** Round trip: encoded frames followed by anything parse back to the bodies first. */
  lemma DecodeEncode(bodies: seq<Bytes>, t: Bytes)
    requires Fits(bodies)
    ensures Frames(EncodeAll(bodies) + t) == bodies + Frames(t)
  {
    EncodedAreMessages(bodies);
    ParseIsUnique(LogFormat, Encoded(bodies), t);
    ParseIsExact(LogFormat, t);
    BodiesAppend(Encoded(bodies), Messages(LogFormat, t));
  }

  lemma FramesCons(body: Bytes, t: Bytes)
    requires |body| < U32_RANGE
    ensures Frames(Encode(body) + t) == [body] + Frames(t)
  {
    EncodeAllCons(body, []);
    assert [body] + [] == [body];
    assert EncodeAll([body]) == Encode(body);
    DecodeEncode([body], t);
  }

  /** Inverse direction: re-encoding the frames of a stream gives the stream minus its incomplete tail. */
  lemma EncodeDecode(s: Bytes)
    ensures EncodeAll(Frames(s)) + Remainder(LogFormat, s) == s
    ensures Fits(Frames(s))
    ensures !Complete(LogFormat, Remainder(LogFormat, s))
  {
    ParseIsExact(LogFormat, s);
    EncodeBodies(Messages(LogFormat, s));
  }

  /** The frames of a prefix of a frame stream are a prefix of its frames. */
  lemma PrefixFrames(s: Bytes, bodies: seq<Bytes>)
    requires Fits(bodies)
    requires s <= EncodeAll(bodies)
    ensures Frames(s) <= bodies
    ensures EncodeAll(Frames(s)) <= s
  {
    DecodeEncode(bodies, []);
    var t := EncodeAll(bodies);
    assert t + [] == t;
    assert Frames([]) == [];
    assert Frames(t) == bodies;
    ParseIsMonotone(LogFormat, s, t);
    ParseIsExact(LogFormat, s);
    ParseIsExact(LogFormat, t);
    var a, b := Messages(LogFormat, s), Messages(LogFormat, t);
    forall i | 0 <= i < |a|
      ensures Bodies(a)[i] == Bodies(b)[i]
    {
      assert a[i] == b[i];
    }
    EncodeDecode(s);
  }
}
