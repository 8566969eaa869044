/**
 Length-prefixed framing: a 4-byte big-endian length, then the body.

 The file stream worker writes and reads message after message; `write_msg` and `read_msg` do one.
 */
module Framing {
  import opened Common

  type Body = seq<byte>

  /** `to_vec` and `from_slice` of a message type: the first may refuse a message, and it may refuse bytes. */
  datatype Codec<!M> = Codec(enc: M -> Option<Body>, dec: Body -> Option<M>)

  ghost predicate InversePair<M(!new)>(c: Codec<M>) {
    forall m :: c.enc(m).Some? ==> c.dec(c.enc(m).value) == Some(m)
  }

  // ---- The length

  /** `(len as u32).to_be_bytes()`: the cast keeps the low 32 bits. */
  function Be32(n: nat): (bs: seq<byte>)
    ensures |bs| == 4
  {
    var m := n % TWO_TO_THE_32;
    [(m / 0x100_0000) as byte, (m / 0x1_0000 % 256) as byte, (m / 0x100 % 256) as byte, (m % 256) as byte]
  }

  function FromBe32(bs: seq<byte>): (n: nat)
    requires |bs| == 4
    ensures n < TWO_TO_THE_32
  {
    ((bs[0] as nat * 256 + bs[1] as nat) * 256 + bs[2] as nat) * 256 + bs[3] as nat
  }

  lemma Be32RoundTrip(n: nat)
    ensures FromBe32(Be32(n)) == n % TWO_TO_THE_32
  {
    var m := n % TWO_TO_THE_32;
    assert m / 0x1_0000 == m / 0x100 / 0x100;
    assert m / 0x100_0000 == m / 0x1_0000 / 0x100;
  }

  /** The most significant byte comes first. */
  lemma BigEndian(n: nat)
    ensures var bs := Be32(n);
      bs[0] as nat * 0x100_0000 + bs[1] as nat * 0x1_0000 + bs[2] as nat * 0x100 + bs[3] as nat == n % TWO_TO_THE_32
  {
    Be32RoundTrip(n);
  }

  // ---- Frames

  function Frame(b: Body): seq<byte> { Be32(|b|) + b }

  /** Complete frames at the front of a stream. */
  function Bodies(stream: seq<byte>): seq<Body>
    decreases |stream|
  {
    if |stream| < 4 then [] else
    var len := FromBe32(stream[..4]);
    if |stream| < 4 + len then [] else
    [stream[4..4 + len]] + Bodies(stream[4 + len..])
  }

  /** Bodies are decoded in order until one does not decode. */
  function DecodeBodies<M>(c: Codec<M>, bs: seq<Body>): seq<M>
    decreases |bs|
  {
    if bs == [] || c.dec(bs[0]).None? then [] else [c.dec(bs[0]).value] + DecodeBodies(c, bs[1..])
  }

  function Decode<M>(c: Codec<M>, stream: seq<byte>): seq<M> { DecodeBodies(c, Bodies(stream)) }

  /** What the write task sends for one message: nothing if it cannot be serialized. */
  function Sent<M>(c: Codec<M>, m: M): seq<byte> {
    match c.enc(m)
    case Some(b) => Frame(b)
    case None => []
  }

  function Encode<M>(c: Codec<M>, ms: seq<M>): seq<byte>
    decreases |ms|
  {
    if ms == [] then [] else Sent(c, ms[0]) + Encode(c, ms[1..])
  }

  function Serializable<M>(c: Codec<M>, ms: seq<M>): seq<M>
    decreases |ms|
  {
    if ms == [] then [] else
    (if c.enc(ms[0]).Some? then [ms[0]] else []) + Serializable(c, ms[1..])
  }

  predicate Fits<M>(c: Codec<M>, ms: seq<M>) {
    forall i | 0 <= i < |ms| :: c.enc(ms[i]).Some? ==> |c.enc(ms[i]).value| < TWO_TO_THE_32
  }

  // ---- The tasks as they are written

  lemma {:induction false} SentFirst<M>(c: Codec<M>, stream: seq<byte>, ms: seq<M>)
    requires ms != []
    ensures stream + Encode(c, ms) == stream + Sent(c, ms[0]) + Encode(c, ms[1..])
  {
    var sent, rest := Sent(c, ms[0]), Encode(c, ms[1..]);
    assert stream + (sent + rest) == stream + sent + rest;
  }

  /** One message through the write task: the length, then the body. */
  method WriteOne<M>(c: Codec<M>, m: M, stream: seq<byte>) returns (longer: seq<byte>)
    ensures longer == stream + Sent(c, m)
  {
    longer := stream;
    match c.enc(m) {
      case Some(data) =>
        longer := longer + Be32(|data|);
        longer := longer + data;
      case None =>
    }
  }

  /** The write task over a list of messages. */
  method WriteTask<M>(c: Codec<M>, ms: seq<M>) returns (stream: seq<byte>)
    ensures stream == Encode(c, ms)
  {
    stream := [];
    var rest := ms;
    while rest != []
      invariant stream + Encode(c, rest) == Encode(c, ms)
      decreases |rest|
    {
      SentFirst(c, stream, rest);
      stream := WriteOne(c, rest[0], stream);
      rest := rest[1..];
    }
  }

  /** The read task over everything that ever arrives. */
  method ReadTask<M>(c: Codec<M>, stream: seq<byte>) returns (ms: seq<M>)
    ensures ms == Decode(c, stream)
  {
    ms := [];
    var rest := stream;
    while true
      invariant ms + Decode(c, rest) == Decode(c, stream)
      decreases |rest|
    {
      if |rest| < 4 { break; }
      var len := FromBe32(rest[..4]);
      if |rest| < 4 + len { break; }
      var data := rest[4..4 + len];
      assert Bodies(rest) == [data] + Bodies(rest[4 + len..]);
      match c.dec(data) {
        case Some(m) => ms := ms + [m];
        case None => break;
      }
      rest := rest[4 + len..];
    }
  }

  // ---- Round trip and truncation

  /** The first frame of a stream. */
  lemma {:induction false} FrontFrame(b: Body, rest: seq<byte>)
    requires |b| < TWO_TO_THE_32
    ensures Bodies(Frame(b) + rest) == [b] + Bodies(rest)
  {
    var s := Frame(b) + rest;
    Be32RoundTrip(|b|);
    assert s[..4] == Be32(|b|);
    assert s[4..4 + |b|] == b && s[4 + |b|..] == rest;
  }

  /** Decoding the concatenated frames of any messages returns exactly the messages that could be serialized. */
  lemma {:induction false} FramingRoundTrip<M(!new)>(c: Codec<M>, ms: seq<M>)
    requires InversePair(c) && Fits(c, ms)
    ensures Decode(c, Encode(c, ms)) == Serializable(c, ms)
    decreases |ms|
  {
    if ms != [] {
      FramingRoundTrip(c, ms[1..]);
      match c.enc(ms[0])
      case Some(b) =>
        FrontFrame(b, Encode(c, ms[1..]));
        assert c.dec(b) == Some(ms[0]);
        var bs := [b] + Bodies(Encode(c, ms[1..]));
        assert bs[1..] == Bodies(Encode(c, ms[1..]));
      case None =>
        assert Encode(c, ms) == Encode(c, ms[1..]);
    }
  }

  /** A stream cut short yields a prefix of the bodies: no frame is invented and none is reordered. */
  lemma {:induction false} TruncatedBodies(stream: seq<byte>, n: nat)
    requires n <= |stream|
    ensures Bodies(stream[..n]) <= Bodies(stream)
    decreases |stream|
  {
    var s := stream[..n];
    if n >= 4 {
      assert s[..4] == stream[..4];
      var len := FromBe32(s[..4]);
      if n >= 4 + len {
        TruncatedBodies(stream[4 + len..], n - (4 + len));
        assert stream[4 + len..][..n - (4 + len)] == s[4 + len..];
        assert s[4..4 + len] == stream[4..4 + len];
      }
    }
  }

  lemma {:induction false} DecodePrefix<M>(c: Codec<M>, bs: seq<Body>, more: seq<Body>)
    requires bs <= more
    ensures DecodeBodies(c, bs) <= DecodeBodies(c, more)
    decreases |bs|
  {
    if bs != [] && c.dec(bs[0]).Some? {
      DecodePrefix(c, bs[1..], more[1..]);
    }
  }

  /** Any truncation of a written stream decodes to a prefix of the messages. */
  lemma {:induction false} TruncationSafe<M(!new)>(c: Codec<M>, ms: seq<M>, n: nat)
    requires InversePair(c) && Fits(c, ms) && n <= |Encode(c, ms)|
    ensures Decode(c, Encode(c, ms)[..n]) <= Serializable(c, ms)
  {
    FramingRoundTrip(c, ms);
    TruncatedBodies(Encode(c, ms), n);
    DecodePrefix(c, Bodies(Encode(c, ms)[..n]), Bodies(Encode(c, ms)));
  }

  lemma {:induction false} DecodeFront<M>(c: Codec<M>, m: M, b: Body, rest: seq<byte>)
    requires c.enc(m) == Some(b) && c.dec(b) == Some(m) && |b| < TWO_TO_THE_32
    ensures Decode(c, Frame(b) + rest) == [m] + Decode(c, rest)
  {
    FrontFrame(b, rest);
    var bs := [b] + Bodies(rest);
    assert bs[1..] == Bodies(rest);
  }

  /** A body that does not decode ends the reading: what stands before it is delivered, and nothing behind it. */
  lemma {:induction false} StopsAtGarbage<M(!new)>(c: Codec<M>, ms: seq<M>, garbage: Body, rest: seq<byte>)
    requires InversePair(c) && Fits(c, ms) && c.dec(garbage).None? && |garbage| < TWO_TO_THE_32
    ensures Decode(c, Encode(c, ms) + (Frame(garbage) + rest)) == Serializable(c, ms)
    decreases |ms|
  {
    var tail := Frame(garbage) + rest;
    if ms == [] {
      FrontFrame(garbage, rest);
      assert [] + tail == tail;
    } else {
      StopsAtGarbage(c, ms[1..], garbage, rest);
      var later := Encode(c, ms[1..]);
      assert Sent(c, ms[0]) + later + tail == Sent(c, ms[0]) + (later + tail);
      match c.enc(ms[0])
      case Some(b) => DecodeFront(c, ms[0], b, later + tail);
      case None => assert Encode(c, ms) + tail == later + tail;
    }
  }

  /** What stands on the wire: four bytes that give the length, the most significant first, then the body. */
  lemma {:induction false} FrameLayout(b: Body)
    ensures var f := Frame(b);
      && |f| == 4 + |b| && f[4..] == b
      && f[0] as nat * 0x100_0000 + f[1] as nat * 0x1_0000 + f[2] as nat * 0x100 + f[3] as nat == |b| % TWO_TO_THE_32
  {
    BigEndian(|b|);
  }

  /** The 32-bit length is exactly what limits a body: a longer one never comes back. */
  lemma FrameRoundTripIff(b: Body)
    ensures Bodies(Frame(b)) == [b] <==> |b| < TWO_TO_THE_32
  {
    if |b| < TWO_TO_THE_32 {
      FrontFrame(b, []);
      assert Frame(b) + [] == Frame(b);
    } else {
      var s := Frame(b);
      Be32RoundTrip(|b|);
      assert s[..4] == Be32(|b|);
      assert Bodies(s) != [] ==> |Bodies(s)[0]| == |b| % TWO_TO_THE_32;
    }
  }
}
