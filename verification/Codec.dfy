/**
 The length / tag / payload / Adler-32 framing of ProtobufCodecLite, over opaque payloads.

 A frame is a 4-byte length, then a body of that many bytes: the tag, the payload and a
 4-byte checksum of tag and payload. `Decode` is what one call of onMessage does to the
 bytes of a buffer; everything else is about sequences of such calls.
 */
module FrameCodec {
  import opened Bytes
  import opened NetBuffer

  const HEADER_LEN := 4
  const CHECKSUM_LEN := 4
  const MAX_MESSAGE_LEN := 64 * 1024 * 1024
  const ADLER_BASE := 65521

  datatype ErrorCode = InvalidLength | ChecksumError | UnknownMessageType | ParseError

  /**
   A codec: its tag, the payload parser, and the optional raw callback, which sees a whole
   frame and says whether it is to be parsed at all.
   */
  datatype Codec<!M> = Codec(tag: seq<byte>, parse: seq<byte> -> Option<M>, raw: Option<seq<byte> -> bool>)
  {
    function MinMessageLen(): nat {
      |tag| + CHECKSUM_LEN
    }

    predicate Admits(frame: seq<byte>) {
      raw.Some? ==> raw.value(frame)
    }
  }

  datatype Parsed<+M> = Good(message: M) | Bad(code: ErrorCode)

  /** What onMessage leaves behind: messages delivered, the error reported if any, bytes not consumed. */
  datatype Outcome<M> = Outcome(messages: seq<M>, error: Option<ErrorCode>, rest: seq<byte>)
  {
    function Behind(before: seq<M>): Outcome<M> {
      Outcome(before + messages, error, rest)
    }

    lemma BehindBehind(a: seq<M>, b: seq<M>)
      ensures Behind(b).Behind(a) == Behind(a + b)
      ensures Behind([]) == this
    {
      assert a + (b + messages) == a + b + messages;
      assert [] + messages == messages;
    }
  }

  // ---------- Adler-32, section 2.2 of RFC 1950 ----------

  datatype Sums = Sums(a: nat, b: nat)

  function Adler(s: seq<byte>): (r: Sums)
    ensures r.a < ADLER_BASE && r.b < ADLER_BASE
  {
    if s == [] then Sums(1, 0)
    else
      var p := Adler(s[..|s| - 1]);
      var a := (p.a + s[|s| - 1]) % ADLER_BASE;
      Sums(a, (p.b + a) % ADLER_BASE)
  }

  /** ProtobufCodecLite::checksum: the 32-bit sum seen as a signed integer. */
  function Checksum(s: seq<byte>): (c: int)
    ensures Fits(c, 4)
  {
    ToSigned(Adler(s).b * 65536 + Adler(s).a, 4)
  }

  predicate ValidateChecksum(body: seq<byte>) {
    && |body| >= CHECKSUM_LEN
    && Checksum(body[..|body| - CHECKSUM_LEN]) == DecodeInt(body[|body| - CHECKSUM_LEN..])
  }

  function Parse<M>(c: Codec<M>, body: seq<byte>): Parsed<M> {
    if !ValidateChecksum(body) then Bad(ChecksumError)
    else if |body| < |c.tag| + CHECKSUM_LEN || body[..|c.tag|] != c.tag then Bad(UnknownMessageType)
    else
      match c.parse(body[|c.tag|..|body| - CHECKSUM_LEN])
      case Some(m) => Good(m)
      case None => Bad(ParseError)
  }

  // ---------- one call of onMessage ----------

  /** What onMessage finds at the front of the buffer: too little, a fault, or a whole frame of `n` bytes. */
  datatype Front<+M> = Wait | Fault(code: ErrorCode) | Skip(n: nat) | Take(n: nat, message: M)

  function FrontOf<M>(c: Codec<M>, s: seq<byte>): (f: Front<M>)
    ensures f.Skip? || f.Take? ==> 0 < f.n <= |s|
  {
    if |s| < c.MinMessageLen() + HEADER_LEN then Wait
    else
      var len := DecodeInt(s[..HEADER_LEN]);
      if len > MAX_MESSAGE_LEN || len < c.MinMessageLen() then Fault(InvalidLength)
      else if |s| < HEADER_LEN + len then Wait
      else FrameFront(c, s[..HEADER_LEN + len])
  }

  function FrameFront<M>(c: Codec<M>, frame: seq<byte>): (f: Front<M>)
    requires |frame| >= HEADER_LEN
    ensures f.Skip? || f.Take? ==> f.n == |frame|
  {
    if !c.Admits(frame) then Skip(|frame|)
    else
      match Parse(c, frame[HEADER_LEN..])
      case Good(m) => Take(|frame|, m)
      case Bad(code) => Fault(code)
  }

  function Decode<M>(c: Codec<M>, s: seq<byte>): Outcome<M>
    decreases |s|
  {
    match FrontOf(c, s)
    case Wait => Outcome([], None, s)
    case Fault(code) => Outcome([], Some(code), s)
    case Skip(n) => Decode(c, s[n..])
    case Take(n, m) => Decode(c, s[n..]).Behind([m])
  }

  /** The body of onMessage's loop up to the buffer's retrieval. */
  method Examine<M>(c: Codec<M>, buf: Buffer, little: bool) returns (f: Front<M>)
    requires buf.Valid() && buf.ReadableBytes() >= c.MinMessageLen() + HEADER_LEN
    ensures f == FrontOf(c, buf.Contents())
  {
    var len := buf.PeekInt(little, HEADER_LEN);
    if len > MAX_MESSAGE_LEN || len < c.MinMessageLen() {
      return Fault(InvalidLength);
    }
    if buf.ReadableBytes() < HEADER_LEN + len {
      return Wait;
    }
    var readable := buf.ReadableSpan();
    var frame := readable[..HEADER_LEN + len];
    if !c.Admits(frame) {
      return Skip(|frame|);
    }
    match Parse(c, frame[HEADER_LEN..]) {
      case Good(m) => return Take(|frame|, m);
      case Bad(code) => return Fault(code);
    }
  }

  method OnMessage<M>(c: Codec<M>, buf: Buffer, little: bool) returns (messages: seq<M>, error: Option<ErrorCode>)
    requires buf.Valid()
    modifies buf
    ensures buf.Valid() && buf.data == old(buf.data)
    ensures Outcome(messages, error, buf.Contents()) == Decode(c, old(buf.Contents()))
  {
    messages, error := [], None;
    ghost var start := Decode(c, buf.Contents());
    start.BehindBehind([], []);
    while buf.ReadableBytes() >= c.MinMessageLen() + HEADER_LEN
      invariant buf.Valid() && buf.data == old(buf.data) && error == None
      invariant start == Decode(c, buf.Contents()).Behind(messages)
      decreases buf.ReadableBytes()
    {
      var f := Examine(c, buf, little);
      match f {
        case Wait => break;
        case Fault(code) =>
          error := Some(code);
          break;
        case Skip(n) =>
          buf.Retrieve(n);
        case Take(n, m) =>
          buf.Retrieve(n);
          Decode(c, buf.Contents()).BehindBehind(messages, [m]);
          messages := messages + [m];
      }
    }
  }

  // ---------- chunking ----------

  /** onMessage called after each arriving chunk; the error is the one the last call reported. */
  function Feed<M>(c: Codec<M>, pending: seq<byte>, chunks: seq<seq<byte>>): Outcome<M>
    requires chunks != []
    decreases |chunks|
  {
    var d := Decode(c, pending + chunks[0]);
    if |chunks| == 1 then d
    else
      Feed(c, d.rest, chunks[1..]).Behind(d.messages)
  }

  lemma FrontStable<M>(c: Codec<M>, s: seq<byte>, t: seq<byte>)
    requires !FrontOf(c, s).Wait?
    ensures FrontOf(c, s + t) == FrontOf(c, s)
  {
    assert (s + t)[..HEADER_LEN] == s[..HEADER_LEN];
    var len := DecodeInt(s[..HEADER_LEN]);
    if c.MinMessageLen() <= len <= MAX_MESSAGE_LEN {
      assert (s + t)[..HEADER_LEN + len] == s[..HEADER_LEN + len];
    }
  }

  /** Bytes arriving after a call change nothing that call did, and decoding resumes from what it left. */
  lemma {:induction false} DecodeResumes<M>(c: Codec<M>, s: seq<byte>, t: seq<byte>)
    ensures var d := Decode(c, s);
            Decode(c, s + t) == Decode(c, d.rest + t).Behind(d.messages)
    decreases |s|
  {
    var f := FrontOf(c, s);
    if f.Wait? {
      Decode(c, s + t).BehindBehind([], []);
    } else {
      FrontStable(c, s, t);
      if f.Fault? {
        Decode(c, s + t).BehindBehind([], []);
      } else {
        assert (s + t)[f.n..] == s[f.n..] + t;
        DecodeResumes(c, s[f.n..], t);
        var d := Decode(c, s[f.n..]);
        if f.Take? {
          Decode(c, d.rest + t).BehindBehind([f.message], d.messages);
        }
      }
    }
  }

  /** However the bytes are cut, the messages, the final error and the unconsumed bytes are the same. */
  lemma {:induction false} ChunkIndependent<M>(c: Codec<M>, pending: seq<byte>, chunks: seq<seq<byte>>)
    requires chunks != []
    ensures Feed(c, pending, chunks) == Decode(c, pending + Concat(chunks))
    decreases |chunks|
  {
    var first := pending + chunks[0];
    if |chunks| == 1 {
      assert Concat(chunks) == chunks[0] + Concat(chunks[1..]) == chunks[0];
    } else {
      assert pending + Concat(chunks) == first + Concat(chunks[1..]);
      DecodeResumes(c, first, Concat(chunks[1..]));
      ChunkIndependent(c, Decode(c, first).rest, chunks[1..]);
    }
  }

  /** Chunks arriving in one buffer, with onMessage called after each. */
  method Receive<M>(c: Codec<M>, buf: Buffer, chunks: seq<seq<byte>>, little: bool)
    returns (messages: seq<M>, error: Option<ErrorCode>)
    requires buf.Valid() && chunks != []
    modifies buf, buf.data
    ensures buf.Valid()
    ensures Outcome(messages, error, buf.Contents()) == Decode(c, old(buf.Contents()) + Concat(chunks))
  {
    ghost var whole := Feed(c, buf.Contents(), chunks);
    ChunkIndependent(c, buf.Contents(), chunks);
    messages, error := [], None;
    var i := 0;
    while i < |chunks|
      invariant 0 <= i <= |chunks| && buf.Valid() && (buf.data == old(buf.data) || fresh(buf.data))
      invariant i < |chunks| ==> whole == Feed(c, buf.Contents(), chunks[i..]).Behind(messages)
      invariant i == |chunks| ==> whole == Outcome(messages, error, buf.Contents())
    {
      ghost var d := Decode(c, buf.Contents() + chunks[i]);
      if i + 1 < |chunks| {
        assert chunks[i..][1..] == chunks[i + 1..];
        Feed(c, d.rest, chunks[i + 1..]).BehindBehind(messages, d.messages);
      }
      buf.Append(chunks[i]);
      var more;
      more, error := OnMessage(c, buf, little);
      messages := messages + more;
      i := i + 1;
    }
  }

  // ---------- encoding ----------

  function Body(tag: seq<byte>, payload: seq<byte>): (b: seq<byte>)
    ensures |b| == |tag| + |payload| + CHECKSUM_LEN
  {
    tag + payload + EncodeInt(Checksum(tag + payload), 4)
  }

  function Frame(body: seq<byte>): (f: seq<byte>)
    ensures |f| == HEADER_LEN + |body|
  {
    EncodeInt(WrapInt32(|body|), 4) + body
  }

  function Encode(tag: seq<byte>, payload: seq<byte>): seq<byte> {
    Frame(Body(tag, payload))
  }

  method FillEmptyBuffer(tag: seq<byte>, payload: seq<byte>, buf: Buffer, little: bool)
    requires buf.Valid() && buf.ReadableBytes() == 0 && buf.PrependableBytes() >= HEADER_LEN
    modifies buf, buf.data
    ensures buf.Valid() && (buf.data == old(buf.data) || fresh(buf.data))
    ensures buf.Contents() == Encode(tag, payload)
  {
    buf.Append(tag);
    buf.EnsureWritableBytes(|payload| + CHECKSUM_LEN);
    buf.Append(payload);
    var summed := buf.ReadableSpan();
    assert summed == tag + payload;
    buf.AppendInt(little, Checksum(summed), 4);
    assert buf.Contents() == Body(tag, payload);
    buf.PrependInt(little, WrapInt32(buf.ReadableBytes()), 4);
  }

  lemma FourBytes(v: nat)
    requires v < 0x1_0000_0000
    ensures BigEndian(v, 4) == [v / 16777216, v / 65536 % 256, v / 256 % 256, v % 256]
  {
    var a, b, c := v / 256, v / 65536, v / 16777216;
    assert a / 256 == b && b / 256 == c && c < 256;
    assert BigEndian(v, 4) == BigEndian(a, 3) + [v % 256];
    assert BigEndian(a, 3) == BigEndian(b, 2) + [a % 256];
    assert BigEndian(b, 2) == BigEndian(c, 1) + [b % 256];
    assert BigEndian(c, 1) == BigEndian(0, 0) + [c] == [c];
  }

  lemma HeaderBytes(n: nat)
    requires n < 0x8000_0000
    ensures Fits(n, 4) && EncodeInt(n, 4) == [n / 16777216, n / 65536 % 256, n / 256 % 256, n % 256]
  {
    assert Pow256(4) == 0x1_0000_0000;
    FourBytes(n);
  }

  /** A frame, byte for byte: the length of all that follows, the tag, the payload, the checksum of these two. */
  lemma FrameLayout(tag: seq<byte>, payload: seq<byte>)
    requires |tag| + |payload| + 4 < 0x8000_0000
    ensures var n := |tag| + |payload| + 4;
            var sum := ToUnsigned(Checksum(tag + payload), 4);
            Encode(tag, payload) ==
            [n / 16777216, n / 65536 % 256, n / 256 % 256, n % 256] + tag + payload
            + [sum / 16777216, sum / 65536 % 256, sum / 256 % 256, sum % 256]
  {
    var n := |tag| + |payload| + 4;
    var sum := ToUnsigned(Checksum(tag + payload), 4);
    WrapInt32Is(n);
    HeaderBytes(n);
    assert sum < 0x1_0000_0000 by {
      assert Pow256(4) == 0x1_0000_0000;
    }
    FourBytes(sum);
    Assoc(EncodeInt(n, 4), tag + payload, EncodeInt(Checksum(tag + payload), 4));
    Assoc(EncodeInt(n, 4), tag, payload);
  }

  /** What onMessage does with the front of the buffer, by its length and the length it announces. */
  lemma FrontVerdict<M>(c: Codec<M>, s: seq<byte>)
    ensures |s| < |c.tag| + 8 ==> FrontOf(c, s) == Wait
    ensures |s| >= |c.tag| + 8 ==>
              var len := DecodeInt(s[..4]);
              if len > 67108864 || len < |c.tag| + 4 then FrontOf(c, s) == Fault(InvalidLength)
              else if |s| < 4 + len then FrontOf(c, s) == Wait
              else if c.raw.Some? && !c.raw.value(s[..4 + len]) then FrontOf(c, s) == Skip(4 + len)
              else
                match Parse(c, s[4..4 + len])
                case Good(m) => FrontOf(c, s) == Take(4 + len, m)
                case Bad(code) => FrontOf(c, s) == Fault(code)
  {
    if |s| >= |c.tag| + 8 {
      var len := DecodeInt(s[..4]);
      if 0 <= len && 4 + len <= |s| {
        assert s[..4 + len][4..] == s[4..4 + len];
      }
    }
  }

  /** The header of a frame with a body of legal length gives that length. */
  lemma HeaderRead(body: seq<byte>)
    requires |body| <= MAX_MESSAGE_LEN
    ensures DecodeInt(Frame(body)[..HEADER_LEN]) == |body|
    ensures Frame(body)[HEADER_LEN..] == body
  {
    LegalLength(|body|);
    IntRoundTrip(|body|, 4);
    assert Frame(body)[..HEADER_LEN] == EncodeInt(|body|, 4);
  }

  lemma LegalLength(n: nat)
    requires n <= MAX_MESSAGE_LEN
    ensures WrapInt32(n) == n && Fits(n, 4)
  {
  }

  /** A legal length decides whether there is a whole frame. */
  lemma FrontByLength<M>(c: Codec<M>, s: seq<byte>, len: nat)
    requires c.MinMessageLen() <= len <= MAX_MESSAGE_LEN
    requires |s| >= HEADER_LEN ==> DecodeInt(s[..HEADER_LEN]) == len
    ensures FrontOf(c, s) == if |s| < HEADER_LEN + len then Wait else FrameFront(c, s[..HEADER_LEN + len])
  {
  }

  /** One whole frame with a body of legal length, whatever follows it, is seen as that frame. */
  lemma FrontOfFrame<M>(c: Codec<M>, body: seq<byte>, t: seq<byte>)
    requires c.MinMessageLen() <= |body| <= MAX_MESSAGE_LEN
    ensures FrontOf(c, Frame(body) + t) == FrameFront(c, Frame(body))
    ensures Frame(body)[HEADER_LEN..] == body
  {
    var frame := Frame(body);
    HeaderRead(body);
    assert (frame + t)[..HEADER_LEN] == frame[..HEADER_LEN];
    assert (frame + t)[..|frame|] == frame;
    FrontByLength(c, frame + t, |body|);
  }

  lemma ParseInvertsBody<M>(c: Codec<M>, payload: seq<byte>)
    ensures Parse(c, Body(c.tag, payload)) ==
            match c.parse(payload) case Some(m) => Good(m) case None => Bad(ParseError)
  {
    var body := Body(c.tag, payload);
    var n := |body| - CHECKSUM_LEN;
    assert body[..n] == c.tag + payload && body[n..] == EncodeInt(Checksum(c.tag + payload), 4);
    IntRoundTrip(Checksum(c.tag + payload), 4);
    assert body[..|c.tag|] == c.tag && body[|c.tag|..n] == payload;
  }

  /** Only bodies made by the encoder parse. */
  lemma ParsedWasBody<M>(c: Codec<M>, body: seq<byte>) returns (payload: seq<byte>)
    requires Parse(c, body).Good?
    ensures body == Body(c.tag, payload) && c.parse(payload) == Some(Parse(c, body).message)
  {
    var n := |body| - CHECKSUM_LEN;
    payload := body[|c.tag|..n];
    assert body[..n] == c.tag + payload;
    IntRoundTrip(Checksum(body[..n]), 4);
    IntInjective(EncodeInt(Checksum(body[..n]), 4), body[n..]);
    assert body == body[..n] + body[n..];
  }

  predicate Sendable<M>(c: Codec<M>, payload: seq<byte>) {
    |Body(c.tag, payload)| <= MAX_MESSAGE_LEN && c.parse(payload).Some?
  }

  function Encodings<M>(c: Codec<M>, payloads: seq<seq<byte>>): seq<byte> {
    if payloads == [] then [] else Encode(c.tag, payloads[0]) + Encodings(c, payloads[1..])
  }

  /** The message of a payload, if the raw callback admits its frame. */
  function Delivered<M>(c: Codec<M>, p: seq<byte>): seq<M>
    requires Sendable(c, p)
  {
    if c.Admits(Encode(c.tag, p)) then [c.parse(p).value] else []
  }

  function Messages<M>(c: Codec<M>, payloads: seq<seq<byte>>): seq<M>
    requires forall p :: p in payloads ==> Sendable(c, p)
  {
    if payloads == [] then []
    else
      assert Sendable(c, payloads[0]);
      Delivered(c, payloads[0]) + Messages(c, payloads[1..])
  }

  lemma DecodeEncoding<M>(c: Codec<M>, p: seq<byte>, t: seq<byte>)
    requires Sendable(c, p)
    ensures Decode(c, Encode(c.tag, p) + t) == Decode(c, t).Behind(Delivered(c, p))
  {
    FrontOfFrame(c, Body(c.tag, p), t);
    ParseInvertsBody(c, p);
    assert (Encode(c.tag, p) + t)[|Encode(c.tag, p)|..] == t;
    Decode(c, t).BehindBehind([], []);
  }

  lemma {:induction false} DecodeEncodings<M>(c: Codec<M>, payloads: seq<seq<byte>>, t: seq<byte>)
    requires forall p :: p in payloads ==> Sendable(c, p)
    ensures Decode(c, Encodings(c, payloads) + t) == Decode(c, t).Behind(Messages(c, payloads))
  {
    if payloads == [] {
      Decode(c, t).BehindBehind([], []);
      assert Encodings(c, payloads) + t == t;
    } else {
      var p := payloads[0];
      assert Sendable(c, p);
      Assoc(Encode(c.tag, p), Encodings(c, payloads[1..]), t);
      DecodeEncoding(c, p, Encodings(c, payloads[1..]) + t);
      DecodeEncodings(c, payloads[1..], t);
      Decode(c, t).BehindBehind(Delivered(c, p), Messages(c, payloads[1..]));
    }
  }

  /** A frame that is delivered is the encoding of a payload. */
  lemma TakenWasEncoded<M>(c: Codec<M>, s: seq<byte>) returns (p: seq<byte>)
    requires FrontOf(c, s).Take?
    ensures Sendable(c, p) && s[..FrontOf(c, s).n] == Encode(c.tag, p)
    ensures c.parse(p) == Some(FrontOf(c, s).message) && c.Admits(Encode(c.tag, p))
  {
    var len := DecodeInt(s[..HEADER_LEN]);
    var frame := s[..HEADER_LEN + len];
    assert FrontOf(c, s) == FrameFront(c, frame);
    p := ParsedWasBody(c, frame[HEADER_LEN..]);
    HeaderRead(frame[HEADER_LEN..]);
    IntInjective(Frame(frame[HEADER_LEN..])[..HEADER_LEN], s[..HEADER_LEN]);
    assert frame == s[..HEADER_LEN] + frame[HEADER_LEN..];
    assert Frame(frame[HEADER_LEN..]) == Frame(frame[HEADER_LEN..])[..HEADER_LEN] + frame[HEADER_LEN..];
  }

  /** Without a raw callback, the bytes consumed are the encodings of exactly the messages delivered. */
  lemma {:induction false} DecodedWereEncoded<M>(c: Codec<M>, s: seq<byte>) returns (payloads: seq<seq<byte>>)
    requires c.raw.None?
    ensures forall p :: p in payloads ==> Sendable(c, p)
    ensures Messages(c, payloads) == Decode(c, s).messages
    ensures Encodings(c, payloads) + Decode(c, s).rest == s
    decreases |s|
  {
    var f := FrontOf(c, s);
    payloads := [];
    if f.Take? {
      var p := TakenWasEncoded(c, s);
      var others := DecodedWereEncoded(c, s[f.n..]);
      payloads := [p] + others;
      assert payloads[1..] == others;
      Assoc(Encode(c.tag, p), Encodings(c, others), Decode(c, s).rest);
      Split(s, f.n);
    }
  }

  /** A frame cut short is neither consumed nor reported. */
  lemma IncompleteFrameWaits<M>(c: Codec<M>, payload: seq<byte>, k: nat)
    requires |Body(c.tag, payload)| <= MAX_MESSAGE_LEN && k < |Encode(c.tag, payload)|
    ensures Decode(c, Encode(c.tag, payload)[..k]) == Outcome([], None, Encode(c.tag, payload)[..k])
  {
    var body := Body(c.tag, payload);
    var s := Frame(body)[..k];
    HeaderRead(body);
    if k >= HEADER_LEN {
      assert s[..HEADER_LEN] == Frame(body)[..HEADER_LEN];
    }
    FrontByLength(c, s, |body|);
  }

  /**
   Framing round trip: the encodings of any payloads, followed by a cut-short frame and
   split into any chunks, are delivered in order, once each, and exactly the cut-short
   frame is left.
   */
  lemma RoundTripUnderChunking<M>(c: Codec<M>, payloads: seq<seq<byte>>, last: seq<byte>, k: nat,
                                  chunks: seq<seq<byte>>)
    requires forall p :: p in payloads ==> Sendable(c, p)
    requires |Body(c.tag, last)| <= MAX_MESSAGE_LEN && k < |Encode(c.tag, last)|
    requires chunks != [] && Concat(chunks) == Encodings(c, payloads) + Encode(c.tag, last)[..k]
    ensures Feed(c, [], chunks) == Outcome(Messages(c, payloads), None, Encode(c.tag, last)[..k])
  {
    assert [] + Concat(chunks) == Concat(chunks);
    ChunkIndependent(c, [], chunks);
    DecodeEncodings(c, payloads, Encode(c.tag, last)[..k]);
    IncompleteFrameWaits(c, last, k);
    assert Messages(c, payloads) + [] == Messages(c, payloads);
  }

  lemma WrapOverLimit(n: nat)
    requires MAX_MESSAGE_LEN < n < Pow256(4)
    ensures WrapInt32(n) > MAX_MESSAGE_LEN || WrapInt32(n) < 0
  {
    assert Pow256(4) == 0x1_0000_0000;
  }

  /** A body over the limit is refused by the decoder for its length, and no other body is. */
  lemma LengthLimitExact<M>(c: Codec<M>, payload: seq<byte>, t: seq<byte>)
    requires |Body(c.tag, payload)| < Pow256(4)
    ensures FrontOf(c, Encode(c.tag, payload) + t) == Fault(InvalidLength) <==>
            |c.tag| + |payload| + 4 > 64 * 1024 * 1024
  {
    var body := Body(c.tag, payload);
    if |body| <= MAX_MESSAGE_LEN {
      FrontOfFrame(c, body, t);
      ParseInvertsBody(c, payload);
    } else {
      var s := Encode(c.tag, payload) + t;
      assert s[..HEADER_LEN] == EncodeInt(WrapInt32(|body|), 4);
      IntRoundTrip(WrapInt32(|body|), 4);
      WrapOverLimit(|body|);
      assert |s| >= c.MinMessageLen() + HEADER_LEN;
    }
  }

  /** After a first bad frame nothing more is ever delivered, whatever arrives and however it is cut. */
  lemma NothingPastABadFrame<M>(c: Codec<M>, s: seq<byte>, chunks: seq<seq<byte>>)
    requires Decode(c, s).error.Some? && chunks != []
    ensures Feed(c, Decode(c, s).rest, chunks).messages == []
    ensures Feed(c, Decode(c, s).rest, chunks).error == Decode(c, s).error
  {
    var d := Decode(c, s);
    ChunkIndependent(c, d.rest, chunks);
    BadFrameStays(c, s, Concat(chunks));
  }

  lemma {:induction false} BadFrameStays<M>(c: Codec<M>, s: seq<byte>, t: seq<byte>)
    requires Decode(c, s).error.Some?
    ensures var d := Decode(c, s); Decode(c, d.rest + t) == Outcome([], d.error, d.rest + t)
    decreases |s|
  {
    var f := FrontOf(c, s);
    if f.Fault? {
      FrontStable(c, s, t);
    } else {
      BadFrameStays(c, s[f.n..], t);
    }
  }

  // ---------- single-byte corruption ----------

  function Sum(s: seq<byte>): nat {
    if s == [] then 0 else Sum(s[..|s| - 1]) + s[|s| - 1]
  }

  lemma AddMod(x: nat, y: nat)
    ensures (x % ADLER_BASE + y) % ADLER_BASE == (x + y) % ADLER_BASE
  {
    var q := x / ADLER_BASE;
    assert x + y == ADLER_BASE * q + (x % ADLER_BASE + y);
    Multiples(x % ADLER_BASE + y, q);
  }

  /** Which error a body meets: the checksum is looked at first, then the tag, then the payload. */
  lemma ParseVerdict<M>(c: Codec<M>, body: seq<byte>)
    ensures var n := |body| - 4;
            if n < 0 || Checksum(body[..n]) != DecodeInt(body[n..]) then Parse(c, body) == Bad(ChecksumError)
            else if !(c.tag <= body[..n]) then Parse(c, body) == Bad(UnknownMessageType)
            else if c.parse(body[|c.tag|..n]).None? then Parse(c, body) == Bad(ParseError)
            else Parse(c, body) == Good(c.parse(body[|c.tag|..n]).value)
  {
    var n := |body| - 4;
    if 0 <= n && |c.tag| <= n {
      assert body[..n][..|c.tag|] == body[..|c.tag|];
    }
  }

  lemma {:induction false} Multiples(x: nat, q: nat)
    ensures (ADLER_BASE * q + x) % ADLER_BASE == x % ADLER_BASE
    decreases q
  {
    if q > 0 {
      Multiples(x, q - 1);
    }
  }

  lemma {:induction false} LowSum(s: seq<byte>)
    ensures Adler(s).a == (1 + Sum(s)) % ADLER_BASE
  {
    if s != [] {
      LowSum(s[..|s| - 1]);
      AddMod(1 + Sum(s[..|s| - 1]), s[|s| - 1]);
    }
  }

  /** The sum of (|s| - i) * s[i]: each byte counts as often as the low sum has contained it. */
  function Weighted(s: seq<byte>): nat {
    if s == [] then 0 else |s| * s[0] + Weighted(s[1..])
  }

  lemma {:induction false} SumFront(s: seq<byte>)
    requires s != []
    ensures Sum(s) == s[0] + Sum(s[1..])
  {
    var n := |s| - 1;
    if n > 0 {
      SumFront(s[..n]);
      assert s[..n][1..] == s[1..][..n - 1];
    }
  }

  lemma {:induction false} WeightedLast(s: seq<byte>)
    requires s != []
    ensures Weighted(s) == Weighted(s[..|s| - 1]) + Sum(s)
  {
    var n := |s| - 1;
    SumFront(s);
    if n > 0 {
      WeightedLast(s[1..]);
      assert s[..n][1..] == s[1..][..n - 1];
      assert |s| * s[0] == n * s[0] + s[0];
    }
  }

  lemma {:induction false} HighSum(s: seq<byte>)
    ensures Adler(s).b == (|s| + Weighted(s)) % ADLER_BASE
  {
    if s != [] {
      var front := s[..|s| - 1];
      HighSum(front);
      LowSum(s);
      WeightedLast(s);
      AddMods(|front| + Weighted(front), 1 + Sum(s));
    }
  }

  lemma AddMods(x: nat, y: nat)
    ensures (x % ADLER_BASE + y % ADLER_BASE) % ADLER_BASE == (x + y) % ADLER_BASE
  {
    AddMod(x, y % ADLER_BASE);
    AddMod(y, x);
  }

  /** The checksum is Adler-32: both sums in closed form, the high one in the upper half. */
  lemma ChecksumIsAdler(s: seq<byte>)
    ensures ToUnsigned(Checksum(s), 4) == 65536 * ((|s| + Weighted(s)) % 65521) + (1 + Sum(s)) % 65521
  {
    HighSum(s);
    LowSum(s);
    assert Pow256(4) == 0x1_0000_0000;
  }

  lemma {:induction false} SumOfChanged(s: seq<byte>, i: nat, x: byte)
    requires i < |s|
    ensures Sum(s[i := x]) == Sum(s) - s[i] + x
  {
    var t := s[..|s| - 1];
    if i < |s| - 1 {
      assert s[i := x][..|s| - 1] == t[i := x];
      SumOfChanged(t, i, x);
    } else {
      assert s[i := x][..|s| - 1] == t;
    }
  }

  lemma NearbyResidues(x: nat, y: nat)
    requires x < y < x + ADLER_BASE
    ensures x % ADLER_BASE != y % ADLER_BASE
  {
    var q := x / ADLER_BASE;
    assert x % ADLER_BASE == x - ADLER_BASE * q;
    if y < ADLER_BASE * q + ADLER_BASE {
      assert y % ADLER_BASE == y - ADLER_BASE * q;
    } else {
      assert y % ADLER_BASE == y - ADLER_BASE * q - ADLER_BASE;
    }
  }

  lemma LowHalf(s: seq<byte>, t: seq<byte>)
    requires Checksum(s) == Checksum(t)
    ensures Adler(s).a == Adler(t).a
  {
    var x, y := Adler(s), Adler(t);
    assert x.b * 65536 + x.a < Pow256(4) && y.b * 65536 + y.a < Pow256(4);
    assert x.b * 65536 + x.a == y.b * 65536 + y.a;
    assert x.b == y.b;
  }

  lemma ChecksumSeesOneByte(s: seq<byte>, i: nat, x: byte)
    requires i < |s| && x != s[i]
    ensures Checksum(s[i := x]) != Checksum(s)
  {
    LowSum(s);
    LowSum(s[i := x]);
    SumOfChanged(s, i, x);
    if x > s[i] {
      NearbyResidues(1 + Sum(s), 1 + Sum(s[i := x]));
    } else {
      NearbyResidues(1 + Sum(s[i := x]), 1 + Sum(s));
    }
    if Checksum(s[i := x]) == Checksum(s) {
      LowHalf(s[i := x], s);
    }
  }

  /** A body that passes the checksum fails it after any one byte is changed. */
  lemma OneByteBreaksChecksum(body: seq<byte>, i: nat, x: byte)
    requires ValidateChecksum(body) && i < |body| && x != body[i]
    ensures !ValidateChecksum(body[i := x])
  {
    var n := |body| - CHECKSUM_LEN;
    var changed := body[i := x];
    if i < n {
      assert changed[..n] == body[..n][i := x] && changed[n..] == body[n..];
      ChecksumSeesOneByte(body[..n], i, x);
    } else {
      assert changed[..n] == body[..n] && changed[n..] == body[n..][i - n := x];
      assert changed[n..][i - n] != body[n..][i - n];
      if DecodeInt(changed[n..]) == DecodeInt(body[n..]) {
        IntInjective(changed[n..], body[n..]);
      }
    }
  }

  /**
   Changing any one byte of the body of a sent frame, behind any frames sent before it and
   before any bytes at all, is reported as a checksum error and delivers nothing for that
   frame; the frames before it are delivered as sent.
   */
  lemma CorruptionIsCaught<M>(c: Codec<M>, before: seq<seq<byte>>, payload: seq<byte>, i: nat, x: byte, t: seq<byte>)
    requires forall p :: p in before ==> Sendable(c, p)
    requires |Body(c.tag, payload)| <= MAX_MESSAGE_LEN
    requires i < |Body(c.tag, payload)| && x != Body(c.tag, payload)[i]
    requires c.Admits(Frame(Body(c.tag, payload)[i := x]))
    ensures var bad := Frame(Body(c.tag, payload)[i := x]) + t;
            Decode(c, Encodings(c, before) + bad) == Outcome(Messages(c, before), Some(ChecksumError), bad)
  {
    var body := Body(c.tag, payload);
    var bad := Frame(body[i := x]) + t;
    var n := |body| - CHECKSUM_LEN;
    assert body[..n] == c.tag + payload && body[n..] == EncodeInt(Checksum(c.tag + payload), 4);
    IntRoundTrip(Checksum(c.tag + payload), 4);
    OneByteBreaksChecksum(body, i, x);
    FrontOfFrame(c, body[i := x], t);
    DecodeEncodings(c, before, bad);
    assert Messages(c, before) + [] == Messages(c, before);
  }
}
