/** The binary frame: a 20-byte big-endian header and a body, on a byte stream. */
module Framing {
  import opened Arithmetic
  import opened Wrappers

  type Byte = x: int | 0 <= x < 0x100
  type U16 = x: int | 0 <= x < 0x1_0000
  type U32 = x: int | 0 <= x < 0x1_0000_0000
  type U64 = x: int | 0 <= x < 0x1_0000_0000_0000_0000

  const HEADER_LENGTH: nat := 20
  const MAGIC: U16 := 0xCAFE
  const VERSION: Byte := 1
  const GZIP: Byte := 1
  const PROTOBUF: Byte := 1

  datatype Result<+T> = Ok(value: T) | Err(error: Error)
  datatype Error = ShortHeader | BadMagic | BadVersion | ShortBody | BadCompression | WrongType | BadBody

  // ---------------------------------------------------------------- big-endian integers

  function Pow256(k: nat): nat {
    if k == 0 then 1 else 256 * Pow256(k - 1)
  }

  function BigEndian(n: nat, k: nat): (s: seq<Byte>)
    ensures |s| == k
  {
    if k == 0 then [] else BigEndian(n / 256, k - 1) + [n % 256]
  }

  function Unsigned(s: seq<Byte>): nat {
    if s == [] then 0 else 256 * Unsigned(s[..|s| - 1]) + s[|s| - 1]
  }

  lemma {:induction false} BigEndianRoundTrip(n: nat, k: nat)
    requires n < Pow256(k)
    ensures Unsigned(BigEndian(n, k)) == n
  {
    if k > 0 {
      BigEndianRoundTrip(n / 256, k - 1);
      assert BigEndian(n, k)[..k - 1] == BigEndian(n / 256, k - 1);
    }
  }

  lemma DivTwice(n: nat, k: nat)
    ensures Pow256(k) > 0 && (n / 256) / Pow256(k) == n / Pow256(k + 1)
  {
    PowIsPositive(k);
    var p := Pow256(k);
    var q := (n / 256) / p;
    var r := n - q * (256 * p);
    assert n == 256 * (n / 256) + n % 256;
    assert n / 256 == q * p + (n / 256) % p;
    assert r == 256 * ((n / 256) % p) + n % 256;
    assert 0 <= r < 256 * p;
    DivIsUnique(n, 256 * p, q, r);
  }

  lemma {:induction false} PowIsPositive(k: nat)
    ensures Pow256(k) > 0
  {
    if k > 0 { PowIsPositive(k - 1); }
  }

  /** Byte j of a number, counted from the least significant. */
  function ByteOf(n: nat, j: nat): Byte {
    PowIsPositive(j);
    n / Pow256(j) % 256
  }

  /** The bytes of a number, the most significant first. */
  ghost predicate MostSignificantFirst(s: seq<Byte>, n: nat) {
    forall i :: 0 <= i < |s| ==> s[i] == ByteOf(n, |s| - 1 - i)
  }

  lemma {:induction false} BigEndianAt(n: nat, k: nat, i: nat)
    requires i < k
    ensures BigEndian(n, k)[i] == ByteOf(n, k - 1 - i)
  {
    if i < k - 1 {
      BigEndianAt(n / 256, k - 1, i);
      DivTwice(n, k - 2 - i);
    }
  }

  lemma BigEndianOrder(n: nat, k: nat)
    ensures MostSignificantFirst(BigEndian(n, k), n)
  {
    forall i | 0 <= i < k ensures BigEndian(n, k)[i] == ByteOf(n, k - 1 - i) { BigEndianAt(n, k, i); }
  }

  lemma LowPart(n: nat, p: nat)
    requires p > 0
    ensures n % (256 * p) % 256 == n % 256 && n % (256 * p) / 256 == n / 256 % p
  {
    var q, r := n / (256 * p), n % (256 * p);
    assert n == q * (256 * p) + r && r == 256 * (r / 256) + r % 256;
    assert n == (q * p + r / 256) * 256 + r % 256;
    DivIsUnique(n, 256, q * p + r / 256, r % 256);
    DivIsUnique(n / 256, p, q, r / 256);
  }

  /** k bytes hold a number up to multiples of 256^k. */
  lemma {:induction false} BigEndianTruncates(n: nat, k: nat)
    ensures Pow256(k) > 0 && BigEndian(n % Pow256(k), k) == BigEndian(n, k)
  {
    PowIsPositive(k);
    if k > 0 {
      PowIsPositive(k - 1);
      LowPart(n, Pow256(k - 1));
      BigEndianTruncates(n / 256, k - 1);
    }
  }

  lemma {:induction false} UnsignedRange(s: seq<Byte>)
    ensures Unsigned(s) < Pow256(|s|)
  {
    if s != [] { UnsignedRange(s[..|s| - 1]); }
  }

  lemma {:induction false} UnsignedRoundTrip(s: seq<Byte>)
    ensures BigEndian(Unsigned(s), |s|) == s
  {
    if s != [] {
      UnsignedRoundTrip(s[..|s| - 1]);
      assert s == s[..|s| - 1] + [s[|s| - 1]];
    }
  }

  lemma Widths()
    ensures Pow256(2) == 0x1_0000 && Pow256(4) == 0x1_0000_0000 && Pow256(8) == 0x1_0000_0000_0000_0000
  {
    assert Pow256(1) == 256;
    assert Pow256(3) == 256 * Pow256(2);
    assert Pow256(5) == 256 * Pow256(4) && Pow256(6) == 256 * Pow256(5) && Pow256(7) == 256 * Pow256(6);
  }

  // ---------------------------------------------------------------- the header

  datatype Header = Header(
    magic: U16, version: Byte, msgType: Byte, codec: Byte, compress: Byte, reserved0: Byte, reserved1: Byte,
    requestId: U64, bodyLength: U32)

  function EncodeHeader(h: Header): (s: seq<Byte>)
    ensures |s| == HEADER_LENGTH
  {
    BigEndian(h.magic, 2) + [h.version, h.msgType, h.codec, h.compress, h.reserved0, h.reserved1]
    + BigEndian(h.requestId, 8) + BigEndian(h.bodyLength, 4)
  }

  function ToU16(s: seq<Byte>): U16
    requires |s| == 2
  {
    UnsignedRange(s); Widths(); Unsigned(s)
  }

  function ToU32(s: seq<Byte>): U32
    requires |s| == 4
  {
    UnsignedRange(s); Widths(); Unsigned(s)
  }

  function ToU64(s: seq<Byte>): U64
    requires |s| == 8
  {
    UnsignedRange(s); Widths(); Unsigned(s)
  }

  function DecodeHeader(buf: seq<Byte>): Result<Header> {
    if |buf| < HEADER_LENGTH then Err(ShortHeader)
    else if ToU16(buf[0..2]) != MAGIC then Err(BadMagic)
    else if buf[2] != VERSION then Err(BadVersion)
    else Ok(Header(ToU16(buf[0..2]), buf[2], buf[3], buf[4], buf[5], buf[6], buf[7],
                   ToU64(buf[8..16]), ToU32(buf[16..20])))
  }

  predicate Wellformed(h: Header) {
    h.magic == MAGIC && h.version == VERSION
  }

  lemma HeaderFields(h: Header)
    ensures var s := EncodeHeader(h);
      && s[0..2] == BigEndian(h.magic, 2) && s[8..16] == BigEndian(h.requestId, 8)
      && s[16..20] == BigEndian(h.bodyLength, 4)
      && s[2] == h.version && s[3] == h.msgType && s[4] == h.codec && s[5] == h.compress
      && s[6] == h.reserved0 && s[7] == h.reserved1
  {
  }

  /** Decoding inverts encoding on the headers of this protocol, and rejects every other magic or version. */
  lemma HeaderRoundTrip(h: Header)
    ensures DecodeHeader(EncodeHeader(h))
         == if h.magic != MAGIC then Err(BadMagic) else if h.version != VERSION then Err(BadVersion) else Ok(h)
  {
    HeaderFields(h);
    Widths();
    BigEndianRoundTrip(h.magic, 2);
    BigEndianRoundTrip(h.requestId, 8);
    BigEndianRoundTrip(h.bodyLength, 4);
  }

  /** Encoding inverts decoding: every 20 bytes that decode are the encoding of what they decode to. */
  lemma HeaderIsCanonical(buf: seq<Byte>)
    requires |buf| == HEADER_LENGTH && DecodeHeader(buf).Ok?
    ensures EncodeHeader(DecodeHeader(buf).value) == buf
  {
    UnsignedRoundTrip(buf[0..2]);
    UnsignedRoundTrip(buf[8..16]);
    UnsignedRoundTrip(buf[16..20]);
    assert buf == buf[0..2] + [buf[2], buf[3], buf[4], buf[5], buf[6], buf[7]] + buf[8..16] + buf[16..20];
  }

  // ---------------------------------------------------------------- one frame

  /** The gzip compressor; type 0 and every unregistered type pass bytes through unchanged. */
  datatype Gzip = Gzip(zip: seq<Byte> -> seq<Byte>, unzip: seq<Byte> -> Option<seq<Byte>>)

  ghost predicate Lossless(g: Gzip) {
    forall b :: g.unzip(g.zip(b)) == Some(b)
  }

  function Compress(g: Gzip, compress: Byte, data: seq<Byte>): seq<Byte> {
    if compress == GZIP then g.zip(data) else data
  }

  function Decompress(g: Gzip, compress: Byte, data: seq<Byte>): Option<seq<Byte>> {
    if compress == GZIP then g.unzip(data) else Some(data)
  }

  /** What a sender frames: the header fields it chooses and the uncompressed body. */
  datatype Message = Message(msgType: Byte, codec: Byte, compress: Byte, id: U64, data: seq<Byte>)

  /** uint32(len(body)) */
  function Truncate32(n: nat): U32 {
    n % 0x1_0000_0000
  }

  function HeaderOf(m: Message, length: nat): Header {
    Header(MAGIC, VERSION, m.msgType, m.codec, m.compress, 0, 0, m.id, Truncate32(length))
  }

  /** EncodeRequest and EncodeResponse, after the body codec. */
  function Encode(g: Gzip, m: Message): (s: seq<Byte>)
    ensures |s| >= HEADER_LENGTH
  {
    var body := Compress(g, m.compress, m.data);
    EncodeHeader(HeaderOf(m, |body|)) + body
  }

  /** A decoded frame and the bytes behind it. */
  datatype Decoded = Decoded(header: Header, data: seq<Byte>, rest: seq<Byte>)

  /** Reading and decompressing the body behind a header. */
  function DecodeBehind(g: Gzip, h: Header, behind: seq<Byte>): (r: Result<Decoded>)
    ensures r.Ok? ==> |r.value.rest| <= |behind|
  {
    if |behind| < h.bodyLength then Err(ShortBody)
    else match Decompress(g, h.compress, behind[..h.bodyLength])
      case None => Err(BadCompression)
      case Some(data) => Ok(Decoded(h, data, behind[h.bodyLength..]))
  }

  /** DecodeFromReader on a stream of bytes that then ends. */
  function Decode(g: Gzip, stream: seq<Byte>): (r: Result<Decoded>)
    ensures r.Ok? ==> |r.value.rest| + HEADER_LENGTH <= |stream|
  {
    if |stream| < HEADER_LENGTH then Err(ShortHeader)
    else match DecodeHeader(stream[..HEADER_LENGTH])
      case Err(e) => Err(e)
      case Ok(h) => DecodeBehind(g, h, stream[HEADER_LENGTH..])
  }

  predicate Fits(g: Gzip, m: Message) {
    |Compress(g, m.compress, m.data)| < 0x1_0000_0000
  }

  lemma DecodeFront(g: Gzip, h: Header, behind: seq<Byte>)
    requires Wellformed(h)
    ensures Decode(g, EncodeHeader(h) + behind) == DecodeBehind(g, h, behind)
  {
    HeaderRoundTrip(h);
    var stream := EncodeHeader(h) + behind;
    assert stream[..HEADER_LENGTH] == EncodeHeader(h);
    assert stream[HEADER_LENGTH..] == behind;
  }

  /** A frame is read back whole from the front of any stream, whatever its codec and compression bytes. */
  lemma FrameRoundTrip(g: Gzip, m: Message, rest: seq<Byte>)
    requires Lossless(g) && Fits(g, m)
    ensures Decode(g, Encode(g, m) + rest) == Ok(Decoded(HeaderOf(m, |Compress(g, m.compress, m.data)|), m.data, rest))
  {
    var body := Compress(g, m.compress, m.data);
    var h := HeaderOf(m, |body|);
    assert Encode(g, m) + rest == EncodeHeader(h) + (body + rest);
    DecodeFront(g, h, body + rest);
    assert (body + rest)[..|body|] == body && (body + rest)[|body|..] == rest;
  }

  /** The 32-bit length field decides: whatever the codec and compression bytes, a frame is read back whole, with its
      own header and nothing behind it, exactly when its body on the wire is shorter than 2^32 bytes. */
  lemma RoundTripIffFits(g: Gzip, m: Message)
    requires Lossless(g)
    ensures Decode(g, Encode(g, m)) == Ok(Decoded(HeaderOf(m, |Compress(g, m.compress, m.data)|), m.data, []))
       <==> Fits(g, m)
  {
    var body := Compress(g, m.compress, m.data);
    DecodeFront(g, HeaderOf(m, |body|), body);
    if Fits(g, m) {
      assert body[..|body|] == body && body[|body|..] == [];
    }
  }

  /** The stream starts with a frame: the header's 20 bytes, then a body of the length it gives, compressed as it
      says, then the rest. */
  predicate IsFrame(g: Gzip, stream: seq<Byte>, d: Decoded) {
    var end := HEADER_LENGTH + d.header.bodyLength;
    && end <= |stream| && stream[..HEADER_LENGTH] == EncodeHeader(d.header) && stream[end..] == d.rest
    && if d.header.compress == 1 then g.unzip(stream[HEADER_LENGTH..end]) == Some(d.data)
       else stream[HEADER_LENGTH..end] == d.data
  }

  /** Exactly which streams decode, and to what. */
  lemma DecodesIff(g: Gzip, stream: seq<Byte>, d: Decoded)
    ensures Decode(g, stream) == Ok(d)
       <==> d.header.magic == 0xCAFE && d.header.version == 1 && IsFrame(g, stream, d)
  {
    if |stream| >= HEADER_LENGTH {
      var front, behind := stream[..HEADER_LENGTH], stream[HEADER_LENGTH..];
      var r := DecodeHeader(front);
      if r.Ok? {
        HeaderIsCanonical(front);
        var n := r.value.bodyLength;
        if n <= |behind| {
          assert behind[..n] == stream[HEADER_LENGTH..HEADER_LENGTH + n];
          assert behind[n..] == stream[HEADER_LENGTH + n..];
        }
      }
      if front == EncodeHeader(d.header) { HeaderRoundTrip(d.header); }
    }
  }

  /** Which error a stream that does not decode meets. */
  lemma DecodeErrors(g: Gzip, stream: seq<Byte>)
    requires Decode(g, stream).Err?
    ensures Decode(g, stream).error
         == if |stream| < HEADER_LENGTH then ShortHeader
            else if stream[0] != 0xCA || stream[1] != 0xFE then BadMagic
            else if stream[2] != 1 then BadVersion
            else if |stream| - HEADER_LENGTH < Unsigned(stream[16..20]) then ShortBody
            else BadCompression
  {
    if |stream| >= HEADER_LENGTH {
      var front := stream[..HEADER_LENGTH];
      assert front[0..2] == [stream[0], stream[1]] && front[16..20] == stream[16..20];
      assert [stream[0], stream[1]][..1] == [stream[0]] && [stream[0]][..0] == [];
      var hi: int, lo: int := stream[0], stream[1];
      assert Unsigned(front[0..2]) == 256 * hi + lo;
    }
  }

  /** The error for a stream that ends k bytes into a frame. */
  function CutError(k: nat): Error {
    if k < HEADER_LENGTH then ShortHeader else ShortBody
  }

  /** No proper prefix of a frame decodes. */
  lemma PrefixFails(g: Gzip, m: Message, k: nat)
    requires Fits(g, m) && k < |Encode(g, m)|
    ensures Decode(g, Encode(g, m)[..k]) == Err(CutError(k))
  {
    var body := Compress(g, m.compress, m.data);
    var h := HeaderOf(m, |body|);
    if k >= HEADER_LENGTH {
      assert Encode(g, m)[..k] == EncodeHeader(h) + body[..k - HEADER_LENGTH];
      DecodeFront(g, h, body[..k - HEADER_LENGTH]);
    }
  }

  // ---------------------------------------------------------------- a stream of frames

  function EncodeAll(g: Gzip, ms: seq<Message>): seq<Byte> {
    if ms == [] then [] else Encode(g, ms[0]) + EncodeAll(g, ms[1..])
  }

  /** Reading frame after frame until an error, which is how both ends of a connection read. */
  function DecodeAll(g: Gzip, stream: seq<Byte>): (seq<(Header, seq<Byte>)>, Error)
    decreases |stream|
  {
    match Decode(g, stream)
    case Err(e) => ([], e)
    case Ok(d) =>
      var (more, e) := DecodeAll(g, d.rest);
      ([(d.header, d.data)] + more, e)
  }

  /** What the receiver should see of a message. */
  function Seen(g: Gzip, m: Message): (Header, seq<Byte>) {
    (HeaderOf(m, |Compress(g, m.compress, m.data)|), m.data)
  }

  function SeenAll(g: Gzip, ms: seq<Message>): seq<(Header, seq<Byte>)> {
    if ms == [] then [] else [Seen(g, ms[0])] + SeenAll(g, ms[1..])
  }

  predicate AllFit(g: Gzip, ms: seq<Message>) {
    forall i :: 0 <= i < |ms| ==> Fits(g, ms[i])
  }

  /** How many whole frames lie in the first k bytes, and how many bytes of the next one. */
  function Cut(g: Gzip, ms: seq<Message>, k: nat): (r: (nat, nat))
    ensures r.0 <= |ms|
  {
    if ms == [] || k < |Encode(g, ms[0])| then (0, k)
    else
      var r := Cut(g, ms[1..], k - |Encode(g, ms[0])|);
      (r.0 + 1, r.1)
  }

  ghost predicate YieldsWholeFrames(g: Gzip, ms: seq<Message>, k: nat)
    requires k <= |EncodeAll(g, ms)|
  {
    var (n, left) := Cut(g, ms, k);
    DecodeAll(g, EncodeAll(g, ms)[..k]) == (SeenAll(g, ms[..n]), CutError(left))
  }

  lemma CutInFirst(g: Gzip, m: Message, others: seq<Byte>, k: nat)
    requires Fits(g, m) && k < |Encode(g, m)|
    ensures DecodeAll(g, (Encode(g, m) + others)[..k]) == ([], CutError(k))
  {
    PrefixFails(g, m, k);
    assert (Encode(g, m) + others)[..k] == Encode(g, m)[..k];
  }

  lemma CutLater(g: Gzip, m: Message, others: seq<Byte>, k: nat)
    requires Lossless(g) && Fits(g, m) && |Encode(g, m)| <= k <= |Encode(g, m) + others|
    ensures var (seen, e) := DecodeAll(g, others[..k - |Encode(g, m)|]);
      DecodeAll(g, (Encode(g, m) + others)[..k]) == ([Seen(g, m)] + seen, e)
  {
    var rest := others[..k - |Encode(g, m)|];
    FrameRoundTrip(g, m, rest);
    assert (Encode(g, m) + others)[..k] == Encode(g, m) + rest;
  }

  /** Truncation: cut anywhere, the stream yields exactly the whole frames before the cut and then an error. */
  lemma {:induction false} TruncatedStream(g: Gzip, ms: seq<Message>, k: nat)
    requires Lossless(g) && AllFit(g, ms) && k <= |EncodeAll(g, ms)|
    ensures YieldsWholeFrames(g, ms, k)
  {
    if ms != [] {
      var first, others := |Encode(g, ms[0])|, EncodeAll(g, ms[1..]);
      if k < first {
        CutInFirst(g, ms[0], others, k);
      } else {
        TruncatedStream(g, ms[1..], k - first);
        CutLater(g, ms[0], others, k);
        SeenMore(g, ms, Cut(g, ms[1..], k - first).0);
      }
    }
  }

  lemma SeenMore(g: Gzip, ms: seq<Message>, n: nat)
    requires n < |ms|
    ensures SeenAll(g, ms[..n + 1]) == [Seen(g, ms[0])] + SeenAll(g, ms[1..][..n])
  {
    assert ms[..n + 1][1..] == ms[1..][..n];
  }

  lemma {:induction false} AllWhole(g: Gzip, ms: seq<Message>)
    ensures Cut(g, ms, |EncodeAll(g, ms)|) == (|ms|, 0)
  {
    if ms != [] { AllWhole(g, ms[1..]); }
  }

  /** Round trip: reading the concatenated encodings yields exactly the headers and bodies that were sent, then the
      end of the stream. */
  lemma StreamRoundTrip(g: Gzip, ms: seq<Message>)
    requires Lossless(g) && AllFit(g, ms)
    ensures DecodeAll(g, EncodeAll(g, ms)) == (SeenAll(g, ms), ShortHeader)
  {
    var k := |EncodeAll(g, ms)|;
    TruncatedStream(g, ms, k);
    AllWhole(g, ms);
    assert EncodeAll(g, ms)[..k] == EncodeAll(g, ms) && ms[..|ms|] == ms;
  }

  lemma {:induction false} SeenPrefix(g: Gzip, ms: seq<Message>, n: nat)
    requires n <= |ms|
    ensures SeenAll(g, ms[..n]) <= SeenAll(g, ms)
  {
    if n > 0 {
      SeenPrefix(g, ms[1..], n - 1);
      SeenMore(g, ms, n - 1);
    }
  }

  /** A reader of any prefix of the stream sees a prefix of the messages. */
  lemma PrefixIsSeen(g: Gzip, ms: seq<Message>, k: nat)
    requires Lossless(g) && AllFit(g, ms) && k <= |EncodeAll(g, ms)|
    ensures DecodeAll(g, EncodeAll(g, ms)[..k]).0 <= SeenAll(g, ms)
  {
    TruncatedStream(g, ms, k);
    SeenPrefix(g, ms, Cut(g, ms, k).0);
  }

  lemma EncodeMore(g: Gzip, ms: seq<Message>, n: nat)
    requires n < |ms|
    ensures |EncodeAll(g, ms[..n + 1])| == |Encode(g, ms[0])| + |EncodeAll(g, ms[1..][..n])|
  {
    assert ms[..n + 1][1..] == ms[1..][..n];
  }

  /** A cut behind n whole frames and inside the next one, if there is one. */
  lemma {:induction false} CutAt(g: Gzip, ms: seq<Message>, n: nat, k: nat)
    requires n <= |ms| && |EncodeAll(g, ms[..n])| <= k && (n < |ms| ==> k < |EncodeAll(g, ms[..n + 1])|)
    ensures Cut(g, ms, k).0 == n
  {
    if n < |ms| { EncodeMore(g, ms, n); }
    if n > 0 {
      EncodeMore(g, ms, n - 1);
      CutAt(g, ms[1..], n - 1, k - |Encode(g, ms[0])|);
    }
  }

  /** Writing n bytes of the frame at position `sent` leaves a prefix of the stream. */
  lemma FrameAt(stream: seq<Byte>, sent: nat, frame: seq<Byte>, others: seq<Byte>, n: nat)
    requires sent <= |stream| && stream[sent..] == frame + others && n <= |frame|
    ensures sent + n <= |stream| && stream[..sent + n] == stream[..sent] + frame[..n]
    ensures n == |frame| ==> stream[sent + n..] == others
  {
    assert frame + others == stream[sent..];
    assert forall i :: 0 <= i < |frame| ==> stream[sent + i] == (frame + others)[i] == frame[i];
    assert forall i :: 0 <= i < |others| ==> stream[sent + |frame| + i] == (frame + others)[|frame| + i] == others[i];
  }

  // ---------------------------------------------------------------- requests and responses

  datatype Codec<!M(!new)> = Codec(enc: M -> seq<Byte>, dec: seq<Byte> -> Option<M>)

  /** The codec registry: protobuf under 1, JSON under everything else. */
  datatype Codecs<!M(!new)> = Codecs(json: Codec<M>, protobuf: Codec<M>)

  function CodecFor<M(!new)>(cs: Codecs<M>, codec: Byte): Codec<M> {
    if codec == PROTOBUF then cs.protobuf else cs.json
  }

  ghost predicate Faithful<M(!new)>(cs: Codecs<M>) {
    forall x: M :: cs.json.dec(cs.json.enc(x)) == Some(x) && cs.protobuf.dec(cs.protobuf.enc(x)) == Some(x)
  }

  /** The message EncodeRequest (type 1) and EncodeResponse (type 2) frame. */
  function EncodeBody<M(!new)>(cs: Codecs<M>, msgType: Byte, codec: Byte, compress: Byte, id: U64, x: M): Message {
    Message(msgType, codec, compress, id, CodecFor(cs, codec).enc(x))
  }

  /** ReadRequest and ReadResponse: the receiver goes by the header, not by its own configuration. */
  function ReadBody<M(!new)>(g: Gzip, cs: Codecs<M>, expected: Byte, stream: seq<Byte>)
    : Result<(Header, M, seq<Byte>)>
  {
    match Decode(g, stream)
    case Err(e) => Err(e)
    case Ok(d) =>
      if d.header.msgType != expected then Err(WrongType)
      else match CodecFor(cs, d.header.codec).dec(d.data)
        case None => Err(BadBody)
        case Some(x) => Ok((d.header, x, d.rest))
  }

  /** A request or response arrives as it was sent, with its ID in the header, for every codec and compression byte
      including unregistered ones; a frame of the other type is refused. */
  lemma BodyRoundTrip<M(!new)>(g: Gzip, cs: Codecs<M>, msgType: Byte, codec: Byte, compress: Byte, id: U64, x: M,
                               expected: Byte, rest: seq<Byte>)
    requires Lossless(g) && Faithful(cs) && Fits(g, EncodeBody(cs, msgType, codec, compress, id, x))
    ensures var r := ReadBody(g, cs, expected, Encode(g, EncodeBody(cs, msgType, codec, compress, id, x)) + rest);
      if msgType != expected then r == Err(WrongType)
      else r.Ok? && r.value.0.requestId == id && r.value.1 == x && r.value.2 == rest
  {
    FrameRoundTrip(g, EncodeBody(cs, msgType, codec, compress, id, x), rest);
    assert cs.json.dec(cs.json.enc(x)) == Some(x);
  }

  /** What ReadRequest and ReadResponse make of a frame that decodes, and that they pass on the error of one that does
      not: the type is looked at first, then the codec the header names decodes the data. */
  lemma ReadBodyCases<M(!new)>(g: Gzip, cs: Codecs<M>, expected: Byte, stream: seq<Byte>)
    ensures var r := ReadBody(g, cs, expected, stream);
      match Decode(g, stream)
      case Err(e) => r == Err(e)
      case Ok(d) =>
        var x := if d.header.codec == 1 then cs.protobuf.dec(d.data) else cs.json.dec(d.data);
        && (r == Err(WrongType) <==> d.header.msgType != expected)
        && (r == Err(BadBody) <==> d.header.msgType == expected && x.None?)
        && (r.Ok? ==> x == Some(r.value.1) && r.value.0 == d.header && r.value.2 == d.rest)
        && (r.Ok? || r == Err(WrongType) || r == Err(BadBody))
  {
  }

  lemma HeaderLayout(m: Message, length: nat)
    ensures var t := EncodeHeader(HeaderOf(m, length));
      && t[..8] == [0xCA, 0xFE, 1, m.msgType, m.codec, m.compress, 0, 0]
      && MostSignificantFirst(t[8..16], m.id) && MostSignificantFirst(t[16..20], length)
  {
    var h := HeaderOf(m, length);
    HeaderFields(h);
    MagicBytes();
    assert EncodeHeader(h)[..8] == EncodeHeader(h)[0..2] + [1, m.msgType, m.codec, m.compress, 0, 0];
    BigEndianOrder(m.id, 8);
    assert BigEndian(h.bodyLength, 4) == BigEndian(length, 4) by {
      Widths();
      BigEndianTruncates(length, 4);
    }
    BigEndianOrder(length, 4);
  }

  lemma MagicBytes()
    ensures BigEndian(MAGIC, 2) == [0xCA, 0xFE]
  {
    assert BigEndian(MAGIC / 256, 1) == [0xCA] by { assert BigEndian(0, 0) == []; }
  }

  /** The frame byte by byte: magic CA FE, version 1, type, codec, compression, two zeros, the ID and the body length
      with the most significant byte first, and the body in the codec its byte names, compressed only under 1. */
  lemma FrameLayout<M(!new)>(g: Gzip, cs: Codecs<M>, msgType: Byte, codec: Byte, compress: Byte, id: U64, x: M)
    ensures var s := Encode(g, EncodeBody(cs, msgType, codec, compress, id, x));
      var plain := if codec == 1 then cs.protobuf.enc(x) else cs.json.enc(x);
      var body := if compress == 1 then g.zip(plain) else plain;
      && s[..8] == [0xCA, 0xFE, 1, msgType, codec, compress, 0, 0]
      && MostSignificantFirst(s[8..16], id) && MostSignificantFirst(s[16..20], |body|) && s[20..] == body
  {
    var m := EncodeBody(cs, msgType, codec, compress, id, x);
    var body := Compress(g, compress, m.data);
    var s, t := Encode(g, m), EncodeHeader(HeaderOf(m, |body|));
    assert s[..8] == t[..8] && s[8..16] == t[8..16] && s[16..20] == t[16..20] && s[20..] == body;
    HeaderLayout(m, |body|);
  }

  // ---------------------------------------------------------------- the code

  /** binary.BigEndian.PutUintN: fills buf[at..at+k]. */
  method PutBigEndian(buf: array<Byte>, at: nat, n: nat, k: nat)
    requires at + k <= buf.Length
    modifies buf
    ensures buf[at..at + k] == BigEndian(n, k)
    ensures buf[..at] == old(buf[..at]) && buf[at + k..] == old(buf[at + k..])
  {
    if k > 0 {
      buf[at + k - 1] := n % 256;
      PutBigEndian(buf, at, n / 256, k - 1);
      assert buf[at + k - 1..][0] == n % 256;
      assert buf[at..at + k] == buf[at..at + k - 1] + [n % 256];
      assert buf[at + k..] == buf[at + k - 1..][1..];
    }
  }

  /** Header.Encode. */
  method FillHeader(h: Header) returns (buf: array<Byte>)
    ensures fresh(buf) && buf[..] == EncodeHeader(h)
  {
    buf := new Byte[HEADER_LENGTH](_ => 0);
    PutBigEndian(buf, 0, h.magic, 2);
    buf[2], buf[3], buf[4], buf[5], buf[6], buf[7] :=
      h.version, h.msgType, h.codec, h.compress, h.reserved0, h.reserved1;
    ghost var front := buf[..8];
    assert front == BigEndian(h.magic, 2) + [h.version, h.msgType, h.codec, h.compress, h.reserved0, h.reserved1] by {
      assert buf[0..2] == BigEndian(h.magic, 2);
    }
    PutBigEndian(buf, 8, h.requestId, 8);
    assert buf[..8] == front;
    ghost var mid := buf[8..16];
    ghost var both := buf[..16];
    assert both == front + mid;
    PutBigEndian(buf, 16, h.bodyLength, 4);
    assert buf[..] == buf[..16] + buf[16..20];
  }

  /** The reading end of a connection: the bytes still to come before it ends. */
  class Reader {
    var bytes: seq<Byte>

    constructor (bytes: seq<Byte>)
      ensures this.bytes == bytes
    {
      this.bytes := bytes;
    }

    /** io.ReadFull. */
    method ReadFull(n: nat) returns (r: Option<seq<Byte>>)
      modifies this
      ensures n <= |old(bytes)| ==> r == Some(old(bytes)[..n]) && bytes == old(bytes)[n..]
      ensures n > |old(bytes)| ==> r.None? && bytes == []
    {
      if |bytes| < n {
        bytes := [];
        return None;
      }
      r, bytes := Some(bytes[..n]), bytes[n..];
    }

    method DecodeFromReader(g: Gzip) returns (r: Result<(Header, seq<Byte>)>)
      modifies this
      ensures match Decode(g, old(bytes))
        case Ok(d) => r == Ok((d.header, d.data)) && bytes == d.rest
        case Err(e) => r == Err(e)
    {
      var headerBytes := ReadFull(HEADER_LENGTH);
      if headerBytes.None? { return Err(ShortHeader); }
      var header := DecodeHeader(headerBytes.value);
      if header.Err? { return Err(header.error); }
      var body := ReadFull(header.value.bodyLength);
      if body.None? { return Err(ShortBody); }
      var data := Decompress(g, header.value.compress, body.value);
      if data.None? { return Err(BadCompression); }
      return Ok((header.value, data.value));
    }
  }

  /** The writing end of a connection; each Write meets the next of the outcomes, and fails once there is none left.
      `failed` is whether one has failed so far. */
  class Writer {
    var wire: seq<Byte>
    var outcomes: seq<(nat, bool)>
    var failed: bool

    constructor (outcomes: seq<(nat, bool)>)
      ensures wire == [] && this.outcomes == outcomes && !failed
    {
      wire, this.outcomes, failed := [], outcomes, false;
    }

    /** conn.Write: some bytes reach the wire; without an error at least one does. */
    method Write(b: seq<Byte>) returns (n: nat, ok: bool)
      requires b != []
      modifies this
      ensures n <= |b| && wire == old(wire) + b[..n] && (ok ==> n > 0) && failed == (old(failed) || !ok)
    {
      if outcomes == [] {
        failed := true;
        return 0, false;
      }
      var (most, fine) := outcomes[0];
      n := if most < |b| then most else |b|;
      wire, outcomes, ok := wire + b[..n], outcomes[1..], fine && n > 0;
      failed := failed || !ok;
    }

    /** writeFull: the whole of b reaches the wire, or a prefix of it and an error, which is there exactly when a Write
        has failed. */
    method WriteFull(b: seq<Byte>) returns (ok: bool)
      modifies this
      ensures failed == (old(failed) || !ok)
      ensures exists n :: 0 <= n <= |b| && wire == old(wire) + b[..n] && (ok ==> n == |b|)
    {
      var left := b;
      while left != []
        invariant |left| <= |b| && left == b[|b| - |left|..] && wire == old(wire) + b[..|b| - |left|]
        invariant failed == old(failed)
        decreases |left|
      {
        ghost var done := |b| - |left|;
        var n, fine := Write(left);
        assert b[..done] + left[..n] == b[..done + n];
        if !fine {
          assert wire == old(wire) + b[..done + n];
          return false;
        }
        left := left[n..];
      }
      assert wire == old(wire) + b[..|b|];
      return true;
    }

    /** The writer goroutine: it writes frame after frame and stops at the first error, having put a prefix of the
        stream on the wire. */
    method WriteOut(g: Gzip, ms: seq<Message>) returns (ok: bool, ghost k: nat)
      requires wire == [] && !failed
      modifies this
      ensures ok == !failed
      ensures k <= |EncodeAll(g, ms)| && wire == EncodeAll(g, ms)[..k] && (ok ==> k == |EncodeAll(g, ms)|)
    {
      ok, k := true, 0;
      var i := 0;
      ghost var stream := EncodeAll(g, ms);
      while ok && i < |ms|
        invariant i <= |ms| && k <= |stream| && wire == stream[..k] && ok == !failed
        invariant ok ==> stream[k..] == EncodeAll(g, ms[i..])
        decreases |ms| - i
      {
        var frame := Encode(g, ms[i]);
        ghost var before, others := wire, EncodeAll(g, ms[i + 1..]);
        assert stream[k..] == frame + others by {
          assert ms[i..][0] == ms[i] && ms[i..][1..] == ms[i + 1..];
        }
        ok := WriteFull(frame);
        ghost var n :| 0 <= n <= |frame| && wire == before + frame[..n] && (ok ==> n == |frame|);
        FrameAt(stream, k, frame, others, n);
        k, i := k + n, i + 1;
      }
    }
  }
}
