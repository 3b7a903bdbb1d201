/**
 RLPx framing (common/p2p/rlpx.go): messages become encrypted frames with two MACs each,
 and the reader's cipher position and MAC state must follow the writer's.

 The keystream, the hash, the MAC block cipher, the RLP form of a message code and snappy
 are parameters with their usual laws.
 */
module Rlpx {

  type Byte = n: nat | n < 256
  type Bytes = seq<Byte>
  type Block = b: Bytes | |b| == 16 witness seq(16, _ => 0)
  type Digest = b: Bytes | |b| == 32 witness seq(32, _ => 0)

  datatype Option<T> = None | Some(value: T)

  /** A message code read from the front of a frame, and how many bytes it took. */
  datatype Code = Code(code: nat, size: nat)

  datatype Primitives = Primitives(
    keystream: nat -> Byte,
    hash: Bytes -> Digest,
    block: Block -> Block,
    encodeCode: nat -> Bytes,
    decodeCode: Bytes -> Option<Code>,
    compress: Bytes -> Bytes,
    decodedLen: Bytes -> Option<nat>,
    decompress: Bytes -> Option<Bytes>)

  /** Codes and compressed payloads decode to what was encoded. */
  ghost predicate Laws(c: Primitives) {
    && (forall code, rest :: c.decodeCode(c.encodeCode(code) + rest) == Some(Code(code, |c.encodeCode(code)|)))
    && (forall p :: c.decompress(c.compress(p)) == Some(p) && c.decodedLen(c.compress(p)) == Some(|p|))
  }

  const MAX_UINT24 := 0xff_ffff
  const TWO32 := 0x1_0000_0000

  // ------------------------------------------------------------------------- pieces

  function Pow2(k: nat): nat {
    if k == 0 then 1 else 2 * Pow2(k - 1)
  }

  /** Exclusive or of the low `k` bits. */
  function XorBits(a: nat, b: nat, k: nat): (r: nat)
    ensures r < Pow2(k)
  {
    if k == 0 then 0 else (a + b) % 2 + 2 * XorBits(a / 2, b / 2, k - 1)
  }

  function Xor(a: Byte, b: Byte): Byte {
    assert Pow2(8) == 256;
    XorBits(a, b, 8)
  }

  function PutInt24(v: nat): (b: Bytes)
    requires v <= MAX_UINT24
    ensures |b| == 3
  {
    [v / 65536, v / 256 % 256, v % 256]
  }

  function ReadInt24(b: Bytes): nat
    requires |b| >= 3
  {
    var x: nat, y: nat, z: nat := b[0], b[1], b[2];
    z + 256 * y + 65536 * x
  }

  lemma Digits(v: nat)
    requires v <= MAX_UINT24
    ensures v == v % 256 + 256 * (v / 256 % 256) + 65536 * (v / 65536)
  {
  }

  /** Reading undoes putting, whatever follows. */
  lemma Int24RoundTrip(v: nat, rest: Bytes)
    requires v <= MAX_UINT24
    ensures ReadInt24(PutInt24(v) + rest) == v
  {
    Digits(v);
  }

  /** XOR with the keystream from a position on. */
  function Crypt(c: Primitives, pos: nat, data: Bytes): (r: Bytes)
    ensures |r| == |data|
  {
    seq(|data|, i requires 0 <= i < |data| => Xor(data[i], c.keystream(pos + i)))
  }

  lemma Halves(bit: nat, x: nat)
    requires bit < 2
    ensures (bit + 2 * x) / 2 == x && (bit + 2 * x) % 2 == bit
  {
  }

  lemma BitTwice(a: nat, b: nat, y: nat)
    requires y % 2 == (a + b) % 2
    ensures (y + b) % 2 == a % 2
  {
  }

  lemma {:induction false} XorBitsTwice(a: nat, b: nat, k: nat)
    requires a < Pow2(k)
    ensures XorBits(XorBits(a, b, k), b, k) == a
  {
    if k > 0 {
      var y := XorBits(a, b, k);
      XorBitsTwice(a / 2, b / 2, k - 1);
      Halves((a + b) % 2, XorBits(a / 2, b / 2, k - 1));
      BitTwice(a, b, y);
      assert XorBits(y, b, k) == (y + b) % 2 + 2 * XorBits(y / 2, b / 2, k - 1);
    }
  }

  lemma XorTwice(a: Byte, b: Byte)
    ensures Xor(Xor(a, b), b) == a
  {
    assert Pow2(8) == 256;
    XorBitsTwice(a, b, 8);
  }

  lemma CryptTwice(c: Primitives, pos: nat, data: Bytes)
    ensures Crypt(c, pos, Crypt(c, pos, data)) == data
  {
    forall i | 0 <= i < |data|
      ensures Crypt(c, pos, Crypt(c, pos, data))[i] == data[i]
    {
      XorTwice(data[i], c.keystream(pos + i));
    }
  }

  lemma CryptAppend(c: Primitives, pos: nat, a: Bytes, b: Bytes)
    ensures Crypt(c, pos, a + b) == Crypt(c, pos, a) + Crypt(c, pos + |a|, b)
  {
  }

  lemma CryptPieces(c: Primitives, pos: nat, x: Bytes, y: Bytes, z: Bytes)
    ensures Crypt(c, pos, x + y + z) == Crypt(c, pos, x) + Crypt(c, pos + |x|, y) + Crypt(c, pos + |x| + |y|, z)
  {
    CryptAppend(c, pos, x, y);
    CryptAppend(c, pos, x + y, z);
  }

  lemma TeePieces(mac: Bytes, a: Bytes, b: Bytes, z: Bytes)
    ensures mac + a + b + z == mac + (a + b + z)
    ensures z == [] ==> mac + a + b == mac + (a + b + z)
  {
    assert z == [] ==> a + b + z == a + b;
  }

  function Xor16(a: Block, seed: Bytes): (r: Block)
    requires |seed| >= 16
  {
    seq(16, i requires 0 <= i < 16 => Xor(a[i], seed[i]))
  }

  /** The MAC state, as all that was written to its hash, after reseeding. */
  function UpdateMac(c: Primitives, mac: Bytes, seed: Bytes): Bytes
    requires |seed| >= 16
  {
    mac + Xor16(c.block(c.hash(mac)[..16]), seed)
  }

  function Tag(c: Primitives, mac: Bytes): (t: Bytes)
    ensures |t| == 16
  {
    c.hash(mac)[..16]
  }

  function Zeros(n: nat): (z: Bytes)
    ensures |z| == n
  {
    seq(n, _ => 0)
  }

  function Padding(n: nat): (p: nat)
    ensures p < 16 && (n + p) % 16 == 0
  {
    if n % 16 > 0 then 16 - n % 16 else 0
  }

  // ------------------------------------------------------------------- one direction

  /** One direction of a connection: the keystream position and the MAC state. */
  datatype Side = Side(pos: nat, mac: Bytes)

  datatype Msg = Msg(code: nat, payload: Bytes)

  /** The encrypted 16-byte header: the frame size, the fixed header data, zeros. */
  function Header(c: Primitives, pos: nat, fsize: nat): (h: Bytes)
    requires fsize <= MAX_UINT24
    ensures |h| == 16
  {
    Crypt(c, pos, PutInt24(fsize) + ([0xC2, 0x80, 0x80] + Zeros(10)))
  }

  function HeaderMac(c: Primitives, s: Side, header: Bytes): Bytes
    requires |header| >= 16
  {
    UpdateMac(c, s.mac, header)
  }

  function FrameMac(c: Primitives, mac: Bytes, body: Bytes): Bytes {
    UpdateMac(c, mac + body, c.hash(mac + body))
  }

  /** The state after a frame with the given encrypted header and body. */
  function After(c: Primitives, s: Side, header: Bytes, body: Bytes): Side
    requires |header| == 16
  {
    Side(s.pos + 16 + |body|, FrameMac(c, HeaderMac(c, s, header), body))
  }

  /** A frame on the wire. */
  function Frame(c: Primitives, s: Side, header: Bytes, body: Bytes): (w: Bytes)
    requires |header| == 16
    ensures |w| == 48 + |body|
  {
    header + Tag(c, HeaderMac(c, s, header)) + body + Tag(c, After(c, s, header, body).mac)
  }

  /** The plain frame content: the code, the payload and zeros up to the announced size's padding. */
  function Content(c: Primitives, msg: Msg, fsize: nat): Bytes {
    c.encodeCode(msg.code) + msg.payload + Zeros(Padding(fsize))
  }

  /** What is written for a message, and the payload that goes into the frame. */
  function Plain(c: Primitives, snappy: bool, msg: Msg): Msg {
    if snappy then Msg(msg.code, c.compress(msg.payload)) else msg
  }

  /** The size as the writer computes it, in 32 bits. */
  function FrameSize(c: Primitives, msg: Msg): nat {
    (|c.encodeCode(msg.code)| + |msg.payload|) % TWO32
  }

  datatype WriteResult = Written(wire: Bytes, side: Side) | TooLarge

  function WriteMsg(c: Primitives, snappy: bool, s: Side, msg: Msg): WriteResult {
    if snappy && |msg.payload| > MAX_UINT24 then TooLarge
    else
      var plain := Plain(c, snappy, msg);
      var fsize := FrameSize(c, plain);
      if fsize > MAX_UINT24 then TooLarge
      else
        var header := Header(c, s.pos, fsize);
        var body := Crypt(c, s.pos + 16, Content(c, plain, fsize));
        Written(Frame(c, s, header, body), After(c, s, header, body))
  }

  datatype ReadError = ShortInput | BadHeaderMac | BadFrameMac | BadCode | BadPayload | PlainTooLarge

  datatype ReadResult = Read(msg: Msg, side: Side, rest: Bytes) | Failed(error: ReadError)

  function Unpack(c: Primitives, snappy: bool, code: nat, payload: Bytes, side: Side, rest: Bytes): ReadResult {
    if !snappy then Read(Msg(code, payload), side, rest)
    else
      match c.decodedLen(payload)
      case None => Failed(BadPayload)
      case Some(size) =>
        if size > MAX_UINT24 then Failed(PlainTooLarge)
        else
          match c.decompress(payload)
          case None => Failed(BadPayload)
          case Some(plain) => Read(Msg(code, plain), side, rest)
  }

  /** The frame content after both MACs were accepted. */
  function ReadContent(c: Primitives, snappy: bool, content: Bytes, side: Side, rest: Bytes): ReadResult {
    match c.decodeCode(content)
    case None => Failed(BadCode)
    case Some(k) =>
      if k.size > |content| then Failed(BadCode) else Unpack(c, snappy, k.code, content[k.size..], side, rest)
  }

  /** Reading on after the header was accepted. */
  function ReadFrame(c: Primitives, snappy: bool, s: Side, header: Bytes, fsize: nat, input: Bytes): ReadResult
    requires |header| == 16
  {
    var rsize := fsize + Padding(fsize);
    if |input| < 48 + rsize then Failed(ShortInput)
    else
      var body := input[32..32 + rsize];
      var side := After(c, s, header, body);
      if Tag(c, side.mac) != input[32 + rsize..48 + rsize] then Failed(BadFrameMac)
      else ReadContent(c, snappy, Crypt(c, s.pos + 16, body)[..fsize], side, input[48 + rsize..])
  }

  function ReadMsg(c: Primitives, snappy: bool, s: Side, input: Bytes): ReadResult {
    if |input| < 32 then Failed(ShortInput)
    else
      var header := input[..16];
      if Tag(c, HeaderMac(c, s, header)) != input[16..32] then Failed(BadHeaderMac)
      else ReadFrame(c, snappy, s, header, ReadInt24(Crypt(c, s.pos, header)), input)
  }

  // -------------------------------------------------------------------- round trip

  /** The parts of a frame, read back from the wire. */
  lemma Slices(h: Bytes, t1: Bytes, body: Bytes, t2: Bytes, rest: Bytes)
    requires |h| == 16 && |t1| == 16 && |t2| == 16
    ensures var w := h + t1 + body + t2 + rest;
            && |w| == 48 + |body| + |rest|
            && w[..16] == h && w[16..32] == t1 && w[32..32 + |body|] == body
            && w[32 + |body|..48 + |body|] == t2 && w[48 + |body|..] == rest
  {
  }

  lemma HeaderRoundTrip(c: Primitives, pos: nat, fsize: nat)
    requires fsize <= MAX_UINT24
    ensures ReadInt24(Crypt(c, pos, Header(c, pos, fsize))) == fsize
  {
    CryptTwice(c, pos, PutInt24(fsize) + ([0xC2, 0x80, 0x80] + Zeros(10)));
    Int24RoundTrip(fsize, [0xC2, 0x80, 0x80] + Zeros(10));
  }

  lemma HeaderAccepted(c: Primitives, snappy: bool, s: Side, fsize: nat, input: Bytes)
    requires fsize <= MAX_UINT24 && |input| >= 32 && input[..16] == Header(c, s.pos, fsize)
    requires input[16..32] == Tag(c, HeaderMac(c, s, Header(c, s.pos, fsize)))
    ensures ReadMsg(c, snappy, s, input) == ReadFrame(c, snappy, s, Header(c, s.pos, fsize), fsize, input)
  {
    HeaderRoundTrip(c, s.pos, fsize);
  }

  lemma BodyAccepted(c: Primitives, snappy: bool, s: Side, header: Bytes, fsize: nat, input: Bytes, body: Bytes, rest: Bytes)
    requires |header| == 16 && |body| == fsize + Padding(fsize) && |input| == 48 + |body| + |rest|
    requires input[32..32 + |body|] == body && input[48 + |body|..] == rest
    requires input[32 + |body|..48 + |body|] == Tag(c, After(c, s, header, body).mac)
    ensures ReadFrame(c, snappy, s, header, fsize, input)
            == ReadContent(c, snappy, Crypt(c, s.pos + 16, body)[..fsize], After(c, s, header, body), rest)
  {
  }

  /** A frame whose body has the announced size is accepted, and leaves the reader where the writer is. */
  lemma FrameAccepted(c: Primitives, snappy: bool, s: Side, fsize: nat, body: Bytes, rest: Bytes)
    requires fsize <= MAX_UINT24 && |body| == fsize + Padding(fsize)
    ensures var header := Header(c, s.pos, fsize);
            ReadMsg(c, snappy, s, Frame(c, s, header, body) + rest)
            == ReadContent(c, snappy, Crypt(c, s.pos + 16, body)[..fsize], After(c, s, header, body), rest)
  {
    var header := Header(c, s.pos, fsize);
    var input := Frame(c, s, header, body) + rest;
    Slices(header, Tag(c, HeaderMac(c, s, header)), body, Tag(c, After(c, s, header, body).mac), rest);
    HeaderAccepted(c, snappy, s, fsize, input);
    BodyAccepted(c, snappy, s, header, fsize, input, body, rest);
  }

  /** The size fits without wrapping. */
  ghost predicate Fits(c: Primitives, snappy: bool, msg: Msg) {
    && (snappy ==> |msg.payload| <= MAX_UINT24)
    && |c.encodeCode(msg.code)| + |Plain(c, snappy, msg).payload| <= MAX_UINT24
  }

  lemma ContentRead(c: Primitives, snappy: bool, msg: Msg, side: Side, rest: Bytes)
    requires Laws(c) && (snappy ==> |msg.payload| <= MAX_UINT24)
    ensures var plain := Plain(c, snappy, msg);
            ReadContent(c, snappy, c.encodeCode(plain.code) + plain.payload, side, rest) == Read(msg, side, rest)
  {
    var plain := Plain(c, snappy, msg);
    var content := c.encodeCode(plain.code) + plain.payload;
    assert content[|c.encodeCode(plain.code)|..] == plain.payload;
  }

  lemma ContentCut(c: Primitives, plain: Msg, fsize: nat)
    requires fsize == |c.encodeCode(plain.code)| + |plain.payload|
    ensures |Content(c, plain, fsize)| == fsize + Padding(fsize)
    ensures Content(c, plain, fsize)[..fsize] == c.encodeCode(plain.code) + plain.payload
  {
  }

  lemma Writes(c: Primitives, snappy: bool, s: Side, msg: Msg, fsize: nat)
    requires Fits(c, snappy, msg) && fsize == |c.encodeCode(msg.code)| + |Plain(c, snappy, msg).payload|
    ensures var header := Header(c, s.pos, fsize);
            var body := Crypt(c, s.pos + 16, Content(c, Plain(c, snappy, msg), fsize));
            WriteMsg(c, snappy, s, msg) == Written(Frame(c, s, header, body), After(c, s, header, body))
  {
    assert FrameSize(c, Plain(c, snappy, msg)) == fsize;
  }

  /** What a frame carries comes out as the message it was made from. */
  lemma Reads(c: Primitives, snappy: bool, s: Side, msg: Msg, fsize: nat, rest: Bytes)
    requires Laws(c) && Fits(c, snappy, msg) && fsize == |c.encodeCode(msg.code)| + |Plain(c, snappy, msg).payload|
    ensures var header := Header(c, s.pos, fsize);
            var body := Crypt(c, s.pos + 16, Content(c, Plain(c, snappy, msg), fsize));
            ReadMsg(c, snappy, s, Frame(c, s, header, body) + rest) == Read(msg, After(c, s, header, body), rest)
  {
    var plain := Plain(c, snappy, msg);
    var content := Content(c, plain, fsize);
    var body := Crypt(c, s.pos + 16, content);
    ContentCut(c, plain, fsize);
    FrameAccepted(c, snappy, s, fsize, body, rest);
    CryptTwice(c, s.pos + 16, content);
    ContentRead(c, snappy, msg, After(c, s, Header(c, s.pos, fsize), body), rest);
  }

  /** One message: the reader gets it back and is in the writer's state, with the rest of the stream untouched. */
  lemma MessageRoundTrip(c: Primitives, snappy: bool, s: Side, msg: Msg, rest: Bytes)
    requires Laws(c) && Fits(c, snappy, msg)
    ensures WriteMsg(c, snappy, s, msg).Written?
    ensures var w := WriteMsg(c, snappy, s, msg);
            ReadMsg(c, snappy, s, w.wire + rest) == Read(msg, w.side, rest)
  {
    var fsize := |c.encodeCode(msg.code)| + |Plain(c, snappy, msg).payload|;
    Writes(c, snappy, s, msg, fsize);
    Reads(c, snappy, s, msg, fsize, rest);
  }

  // ------------------------------------------------------------------------ streams

  type Put = (Side, Msg) -> WriteResult
  type Get = (Side, Bytes) -> ReadResult

  function Writer(c: Primitives, snappy: bool): Put {
    (s: Side, msg: Msg) => WriteMsg(c, snappy, s, msg)
  }

  function Reader(c: Primitives, snappy: bool): Get {
    (s: Side, input: Bytes) => ReadMsg(c, snappy, s, input)
  }

  datatype Stream = Stream(wire: Bytes, side: Side)

  /** The messages that are not refused, one after the other. */
  function WriteAll(put: Put, s: Side, msgs: seq<Msg>): Stream
    decreases |msgs|
  {
    if |msgs| == 0 then Stream([], s)
    else
      match put(s, msgs[0])
      case TooLarge => WriteAll(put, s, msgs[1..])
      case Written(wire, side) =>
        var later := WriteAll(put, side, msgs[1..]);
        Stream(wire + later.wire, later.side)
  }

  datatype Received = Received(msgs: seq<Msg>, side: Side, rest: Bytes)

  /** Up to `n` messages, until one is not accepted. */
  function ReadAll(get: Get, s: Side, input: Bytes, n: nat): Received
    decreases n
  {
    if n == 0 then Received([], s, input)
    else
      match get(s, input)
      case Failed(_) => Received([], s, input)
      case Read(msg, side, rest) =>
        var later := ReadAll(get, side, rest, n - 1);
        Received([msg] + later.msgs, later.side, later.rest)
  }

  /** The reader undoes the writer on one message, from any common state and before any rest. */
  ghost predicate Undoes(put: Put, get: Get, msg: Msg) {
    && (forall s :: put(s, msg).Written?)
    && forall s, rest :: get(s, put(s, msg).wire + rest) == Read(msg, put(s, msg).side, rest)
  }

  lemma {:induction false} StreamUndone(put: Put, get: Get, s: Side, msgs: seq<Msg>, rest: Bytes)
    requires forall i :: 0 <= i < |msgs| ==> Undoes(put, get, msgs[i])
    ensures var w := WriteAll(put, s, msgs);
            ReadAll(get, s, w.wire + rest, |msgs|) == Received(msgs, w.side, rest)
    decreases |msgs|
  {
    if |msgs| == 0 {
      assert [] + rest == rest;
    } else {
      assert Undoes(put, get, msgs[0]);
      var w := put(s, msgs[0]);
      var later := WriteAll(put, w.side, msgs[1..]);
      StreamUndone(put, get, w.side, msgs[1..], rest);
      assert (w.wire + later.wire) + rest == w.wire + (later.wire + rest);
      assert get(s, w.wire + (later.wire + rest)) == Read(msgs[0], w.side, later.wire + rest);
      assert msgs == [msgs[0]] + msgs[1..];
    }
  }

  /** A whole stream: every frame is accepted, the messages come back in order, and both ends are in step. */
  lemma StreamRoundTrip(c: Primitives, snappy: bool, s: Side, msgs: seq<Msg>, rest: Bytes)
    requires Laws(c) && forall i :: 0 <= i < |msgs| ==> Fits(c, snappy, msgs[i])
    ensures var w := WriteAll(Writer(c, snappy), s, msgs);
            ReadAll(Reader(c, snappy), s, w.wire + rest, |msgs|) == Received(msgs, w.side, rest)
  {
    forall i | 0 <= i < |msgs|
      ensures Undoes(Writer(c, snappy), Reader(c, snappy), msgs[i])
    {
      assert Fits(c, snappy, msgs[i]);
      MessageUndone(c, snappy, msgs[i]);
    }
    StreamUndone(Writer(c, snappy), Reader(c, snappy), s, msgs, rest);
  }

  lemma MessageUndone(c: Primitives, snappy: bool, msg: Msg)
    requires Laws(c) && Fits(c, snappy, msg)
    ensures Undoes(Writer(c, snappy), Reader(c, snappy), msg)
  {
    var put, get := Writer(c, snappy), Reader(c, snappy);
    forall s
      ensures put(s, msg).Written?
    {
      MessageRoundTrip(c, snappy, s, msg, []);
    }
    forall s, rest
      ensures get(s, put(s, msg).wire + rest) == Read(msg, put(s, msg).side, rest)
    {
      MessageRoundTrip(c, snappy, s, msg, rest);
    }
  }

  // --------------------------------------------------------------- sizes that wrap

  /** An accepted message leaves the reader just behind the frame the header announces. */
  lemma ReadAdvances(c: Primitives, snappy: bool, s: Side, header: Bytes, fsize: nat, input: Bytes)
    requires |header| == 16 && ReadFrame(c, snappy, s, header, fsize, input).Read?
    ensures ReadFrame(c, snappy, s, header, fsize, input).side.pos == s.pos + 16 + fsize + Padding(fsize)
  {
  }

  lemma FrameHead(c: Primitives, s: Side, header: Bytes, body: Bytes, rest: Bytes)
    requires |header| == 16
    ensures var w := Frame(c, s, header, body) + rest;
            |w| >= 32 && w[..16] == header && w[16..32] == Tag(c, HeaderMac(c, s, header))
  {
    Slices(header, Tag(c, HeaderMac(c, s, header)), body, Tag(c, After(c, s, header, body).mac), rest);
  }

  lemma WrappedSide(c: Primitives, snappy: bool, s: Side, msg: Msg)
    requires WriteMsg(c, snappy, s, msg).Written?
    ensures var plain := Plain(c, snappy, msg);
            var fsize := FrameSize(c, plain);
            var header := Header(c, s.pos, fsize);
            var body := Crypt(c, s.pos + 16, Content(c, plain, fsize));
            && WriteMsg(c, snappy, s, msg) == Written(Frame(c, s, header, body), After(c, s, header, body))
            && WriteMsg(c, snappy, s, msg).side.pos
               == s.pos + 16 + |c.encodeCode(plain.code)| + |plain.payload| + Padding(fsize)
  {
  }

  /** A size that wrapped around 32 bits is accepted by the writer, and leaves the two ends apart. */
  lemma WrapApart(c: Primitives, snappy: bool, s: Side, msg: Msg, rest: Bytes)
    requires WriteMsg(c, snappy, s, msg).Written? && !Fits(c, snappy, msg)
    ensures var w := WriteMsg(c, snappy, s, msg);
            ReadMsg(c, snappy, s, w.wire + rest) != Read(msg, w.side, rest)
  {
    var plain := Plain(c, snappy, msg);
    var fsize := FrameSize(c, plain);
    var header := Header(c, s.pos, fsize);
    var body := Crypt(c, s.pos + 16, Content(c, plain, fsize));
    var w := WriteMsg(c, snappy, s, msg);
    WrappedSide(c, snappy, s, msg);
    FrameHead(c, s, header, body, rest);
    HeaderAccepted(c, snappy, s, fsize, w.wire + rest);
    if ReadFrame(c, snappy, s, header, fsize, w.wire + rest).Read? {
      ReadAdvances(c, snappy, s, header, fsize, w.wire + rest);
    }
  }

  /** For messages the writer accepts, the reader follows exactly when the size did not wrap. */
  lemma RoundTripExact(c: Primitives, snappy: bool, s: Side, msg: Msg, rest: Bytes)
    requires Laws(c) && WriteMsg(c, snappy, s, msg).Written?
    ensures var w := WriteMsg(c, snappy, s, msg);
            ReadMsg(c, snappy, s, w.wire + rest) == Read(msg, w.side, rest) <==> Fits(c, snappy, msg)
  {
    if Fits(c, snappy, msg) {
      MessageRoundTrip(c, snappy, s, msg, rest);
    } else {
      WrapApart(c, snappy, s, msg, rest);
    }
  }

  /** Such messages exist: a payload that brings the size to exactly 2^32 is announced as empty. */
  lemma WrapExample(c: Primitives, s: Side, code: nat)
    requires |c.encodeCode(code)| <= 9
    ensures var msg := Msg(code, Zeros(TWO32 - |c.encodeCode(code)|));
            FrameSize(c, msg) == 0 && WriteMsg(c, false, s, msg).Written? && !Fits(c, false, msg)
  {
    var msg := Msg(code, Zeros(TWO32 - |c.encodeCode(code)|));
    assert |c.encodeCode(code)| + |msg.payload| == TWO32;
  }

  // --------------------------------------------------------------------- handshake

  /** `xor` of two byte strings, as long as the first. */
  function XorBytes(one: Bytes, other: Bytes): Bytes
    requires |one| <= |other|
  {
    seq(|one|, i requires 0 <= i < |one| => Xor(one[i], other[i]))
  }

  datatype Secrets = Secrets(aes: Bytes, macKey: Bytes, egress: Bytes, ingress: Bytes)

  /** The session secrets from the agreed secret, the nonces and the two handshake packets. */
  function DeriveSecrets(hash: Bytes -> Digest, initiator: bool, ecdhe: Bytes, respNonce: Digest, initNonce: Digest,
                         auth: Bytes, authResp: Bytes): Secrets {
    var shared := hash(ecdhe + hash(respNonce + initNonce));
    var aes := hash(ecdhe + shared);
    var macKey := hash(ecdhe + aes);
    var mac1 := XorBytes(macKey, respNonce) + auth;
    var mac2 := XorBytes(macKey, initNonce) + authResp;
    if initiator then Secrets(aes, macKey, mac1, mac2) else Secrets(aes, macKey, mac2, mac1)
  }

  /** The keyed ciphers behind the primitives. */
  datatype Ciphers = Ciphers(stream: Bytes -> (nat -> Byte), block: Bytes -> (Block -> Block))

  /** One end of a connection: its primitives and its two directions. */
  datatype End = End(c: Primitives, egress: Side, ingress: Side)

  function NewEnd(k: Ciphers, c: Primitives, s: Secrets): End {
    End(c.(keystream := k.stream(s.aes), block := k.block(s.macKey)), Side(0, s.egress), Side(0, s.ingress))
  }

  /** A connection: what either end writes after the handshake, the other reads. */
  lemma Connection(k: Ciphers, c: Primitives, ecdhe: Bytes, respNonce: Digest, initNonce: Digest,
                   auth: Bytes, authResp: Bytes, snappy: bool, initiatorWrites: bool, msgs: seq<Msg>)
    requires Laws(c) && forall i :: 0 <= i < |msgs| ==> Fits(c, snappy, msgs[i])
    ensures var from := NewEnd(k, c, DeriveSecrets(c.hash, initiatorWrites, ecdhe, respNonce, initNonce, auth, authResp));
            var to := NewEnd(k, c, DeriveSecrets(c.hash, !initiatorWrites, ecdhe, respNonce, initNonce, auth, authResp));
            var w := WriteAll(Writer(from.c, snappy), from.egress, msgs);
            ReadAll(Reader(to.c, snappy), to.ingress, w.wire, |msgs|) == Received(msgs, w.side, [])
  {
    var from := NewEnd(k, c, DeriveSecrets(c.hash, initiatorWrites, ecdhe, respNonce, initNonce, auth, authResp));
    var to := NewEnd(k, c, DeriveSecrets(c.hash, !initiatorWrites, ecdhe, respNonce, initNonce, auth, authResp));
    assert from.c == to.c && from.egress == to.ingress;
    SameCodec(c, from.c, snappy, msgs);
    var w := WriteAll(Writer(from.c, snappy), from.egress, msgs);
    StreamRoundTrip(from.c, snappy, from.egress, msgs, []);
    assert w.wire + [] == w.wire;
  }

  lemma SameCodec(c: Primitives, d: Primitives, snappy: bool, msgs: seq<Msg>)
    requires d == c.(keystream := d.keystream, block := d.block)
    requires Laws(c) && forall i :: 0 <= i < |msgs| ==> Fits(c, snappy, msgs[i])
    ensures Laws(d) && forall i :: 0 <= i < |msgs| ==> Fits(d, snappy, msgs[i])
  {
    forall i | 0 <= i < |msgs|
      ensures Fits(d, snappy, msgs[i])
    {
      assert Fits(c, snappy, msgs[i]);
    }
  }

  // -------------------------------------------------------------- the frame reader/writer

  class FrameRW {
    const c: Primitives
    const snappy: bool
    var encPos: nat
    var decPos: nat
    var egress: Bytes
    var ingress: Bytes

    ghost function Out(): Side
      reads this
    {
      Side(encPos, egress)
    }

    ghost function In(): Side
      reads this
    {
      Side(decPos, ingress)
    }

    constructor (e: End, snappy: bool)
      requires e.egress.pos == 0 && e.ingress.pos == 0
      ensures c == e.c && this.snappy == snappy && Out() == e.egress && In() == e.ingress
    {
      c := e.c;
      this.snappy := snappy;
      encPos, decPos := 0, 0;
      egress, ingress := e.egress.mac, e.ingress.mac;
    }

    /** Encrypts the next bytes of the output. */
    method Encrypt(data: Bytes) returns (out: Bytes)
      modifies this`encPos
      ensures out == Crypt(c, old(encPos), data) && encPos == old(encPos) + |data|
    {
      out := [];
      for i := 0 to |data|
        invariant |out| == i && forall j :: 0 <= j < i ==> out[j] == Xor(data[j], c.keystream(encPos + j))
        invariant encPos == old(encPos)
      {
        out := out + [Xor(data[i], c.keystream(encPos + i))];
      }
      encPos := encPos + |data|;
    }

    /** Encrypts, and writes what goes out to the MAC as well. */
    method Tee(data: Bytes) returns (out: Bytes)
      modifies this`encPos, this`egress
      ensures out == Crypt(c, old(encPos), data) && encPos == old(encPos) + |data| && egress == old(egress) + out
    {
      out := Encrypt(data);
      egress := egress + out;
    }

    /** Frame content goes out in three pieces: the code, the payload, the padding. */
    method TeeContent(plain: Msg, fsize: nat) returns (out: Bytes)
      modifies this`encPos, this`egress
      ensures out == Crypt(c, old(encPos), Content(c, plain, fsize))
      ensures encPos == old(encPos) + |out| && egress == old(egress) + out
    {
      var ptype := c.encodeCode(plain.code);
      var a := Tee(ptype);
      var b := Tee(plain.payload);
      var z := [];
      if fsize % 16 > 0 {
        z := Tee(Zeros(16 - fsize % 16));
      }
      CryptPieces(c, old(encPos), ptype, plain.payload, Zeros(Padding(fsize)));
      out := a + b + z;
      TeePieces(old(egress), a, b, z);
    }

    /** Header, header MAC, content, frame MAC. */
    method WriteFrame(plain: Msg, fsize: nat) returns (wire: Bytes)
      requires fsize <= MAX_UINT24
      modifies this`encPos, this`egress
      ensures var s := old(Out());
              var header := Header(c, s.pos, fsize);
              var body := Crypt(c, s.pos + 16, Content(c, plain, fsize));
              wire == Frame(c, s, header, body) && Out() == After(c, s, header, body)
    {
      var header := Encrypt(PutInt24(fsize) + ([0xC2, 0x80, 0x80] + Zeros(10)));
      egress := UpdateMac(c, egress, header);
      var tag := Tag(c, egress);
      var body := TeeContent(plain, fsize);
      egress := UpdateMac(c, egress, c.hash(egress));
      wire := header + tag + body + Tag(c, egress);
    }

    method WriteMessage(msg: Msg) returns (r: WriteResult)
      modifies this`encPos, this`egress
      ensures r == WriteMsg(c, snappy, old(Out()), msg)
      ensures Out() == if r.Written? then r.side else old(Out())
    {
      if snappy && |msg.payload| > MAX_UINT24 {
        return TooLarge;
      }
      var plain := Plain(c, snappy, msg);
      var fsize := (|c.encodeCode(plain.code)| + |plain.payload|) % TWO32;
      if fsize > MAX_UINT24 {
        return TooLarge;
      }
      var wire := WriteFrame(plain, fsize);
      r := Written(wire, Side(encPos, egress));
    }

    /** The frame after its header: size, body and MAC. */
    method ReadBody(header: Bytes, fsize: nat, input: Bytes, ghost s: Side) returns (r: ReadResult)
      requires |header| == 16 && decPos == s.pos + 16 && ingress == HeaderMac(c, s, header) && |input| >= 32
      modifies this`decPos, this`ingress
      ensures r == ReadFrame(c, snappy, s, header, fsize, input)
      ensures r.Read? ==> In() == r.side
    {
      var rsize := fsize;
      if fsize % 16 > 0 {
        rsize := rsize + (16 - fsize % 16);
      }
      if |input| < 32 + rsize + 16 {
        return Failed(ShortInput);
      }
      var body := input[32..32 + rsize];
      ingress := ingress + body;
      ingress := UpdateMac(c, ingress, c.hash(ingress));
      if Tag(c, ingress) != input[32 + rsize..48 + rsize] {
        return Failed(BadFrameMac);
      }
      var framebuf := Crypt(c, decPos, body);
      decPos := decPos + rsize;
      r := ReadContent(c, snappy, framebuf[..fsize], Side(decPos, ingress), input[48 + rsize..]);
    }

    /** Reads one message from the front of the input. The state counts only as long as reading succeeds. */
    method ReadMessage(input: Bytes) returns (r: ReadResult)
      modifies this`decPos, this`ingress
      ensures r == ReadMsg(c, snappy, old(In()), input)
      ensures r.Read? ==> In() == r.side
    {
      if |input| < 32 {
        return Failed(ShortInput);
      }
      var header := input[..16];
      ingress := UpdateMac(c, ingress, header);
      if Tag(c, ingress) != input[16..32] {
        return Failed(BadHeaderMac);
      }
      var fsize := ReadInt24(Crypt(c, decPos, header));
      decPos := decPos + 16;
      r := ReadBody(header, fsize, input, old(In()));
    }
  }
}
