/** The encrypted message framing between peers (p2p/rlpx.go). The keystream, the block cipher and the hash are taken as
    given functions of the shared secrets; a hash object is what has been written to it so far. */
module Rlpx {
  import opened Types
  import opened RlpUint

  const MAX_UINT24 := 0xFF_FFFF
  const UINT32 := 0x1_0000_0000

  const HEADER_TAIL: seq<byte> := [0xC2, 0x80, 0x80]

  /** `stream(i)` is the i-th byte of the keystream, `block` encrypts one block, `sum` is the hash of the bytes
      written. */
  datatype Crypto = Crypto(stream: nat -> byte, block: seq<byte> -> seq<byte>, sum: seq<byte> -> seq<byte>) {
    ghost predicate Sized() {
      (forall s :: |block(s)| == 16) && forall s :: |sum(s)| == 32
    }
  }

  /** `size` is what the sender announces for the payload, a 32-bit number. */
  datatype Message = Message(code: nat, size: nat, payload: seq<byte>) {
    predicate Proper() { code <= MAX_UINT64 && size < UINT32 && size == |payload| }
  }

  // ---- exclusive or ----

  function XorBits(a: nat, b: nat, n: nat): (r: nat)
    ensures r < Pow2(n)
  {
    if n == 0 then 0 else 2 * XorBits(a / 2, b / 2, n - 1) + if a % 2 == b % 2 then 0 else 1
  }

  function Pow2(n: nat): (p: nat)
    ensures p > 0
  {
    if n == 0 then 1 else 2 * Pow2(n - 1)
  }

  lemma Halves(y: nat, d: nat)
    requires d < 2
    ensures (2 * y + d) / 2 == y && (2 * y + d) % 2 == d
  {
  }

  lemma XorStep(a: nat, b: nat, n: nat)
    requires n > 0
    ensures XorBits(a, b, n) == 2 * XorBits(a / 2, b / 2, n - 1) + if a % 2 == b % 2 then 0 else 1
  {
  }

  lemma HalfBelow(a: nat, n: nat)
    requires n > 0 && a < Pow2(n)
    ensures a / 2 < Pow2(n - 1)
  {
  }

  lemma {:induction false} XorBitsTwice(a: nat, b: nat, n: nat)
    requires a < Pow2(n)
    ensures XorBits(XorBits(a, b, n), b, n) == a
    decreases n, 1
  {
    if n > 0 {
      XorOnceMore(a, b, n);
    }
  }

  lemma {:induction false} XorOnceMore(a: nat, b: nat, n: nat)
    requires n > 0 && a < Pow2(n)
    ensures XorBits(XorBits(a, b, n), b, n) == a
    decreases n, 0
  {
    hide XorBits, Pow2;
    var x, y := XorBits(a, b, n), XorBits(a / 2, b / 2, n - 1);
    XorStep(a, b, n);
    Halves(y, if a % 2 == b % 2 then 0 else 1);
    HalfBelow(a, n);
    XorBitsTwice(a / 2, b / 2, n - 1);
    XorStep(x, b, n);
  }

  lemma Pow2Of8()
    ensures Pow2(8) == 256
  {
    assert Pow2(4) == 16;
    assert Pow2(6) == 64;
  }

  function Xor(a: byte, b: byte): (r: byte) {
    Pow2Of8();
    XorBits(a, b, 8)
  }

  lemma XorTwice(a: byte, b: byte)
    ensures Xor(Xor(a, b), b) == a
  {
    hide XorBits;
    Pow2Of8();
    XorBitsTwice(a, b, 8);
  }

  function Bit(a: nat, i: nat): nat { a / Pow2(i) % 2 }

  lemma BitDown(a: nat, i: nat)
    ensures Bit(a, 0) == a % 2 && Bit(a, i + 1) == Bit(a / 2, i)
  {
    DivDiv(a, 2, Pow2(i));
  }

  lemma {:induction false} XorBitsBit(a: nat, b: nat, n: nat, i: nat)
    requires i < n
    ensures Bit(XorBits(a, b, n), i) == 1 <==> Bit(a, i) != Bit(b, i)
    decreases i
  {
    var x, y, d := XorBits(a, b, n), XorBits(a / 2, b / 2, n - 1), if a % 2 == b % 2 then 0 else 1;
    XorStep(a, b, n);
    hide XorBits, Bit;
    Halves(y, d);
    if i == 0 {
      BitDown(a, 0);
      BitDown(b, 0);
      BitDown(x, 0);
    } else {
      XorBitsBit(a / 2, b / 2, n - 1, i - 1);
      BitDown(a, i - 1);
      BitDown(b, i - 1);
      BitDown(x, i - 1);
    }
  }

  /** Bit by bit: a bit is set exactly where the two bytes differ. */
  lemma XorBit(a: byte, b: byte, i: nat)
    requires i < 8
    ensures Xor(a, b) / Pow2(i) % 2 == 1 <==> a / Pow2(i) % 2 != b / Pow2(i) % 2
  {
    hide XorBits;
    XorBitsBit(a, b, 8, i);
  }

  /** Numbers of `n` bits that agree in every bit are equal. */
  lemma {:induction false} SameBits(a: nat, b: nat, n: nat)
    requires a < Pow2(n) && b < Pow2(n) && forall i :: 0 <= i < n ==> Bit(a, i) == Bit(b, i)
    ensures a == b
  {
    if n > 0 {
      HalfBelow(a, n);
      HalfBelow(b, n);
      hide Bit, Pow2;
      forall i | 0 <= i < n - 1
        ensures Bit(a / 2, i) == Bit(b / 2, i)
      {
        BitDown(a, i);
        BitDown(b, i);
        assert Bit(a, i + 1) == Bit(b, i + 1);
      }
      SameBits(a / 2, b / 2, n - 1);
      BitDown(a, 0);
      BitDown(b, 0);
    }
  }

  lemma BitRange(a: nat, i: nat)
    ensures Bit(a, i) == 0 || Bit(a, i) == 1
    ensures Bit(0, i) == 0
  {
  }

  lemma XorSymmetric(a: byte, b: byte)
    ensures Xor(a, b) == Xor(b, a)
  {
    Pow2Of8();
    hide Bit, XorBits, Pow2;
    forall i | 0 <= i < 8
      ensures Bit(Xor(a, b), i) == Bit(Xor(b, a), i)
    {
      XorBitsBit(a, b, 8, i);
      XorBitsBit(b, a, 8, i);
      BitRange(Xor(a, b), i);
      BitRange(Xor(b, a), i);
    }
    SameBits(Xor(a, b), Xor(b, a), 8);
  }

  lemma XorZeroIff(a: byte, b: byte)
    ensures Xor(a, b) == 0 <==> a == b
  {
    Pow2Of8();
    hide Bit, XorBits, Pow2;
    var x := Xor(a, b);
    forall i | 0 <= i < 8
      ensures Bit(x, i) == Bit(0, i) <==> Bit(a, i) == Bit(b, i)
    {
      XorBitsBit(a, b, 8, i);
      BitRange(x, i);
    }
    if a == b {
      SameBits(x, 0, 8);
    } else if x == 0 {
      SameBits(a, b, 8);
    }
  }

  // ---- the cipher stream ----

  /** The bytes combined with the keystream from a position on. */
  function Stream(c: Crypto, pos: nat, s: seq<byte>): (r: seq<byte>)
    ensures |r| == |s|
    ensures forall i :: 0 <= i < |s| ==> r[i] == Xor(s[i], c.stream(pos + i))
  {
    if s == [] then [] else Stream(c, pos, s[..|s| - 1]) + [Xor(s[|s| - 1], c.stream(pos + |s| - 1))]
  }

  lemma StreamTwice(c: Crypto, pos: nat, s: seq<byte>)
    ensures Stream(c, pos, Stream(c, pos, s)) == s
  {
    hide Xor;
    forall i | 0 <= i < |s|
      ensures Stream(c, pos, Stream(c, pos, s))[i] == s[i]
    {
      XorTwice(s[i], c.stream(pos + i));
    }
  }

  lemma StreamConcat(c: Crypto, pos: nat, s: seq<byte>, t: seq<byte>)
    ensures Stream(c, pos, s + t) == Stream(c, pos, s) + Stream(c, pos + |s|, t)
  {
    hide Xor;
    var whole, parts := Stream(c, pos, s + t), Stream(c, pos, s) + Stream(c, pos + |s|, t);
    forall i | 0 <= i < |s + t|
      ensures whole[i] == parts[i]
    {
      if i >= |s| {
        assert parts[i] == Stream(c, pos + |s|, t)[i - |s|];
      }
    }
  }

  lemma AppendStream(c: Crypto, base: seq<byte>, pos: nat, s: seq<byte>, t: seq<byte>)
    ensures base + Stream(c, pos, s) + Stream(c, pos + |s|, t) == base + Stream(c, pos, s + t)
    ensures |Stream(c, pos, s + t)| == |s| + |t|
  {
    hide Stream, Xor;
    StreamConcat(c, pos, s, t);
  }

  // ---- message authentication ----

  /** The hash state after reseeding it with an encrypted seed. */
  function Reseeded(c: Crypto, mac: seq<byte>, seed: seq<byte>): (r: seq<byte>)
    requires c.Sized() && |seed| >= 16
    ensures |r| == |mac| + 16
  {
    mac + seq(16, i requires 0 <= i < 16 => Xor(c.block(c.sum(mac)[..16])[i], seed[i]))
  }

  function Tag(c: Crypto, mac: seq<byte>): (r: seq<byte>)
    requires c.Sized()
    ensures |r| == 16
  {
    c.sum(mac)[..16]
  }

  // ---- sizes ----

  function PutInt24(v: nat): (r: seq<byte>)
    ensures |r| == 3
  {
    [v / 65536 % 256, v / 256 % 256, v % 256]
  }

  function ReadInt24(b: seq<byte>): nat
    requires |b| >= 3
  {
    (b[2] as nat) + (b[1] as nat) * 256 + (b[0] as nat) * 65536
  }

  lemma Int24RoundTrip(v: nat, rest: seq<byte>)
    requires v <= MAX_UINT24
    ensures ReadInt24(PutInt24(v) + rest) == v
  {
  }

  function Padding(size: nat): nat { if size % 16 > 0 then 16 - size % 16 else 0 }

  function Zeros(n: nat): (r: seq<byte>)
    ensures |r| == n
  {
    seq(n, _ => 0)
  }

  // ---- frames ----

  /** One direction of a connection: how much keystream is used up and what the MAC hash has taken in. */
  datatype Half = Half(pos: nat, mac: seq<byte>)

  datatype ReadError = ShortRead | BadHeaderMac | BadFrameMac | BadCode

  /** A failed read, too, leaves the direction in a definite state and some input unread. */
  datatype ReadResult =
    | Ok(msg: Message, half: Half, rest: seq<byte>)
    | Err(error: ReadError, half: Half, rest: seq<byte>)

  /** The length of the code and payload. */
  function ContentSize(m: Message): nat
    requires m.code <= MAX_UINT64
  {
    |EncodeUint(m.code)| + m.size
  }

  /** The size written into the header, computed in 32 bits. */
  function FrameSize(m: Message): nat
    requires m.code <= MAX_UINT64
  {
    ContentSize(m) % UINT32
  }

  function PlainHeader(fsize: nat): (r: seq<byte>)
    ensures |r| == 16
  {
    PutInt24(fsize) + HEADER_TAIL + Zeros(10)
  }

  function Content(m: Message): (r: seq<byte>)
    requires m.code <= MAX_UINT64
  {
    EncodeUint(m.code) + m.payload + Zeros(Padding(FrameSize(m)))
  }

  /** The MAC state after the header. */
  function HeaderMac(c: Crypto, half: Half, header: seq<byte>): seq<byte>
    requires c.Sized() && |header| == 16
  {
    Reseeded(c, half.mac, header)
  }

  /** The MAC state after the frame, given the one after the header. */
  function FrameMac(c: Crypto, mac: seq<byte>, frame: seq<byte>): seq<byte>
    requires c.Sized()
  {
    Reseeded(c, mac + frame, c.sum(mac + frame))
  }

  function WriteFrame(c: Crypto, w: Half, m: Message): (r: Option<(seq<byte>, Half)>)
    requires c.Sized() && m.code <= MAX_UINT64
  {
    if FrameSize(m) > MAX_UINT24 then None else
      var header := Stream(c, w.pos, PlainHeader(FrameSize(m)));
      var mac := HeaderMac(c, w, header);
      var frame := Stream(c, w.pos + 16, Content(m));
      var mac' := FrameMac(c, mac, frame);
      Some((header + Tag(c, mac) + frame + Tag(c, mac'), Half(w.pos + 16 + |frame|, mac')))
  }

  function ReadFrame(c: Crypto, r: Half, input: seq<byte>): (res: ReadResult)
    requires c.Sized()
    ensures res.Ok? ==> |res.rest| < |input|
  {
    if |input| < 32 then Err(ShortRead, r, []) else
      var mac := HeaderMac(c, r, input[..16]);
      if Tag(c, mac) != input[16..32] then Err(BadHeaderMac, Half(r.pos, mac), input[32..]) else
        var fsize := ReadInt24(Stream(c, r.pos, input[..16]));
        ReadBody(c, r.pos + 16, mac, fsize, input[32..])
  }

  /** The rest of a frame, from the keystream position and MAC state behind the header. */
  function ReadBody(c: Crypto, pos: nat, mac: seq<byte>, fsize: nat, input: seq<byte>): (res: ReadResult)
    requires c.Sized()
    ensures res.Ok? ==> |res.rest| <= |input| && |res.msg.payload| <= fsize
  {
    var rsize := fsize + Padding(fsize);
    if |input| < rsize then Err(ShortRead, Half(pos, mac), [])
    else if |input| < rsize + 16 then Err(ShortRead, Half(pos, mac + input[..rsize]), [])
    else
      var frame := input[..rsize];
      var mac' := FrameMac(c, mac, frame);
      if Tag(c, mac') != input[rsize..rsize + 16] then
        Err(BadFrameMac, Half(pos, mac'), input[rsize + 16..])
      else
        var content := Stream(c, pos, frame)[..fsize];
        match DecodeUint(content)
        case None => Err(BadCode, Half(pos + rsize, mac'), input[rsize + 16..])
        case Some((code, payload)) =>
          Ok(Message(code, |payload|, payload), Half(pos + rsize, mac'), input[rsize + 16..])
  }

  lemma HeaderReadBack(c: Crypto, pos: nat, fsize: nat)
    requires fsize <= MAX_UINT24
    ensures ReadInt24(Stream(c, pos, Stream(c, pos, PlainHeader(fsize)))) == fsize
  {
    StreamTwice(c, pos, PlainHeader(fsize));
    assert PlainHeader(fsize) == PutInt24(fsize) + (HEADER_TAIL + Zeros(10));
    Int24RoundTrip(fsize, HEADER_TAIL + Zeros(10));
  }

  /** The reader reaches the body with the size the header announces. */
  lemma ReadsBody(c: Crypto, w: Half, m: Message, tail: seq<byte>)
    requires c.Sized() && m.code <= MAX_UINT64 && WriteFrame(c, w, m).Some?
    ensures var header := Stream(c, w.pos, PlainHeader(FrameSize(m)));
            var mac := HeaderMac(c, w, header);
            var frame := Stream(c, w.pos + 16, Content(m));
            ReadFrame(c, w, WriteFrame(c, w, m).value.0 + tail)
            == ReadBody(c, w.pos + 16, mac, FrameSize(m), frame + Tag(c, FrameMac(c, mac, frame)) + tail)
  {
    hide Stream, Xor, Tag, FrameMac, PlainHeader, Content, ReadBody, ReadInt24, Reseeded;
    var header := Stream(c, w.pos, PlainHeader(FrameSize(m)));
    var mac := HeaderMac(c, w, header);
    var frame := Stream(c, w.pos + 16, Content(m));
    var body := frame + Tag(c, FrameMac(c, mac, frame)) + tail;
    var input := WriteFrame(c, w, m).value.0 + tail;
    assert input == header + Tag(c, mac) + body;
    assert input[..16] == header && input[16..32] == Tag(c, mac) && input[32..] == body;
    HeaderReadBack(c, w.pos, FrameSize(m));
  }

  lemma BodyReadBack(c: Crypto, pos: nat, mac: seq<byte>, m: Message, tail: seq<byte>)
    requires c.Sized() && m.Proper() && ContentSize(m) <= MAX_UINT24
    ensures var frame := Stream(c, pos, Content(m));
      var mac' := FrameMac(c, mac, frame);
      ReadBody(c, pos, mac, FrameSize(m), frame + Tag(c, mac') + tail) == Ok(m, Half(pos + |frame|, mac'), tail)
  {
    hide Stream, Xor, Tag, FrameMac, EncodeUint, DecodeUint;
    var frame := Stream(c, pos, Content(m));
    var tag := Tag(c, FrameMac(c, mac, frame));
    var input := frame + tag + tail;
    assert input[..|frame|] == frame && input[|frame|..|frame| + 16] == tag && input[|frame| + 16..] == tail;
    StreamTwice(c, pos, Content(m));
    assert Content(m)[..FrameSize(m)] == EncodeUint(m.code) + m.payload;
    DecodeEncode(m.code, m.payload);
  }

  /** A frame that fits 24 bits is read back, and leaves reader and writer in the same state. */
  lemma FrameRoundTrip(c: Crypto, w: Half, m: Message, tail: seq<byte>)
    requires c.Sized() && m.Proper() && ContentSize(m) <= MAX_UINT24
    ensures WriteFrame(c, w, m).Some?
    ensures ReadFrame(c, w, WriteFrame(c, w, m).value.0 + tail) == Ok(m, WriteFrame(c, w, m).value.1, tail)
  {
    hide Stream, Xor, Tag, FrameMac, HeaderMac, PlainHeader, ReadInt24, EncodeUint, DecodeUint, ReadFrame, ReadBody;
    ReadsBody(c, w, m, tail);
    var header := Stream(c, w.pos, PlainHeader(FrameSize(m)));
    BodyReadBack(c, w.pos + 16, HeaderMac(c, w, header), m, tail);
  }

  /** The parts of a frame: header, tag, content and tag. */
  lemma FrameParts(c: Crypto, w: Half, m: Message)
    requires c.Sized() && m.Proper() && ContentSize(m) <= MAX_UINT24
    ensures WriteFrame(c, w, m).Some? && FrameSize(m) == |EncodeUint(m.code)| + |m.payload|
    ensures var bytes := WriteFrame(c, w, m).value.0;
      && |bytes| == 48 + |Content(m)|
      && bytes[..16] == Stream(c, w.pos, PlainHeader(FrameSize(m)))
      && bytes[32..|bytes| - 16] == Stream(c, w.pos + 16, Content(m))
  {
    hide Stream, Xor, Tag, Reseeded, PlainHeader, Content, EncodeUint;
    var header := Stream(c, w.pos, PlainHeader(FrameSize(m)));
    var mac, frame := HeaderMac(c, w, header), Stream(c, w.pos + 16, Content(m));
    CutFrame(header, Tag(c, mac), frame, Tag(c, FrameMac(c, mac, frame)));
  }

  lemma CutFrame(header: seq<byte>, tag: seq<byte>, frame: seq<byte>, tag': seq<byte>)
    requires |header| == |tag| == |tag'| == 16
    ensures var bytes := header + tag + frame + tag';
      && bytes[..16] == header && bytes[16..32] == tag
      && bytes[32..|bytes| - 16] == frame && bytes[|bytes| - 16..] == tag'
  {
  }

  lemma TagParts(c: Crypto, w: Half, m: Message)
    requires c.Sized() && m.Proper() && ContentSize(m) <= MAX_UINT24
    ensures WriteFrame(c, w, m).Some?
    ensures var (bytes, w') := WriteFrame(c, w, m).value;
      && |bytes| >= 48 && w'.pos == w.pos + |bytes| - 32
      && var mac, frame := Reseeded(c, w.mac, bytes[..16]), bytes[32..|bytes| - 16];
      && bytes[16..32] == Tag(c, mac) && bytes[|bytes| - 16..] == Tag(c, w'.mac)
      && w'.mac == Reseeded(c, mac + frame, c.sum(mac + frame))
  {
    hide Stream, Xor, Tag, Reseeded, PlainHeader, Content, EncodeUint;
    var header := Stream(c, w.pos, PlainHeader(FrameSize(m)));
    var mac, frame := HeaderMac(c, w, header), Stream(c, w.pos + 16, Content(m));
    CutFrame(header, Tag(c, mac), frame, Tag(c, FrameMac(c, mac, frame)));
  }

  /** Decrypted from a keystream position on, the bytes are the given ones and zeros up to the next whole block. */
  ghost predicate Hides(c: Crypto, pos: nat, cipher: seq<byte>, plain: seq<byte>) {
    && |cipher| % 16 == 0 && |plain| <= |cipher| < |plain| + 16
    && forall k :: 0 <= k < |cipher| ==>
         Xor(cipher[k], c.stream(pos + k)) == if k < |plain| then plain[k] else 0
  }

  /** The hash has taken in a seed combined with the encrypted digest. */
  ghost predicate SeedAdded(c: Crypto, mac: seq<byte>, seed: seq<byte>, mac': seq<byte>)
    requires c.Sized() && |seed| >= 16
  {
    && |mac'| == |mac| + 16 && mac'[..|mac|] == mac
    && forall i :: 0 <= i < 16 ==> mac'[|mac| + i] == Xor(c.block(c.sum(mac)[..16])[i], seed[i])
  }

  /** The plain header: the size, big-endian in three bytes, an encoded list of two zeros, and padding. */
  lemma HeaderOnWire(c: Crypto, w: Half, m: Message, bytes: seq<byte>, w': Half, high: byte, middle: byte, low: byte)
    requires c.Sized() && m.Proper() && WriteFrame(c, w, m) == Some((bytes, w'))
    requires ContentSize(m) == 65536 * high + 256 * middle + low
    ensures |bytes| >= 48 && Hides(c, w.pos, bytes[..16], [high, middle, low, 0xC2, 0x80, 0x80])
  {
    hide WriteFrame, Stream, Xor, EncodeUint, Content, Reseeded, Tag, Hides, PlainHeader, Crypto.Sized;
    FrameParts(c, w, m);
    hide FrameSize, ContentSize;
    HeaderHidden(c, w.pos, high, middle, low);
  }

  lemma HeaderHidden(c: Crypto, pos: nat, high: byte, middle: byte, low: byte)
    ensures Hides(c, pos, Stream(c, pos, PlainHeader(65536 * high + 256 * middle + low)),
                  [high, middle, low, 0xC2, 0x80, 0x80])
  {
    hide Stream, Xor, Hides, Zeros;
    var plain := [high, middle, low, 0xC2, 0x80, 0x80];
    SizeBytes(high, middle, low);
    hide PutInt24;
    assert PlainHeader(65536 * high + 256 * middle + low) == plain + Zeros(10);
    PaddedHidden(c, pos, plain, 10);
  }

  lemma SizeBytes(high: byte, middle: byte, low: byte)
    ensures PutInt24(65536 * high + 256 * middle + low) == [high, middle, low]
  {
    var v := 65536 * high + 256 * middle + low;
    assert v / 65536 == high && v / 256 == 256 * high + middle && v % 256 == low;
    assert (256 * high + middle) % 256 == middle;
  }

  lemma PaddedHidden(c: Crypto, pos: nat, plain: seq<byte>, n: nat)
    requires n < 16 && (|plain| + n) % 16 == 0
    ensures Hides(c, pos, Stream(c, pos, plain + Zeros(n)), plain)
  {
    hide Stream, Xor;
    var padded := plain + Zeros(n);
    var cipher := Stream(c, pos, padded);
    StreamTwice(c, pos, padded);
    forall k | 0 <= k < |cipher|
      ensures Xor(cipher[k], c.stream(pos + k)) == padded[k]
    {
      assert Stream(c, pos, cipher)[k] == Xor(cipher[k], c.stream(pos + k));
    }
  }

  /** The plain content: the encoded code, the payload, and zeros up to the next whole block. */
  lemma ContentOnWire(c: Crypto, w: Half, m: Message, bytes: seq<byte>, w': Half)
    requires c.Sized() && m.Proper() && WriteFrame(c, w, m) == Some((bytes, w')) && ContentSize(m) <= MAX_UINT24
    ensures |bytes| >= 48 && Hides(c, w.pos + 16, bytes[32..|bytes| - 16], EncodeUint(m.code) + m.payload)
  {
    hide WriteFrame, Stream, Xor, EncodeUint, PlainHeader, Reseeded, Tag, Hides, Content, Crypto.Sized;
    FrameParts(c, w, m);
    ContentHidden(c, w.pos + 16, m);
  }

  lemma ContentHidden(c: Crypto, pos: nat, m: Message)
    requires m.Proper() && ContentSize(m) <= MAX_UINT24
    ensures Hides(c, pos, Stream(c, pos, Content(m)), EncodeUint(m.code) + m.payload)
  {
    hide Stream, Xor, EncodeUint, Padding, Hides, Zeros;
    PaddedWhole(ContentSize(m));
    PaddedHidden(c, pos, EncodeUint(m.code) + m.payload, Padding(FrameSize(m)));
  }

  /** The MAC hash takes in the encrypted digest combined with the header, then the content, then the encrypted digest
      combined with the digest; each tag is the front of the digest at that point. */
  lemma TagsOnWire(c: Crypto, w: Half, m: Message, bytes: seq<byte>, w': Half)
    requires c.Sized() && m.Proper() && WriteFrame(c, w, m) == Some((bytes, w')) && ContentSize(m) <= MAX_UINT24
    ensures |bytes| >= 48 && w'.pos == w.pos + |bytes| - 32 && |w'.mac| >= |w.mac| + 16
    ensures var mac, frame := w'.mac[..|w.mac| + 16], bytes[32..|bytes| - 16];
      && SeedAdded(c, w.mac, bytes[..16], mac) && bytes[16..32] == c.sum(mac)[..16]
      && SeedAdded(c, mac + frame, c.sum(mac + frame), w'.mac) && bytes[|bytes| - 16..] == c.sum(w'.mac)[..16]
  {
    hide WriteFrame, Stream, Xor, EncodeUint, PlainHeader, Content, SeedAdded, Reseeded;
    TagParts(c, w, m);
    SeededTwice(c, w.mac, bytes[..16], bytes[32..|bytes| - 16]);
  }

  /** Both reseedings of a frame, read off the hash after them. */
  lemma SeededTwice(c: Crypto, mac0: seq<byte>, header: seq<byte>, frame: seq<byte>)
    requires c.Sized() && |header| >= 16
    ensures var mac := Reseeded(c, mac0, header);
      var mac' := Reseeded(c, mac + frame, c.sum(mac + frame));
      && |mac'| >= |mac0| + 16 && mac'[..|mac0| + 16] == mac
      && SeedAdded(c, mac0, header, mac) && SeedAdded(c, mac + frame, c.sum(mac + frame), mac')
  {
    hide Xor, Reseeded, SeedAdded;
    var mac := Reseeded(c, mac0, header);
    var mac' := Reseeded(c, mac + frame, c.sum(mac + frame));
    ReseededBytes(c, mac0, header);
    ReseededBytes(c, mac + frame, c.sum(mac + frame));
    SeedPrefix(c, mac + frame, c.sum(mac + frame), mac');
    assert mac'[..|mac0| + 16] == (mac + frame)[..|mac|];
  }

  lemma SeedPrefix(c: Crypto, mac: seq<byte>, seed: seq<byte>, mac': seq<byte>)
    requires c.Sized() && |seed| >= 16 && SeedAdded(c, mac, seed, mac')
    ensures mac <= mac'
  {
  }

  lemma ReseededBytes(c: Crypto, mac: seq<byte>, seed: seq<byte>)
    requires c.Sized() && |seed| >= 16
    ensures SeedAdded(c, mac, seed, Reseeded(c, mac, seed))
  {
    hide Xor;
  }

  /** An accepted frame carries both tags over exactly the bytes read and the MAC state before them, and leaves what
      follows it unread. */
  lemma AcceptedIsAuthentic(c: Crypto, r: Half, input: seq<byte>, m: Message, r': Half, rest: seq<byte>)
    requires c.Sized() && ReadFrame(c, r, input) == Ok(m, r', rest)
    ensures var n := |input| - |rest| - 48;
      && n >= 0 && n % 16 == 0 && rest == input[48 + n..] && r'.pos == r.pos + 16 + n
      && |r'.mac| >= |r.mac| + 16
      && var mac, frame := r'.mac[..|r.mac| + 16], input[32..32 + n];
      && SeedAdded(c, r.mac, input[..16], mac) && input[16..32] == c.sum(mac)[..16]
      && SeedAdded(c, mac + frame, c.sum(mac + frame), r'.mac) && input[32 + n..48 + n] == c.sum(r'.mac)[..16]
  {
    hide Stream, Xor, SeedAdded, Reseeded, DecodeUint, ReadBody, Padding, ReadInt24;
    var mac := Reseeded(c, r.mac, input[..16]);
    var fsize := ReadInt24(Stream(c, r.pos, input[..16]));
    BodyAccepted(c, r.pos + 16, mac, fsize, input[32..], m, r', rest);
    PaddedWhole(fsize);
    var n := fsize + Padding(fsize);
    CutBody(input, n);
    SeededTwice(c, r.mac, input[..16], input[32..32 + n]);
  }

  lemma CutBody(input: seq<byte>, n: nat)
    requires n + 48 <= |input|
    ensures var body := input[32..];
      && body[..n] == input[32..32 + n] && body[n..n + 16] == input[32 + n..48 + n]
      && body[n + 16..] == input[48 + n..]
  {
  }

  /** A header is refused exactly when its tag is not the digest of the MAC state that has taken it in. */
  lemma HeaderRefusedIff(c: Crypto, r: Half, input: seq<byte>, mac: seq<byte>)
    requires c.Sized() && |input| >= 32 && SeedAdded(c, r.mac, input[..16], mac)
    ensures ReadFrame(c, r, input) == Err(BadHeaderMac, Half(r.pos, mac), input[32..])
            <==> input[16..32] != c.sum(mac)[..16]
  {
    hide Stream, Xor, Reseeded, DecodeUint, Padding, ReadInt24;
    ReseededBytes(c, r.mac, input[..16]);
    OneSeed(c, r.mac, input[..16], mac, Reseeded(c, r.mac, input[..16]));
  }

  lemma OneSeed(c: Crypto, mac: seq<byte>, seed: seq<byte>, a: seq<byte>, b: seq<byte>)
    requires c.Sized() && |seed| >= 16 && SeedAdded(c, mac, seed, a) && SeedAdded(c, mac, seed, b)
    ensures a == b
  {
    hide Xor;
    forall i | 0 <= i < |a|
      ensures a[i] == b[i]
    {
      if i < |mac| {
        assert a[..|mac|][i] == b[..|mac|][i];
      } else {
        var k := i - |mac|;
        assert 0 <= k < 16 && a[|mac| + k] == Xor(c.block(c.sum(mac)[..16])[k], seed[k]) == b[|mac| + k];
      }
    }
  }

  /** Its content is the message, of the length the header announces. */
  lemma AcceptedContent(c: Crypto, r: Half, input: seq<byte>, m: Message, r': Half, rest: seq<byte>)
    requires c.Sized() && ReadFrame(c, r, input) == Ok(m, r', rest)
    ensures m.code <= MAX_UINT64 && m.size == |m.payload| && ContentSize(m) + 48 <= |input|
    ensures ContentSize(m) == ReadInt24(Stream(c, r.pos, input[..16]))
    ensures Stream(c, r.pos + 16, input[32..32 + ContentSize(m)]) == EncodeUint(m.code) + m.payload
  {
    hide Stream, Xor, Reseeded, DecodeUint, EncodeUint, ReadBody, Tag, ReadInt24;
    var mac := Reseeded(c, r.mac, input[..16]);
    var fsize := ReadInt24(Stream(c, r.pos, input[..16]));
    BodyContent(c, r.pos + 16, mac, fsize, input[32..], m, r', rest);
    assert input[32..][..fsize] == input[32..32 + fsize];
  }

  lemma BodyContent(c: Crypto, pos: nat, mac: seq<byte>, fsize: nat, input: seq<byte>, m: Message, r: Half,
                    rest: seq<byte>)
    requires c.Sized() && ReadBody(c, pos, mac, fsize, input) == Ok(m, r, rest)
    ensures m.code <= MAX_UINT64 && m.size == |m.payload| && fsize + 16 <= |input| && ContentSize(m) == fsize
    ensures Stream(c, pos, input[..fsize]) == EncodeUint(m.code) + m.payload
  {
    hide Stream, Xor, Reseeded, DecodeUint, EncodeUint, ReadBody, Padding, Tag;
    BodyAccepted(c, pos, mac, fsize, input, m, r, rest);
    var frame := input[..fsize + Padding(fsize)];
    EncodeDecode(Stream(c, pos, frame)[..fsize]);
    StreamConcat(c, pos, frame[..fsize], frame[fsize..]);
    assert frame == frame[..fsize] + frame[fsize..] && frame[..fsize] == input[..fsize];
  }

  lemma BodyAccepted(c: Crypto, pos: nat, mac: seq<byte>, fsize: nat, input: seq<byte>, m: Message, r: Half,
                     rest: seq<byte>)
    requires c.Sized() && ReadBody(c, pos, mac, fsize, input) == Ok(m, r, rest)
    ensures var n := fsize + Padding(fsize);
      && n + 16 <= |input| && rest == input[n + 16..] && m.size == |m.payload|
      && r == Half(pos + n, Reseeded(c, mac + input[..n], c.sum(mac + input[..n])))
      && input[n..n + 16] == Tag(c, r.mac)
      && DecodeUint(Stream(c, pos, input[..n])[..fsize]) == Some((m.code, m.payload))
  {
    hide Stream, Xor, Reseeded, DecodeUint, Padding, Tag;
  }

  /** A frame is a 16-byte header, its tag, the content padded to whole blocks, and its tag; the keystream covers all
      but the tags, and the MAC takes in the frame and two reseedings. */
  lemma FrameShape(c: Crypto, w: Half, m: Message)
    requires c.Sized() && m.Proper() && ContentSize(m) <= MAX_UINT24
    ensures WriteFrame(c, w, m).Some?
    ensures var (bytes, w') := WriteFrame(c, w, m).value;
      && |bytes| % 16 == 0 && ContentSize(m) + 48 <= |bytes| < ContentSize(m) + 64
      && w'.pos == w.pos + |bytes| - 32 && |w'.mac| == |w.mac| + |bytes| - 16
  {
    hide Stream, Tag, Xor, EncodeUint, Padding, Reseeded, PlainHeader, Zeros;
    PaddedWhole(ContentSize(m));
  }

  lemma PaddedWhole(n: nat)
    ensures Padding(n) < 16 && (n + Padding(n) + 48) % 16 == 0
  {
  }

  // ---- the size check ----

  /** The 32-bit sum lets a message pass exactly when it fits 24 bits or overflows 32. */
  lemma AcceptedIff(c: Crypto, w: Half, m: Message)
    requires c.Sized() && m.Proper()
    ensures WriteFrame(c, w, m).Some? <==> ContentSize(m) < 0x100_0000 || ContentSize(m) >= 0x1_0000_0000
  {
    hide Stream, Xor, Tag, FrameMac, HeaderMac, PlainHeader, Content;
    assert ContentSize(m) >= UINT32 ==> FrameSize(m) == ContentSize(m) - UINT32;
  }

  /** A written message is read back exactly when it fits 24 bits: past 32 bits the header announces a frame of at most
      eight bytes and the payload is lost. */
  lemma ReadBackIff(c: Crypto, w: Half, m: Message, tail: seq<byte>)
    requires c.Sized() && m.Proper() && WriteFrame(c, w, m).Some?
    ensures ReadFrame(c, w, WriteFrame(c, w, m).value.0 + tail) == Ok(m, WriteFrame(c, w, m).value.1, tail)
            <==> ContentSize(m) < 0x100_0000
  {
    AcceptedIff(c, w, m);
    if ContentSize(m) <= MAX_UINT24 {
      FrameRoundTrip(c, w, m, tail);
    } else {
      Overflows(c, w, m, tail);
    }
  }

  lemma Overflows(c: Crypto, w: Half, m: Message, tail: seq<byte>)
    requires c.Sized() && m.Proper() && WriteFrame(c, w, m).Some? && ContentSize(m) >= UINT32
    ensures var res := ReadFrame(c, w, WriteFrame(c, w, m).value.0 + tail);
            FrameSize(m) <= 8 && (res.Ok? ==> |res.msg.payload| <= 8)
  {
    hide Stream, Xor, Tag, FrameMac, HeaderMac, PlainHeader, ReadInt24, EncodeUint, DecodeUint, ReadFrame, ReadBody,
      WriteFrame;
    ReadsBody(c, w, m, tail);
    assert FrameSize(m) == ContentSize(m) - UINT32;
  }

  /** Such a message exists: code 1 with the largest payload a 32-bit size can announce is written and not read back. */
  lemma LargestPayloadIsLost(c: Crypto, w: Half, payload: seq<byte>, tail: seq<byte>)
    requires c.Sized() && |payload| == UINT32 - 1
    ensures var m := Message(1, UINT32 - 1, payload);
      && m.Proper() && WriteFrame(c, w, m).Some?
      && ReadFrame(c, w, WriteFrame(c, w, m).value.0 + tail) != Ok(m, WriteFrame(c, w, m).value.1, tail)
  {
    hide WriteFrame, ReadFrame, Crypto.Sized;
    var m := Message(1, UINT32 - 1, payload);
    AcceptedIff(c, w, m);
    ReadBackIff(c, w, m, tail);
  }

  // ---- whole conversations ----

  ghost predicate AllFit(msgs: seq<Message>) {
    forall m :: m in msgs ==> m.Proper() && ContentSize(m) <= MAX_UINT24
  }

  /** The bytes of a run of messages and the writer's state behind them. */
  function WriteAll(c: Crypto, w: Half, msgs: seq<Message>): (r: Option<(seq<byte>, Half)>)
    requires c.Sized() && forall m :: m in msgs ==> m.code <= MAX_UINT64
    decreases |msgs|
  {
    if msgs == [] then Some(([], w)) else
      var first := WriteFrame(c, w, msgs[0]);
      if first.None? then None else
        var others := WriteAll(c, first.value.1, msgs[1..]);
        if others.None? then None else Some((first.value.0 + others.value.0, others.value.1))
  }

  datatype ReadAllResult = All(msgs: seq<Message>, half: Half, rest: seq<byte>) | Failed(error: ReadError)

  function ReadAll(c: Crypto, r: Half, n: nat, input: seq<byte>): ReadAllResult
    requires c.Sized()
    decreases n
  {
    if n == 0 then All([], r, input) else
      match ReadFrame(c, r, input)
      case Err(e, _, _) => Failed(e)
      case Ok(m, r', rest) =>
        match ReadAll(c, r', n - 1, rest)
        case Failed(e) => Failed(e)
        case All(msgs, r'', rest') => All([m] + msgs, r'', rest')
  }

  lemma ReadAllNone(c: Crypto, r: Half, input: seq<byte>)
    requires c.Sized()
    ensures ReadAll(c, r, 0, input) == All([], r, input)
  {
  }

  lemma ReadAllStep(c: Crypto, r: Half, n: nat, input: seq<byte>, m: Message, r': Half, rest: seq<byte>,
                    msgs: seq<Message>, r'': Half, tail: seq<byte>)
    requires c.Sized() && n > 0
    requires ReadFrame(c, r, input) == Ok(m, r', rest) && ReadAll(c, r', n - 1, rest) == All(msgs, r'', tail)
    ensures ReadAll(c, r, n, input) == All([m] + msgs, r'', tail)
  {
    hide ReadFrame;
  }

  /** Every conversation of messages that fit is read back in order, and after it the reader's keystream position and
      ingress MAC equal the writer's position and egress MAC. Taking a prefix, they are in step after every frame. */
  lemma {:induction false} ConversationRoundTrip(c: Crypto, w: Half, msgs: seq<Message>, tail: seq<byte>)
    requires c.Sized() && AllFit(msgs)
    ensures WriteAll(c, w, msgs).Some?
    ensures ReadAll(c, w, |msgs|, WriteAll(c, w, msgs).value.0 + tail) == All(msgs, WriteAll(c, w, msgs).value.1, tail)
    decreases |msgs|
  {
    hide WriteFrame, ReadFrame, Crypto.Sized, ContentSize, Xor, ReadAll;
    if msgs == [] {
      assert WriteAll(c, w, msgs).value.0 + tail == tail;
      ReadAllNone(c, w, tail);
    } else {
      var m, more := msgs[0], msgs[1..];
      assert m in msgs;
      FrameRoundTrip(c, w, m, []);
      var first := WriteFrame(c, w, m).value;
      ConversationRoundTrip(c, first.1, more, tail);
      var others := WriteAll(c, first.1, more).value;
      FrameRoundTrip(c, w, m, others.0 + tail);
      ReadAllStep(c, w, |msgs|, first.0 + (others.0 + tail), m, first.1, others.0 + tail, more, others.1, tail);
      assert first.0 + others.0 + tail == first.0 + (others.0 + tail);
      assert msgs == [m] + more;
    }
  }

  // ---- connection secrets ----

  /** What the handshake leaves with one side. */
  datatype Secrets = Secrets(aes: seq<byte>, mac: seq<byte>, egress: seq<byte>, ingress: seq<byte>)

  function XorSeq(one: seq<byte>, other: seq<byte>): (r: seq<byte>)
    requires |one| <= |other|
    ensures |r| == |one|
    ensures forall i :: 0 <= i < |r| ==> r[i] == Xor(one[i], other[i])
  {
    if one == [] then [] else XorSeq(one[..|one| - 1], other) + [Xor(one[|one| - 1], other[|one| - 1])]
  }

  /** `shared` is the ephemeral key agreement, the same on both sides; `auth` and `authResp` are the two handshake
      packets. */
  function HandshakeSecrets(keccak: seq<byte> -> seq<byte>, initiator: bool, shared: seq<byte>, initNonce: seq<byte>,
                            respNonce: seq<byte>, auth: seq<byte>, authResp: seq<byte>): (s: Secrets)
    requires (forall x :: |keccak(x)| == 32) && |initNonce| == 32 && |respNonce| == 32
  {
    var session := keccak(shared + keccak(respNonce + initNonce));
    var aes := keccak(shared + session);
    var mac := keccak(shared + aes);
    var mac1 := XorSeq(mac, respNonce) + auth;
    var mac2 := XorSeq(mac, initNonce) + authResp;
    if initiator then Secrets(aes, mac, mac1, mac2) else Secrets(aes, mac, mac2, mac1)
  }

  /** The two sides' MAC hashes start crosswise: what one side writes with is its MAC secret combined with the other's
      nonce, followed by the packet it sent. */
  lemma SecretsCrossed(keccak: seq<byte> -> seq<byte>, shared: seq<byte>, initNonce: seq<byte>, respNonce: seq<byte>,
                       auth: seq<byte>, authResp: seq<byte>)
    requires (forall x :: |keccak(x)| == 32) && |initNonce| == 32 && |respNonce| == 32
    ensures var a := HandshakeSecrets(keccak, true, shared, initNonce, respNonce, auth, authResp);
      var b := HandshakeSecrets(keccak, false, shared, initNonce, respNonce, auth, authResp);
      && a.aes == b.aes == keccak(shared + keccak(shared + keccak(respNonce + initNonce)))
      && a.mac == b.mac == keccak(shared + a.aes)
      && a.egress == b.ingress && |a.egress| == 32 + |auth| && a.egress[32..] == auth
      && b.egress == a.ingress && |b.egress| == 32 + |authResp| && b.egress[32..] == authResp
      && forall i :: 0 <= i < 32 ==>
           Xor(a.egress[i], a.mac[i]) == respNonce[i] && Xor(b.egress[i], b.mac[i]) == initNonce[i]
  {
    hide Xor, XorSeq;
    var a := HandshakeSecrets(keccak, true, shared, initNonce, respNonce, auth, authResp);
    var b := HandshakeSecrets(keccak, false, shared, initNonce, respNonce, auth, authResp);
    forall i | 0 <= i < 32
      ensures Xor(a.egress[i], a.mac[i]) == respNonce[i] && Xor(b.egress[i], b.mac[i]) == initNonce[i]
    {
      XorSymmetric(a.mac[i], respNonce[i]);
      XorSymmetric(a.mac[i], initNonce[i]);
      XorTwice(respNonce[i], a.mac[i]);
      XorTwice(initNonce[i], a.mac[i]);
    }
  }

  /** The cryptography both sides derive from their secrets. */
  function CryptoFrom(ctr: (seq<byte>, nat) -> byte, aes: (seq<byte>, seq<byte>) -> seq<byte>,
                      keccak: seq<byte> -> seq<byte>, s: Secrets): Crypto {
    Crypto(i => ctr(s.aes, i), b => aes(s.mac, b), keccak)
  }

  /** From the handshake on, in both directions: what one side writes, the other reads, in order and in step. */
  lemma HandshakeThenConversation(ctr: (seq<byte>, nat) -> byte, aes: (seq<byte>, seq<byte>) -> seq<byte>,
                                  keccak: seq<byte> -> seq<byte>,
                                  shared: seq<byte>, initNonce: seq<byte>, respNonce: seq<byte>, auth: seq<byte>,
                                  authResp: seq<byte>, writer: bool, msgs: seq<Message>, tail: seq<byte>)
    requires (forall x :: |keccak(x)| == 32) && (forall k, b :: |aes(k, b)| == 16) && |initNonce| == 32
    requires |respNonce| == 32
    requires AllFit(msgs)
    ensures var ours := HandshakeSecrets(keccak, writer, shared, initNonce, respNonce, auth, authResp);
            var theirs := HandshakeSecrets(keccak, !writer, shared, initNonce, respNonce, auth, authResp);
            var c, c' := CryptoFrom(ctr, aes, keccak, ours), CryptoFrom(ctr, aes, keccak, theirs);
            var written := WriteAll(c, Half(0, ours.egress), msgs);
            && written.Some?
            && ReadAll(c', Half(0, theirs.ingress), |msgs|, written.value.0 + tail) == All(msgs, written.value.1, tail)
  {
    hide WriteAll, ReadAll, AllFit, XorSeq;
    var ours := HandshakeSecrets(keccak, writer, shared, initNonce, respNonce, auth, authResp);
    var theirs := HandshakeSecrets(keccak, !writer, shared, initNonce, respNonce, auth, authResp);
    assert ours.aes == theirs.aes && ours.mac == theirs.mac && ours.egress == theirs.ingress;
    var c, c' := CryptoFrom(ctr, aes, keccak, ours), CryptoFrom(ctr, aes, keccak, theirs);
    ConversationRoundTrip(c, Half(0, ours.egress), msgs, tail);
  }

  // ---- the frame reader and writer ----

  datatype Received = Msg(msg: Message) | Error(error: ReadError)

  class FrameRW {
    const c: Crypto
    var encPos: nat
    var decPos: nat
    var egress: seq<byte>
    var ingress: seq<byte>
    /** What has been put on the connection, and what has arrived on it and is not read yet. */
    var sent: seq<byte>
    var incoming: seq<byte>

    constructor (c: Crypto, egress: seq<byte>, ingress: seq<byte>, incoming: seq<byte>)
      ensures this.c == c && encPos == 0 && decPos == 0 && this.egress == egress && this.ingress == ingress
      ensures sent == [] && this.incoming == incoming
    {
      this.c, encPos, decPos, this.egress, this.ingress := c, 0, 0, egress, ingress;
      sent, this.incoming := [], incoming;
    }

    /** Combines the front of a buffer with the keystream, in place. */
    method XorKeyStream(buf: array<byte>, n: nat, pos: nat)
      requires n <= buf.Length
      modifies buf
      ensures buf[..n] == Stream(c, pos, old(buf[..n])) && buf[n..] == old(buf[n..])
    {
      hide Xor;
      var i := 0;
      while i < n
        invariant 0 <= i <= n
        invariant forall k :: 0 <= k < i ==> buf[k] == Xor(old(buf[k]), c.stream(pos + k))
        invariant forall k :: i <= k < buf.Length ==> buf[k] == old(buf[k])
      {
        buf[i] := Xor(buf[i], c.stream(pos + i));
        i := i + 1;
      }
    }

    /** Reseeds a MAC hash and gives the tag. */
    method UpdateMac(mac: seq<byte>, seed: seq<byte>) returns (mac': seq<byte>, tag: seq<byte>)
      requires c.Sized() && |seed| >= 16
      ensures mac' == Reseeded(c, mac, seed) && tag == Tag(c, mac')
      ensures SeedAdded(c, mac, seed, mac') && tag == c.sum(mac')[..16]
    {
      hide Xor;
      var block := c.block(c.sum(mac)[..16]);
      var aesbuf := new byte[16](i requires 0 <= i < 16 => assert |block| == 16; block[i]);
      var i := 0;
      while i < 16
        invariant 0 <= i <= 16
        invariant forall k :: 0 <= k < i ==> aesbuf[k] == Xor(block[k], seed[k])
        invariant forall k :: i <= k < 16 ==> aesbuf[k] == block[k]
      {
        aesbuf[i] := Xor(aesbuf[i], seed[i]);
        i := i + 1;
      }
      mac' := mac + aesbuf[..];
      tag := c.sum(mac')[..16];
    }

    /** The content `done` is encrypted onto the connection and into the egress MAC, from a position on. */
    ghost predicate Teed(sent0: seq<byte>, egress0: seq<byte>, pos: nat, done: seq<byte>)
      reads this
    {
      sent == sent0 + Stream(c, pos, done) && egress == egress0 + Stream(c, pos, done) && encPos == pos + |done|
    }

    method Tee(data: seq<byte>, ghost sent0: seq<byte>, ghost egress0: seq<byte>, ghost pos: nat, ghost done: seq<byte>)
      requires Teed(sent0, egress0, pos, done)
      modifies this`sent, this`egress, this`encPos
      ensures Teed(sent0, egress0, pos, done + data)
    {
      hide Stream, Xor;
      var out := Encrypt(data);
      AppendStream(c, sent0, pos, done, data);
      AppendStream(c, egress0, pos, done, data);
      sent, egress, encPos := sent + out, egress + out, encPos + |data|;
    }

    method Encrypt(data: seq<byte>) returns (out: seq<byte>)
      ensures out == Stream(c, encPos, data)
    {
      hide Stream, Xor;
      var buf := new byte[|data|](i requires 0 <= i < |data| => data[i]);
      assert buf[..|data|] == data;
      XorKeyStream(buf, |data|, encPos);
      out := buf[..|data|];
    }

    method WriteMsg(m: Message) returns (ok: bool)
      requires c.Sized() && m.code <= MAX_UINT64
      modifies this`sent, this`egress, this`encPos
      ensures ok <==> WriteFrame(c, old(Half(encPos, egress)), m).Some?
      ensures !ok ==> sent == old(sent) && egress == old(egress) && encPos == old(encPos)
      ensures ok ==> var w := WriteFrame(c, old(Half(encPos, egress)), m).value;
                     sent == old(sent) + w.0 && Half(encPos, egress) == w.1
    {
      hide Stream, Xor, Tag, Reseeded, EncodeUint, PlainHeader, Zeros, Padding;
      var ptype := EncodeUint(m.code);
      var fsize := (|ptype| + m.size) % UINT32;
      if fsize > MAX_UINT24 {
        return false;
      }
      ok := true;
      WriteHeader(fsize);
      WriteContent(ptype, m.payload, fsize);
      var mac;
      egress, mac := UpdateMac(egress, c.sum(egress));
      sent := sent + mac;
    }

    method WriteContent(ptype: seq<byte>, payload: seq<byte>, fsize: nat)
      modifies this`sent, this`egress, this`encPos
      ensures Teed(old(sent), old(egress), old(encPos), ptype + payload + Zeros(Padding(fsize)))
    {
      hide Teed, Zeros;
      NothingTeed();
      Tee(ptype, old(sent), old(egress), old(encPos), []);
      assert [] + ptype == ptype;
      Tee(payload, old(sent), old(egress), old(encPos), ptype);
      if fsize % 16 > 0 {
        Tee(Zeros(16 - fsize % 16), old(sent), old(egress), old(encPos), ptype + payload);
      } else {
        NoPadding(ptype + payload);
      }
    }

    lemma NothingTeed()
      ensures Teed(sent, egress, encPos, [])
    {
    }

    method WriteHeader(fsize: nat)
      requires c.Sized() && fsize <= MAX_UINT24
      modifies this`sent, this`egress, this`encPos
      ensures var header := Stream(c, old(encPos), PlainHeader(fsize));
              && egress == HeaderMac(c, old(Half(encPos, egress)), header)
              && sent == old(sent) + header + Tag(c, egress) && encPos == old(encPos) + 16
    {
      hide Tag, Reseeded, Xor;
      var headbuf := new byte[32](_ => 0);
      headbuf[0], headbuf[1], headbuf[2] := fsize / 65536 % 256, fsize / 256 % 256, fsize % 256;
      headbuf[3], headbuf[4], headbuf[5] := HEADER_TAIL[0], HEADER_TAIL[1], HEADER_TAIL[2];
      assert headbuf[..16] == PlainHeader(fsize);
      XorKeyStream(headbuf, 16, encPos);
      var tag;
      egress, tag := UpdateMac(egress, headbuf[..16]);
      sent, encPos := sent + headbuf[..16] + tag, encPos + 16;
    }

    /** Takes bytes off the connection; fails, having read what there is, when too few have arrived. */
    method ReadFull(n: nat) returns (ok: bool, buf: array<byte>)
      modifies this`incoming
      ensures fresh(buf) && buf.Length == n && (ok <==> |old(incoming)| >= n)
      ensures ok ==> buf[..] == old(incoming)[..n] && incoming == old(incoming)[n..]
      ensures !ok ==> incoming == []
    {
      ok := |incoming| >= n;
      if ok {
        var data := incoming[..n];
        buf := new byte[n](i requires 0 <= i < |data| => data[i]);
        assert buf[..] == data;
        incoming := incoming[n..];
      } else {
        buf := new byte[n](_ => 0);
        incoming := [];
      }
    }

    method ReadMsg() returns (r: Received)
      requires c.Sized()
      modifies this`incoming, this`ingress, this`decPos
      ensures var res := ReadFrame(c, old(Half(decPos, ingress)), old(incoming));
              && Half(decPos, ingress) == res.half && incoming == res.rest
              && r == if res.Ok? then Msg(res.msg) else Error(res.error)
    {
      hide Stream, Xor, Tag, Reseeded, ReadBody, ReadInt24;
      var ok, headbuf := ReadFull(32);
      if !ok {
        return Error(ShortRead);
      }
      assert headbuf[..16] == old(incoming)[..16];
      var shouldMac;
      ingress, shouldMac := UpdateMac(ingress, headbuf[..16]);
      if shouldMac != headbuf[16..] {
        return Error(BadHeaderMac);
      }
      assert headbuf[16..] == old(incoming)[16..32];
      XorKeyStream(headbuf, 16, decPos);
      var fsize := ReadInt24(headbuf[..16]);
      decPos := decPos + 16;
      r := ReadContent(fsize);
    }

    method ReadContent(fsize: nat) returns (r: Received)
      requires c.Sized()
      modifies this`incoming, this`ingress, this`decPos
      ensures var res := ReadBody(c, old(decPos), old(ingress), fsize, old(incoming));
              && Half(decPos, ingress) == res.half && incoming == res.rest
              && r == if res.Ok? then Msg(res.msg) else Error(res.error)
    {
      hide Stream, Xor, Tag, Reseeded, DecodeUint;
      var rsize := fsize;
      if fsize % 16 > 0 {
        rsize := rsize + (16 - fsize % 16);
      }
      var ok, framebuf := ReadFull(rsize);
      if !ok {
        return Error(ShortRead);
      }
      ghost var frame := framebuf[..];
      ingress := ingress + framebuf[..];
      var seed := c.sum(ingress);
      var ok', tagbuf := ReadFull(16);
      if !ok' {
        return Error(ShortRead);
      }
      assert tagbuf[..] == old(incoming)[rsize..rsize + 16];
      assert incoming == old(incoming)[rsize + 16..];
      var shouldMac;
      ingress, shouldMac := UpdateMac(ingress, seed);
      if shouldMac != tagbuf[..] {
        return Error(BadFrameMac);
      }
      assert framebuf[..] == frame;
      r := Decrypt(framebuf, fsize);
    }

    /** Decrypts a whole frame and takes the message apart. */
    method Decrypt(framebuf: array<byte>, fsize: nat) returns (r: Received)
      requires fsize <= framebuf.Length
      modifies this`decPos, framebuf
      ensures decPos == old(decPos) + framebuf.Length
      ensures var content := Stream(c, old(decPos), old(framebuf[..]))[..fsize];
        match DecodeUint(content)
        case None => r == Error(BadCode)
        case Some((code, payload)) => r == Msg(Message(code, |payload|, payload))
    {
      hide Stream, Xor, DecodeUint;
      var n := framebuf.Length;
      assert framebuf[..n] == framebuf[..];
      XorKeyStream(framebuf, n, decPos);
      decPos := decPos + n;
      assert framebuf[..fsize] == framebuf[..n][..fsize];
      match DecodeUint(framebuf[..fsize]) {
        case None => r := Error(BadCode);
        case Some((code, payload)) => r := Msg(Message(code, |payload|, payload));
      }
    }
  }

  lemma NoPadding(s: seq<byte>)
    ensures s + Zeros(0) == s
  {
  }
}
