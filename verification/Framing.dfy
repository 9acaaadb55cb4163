/** The wire format: a two-byte service id, the length of the whole frame, the body.  Numbers are in network
    byte order; the length takes two bytes for chat messages and four for file transfer. */
module Framing {
  import opened Wrappers

  datatype Mode = Normal | FileTransfer

  function LengthBytes(mode: Mode): nat {
    if mode == Normal then 2 else 4
  }

  function HeaderLength(mode: Mode): nat {
    2 + LengthBytes(mode)
  }

  // 256^width
  function Range(width: nat): (r: nat)
    ensures r >= 1
  {
    if width == 0 then 1 else 256 * Range(width - 1)
  }

  // The last `width` bytes of n, most significant first: a narrowing cast followed by the byte order conversion.
  function BigEndian(n: nat, width: nat): (s: seq<byte>)
    ensures |s| == width
  {
    if width == 0 then [] else BigEndian(n / 256, width - 1) + [(n % 256) as byte]
  }

  function FromBigEndian(s: seq<byte>): nat {
    if s == [] then 0 else FromBigEndian(s[..|s| - 1]) * 256 + s[|s| - 1] as nat
  }

  datatype Frame = Frame(id: nat, body: seq<byte>)

  /** The buffer a SendNode builds. */
  function Encode(mode: Mode, f: Frame): seq<byte> {
    HeaderOf(mode, f.id, |f.body|) + f.body
  }

  function HeaderOf(mode: Mode, id: nat, bodyLength: nat): seq<byte> {
    BigEndian(id, 2) + BigEndian(HeaderLength(mode) + bodyLength, LengthBytes(mode))
  }

  function EncodeAll(mode: Mode, frames: seq<Frame>): seq<byte> {
    if frames == [] then [] else EncodeAll(mode, frames[..|frames| - 1]) + Encode(mode, frames[|frames| - 1])
  }

  /** What a server lets through: ids below `idLimit` and bodies of at most `maxLength` bytes. */
  datatype Limits = Limits(mode: Mode, idLimit: nat, maxLength: nat)

  const SERVICE_UNKNOWN: nat := 34
  const MAX_LENGTH: nat := 2048
  const CHATTING := Limits(Normal, SERVICE_UNKNOWN, MAX_LENGTH)

  const SIZE_T: nat := 0x1_0000_0000_0000_0000

  // get_length: the body length in size_t arithmetic.
  function BodyLength(mode: Mode, length: nat): nat {
    if length >= HeaderLength(mode) then length - HeaderLength(mode) else length + SIZE_T - HeaderLength(mode)
  }

  // The chat server keeps the body length in 16 bits.
  function Narrowed(mode: Mode, length: nat): nat {
    if mode == Normal then length % 0x1_0000 else length
  }

  /** A connection being read: `got` is what the pending read has received so far. */
  datatype Stage = Header(got: seq<byte>) | Body(id: nat, length: nat, got: seq<byte>) | Purged

  datatype Reader = Reader(stage: Stage, delivered: seq<Frame>)

  const FRESH := Reader(Header([]), [])

  function OnHeader(l: Limits, header: seq<byte>, delivered: seq<Frame>): Reader
    requires |header| == HeaderLength(l.mode)
  {
    var id := FromBigEndian(header[..2]);
    var length := Narrowed(l.mode, BodyLength(l.mode, FromBigEndian(header[2..])));
    if id >= l.idLimit || length > l.maxLength then Reader(Purged, delivered)
    else if length == 0 then OnBody(id, [], delivered)
    else Reader(Body(id, length, []), delivered)
  }

  function OnBody(id: nat, body: seq<byte>, delivered: seq<Frame>): Reader {
    Reader(Header([]), delivered + [Frame(id, body)])
  }

  function FeedByte(l: Limits, r: Reader, b: byte): Reader {
    match r.stage
    case Purged => r
    case Header(got) =>
      if |got + [b]| == HeaderLength(l.mode) then OnHeader(l, got + [b], r.delivered)
      else r.(stage := Header(got + [b]))
    case Body(id, length, got) =>
      if |got + [b]| == length then OnBody(id, got + [b], r.delivered)
      else r.(stage := Body(id, length, got + [b]))
  }

  function FeedAll(l: Limits, r: Reader, s: seq<byte>): Reader {
    if s == [] then r else FeedByte(l, FeedAll(l, r, s[..|s| - 1]), s[|s| - 1])
  }

  function FeedChunks(l: Limits, r: Reader, chunks: seq<seq<byte>>): Reader {
    if chunks == [] then r else FeedAll(l, FeedChunks(l, r, chunks[..|chunks| - 1]), chunks[|chunks| - 1])
  }

  function Concat(chunks: seq<seq<byte>>): seq<byte> {
    if chunks == [] then [] else Concat(chunks[..|chunks| - 1]) + chunks[|chunks| - 1]
  }

  // Reading bytes

  lemma {:induction false} FeedConcat(l: Limits, r: Reader, a: seq<byte>, b: seq<byte>)
    ensures FeedAll(l, r, a + b) == FeedAll(l, FeedAll(l, r, a), b)
  {
    if b == [] {
      assert a + b == a;
    } else {
      assert (a + b)[..|a + b| - 1] == a + b[..|b| - 1];
      FeedConcat(l, r, a, b[..|b| - 1]);
    }
  }

  /** However the bytes are split into arrivals, the reader ends in the same state. */
  lemma {:induction false} SplitInvariance(l: Limits, r: Reader, chunks: seq<seq<byte>>)
    ensures FeedChunks(l, r, chunks) == FeedAll(l, r, Concat(chunks))
  {
    if chunks != [] {
      var k := |chunks| - 1;
      SplitInvariance(l, r, chunks[..k]);
      FeedConcat(l, r, Concat(chunks[..k]), chunks[k]);
    }
  }

  // A read that is not filled yet just collects.
  lemma {:induction false} CollectHeader(l: Limits, delivered: seq<Frame>, got: seq<byte>, s: seq<byte>)
    requires |got| + |s| <= HeaderLength(l.mode) && |got| < HeaderLength(l.mode)
    ensures FeedAll(l, Reader(Header(got), delivered), s)
            == if |got| + |s| == HeaderLength(l.mode) then OnHeader(l, got + s, delivered)
               else Reader(Header(got + s), delivered)
  {
    if s == [] {
      assert got + s == got;
    } else {
      CollectHeader(l, delivered, got, s[..|s| - 1]);
      assert got + s[..|s| - 1] + [s[|s| - 1]] == got + s;
    }
  }

  lemma {:induction false} CollectBody(l: Limits, delivered: seq<Frame>, id: nat, length: nat, got: seq<byte>, s: seq<byte>)
    requires |got| + |s| <= length && |got| < length
    ensures FeedAll(l, Reader(Body(id, length, got), delivered), s)
            == if |got| + |s| == length then OnBody(id, got + s, delivered)
               else Reader(Body(id, length, got + s), delivered)
  {
    if s == [] {
      assert got + s == got;
    } else {
      CollectBody(l, delivered, id, length, got, s[..|s| - 1]);
      assert got + s[..|s| - 1] + [s[|s| - 1]] == got + s;
    }
  }

  // Numbers

  lemma {:induction false} ReadBack(n: nat, width: nat)
    ensures FromBigEndian(BigEndian(n, width)) == n % Range(width)
  {
    if width > 0 {
      ReadBack(n / 256, width - 1);
      var s := BigEndian(n, width);
      assert s[..width - 1] == BigEndian(n / 256, width - 1);
      DigitStep(n, Range(width - 1));
    }
  }

  lemma DigitStep(n: nat, r: nat)
    requires r >= 1
    ensures (n / 256 % r) * 256 + n % 256 == n % (256 * r)
  {
    var q, d := n / 256, n % 256;
    var h, m := q / r, q % r;
    assert n == 256 * q + d && q == r * h + m;
    assert n == (256 * r) * h + (m * 256 + d) by { assert 256 * (r * h) == (256 * r) * h; }
    assert 0 <= m * 256 + d < 256 * r;
    Remainder(n, 256 * r, h, m * 256 + d);
  }

  lemma Remainder(n: nat, d: nat, q: nat, m: nat)
    requires d > 0 && n == d * q + m && m < d
    ensures n % d == m
  {
    var k := n / d;
    assert n == d * k + n % d;
    assert n == q * d + m == k * d + n % d;
    assert (q + 1) * d == q * d + d && (k + 1) * d == k * d + d;
    if k > q { MulMonotone(q + 1, k, d); }
    if k < q { MulMonotone(k + 1, q, d); }
  }

  lemma {:induction false} WriteBack(s: seq<byte>)
    ensures BigEndian(FromBigEndian(s), |s|) == s
  {
    if s != [] {
      var k := |s| - 1;
      WriteBack(s[..k]);
      LastDigit(FromBigEndian(s[..k]), s[k]);
      assert s == s[..k] + [s[k]];
    }
  }

  lemma LastDigit(high: nat, b: byte)
    ensures (high * 256 + b as nat) / 256 == high && (high * 256 + b as nat) % 256 == b as nat
  {
  }

  // The digits of a number, the first one counting most: s[i] counts 256^(|s| - 1 - i) times.
  function DigitSum(s: seq<byte>): nat {
    if s == [] then 0 else s[0] as nat * Range(|s| - 1) + DigitSum(s[1..])
  }

  lemma {:induction false} DigitSumAppend(s: seq<byte>, b: byte)
    ensures DigitSum(s + [b]) == DigitSum(s) * 256 + b as nat
  {
    if s == [] {
      assert [] + [b] == [b] && [b][1..] == [];
      assert DigitSum([]) == 0 && Range(0) == 1;
    } else {
      var low := DigitSum(s[1..]);
      assert (s + [b])[1..] == s[1..] + [b];
      DigitSumAppend(s[1..], b);
      assert DigitSum(s + [b]) == s[0] as nat * Range(|s|) + (low * 256 + b as nat);
      ShiftDigit(s[0] as nat, Range(|s| - 1), low);
    }
  }

  lemma ShiftDigit(d: nat, r: nat, low: nat)
    ensures (d * r + low) * 256 == d * (256 * r) + low * 256
  {
  }

  /** Network byte order: what is read from some bytes is the sum of the digits, most significant first. */
  lemma {:induction false} ReadsDigits(s: seq<byte>)
    ensures FromBigEndian(s) == DigitSum(s)
  {
    if s != [] {
      var k := |s| - 1;
      ReadsDigits(s[..k]);
      DigitSumAppend(s[..k], s[k]);
      assert s[..k] + [s[k]] == s;
    }
  }

  /** The widths on the wire: two bytes and four. */
  lemma ReadsTwoOrFour(s: seq<byte>)
    ensures |s| == 2 ==> FromBigEndian(s) == s[0] as nat * 0x100 + s[1] as nat
    ensures |s| == 4 ==>
              FromBigEndian(s) == s[0] as nat * 0x100_0000 + s[1] as nat * 0x1_0000 + s[2] as nat * 0x100 + s[3] as nat
  {
    if |s| == 2 || |s| == 4 {
      ReadsLast(s);
      ReadsLast(s[..|s| - 1]);
      if |s| == 4 {
        ReadsLast(s[..2]);
        ReadsLast(s[..1]);
        assert s[..3][..2] == s[..2] && s[..2][..1] == s[..1] && s[..1][..0] == [];
      } else {
        assert s[..1][..0] == [];
      }
    }
  }

  lemma ReadsLast(s: seq<byte>)
    requires s != []
    ensures FromBigEndian(s) == FromBigEndian(s[..|s| - 1]) * 256 + s[|s| - 1] as nat
  {
  }

  lemma DivideTwice(n: nat, r: nat)
    requires r >= 1
    ensures n / 256 / r == n / (256 * r)
  {
    var q := n / 256;
    var h, m := q / r, q % r;
    assert n == 256 * q + n % 256 && q == r * h + m;
    assert 256 * (r * h) == (256 * r) * h;
    QuotientIs(n, 256 * r, h, m * 256 + n % 256);
  }

  lemma QuotientIs(n: nat, d: nat, q: nat, m: nat)
    requires d > 0 && n == d * q + m && m < d
    ensures n / d == q
  {
    var k := n / d;
    assert n == d * k + n % d;
    assert n == q * d + m == k * d + n % d;
    assert (q + 1) * d == q * d + d && (k + 1) * d == k * d + d;
    if k > q { MulMonotone(q + 1, k, d); }
    if k < q { MulMonotone(k + 1, q, d); }
  }

  /** Network byte order the other way: byte i of a number written in `width` bytes is its digit of weight
      256^(width - 1 - i). */
  lemma {:induction false} WritesDigits(n: nat, width: nat, i: nat)
    requires i < width
    ensures BigEndian(n, width)[i] as nat == n / Range(width - 1 - i) % 256
  {
    if i < width - 1 {
      WritesDigits(n / 256, width - 1, i);
      DivideTwice(n, Range(width - 2 - i));
      assert Range(width - 1 - i) == 256 * Range(width - 2 - i);
    } else {
      assert Range(0) == 1;
    }
  }

  /** The widths on the wire: two bytes and four. */
  lemma WritesTwoOrFour(n: nat)
    ensures BigEndian(n, 2)[0] as nat == n / 0x100 % 0x100 && BigEndian(n, 2)[1] as nat == n % 0x100
    ensures BigEndian(n, 4)[0] as nat == n / 0x100_0000 % 0x100 && BigEndian(n, 4)[1] as nat == n / 0x1_0000 % 0x100
    ensures BigEndian(n, 4)[2] as nat == n / 0x100 % 0x100 && BigEndian(n, 4)[3] as nat == n % 0x100
  {
    FirstRanges();
    WritesDigits(n, 2, 0);
    WritesDigits(n, 2, 1);
    WritesDigits(n, 4, 0);
    WritesDigits(n, 4, 1);
    WritesDigits(n, 4, 2);
    WritesDigits(n, 4, 3);
  }

  // Id and length at the head of an encoded frame, byte by byte.
  lemma EncodedHeader(mode: Mode, f: Frame)
    ensures var e, total := Encode(mode, f), HeaderLength(mode) + |f.body|;
            && |e| == total && e[HeaderLength(mode)..] == f.body
            && e[0] as nat == f.id / 0x100 % 0x100 && e[1] as nat == f.id % 0x100
            && (mode == Normal ==> e[2] as nat == total / 0x100 % 0x100 && e[3] as nat == total % 0x100)
            && (mode == FileTransfer ==>
                  && e[2] as nat == total / 0x100_0000 % 0x100 && e[3] as nat == total / 0x1_0000 % 0x100
                  && e[4] as nat == total / 0x100 % 0x100 && e[5] as nat == total % 0x100)
  {
    var id, length := BigEndian(f.id, 2), BigEndian(HeaderLength(mode) + |f.body|, LengthBytes(mode));
    WritesTwoOrFour(f.id);
    WritesTwoOrFour(HeaderLength(mode) + |f.body|);
    HeaderBytes(id, length, f.body);
  }

  lemma HeaderBytes(id: seq<byte>, length: seq<byte>, body: seq<byte>)
    requires |id| == 2
    ensures var e := id + length + body;
            && e[0] == id[0] && e[1] == id[1] && e[2 + |length|..] == body
            && forall i: nat :: i < |length| ==> e[2 + i] == length[i]
  {
  }

  lemma FirstRanges()
    ensures Range(0) == 1 && Range(1) == 0x100 && Range(2) == 0x1_0000 && Range(3) == 0x100_0000
  {
    assert Range(1) == 256 * Range(0);
    assert Range(2) == 256 * Range(1);
    assert Range(3) == 256 * Range(2);
  }

  lemma Ranges()
    ensures Range(2) == 0x1_0000 && Range(4) == 0x1_0000_0000
  {
    assert Range(2) == 256 * Range(1) && Range(1) == 256;
    assert Range(4) == 256 * Range(3) && Range(3) == 256 * Range(2);
  }

  // One frame

  function Total(mode: Mode, f: Frame): nat {
    HeaderLength(mode) + |f.body|
  }

  function Limit(mode: Mode): nat {
    if mode == Normal then 0x1_0000 else 0x1_0000_0000
  }

  // What the receiver reads from the header of an encoded frame.
  lemma HeaderRead(mode: Mode, f: Frame)
    requires f.id < 0x1_0000
    ensures FromBigEndian(HeaderOf(mode, f.id, |f.body|)[..2]) == f.id
    ensures FromBigEndian(HeaderOf(mode, f.id, |f.body|)[2..]) == Total(mode, f) % Limit(mode)
  {
    var h := HeaderOf(mode, f.id, |f.body|);
    assert h[..2] == BigEndian(f.id, 2);
    assert h[2..] == BigEndian(Total(mode, f), LengthBytes(mode));
    ReadId(f.id);
    ReadLength(mode, Total(mode, f));
  }

  lemma ReadId(id: nat)
    requires id < 0x1_0000
    ensures FromBigEndian(BigEndian(id, 2)) == id
  {
    ReadBack(id, 2);
    Ranges();
  }

  lemma ReadLength(mode: Mode, total: nat)
    ensures FromBigEndian(BigEndian(total, LengthBytes(mode))) == total % Limit(mode)
  {
    ReadBack(total, LengthBytes(mode));
    Ranges();
  }

  const MAX_NORMAL_BODY: nat := 65531
  const MAX_FILE_BODY: nat := 4294967289

  function MaxBody(mode: Mode): nat {
    if mode == Normal then MAX_NORMAL_BODY else MAX_FILE_BODY
  }

  /** The receiver reads back the id and the body length of a frame exactly when the body is at most 65531 bytes,
      or 4294967289 bytes in a file transfer; beyond that the length field wraps. */
  lemma LengthRoundTrips(mode: Mode, f: Frame)
    requires f.id < 0x1_0000 && |f.body| < SIZE_T / 2
    ensures FromBigEndian(HeaderOf(mode, f.id, |f.body|)[..2]) == f.id
    ensures BodyLength(mode, FromBigEndian(HeaderOf(mode, f.id, |f.body|)[2..])) == |f.body| <==> |f.body| <= MaxBody(mode)
    ensures |f.body| > MaxBody(mode)
            ==> var n := BodyLength(mode, FromBigEndian(HeaderOf(mode, f.id, |f.body|)[2..])); n < |f.body| || n > MaxBody(mode)
  {
    HeaderRead(mode, f);
  }

  // The limits of both servers: nothing a wrapped length field yields passes them.
  predicate Sane(l: Limits) {
    && l.idLimit <= 0x1_0000
    && if l.mode == Normal then l.maxLength <= MAX_NORMAL_BODY else l.maxLength < SIZE_T - HeaderLength(l.mode)
  }

  predicate Passes(l: Limits, f: Frame) {
    f.id < l.idLimit && |f.body| <= l.maxLength && |f.body| <= MaxBody(l.mode)
  }

  lemma HeaderPasses(l: Limits, delivered: seq<Frame>, f: Frame)
    requires Sane(l) && Passes(l, f)
    ensures OnHeader(l, HeaderOf(l.mode, f.id, |f.body|), delivered)
            == if f.body == [] then OnBody(f.id, [], delivered)
               else Reader(Body(f.id, |f.body|, []), delivered)
  {
    HeaderRead(l.mode, f);
    LengthFits(l.mode, |f.body|);
  }

  lemma LengthFits(mode: Mode, body: nat)
    requires body <= MaxBody(mode)
    ensures Narrowed(mode, BodyLength(mode, (HeaderLength(mode) + body) % Limit(mode))) == body
  {
  }

  // Encode is the header followed by the body.
  lemma ReadsFrame(l: Limits, delivered: seq<Frame>, f: Frame)
    requires Sane(l) && Passes(l, f)
    ensures FeedAll(l, Reader(Header([]), delivered), Encode(l.mode, f)) == Reader(Header([]), delivered + [f])
  {
    var h := HeaderOf(l.mode, f.id, |f.body|);
    assert Encode(l.mode, f) == h + f.body;
    FeedConcat(l, Reader(Header([]), delivered), h, f.body);
    CollectHeader(l, delivered, [], h);
    assert [] + h == h;
    HeaderPasses(l, delivered, f);
    if f.body != [] {
      CollectBody(l, delivered, f.id, |f.body|, [], f.body);
      assert [] + f.body == f.body;
    }
  }

  /** Every list of frames the receiver lets through is read back exactly, in order, leaving nothing over. */
  lemma {:induction false} AllFramesRoundTrip(l: Limits, frames: seq<Frame>)
    requires Sane(l) && forall f :: f in frames ==> Passes(l, f)
    ensures FeedAll(l, FRESH, EncodeAll(l.mode, frames)) == Reader(Header([]), frames)
  {
    if frames != [] {
      var k := |frames| - 1;
      AllFramesRoundTrip(l, frames[..k]);
      FeedConcat(l, FRESH, EncodeAll(l.mode, frames[..k]), Encode(l.mode, frames[k]));
      assert frames[k] in frames;
      ReadsFrame(l, frames[..k], frames[k]);
      assert frames[..k] + [frames[k]] == frames;
      assert EncodeAll(l.mode, frames) == EncodeAll(l.mode, frames[..k]) + Encode(l.mode, frames[k]);
    }
  }

  /** The same for any splitting of the byte stream into arrivals. */
  lemma AnySplitRoundTrips(l: Limits, frames: seq<Frame>, chunks: seq<seq<byte>>)
    requires Sane(l) && forall f :: f in frames ==> Passes(l, f)
    requires Concat(chunks) == EncodeAll(l.mode, frames)
    ensures FeedChunks(l, FRESH, chunks) == Reader(Header([]), frames)
  {
    SplitInvariance(l, FRESH, chunks);
    AllFramesRoundTrip(l, frames);
  }

  // Arbitrary input

  // The bytes of a frame that has only partly arrived.
  function Partial(l: Limits, stage: Stage): seq<byte> {
    match stage
    case Header(got) => got
    case Body(id, length, got) => HeaderOf(l.mode, id, length) + got
    case Purged => []
  }

  predicate StageOk(l: Limits, stage: Stage) {
    match stage
    case Header(got) => |got| < HeaderLength(l.mode)
    case Body(id, length, got) => id < l.idLimit && |got| < length <= l.maxLength && length <= MaxBody(l.mode)
    case Purged => true
  }

  predicate ReaderOk(l: Limits, r: Reader) {
    StageOk(l, r.stage) && forall f :: f in r.delivered ==> Passes(l, f)
  }

  lemma {:induction false} DecodedBelow(s: seq<byte>)
    ensures FromBigEndian(s) < Range(|s|)
  {
    if s != [] { DecodedBelow(s[..|s| - 1]); }
  }

  lemma AcceptedLength(l: Limits, n: nat)
    requires Sane(l) && n < Limit(l.mode) && Narrowed(l.mode, BodyLength(l.mode, n)) <= l.maxLength
    ensures n == HeaderLength(l.mode) + Narrowed(l.mode, BodyLength(l.mode, n))
    ensures Narrowed(l.mode, BodyLength(l.mode, n)) <= MaxBody(l.mode)
  {
  }

  // An accepted header is the encoding of what was read from it.
  lemma HeaderWrites(l: Limits, header: seq<byte>)
    requires Sane(l) && |header| == HeaderLength(l.mode)
    ensures var length := Narrowed(l.mode, BodyLength(l.mode, FromBigEndian(header[2..])));
            length <= l.maxLength
            ==> length <= MaxBody(l.mode) && header == HeaderOf(l.mode, FromBigEndian(header[..2]), length)
  {
    Ranges();
    DecodedBelow(header[2..]);
    WriteBack(header[..2]);
    WriteBack(header[2..]);
    assert header == header[..2] + header[2..];
    if Narrowed(l.mode, BodyLength(l.mode, FromBigEndian(header[2..]))) <= l.maxLength {
      AcceptedLength(l, FromBigEndian(header[2..]));
    }
  }

  // The bytes written so far: what was delivered, re-encoded, and the partial frame.
  function Written(l: Limits, r: Reader): seq<byte> {
    EncodeAll(l.mode, r.delivered) + Partial(l, r.stage)
  }

  lemma DeliveryWritten(l: Limits, delivered: seq<Frame>, f: Frame)
    ensures Written(l, Reader(Header([]), delivered + [f])) == EncodeAll(l.mode, delivered) + Encode(l.mode, f)
  {
    assert (delivered + [f])[..|delivered|] == delivered;
    assert Encode(l.mode, f) + [] == Encode(l.mode, f);
  }

  // `before` reads its last byte and becomes `after`.
  ghost predicate Advances(l: Limits, before: Reader, after: Reader, b: byte) {
    && ReaderOk(l, after) && before.delivered <= after.delivered
    && (after.stage != Purged ==> before.stage != Purged && Written(l, after) == Written(l, before) + [b])
  }

  // A header that was accepted, with the frame it announces: delivered at once when the body is empty.
  lemma Announced(l: Limits, delivered: seq<Frame>, id: nat, length: nat, header: seq<byte>)
    requires header == HeaderOf(l.mode, id, length)
    ensures length == 0 ==> Written(l, OnBody(id, [], delivered)) == EncodeAll(l.mode, delivered) + header
    ensures Written(l, Reader(Body(id, length, []), delivered)) == EncodeAll(l.mode, delivered) + header
  {
    assert header + [] == header;
    if length == 0 {
      DeliveryWritten(l, delivered, Frame(id, []));
    }
  }

  lemma HeaderDone(l: Limits, header: seq<byte>, delivered: seq<Frame>)
    requires Sane(l) && |header| == HeaderLength(l.mode) && forall f :: f in delivered ==> Passes(l, f)
    ensures var r := OnHeader(l, header, delivered);
            && ReaderOk(l, r) && delivered <= r.delivered
            && (r.stage != Purged ==> Written(l, r) == EncodeAll(l.mode, delivered) + header)
  {
    HeaderWrites(l, header);
    var id := FromBigEndian(header[..2]);
    var length := Narrowed(l.mode, BodyLength(l.mode, FromBigEndian(header[2..])));
    if length <= l.maxLength {
      Announced(l, delivered, id, length, header);
    }
  }

  lemma HeaderByte(l: Limits, r: Reader, b: byte)
    requires Sane(l) && ReaderOk(l, r) && r.stage.Header? && |r.stage.got| + 1 == HeaderLength(l.mode)
    ensures Advances(l, r, FeedByte(l, r, b), b)
  {
    HeaderDone(l, r.stage.got + [b], r.delivered);
    assert Written(l, r) + [b] == EncodeAll(l.mode, r.delivered) + (r.stage.got + [b]);
  }

  lemma BodyByte(l: Limits, r: Reader, b: byte)
    requires Sane(l) && ReaderOk(l, r) && r.stage.Body? && |r.stage.got| + 1 == r.stage.length
    ensures Advances(l, r, FeedByte(l, r, b), b)
  {
    var f := Frame(r.stage.id, r.stage.got + [b]);
    DeliveryWritten(l, r.delivered, f);
    assert Encode(l.mode, f) == Partial(l, r.stage) + [b];
  }

  lemma ByteStep(l: Limits, r: Reader, b: byte)
    requires Sane(l) && ReaderOk(l, r)
    ensures Advances(l, r, FeedByte(l, r, b), b)
  {
    match r.stage {
      case Header(got) =>
        if |got| + 1 == HeaderLength(l.mode) {
          HeaderByte(l, r, b);
        } else {
          assert Written(l, FeedByte(l, r, b)) == Written(l, r) + [b];
        }
      case Body(id, length, got) =>
        if |got| + 1 == length {
          BodyByte(l, r, b);
        } else {
          assert Partial(l, Body(id, length, got + [b])) == Partial(l, r.stage) + [b];
        }
      case Purged =>
    }
  }

  /** Whatever bytes arrive, in whatever order: every frame delivered respects the limits, and as long as the
      connection is not purged the frames delivered and the partial one encode to exactly the bytes read. */
  lemma {:induction false} NothingLostOrInvented(l: Limits, input: seq<byte>)
    requires Sane(l)
    ensures var r := FeedAll(l, FRESH, input);
            && ReaderOk(l, r)
            && (r.stage != Purged ==> Written(l, r) == input)
  {
    if input != [] {
      var k := |input| - 1;
      NothingLostOrInvented(l, input[..k]);
      ByteStep(l, FeedAll(l, FRESH, input[..k]), input[k]);
      assert input == input[..k] + [input[k]];
    }
  }

  lemma {:induction false} DeliveredGrows(l: Limits, r: Reader, input: seq<byte>)
    requires Sane(l) && ReaderOk(l, r)
    ensures ReaderOk(l, FeedAll(l, r, input)) && r.delivered <= FeedAll(l, r, input).delivered
  {
    if input != [] {
      var k := |input| - 1;
      DeliveredGrows(l, r, input[..k]);
      ByteStep(l, FeedAll(l, r, input[..k]), input[k]);
    }
  }

  /** One frame is read back, with nothing left over, exactly when its id and its body are within the limits. */
  lemma FrameRoundTripsIff(l: Limits, f: Frame)
    requires Sane(l) && f.id < 0x1_0000
    ensures FeedAll(l, FRESH, Encode(l.mode, f)) == Reader(Header([]), [f]) <==> Passes(l, f)
  {
    if Passes(l, f) {
      ReadsFrame(l, [], f);
      assert [] + [f] == [f];
    } else {
      DeliveredGrows(l, FRESH, Encode(l.mode, f));
      assert f in [f];
    }
  }

  /** The chat server: a frame is read back exactly when its service id is below 34 and its body at most 2048 bytes. */
  lemma ChatFrameRoundTripsIff(f: Frame)
    requires f.id < 0x1_0000
    ensures FeedAll(CHATTING, FRESH, Encode(Normal, f)) == Reader(Header([]), [f]) <==> f.id < 34 && |f.body| <= 2048
  {
    FrameRoundTripsIff(CHATTING, f);
  }
}
