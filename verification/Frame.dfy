/**
 The relay frame of internal/relay/frame.go: a 33-byte big-endian header and a payload.

 Timestamps are nanoseconds since the Unix epoch; the wire carries whole microseconds in
 64 bits.  `Encoded` and `Decoded` are the specification, `Encode` and `DecodeFrame` the
 code that fills and reads byte arrays.
 */
module Frames {
  import opened Integers
  import opened Wrappers

  type Byte = n: int | 0 <= n < 256

  type UInt16 = n: int | 0 <= n < 0x1_0000

  type FrameID = s: seq<Byte> | |s| == 16 witness [0, 0, 0, 0, 0, 0, 0, 0, 0, 0, 0, 0, 0, 0, 0, 0]

  const FRAME_MAGIC: nat := 0x5455_524E
  const HEADER_SIZE: nat := 33
  const MAX_PAYLOAD: nat := 1200

  datatype Frame = Frame(sessionID: FrameID, flowID: UInt16, direction: Byte, timestamp: int, payload: seq<Byte>)

  datatype FrameError = PayloadTooLarge | FrameTooShort | InvalidMagic | LengthExceedsData

  // ----- integers on the wire -----

  function BigEndian(v: nat, width: nat): (s: seq<Byte>)
    ensures |s| == width
  {
    if width == 0 then [] else BigEndian(v / 256, width - 1) + [v % 256]
  }

  function FromBigEndian(s: seq<Byte>): nat {
    if s == [] then 0 else FromBigEndian(s[..|s| - 1]) * 256 + s[|s| - 1]
  }

  /** The number of values that `width` bytes can hold. */
  function Capacity(width: nat): nat {
    if width == 0 then 1 else 256 * Capacity(width - 1)
  }

  lemma {:induction false} NumberRoundTrip(v: nat, width: nat)
    requires v < Capacity(width)
    ensures FromBigEndian(BigEndian(v, width)) == v
  {
    if width > 0 {
      NumberRoundTrip(v / 256, width - 1);
      assert BigEndian(v, width)[..width - 1] == BigEndian(v / 256, width - 1);
    }
  }

  lemma {:induction false} BytesRoundTrip(s: seq<Byte>)
    ensures FromBigEndian(s) < Capacity(|s|)
    ensures BigEndian(FromBigEndian(s), |s|) == s
  {
    if s != [] {
      var n := |s| - 1;
      BytesRoundTrip(s[..n]);
      assert FromBigEndian(s) / 256 == FromBigEndian(s[..n]) && FromBigEndian(s) % 256 == s[n];
      assert s == s[..n] + [s[n]];
    }
  }

  /** `Time.UnixMicro`: whole microseconds, rounded down. */
  function UnixMicro(t: int): int {
    t / 1000
  }

  /** Conversion of an int64 to uint64: the low 64 bits. */
  function ToUint64(i: int): nat {
    i % TWO_TO_64
  }

  function ToInt64(u: nat): int {
    if u < TWO_TO_64 / 2 then u else u - TWO_TO_64
  }

  /** A timestamp after its trip over the wire. */
  function OnWire(t: int): int {
    ToInt64(ToUint64(UnixMicro(t))) * 1000
  }

  /** The wire rounds a timestamp down to microseconds if and only if those fit in 64 bits. */
  lemma TimestampRoundTripIff(t: int)
    ensures OnWire(t) == t - t % 1000 <==> InInt64(UnixMicro(t))
    ensures OnWire(OnWire(t)) == OnWire(t)
  {
  }

  // ----- specification -----

  function Header(f: Frame): (h: seq<Byte>)
    ensures |h| == HEADER_SIZE
  {
    BigEndian(FRAME_MAGIC, 4) + f.sessionID + BigEndian(f.flowID, 2) + [f.direction]
    + BigEndian(ToUint64(UnixMicro(f.timestamp)), 8) + BigEndian(|f.payload|, 2)
  }

  function Encoded(f: Frame): Result<seq<Byte>, FrameError> {
    if |f.payload| > MAX_PAYLOAD then Failure(PayloadTooLarge) else Success(Header(f) + f.payload)
  }

  /** The payload length that a header claims. */
  function ClaimedLength(d: seq<Byte>): nat
    requires |d| >= HEADER_SIZE
  {
    FromBigEndian(d[31..33])
  }

  function Decoded(d: seq<Byte>): Result<Frame, FrameError> {
    if |d| < HEADER_SIZE then Failure(FrameTooShort)
    else if FromBigEndian(d[0..4]) != FRAME_MAGIC then Failure(InvalidMagic)
    else if ClaimedLength(d) > |d| - HEADER_SIZE then Failure(LengthExceedsData)
    else
      FlowFits(d[20..22]);
      Success(Frame(d[4..20], FromBigEndian(d[20..22]), d[22], ToInt64(FromBigEndian(d[23..31])) * 1000,
                    d[33..33 + ClaimedLength(d)]))
  }

  lemma FlowFits(s: seq<Byte>)
    requires |s| == 2
    ensures FromBigEndian(s) < 0x1_0000
  {
    BytesRoundTrip(s);
    assert Capacity(2) == 0x1_0000;
  }

  // ----- the codec's laws -----

  lemma HeaderFields(f: Frame, rest: seq<Byte>)
    ensures var d := Header(f) + rest;
            && d[0..4] == BigEndian(FRAME_MAGIC, 4) && d[4..20] == f.sessionID && d[20..22] == BigEndian(f.flowID, 2)
            && d[22] == f.direction && d[23..31] == BigEndian(ToUint64(UnixMicro(f.timestamp)), 8)
            && d[31..33] == BigEndian(|f.payload|, 2) && d[33..] == rest
  {
  }

  lemma Capacities()
    ensures Capacity(2) == 0x1_0000 && Capacity(4) == 0x1_0000_0000 && Capacity(8) == TWO_TO_64
  {
    assert Capacity(1) == 256 && Capacity(3) == 0x100_0000;
    assert Capacity(5) == 0x100_0000_0000 && Capacity(6) == 0x1_0000_0000_0000 && Capacity(7) == 0x100_0000_0000_0000;
  }

  lemma HeaderNumbers(f: Frame)
    requires |f.payload| < 0x1_0000
    ensures FromBigEndian(BigEndian(FRAME_MAGIC, 4)) == FRAME_MAGIC
    ensures FromBigEndian(BigEndian(f.flowID, 2)) == f.flowID
    ensures FromBigEndian(BigEndian(ToUint64(UnixMicro(f.timestamp)), 8)) == ToUint64(UnixMicro(f.timestamp))
    ensures FromBigEndian(BigEndian(|f.payload|, 2)) == |f.payload|
  {
    Capacities();
    NumberRoundTrip(FRAME_MAGIC, 4);
    NumberRoundTrip(f.flowID, 2);
    NumberRoundTrip(ToUint64(UnixMicro(f.timestamp)), 8);
    NumberRoundTrip(|f.payload|, 2);
  }

  /**
   Decoding what was encoded, whatever bytes follow it, gives the frame back with its
   timestamp as the wire carries it; encoding fails exactly for payloads over the maximum.
   */
  lemma FrameRoundTrip(f: Frame, trailing: seq<Byte>)
    ensures Encoded(f).Success? <==> |f.payload| <= MAX_PAYLOAD
    ensures Encoded(f).Success? ==>
              Decoded(Encoded(f).value + trailing) == Success(f.(timestamp := OnWire(f.timestamp)))
  {
    if Encoded(f).Success? {
      var d := Encoded(f).value + trailing;
      assert d == Header(f) + (f.payload + trailing);
      HeaderFields(f, f.payload + trailing);
      HeaderNumbers(f);
      assert d[33..33 + |f.payload|] == f.payload;
    }
  }

  /** Different frames, up to what the wire can tell apart, have different encodings. */
  lemma EncodingIsInjective(f: Frame, g: Frame)
    requires Encoded(f).Success? && Encoded(f) == Encoded(g)
    ensures f.(timestamp := OnWire(f.timestamp)) == g.(timestamp := OnWire(g.timestamp))
  {
    FrameRoundTrip(f, []);
    FrameRoundTrip(g, []);
    assert Encoded(f).value + [] == Encoded(g).value + [];
  }

  /**
   The decoder accepts exactly the buffers that start with a header of the right magic and
   hold as many bytes as it claims; what it accepts encodes back to the same bytes, unless
   the payload is one the encoder refuses.
   */
  lemma FrameCanonicity(d: seq<Byte>)
    ensures Decoded(d).Success? <==>
              |d| >= HEADER_SIZE && d[0..4] == BigEndian(FRAME_MAGIC, 4) && HEADER_SIZE + ClaimedLength(d) <= |d|
    ensures Decoded(d).Success? ==>
              Encoded(Decoded(d).value) ==
                if ClaimedLength(d) <= MAX_PAYLOAD then Success(d[..HEADER_SIZE + ClaimedLength(d)])
                else Failure(PayloadTooLarge)
  {
    Capacities();
    NumberRoundTrip(FRAME_MAGIC, 4);
    if |d| >= HEADER_SIZE {
      BytesRoundTrip(d[0..4]);
      if Decoded(d).Success? {
        HeaderIsPrefix(d);
        assert d[..HEADER_SIZE + ClaimedLength(d)] == d[..33] + d[33..33 + ClaimedLength(d)];
      }
    }
  }

  lemma TimestampBack(u: nat)
    requires u < TWO_TO_64
    ensures ToUint64(UnixMicro(ToInt64(u) * 1000)) == u
  {
  }

  lemma HeaderIsPrefix(d: seq<Byte>)
    requires Decoded(d).Success?
    ensures Header(Decoded(d).value) == d[..33]
  {
    var f := Decoded(d).value;
    Capacities();
    BytesRoundTrip(d[0..4]);
    BytesRoundTrip(d[20..22]);
    BytesRoundTrip(d[23..31]);
    BytesRoundTrip(d[31..33]);
    TimestampBack(FromBigEndian(d[23..31]));
    assert d[..33] == d[0..4] + d[4..20] + d[20..22] + [d[22]] + d[23..31] + d[31..33];
  }

  // ----- the format, byte by byte -----

  /** The number that two bytes carry. */
  function Two(a: Byte, b: Byte): nat {
    (a as int) * 0x100 + b
  }

  /** The number that eight bytes carry. */
  function Eight(s: seq<Byte>): nat
    requires |s| == 8
  {
    (s[0] as int) * 0x100_0000_0000_0000 + (s[1] as int) * 0x1_0000_0000_0000
    + (s[2] as int) * 0x100_0000_0000 + (s[3] as int) * 0x1_0000_0000
    + (s[4] as int) * 0x100_0000 + (s[5] as int) * 0x1_0000 + (s[6] as int) * 0x100 + s[7]
  }

  lemma NumberOfTwo(s: seq<Byte>)
    requires |s| == 2
    ensures FromBigEndian(s) == Two(s[0], s[1])
  {
    assert s[..1][..0] == [];
    assert FromBigEndian(s[..1]) == s[0];
  }

  lemma NumberOfFour(s: seq<Byte>)
    requires |s| == 4
    ensures FromBigEndian(s) == (s[0] as int) * 0x100_0000 + (s[1] as int) * 0x1_0000 + (s[2] as int) * 0x100 + s[3]
  {
    NumberOfTwo(s[..2]);
    assert s[..3][..2] == s[..2];
    assert FromBigEndian(s[..3]) == Two(s[0], s[1]) * 0x100 + s[2];
  }

  lemma NumberOfEight(s: seq<Byte>)
    requires |s| == 8
    ensures FromBigEndian(s) == Eight(s)
  {
    NumberOfFour(s[..4]);
    assert s[..5][..4] == s[..4] && s[..6][..5] == s[..5] && s[..7][..6] == s[..6];
    assert FromBigEndian(s[..5]) == FromBigEndian(s[..4]) * 0x100 + s[4];
    assert FromBigEndian(s[..6]) == FromBigEndian(s[..5]) * 0x100 + s[5];
    assert FromBigEndian(s[..7]) == FromBigEndian(s[..6]) * 0x100 + s[6];
  }

  lemma MagicBytes(s: seq<Byte>)
    requires |s| == 4
    ensures FromBigEndian(s) == FRAME_MAGIC <==> s == [0x54, 0x55, 0x52, 0x4E]
  {
    NumberOfFour(s);
    NumberOfFour([0x54, 0x55, 0x52, 0x4E]);
    BytesRoundTrip(s);
    BytesRoundTrip([0x54, 0x55, 0x52, 0x4E]);
  }

  /** Where each field of an encoded frame lies, and in which form; a frame encodes up to 1200 bytes of payload. */
  lemma EncodedLayout(f: Frame)
    ensures Encoded(f).Success? <==> |f.payload| <= 1200
    ensures Encoded(f).Success? ==>
              var d := Encoded(f).value;
              && |d| == 33 + |f.payload|
              && d[0..4] == [0x54, 0x55, 0x52, 0x4E]
              && d[4..20] == f.sessionID
              && Two(d[20], d[21]) == f.flowID
              && d[22] == f.direction
              && Eight(d[23..31]) == (f.timestamp / 1000) % 0x1_0000_0000_0000_0000
              && Two(d[31], d[32]) == |f.payload|
              && d[33..] == f.payload
  {
    if Encoded(f).Success? {
      var d := Encoded(f).value;
      HeaderFields(f, f.payload);
      HeaderNumbers(f);
      MagicBytes(d[0..4]);
      NumberOfTwo(d[20..22]);
      NumberOfEight(d[23..31]);
      NumberOfTwo(d[31..33]);
    }
  }

  /** Which error a buffer gives, and what is read from where if it gives none. */
  lemma DecodedLayout(d: seq<Byte>)
    ensures Decoded(d) == Failure(FrameTooShort) <==> |d| < 33
    ensures |d| >= 33 ==>
              var magic, n := d[0..4] == [0x54, 0x55, 0x52, 0x4E], Two(d[31], d[32]);
              && (Decoded(d) == Failure(InvalidMagic) <==> !magic)
              && (Decoded(d) == Failure(LengthExceedsData) <==> magic && 33 + n > |d|)
              && (magic && 33 + n <= |d| ==>
                    var micros := Eight(d[23..31]);
                    var signed := if micros < 0x8000_0000_0000_0000 then micros else micros - 0x1_0000_0000_0000_0000;
                    Decoded(d) == Success(Frame(d[4..20], Two(d[20], d[21]), d[22], signed * 1000, d[33..33 + n])))
  {
    if |d| >= 33 {
      MagicBytes(d[0..4]);
      NumberOfTwo(d[20..22]);
      NumberOfEight(d[23..31]);
      NumberOfTwo(d[31..33]);
    }
  }

  // ----- the code -----

  /** `binary.BigEndian.PutUint16/32/64` after the first `offset` bytes. */
  method PutBigEndian(buf: array<Byte>, offset: nat, width: nat, v: nat)
    requires offset + width <= buf.Length
    modifies buf
    ensures buf[..offset + width] == old(buf[..offset]) + BigEndian(v, width)
  {
    if width > 0 {
      PutBigEndian(buf, offset, width - 1, v / 256);
      buf[offset + width - 1] := v % 256;
      assert buf[..offset + width] == buf[..offset + width - 1] + [v % 256];
    }
  }

  /** `copy(buf[offset:], s)`. */
  method CopyInto(buf: array<Byte>, offset: nat, s: seq<Byte>)
    requires offset + |s| <= buf.Length
    modifies buf
    ensures buf[..offset + |s|] == old(buf[..offset]) + s
  {
    for k := 0 to |s|
      invariant buf[..offset + k] == old(buf[..offset]) + s[..k]
    {
      buf[offset + k] := s[k];
      assert buf[..offset + k + 1] == buf[..offset + k] + [s[k]];
    }
  }

  /** The header, field by field. */
  method PutHeader(buf: array<Byte>, f: Frame)
    requires HEADER_SIZE <= buf.Length
    modifies buf
    ensures buf[..33] == Header(f)
  {
    PutBigEndian(buf, 0, 4, FRAME_MAGIC);
    CopyInto(buf, 4, f.sessionID);
    assert buf[..20] == BigEndian(FRAME_MAGIC, 4) + f.sessionID;
    PutBigEndian(buf, 20, 2, f.flowID);
    ghost var before := buf[..22];
    buf[22] := f.direction;
    assert buf[..23] == before + [f.direction];
    PutBigEndian(buf, 23, 8, ToUint64(UnixMicro(f.timestamp)));
    PutBigEndian(buf, 31, 2, |f.payload|);
  }

  method Encode(f: Frame) returns (r: Result<array<Byte>, FrameError>)
    ensures r.Failure? ==> Encoded(f) == Failure(r.error)
    ensures r.Success? ==> fresh(r.value) && Encoded(f) == Success(r.value[..])
  {
    if |f.payload| > MAX_PAYLOAD {
      return Failure(PayloadTooLarge);
    }
    var buf := new Byte[HEADER_SIZE + |f.payload|];
    PutHeader(buf, f);
    CopyInto(buf, 33, f.payload);
    assert buf[..] == buf[..33 + |f.payload|];
    return Success(buf);
  }

  /** `binary.BigEndian.Uint16/32/64` at an offset. */
  method ReadBigEndian(data: array<Byte>, offset: nat, width: nat) returns (v: nat)
    requires offset + width <= data.Length
    ensures v == FromBigEndian(data[offset..offset + width])
  {
    v := 0;
    for k := 0 to width
      invariant v == FromBigEndian(data[offset..offset + k])
    {
      v := v * 256 + data[offset + k];
      assert data[offset..offset + k + 1][..k] == data[offset..offset + k];
    }
  }

  method DecodeFrame(data: array<Byte>) returns (r: Result<Frame, FrameError>)
    ensures r == Decoded(data[..])
  {
    if data.Length < HEADER_SIZE {
      return Failure(FrameTooShort);
    }
    ghost var d := data[..];
    assert d[0..4] == data[0..4] && d[20..22] == data[20..22] && d[23..31] == data[23..31] && d[31..33] == data[31..33];
    var magic := ReadBigEndian(data, 0, 4);
    if magic != FRAME_MAGIC {
      return Failure(InvalidMagic);
    }
    var flow := ReadBigEndian(data, 20, 2);
    var ts := ReadBigEndian(data, 23, 8);
    var length := ReadBigEndian(data, 31, 2);
    if length > data.Length - HEADER_SIZE {
      return Failure(LengthExceedsData);
    }
    FlowFits(data[20..22]);
    assert d[4..20] == data[4..20] && d[33..33 + length] == data[33..33 + length];
    return Success(Frame(data[4..20], flow, data[22], ToInt64(ts) * 1000, data[33..33 + length]));
  }
}
