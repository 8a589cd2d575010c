/** STREAM frames as bytes (quic/connection.py). */
module StreamFrames {
  import opened Common
  import opened Buffers
  import opened StreamSpec
  import BuilderSpec
  import Coalescing

  const STREAM_BASE := 0x08

  /** The low bits tell whether there is an offset, that there is a length, and whether the stream ends. */
  function FrameType(f: Frame): nat { STREAM_BASE + (if f.offset != 0 then 4 else 0) + 2 + (if f.fin then 1 else 0) }

  /** Every varint of the frame's header is in range. */
  predicate Encodable(id: nat, f: Frame) { id <= UINT_VAR_MAX && f.offset <= UINT_VAR_MAX }

  /** The room set aside for the header of a frame at this offset. */
  function Overhead(id: nat, offset: nat): nat
    requires id <= UINT_VAR_MAX && offset <= UINT_VAR_MAX
  {
    3 + SizeVar(id) + if offset != 0 then SizeVar(offset) else 0
  }

  function OffsetBytes(f: Frame): seq<byte>
    requires f.offset <= UINT_VAR_MAX
  {
    if f.offset != 0 then EncodeVar(f.offset) else []
  }

  /** What is written for a frame: its type, the stream, the offset unless it is 0, the length and the data. */
  function StreamBytes(id: nat, f: Frame): seq<byte>
    requires Encodable(id, f)
  {
    EncodeVar(FrameType(f)) + EncodeVar(id) + OffsetBytes(f) + BuilderSpec.LengthField(|f.data|) + f.data
  }

  datatype Pulled = Short | FrameEncodingError | Pulled(id: nat, frame: Frame, rest: seq<byte>)

  /** What is read after the type of a frame; without a length the data goes to the end of the packet. */
  function PullStream(frameType: nat, s: seq<byte>): Pulled {
    match DecodeVar(s)
    case None => Short
    case Some((id, s1)) =>
      match if frameType / 4 % 2 == 1 then DecodeVar(s1) else Some((0, s1))
      case None => Short
      case Some((offset, s2)) =>
        match if frameType / 2 % 2 == 1 then DecodeVar(s2) else Some((|s2|, s2))
        case None => Short
        case Some((length, s3)) => PullData(id, offset, length, frameType % 2 == 1, s3)
  }

  function PullData(id: nat, offset: nat, length: nat, fin: bool, s: seq<byte>): Pulled {
    if offset + length > UINT_VAR_MAX then FrameEncodingError
    else if length > |s| then Short
    else Pulled(id, Frame(offset, s[..length], fin), s[length..])
  }

  /** The frame takes exactly the room set aside for its header, and its data. */
  lemma HeaderFills(id: nat, f: Frame)
    requires Encodable(id, f)
    ensures |StreamBytes(id, f)| == Overhead(id, f.offset) + |f.data|
  {
    hide EncodeVar, DecodeVar, BigEndian;
    TypeByte(f, []);
    VarRoundTrip(id, []);
    VarRoundTrip(f.offset, []);
  }

  lemma TypeByte(f: Frame, rest: seq<byte>)
    ensures |EncodeVar(FrameType(f))| == 1 && DecodeVar(EncodeVar(FrameType(f)) + rest) == Some((FrameType(f), rest))
    ensures (FrameType(f) / 4 % 2 == 1 <==> f.offset != 0) && FrameType(f) / 2 % 2 == 1 && (FrameType(f) % 2 == 1 <==> f.fin)
  {
    hide EncodeVar, DecodeVar;
    VarRoundTrip(FrameType(f), rest);
  }

  /** Up to the length everything reads back. */
  lemma FrontReadsBack(id: nat, f: Frame, rest: seq<byte>)
    requires Encodable(id, f)
    ensures var d := DecodeVar(BuilderSpec.LengthField(|f.data|) + (f.data + rest));
            PullStream(FrameType(f), EncodeVar(id) + OffsetBytes(f) + BuilderSpec.LengthField(|f.data|) + f.data + rest) ==
            if d.None? then Short else PullData(id, f.offset, d.value.0, f.fin, d.value.1)
  {
    hide EncodeVar, DecodeVar, BuilderSpec.LengthField, PullData;
    var s2 := BuilderSpec.LengthField(|f.data|) + (f.data + rest);
    var s1 := OffsetBytes(f) + s2;
    TypeByte(f, []);
    VarRoundTrip(id, s1);
    VarRoundTrip(f.offset, s2);
    assert EncodeVar(id) + OffsetBytes(f) + BuilderSpec.LengthField(|f.data|) + f.data + rest == EncodeVar(id) + s1;
    assert f.offset == 0 ==> s1 == s2;
  }

  /**
   A frame reads back, whatever follows it, if and only if it has fewer than 0x4000 bytes of data: the length is
   written in two bytes of which one bit marks the size of the varint, like the length of a packet.
   */
  lemma StreamReadsBack(id: nat, f: Frame, rest: seq<byte>)
    requires Encodable(id, f) && f.End() <= UINT_VAR_MAX
    ensures DecodeVar(StreamBytes(id, f) + rest).Some?
    ensures var (frameType, after) := DecodeVar(StreamBytes(id, f) + rest).value;
            PullStream(frameType, after) == Pulled(id, f, rest) <==> |f.data| < 0x4000
  {
    hide EncodeVar, DecodeVar, BuilderSpec.LengthField, PullStream;
    var tail := f.data + rest;
    TypeByte(f, EncodeVar(id) + OffsetBytes(f) + BuilderSpec.LengthField(|f.data|) + f.data + rest);
    FrontReadsBack(id, f, rest);
    assert StreamBytes(id, f) + rest ==
           EncodeVar(FrameType(f)) + (EncodeVar(id) + OffsetBytes(f) + BuilderSpec.LengthField(|f.data|) + f.data + rest);
    Coalescing.LengthReadsBack(|f.data|, tail);
    assert tail[..|f.data|] == f.data && tail[|f.data|..] == rest;
  }

  /** In packets with room for at most 0x4000 bytes every frame reads back. */
  lemma SmallFramesReadBack(id: nat, f: Frame, rest: seq<byte>)
    requires Encodable(id, f) && f.End() <= UINT_VAR_MAX && |StreamBytes(id, f)| <= 0x4000
    ensures DecodeVar(StreamBytes(id, f) + rest).Some?
    ensures var (frameType, after) := DecodeVar(StreamBytes(id, f) + rest).value;
            PullStream(frameType, after) == Pulled(id, f, rest)
  {
    hide EncodeVar, DecodeVar, StreamBytes, PullStream;
    HeaderFills(id, f);
    StreamReadsBack(id, f, rest);
  }

  /** The fields of a STREAM frame after its type, in any of the forms section 19.8 of RFC 9000 allows. */
  function AnyForm(id: nat, offset: Option<nat>, length: Option<nat>, data: seq<byte>): seq<byte>
    requires id <= UINT_VAR_MAX && (offset.Some? ==> offset.value <= UINT_VAR_MAX) && (length.Some? ==> length.value <= UINT_VAR_MAX)
  {
    EncodeVar(id) + ((if offset.Some? then EncodeVar(offset.value) else [])
                     + ((if length.Some? then EncodeVar(length.value) else []) + data))
  }

  /**
   Whatever form a peer writes a frame in: an absent offset is 0, an absent length takes the rest of the packet, a frame
   that reaches beyond 2^62 - 1 is an error before its data is looked at, and a length beyond the packet is refused.
   */
  lemma AnyFormExactly(id: nat, offset: Option<nat>, length: Option<nat>, fin: bool, data: seq<byte>)
    requires id <= UINT_VAR_MAX && (offset.Some? ==> offset.value <= UINT_VAR_MAX) && (length.Some? ==> length.value <= UINT_VAR_MAX)
    ensures var frameType := 8 + (if offset.Some? then 4 else 0) + (if length.Some? then 2 else 0) + (if fin then 1 else 0);
            var start, size := if offset.Some? then offset.value else 0, if length.Some? then length.value else |data|;
            PullStream(frameType, AnyForm(id, offset, length, data)) ==
            if start + size > 0x3FFF_FFFF_FFFF_FFFF then FrameEncodingError
            else if size > |data| then Short
            else Pulled(id, Frame(start, data[..size], fin), data[size..])
  {
    hide EncodeVar, DecodeVar;
    var s2 := (if length.Some? then EncodeVar(length.value) else []) + data;
    var s1 := (if offset.Some? then EncodeVar(offset.value) else []) + s2;
    VarRoundTrip(id, s1);
    if offset.Some? { VarRoundTrip(offset.value, s2); } else { assert s1 == s2; }
    if length.Some? { VarRoundTrip(length.value, data); } else { assert s2 == data; }
  }

  // ---- On the buffer ----

  method PushVar(buf: Buffer, v: nat) returns (ok: bool)
    requires buf.Valid() && v <= UINT_VAR_MAX
    modifies buf`pos, buf.base
    ensures buf.Valid()
    ensures ok <==> |EncodeVar(v)| <= |old(buf.Rest())|
    ensures ok ==> Wrote(old(buf.Data()), old(buf.Rest()), buf.Data(), buf.Rest(), EncodeVar(v))
    ensures ok ==> |buf.Rest()| == |old(buf.Rest())| - |EncodeVar(v)|
  {
    hide EncodeVar, DecodeVar, BigEndian;
    VarRoundTrip(v, []);
    ok := buf.PushUintVar(v);
  }

  /** Type and stream. */
  method PushStart(buf: Buffer, id: nat, f: Frame) returns (ok: bool)
    requires buf.Valid() && Encodable(id, f)
    modifies buf`pos, buf.base
    ensures buf.Valid()
    ensures ok <==> |EncodeVar(FrameType(f)) + EncodeVar(id)| <= |old(buf.Rest())|
    ensures ok ==> Wrote(old(buf.Data()), old(buf.Rest()), buf.Data(), buf.Rest(), EncodeVar(FrameType(f)) + EncodeVar(id))
  {
    hide EncodeVar, DecodeVar, BigEndian, Wrote;
    var frameType := STREAM_BASE + 2;
    if f.offset != 0 { frameType := frameType + 4; }
    if f.fin { frameType := frameType + 1; }
    assert frameType == FrameType(f);
    ghost var d0, r0 := buf.Data(), buf.Rest();
    ok := PushVar(buf, frameType);
    if !ok { return; }
    ghost var d1, r1 := buf.Data(), buf.Rest();
    ok := PushVar(buf, id);
    if ok { WroteTwice(d0, r0, d1, r1, buf.Data(), buf.Rest(), EncodeVar(frameType), EncodeVar(id)); }
  }

  method PushOffset(buf: Buffer, f: Frame) returns (ok: bool)
    requires buf.Valid() && f.offset <= UINT_VAR_MAX
    modifies buf`pos, buf.base
    ensures buf.Valid()
    ensures ok <==> |OffsetBytes(f)| <= |old(buf.Rest())|
    ensures ok ==> Wrote(old(buf.Data()), old(buf.Rest()), buf.Data(), buf.Rest(), OffsetBytes(f))
  {
    hide EncodeVar, BigEndian;
    ok := true;
    if f.offset != 0 { ok := PushVar(buf, f.offset); }
  }

  /** The length with bit 14 set, cut to two bytes, and the data. */
  method PushData(buf: Buffer, data: seq<byte>) returns (ok: bool)
    requires buf.Valid()
    modifies buf`pos, buf.base
    ensures buf.Valid()
    ensures ok <==> |BuilderSpec.LengthField(|data|) + data| <= |old(buf.Rest())|
    ensures ok ==> Wrote(old(buf.Data()), old(buf.Rest()), buf.Data(), buf.Rest(), BuilderSpec.LengthField(|data|) + data)
  {
    hide BigEndian;
    ok := buf.PushUint(if |data| / 0x4000 % 2 == 1 then |data| else |data| + 0x4000, 2);
    if ok { ok := buf.PushBytes(data); }
  }

  /** Writes a frame; ok is false when a write does not fit, and some bytes may have been written then. */
  method PushStreamFrame(buf: Buffer, id: nat, f: Frame) returns (ok: bool)
    requires buf.Valid() && Encodable(id, f)
    modifies buf`pos, buf.base
    ensures buf.Valid()
    ensures ok <==> |StreamBytes(id, f)| <= |old(buf.Rest())|
    ensures ok ==> Wrote(old(buf.Data()), old(buf.Rest()), buf.Data(), buf.Rest(), StreamBytes(id, f))
  {
    hide EncodeVar, BuilderSpec.LengthField, OffsetBytes;
    ghost var start, front := EncodeVar(FrameType(f)) + EncodeVar(id), BuilderSpec.LengthField(|f.data|) + f.data;
    assert StreamBytes(id, f) == start + OffsetBytes(f) + front;
    ghost var d0, r0 := buf.Data(), buf.Rest();
    ok := PushStart(buf, id, f);
    if !ok { return; }
    ghost var d1, r1 := buf.Data(), buf.Rest();
    ok := PushOffset(buf, f);
    if !ok { return; }
    ghost var d2, r2 := buf.Data(), buf.Rest();
    WroteTwice(d0, r0, d1, r1, d2, r2, start, OffsetBytes(f));
    ok := PushData(buf, f.data);
    if ok { WroteTwice(d0, r0, d2, r2, buf.Data(), buf.Rest(), start + OffsetBytes(f), front); }
  }

  /** Reads the rest of a STREAM frame whose type was read before. */
  method PullStreamFrame(buf: Buffer, frameType: nat) returns (r: Pulled)
    requires buf.Valid()
    modifies buf`pos
    ensures buf.Valid()
    ensures r == PullStream(frameType, old(buf.Rest()))
    ensures r.Pulled? ==> r.rest == buf.Rest()
  {
    hide DecodeVar;
    var id := buf.PullUintVar();
    if id.None? { return Short; }
    var offset := Some(0);
    if frameType / 4 % 2 == 1 { offset := buf.PullUintVar(); }
    if offset.None? { return Short; }
    var length := Some(buf.base.Length - buf.pos);
    if frameType / 2 % 2 == 1 { length := buf.PullUintVar(); }
    if length.None? { return Short; }
    if offset.value + length.value > UINT_VAR_MAX { return FrameEncodingError; }
    var data := buf.PullBytes(length.value);
    if data.None? { return Short; }
    r := Pulled(id.value, Frame(offset.value, data.value, frameType % 2 == 1), buf.base[buf.pos..]);
  }
}
