/** A receiver splits a datagram exactly where the builder joined it. */
module Coalescing {
  import opened Common
  import opened Buffers
  import opened Headers
  import opened BuilderSpec

  /** Packet protection adds a tag and hides only low bits of the first byte and the packet number. */
  ghost predicate Protects(crypto: Crypto) {
    forall header: seq<byte>, payload: seq<byte>, number: nat | |header| >= 3 ::
      var p := crypto.protect(header, payload, number);
      && |p| == |header| + |payload| + AEAD_TAG_SIZE
      && (if IsLong(header[0]) then p[0] / 16 == header[0] / 16 else p[0] / 32 == header[0] / 32)
      && p[1..|header| - PACKET_NUMBER_SEND_SIZE] == header[1..|header| - PACKET_NUMBER_SEND_SIZE]
  }

  /** Connection IDs and version are what the protocol allows. */
  predicate Proper(cfg: Config) {
    && |cfg.peerCid| <= CONNECTION_ID_MAX_SIZE && |cfg.hostCid| <= CONNECTION_ID_MAX_SIZE
    && |cfg.token| <= UINT_VAR_MAX && 0 < cfg.version < 0x1_0000_0000
  }

  lemma HeaderFills(cfg: Config, kind: PacketType, crypto: Crypto, length: nat, number: nat)
    requires Sendable(kind) && |cfg.token| <= UINT_VAR_MAX
    ensures |HeaderBytes(cfg, kind, crypto, length, number)| == HeaderSize(cfg, kind) >= 3
  {
    hide BigEndian, EncodeVar, DecodeVar, SizeVar, TypeBits;
    if kind == Initial { VarRoundTrip(|cfg.token|, []); }
  }

  /** The two bytes of an integer with bit 14 set: the first has its second-highest bit set. */
  lemma BitFourteen(v: nat)
    requires v / 0x4000 % 2 == 1
    ensures v / 256 % 256 / 64 % 2 == 1
  {
    var k, rest := v / 0x4000 / 2, v % 0x4000;
    var g, e, h, l := k / 2, k % 2, rest / 256, rest % 256;
    assert v == 256 * (256 * g + (128 * e + 64 + h)) + l;
    RemainderUnique(v, 256, 256 * g + (128 * e + 64 + h), l);
    RemainderUnique(v / 256, 256, g, 128 * e + 64 + h);
    RemainderUnique(128 * e + 64 + h, 64, 2 * e + 1, h);
  }

  /** The integer that is written: the length with bit 14 set. */
  function Marked(length: nat): nat { if length / 0x4000 % 2 == 1 then length else length + 0x4000 }

  lemma MarkIsSet(length: nat)
    ensures Marked(length) / 0x4000 % 2 == 1 && Marked(length) % 0x4000 == length % 0x4000
  {
    RemainderUnique(length + 0x4000, 0x4000, length / 0x4000 + 1, length % 0x4000);
  }

  /** Both bytes of the length field. */
  lemma FieldBytes(length: nat)
    ensures LengthField(length) == [Marked(length) / 256 % 256, Marked(length) % 256]
    ensures Marked(length) / 256 % 256 / 64 % 2 == 1
  {
    assert LengthField(length) == BigEndian(Marked(length), 2);
    hide BigEndian;
    MarkIsSet(length);
    hide Marked;
    BitFourteen(Marked(length));
    TwoBytes(Marked(length));
  }

  lemma TwoBytes(v: nat)
    ensures BigEndian(v, 2) == [v / 256 % 256, v % 256]
  {
    assert BigEndian(v, 2) == BigEndian(v / 256, 1) + [v % 256];
    assert BigEndian(v / 256, 1) == BigEndian(v / 256 / 256, 0) + [v / 256 % 256];
  }

  /**
   The length reads back exactly when it is below 0x4000. Above, either the value is wrong, or the two bytes are taken
   for the first two of an eight-byte length.
   */
  lemma LengthReadsBack(length: nat, tail: seq<byte>)
    ensures DecodeVar(LengthField(length) + tail) == Some((length, tail)) <==> length < 0x4000
    ensures DecodeVar(LengthField(length) + tail).Some? && |DecodeVar(LengthField(length) + tail).value.1| == |tail| ==>
              DecodeVar(LengthField(length) + tail).value.1 == tail
  {
    FieldBytes(length);
    var f := LengthField(length);
    var s := f + tail;
    assert VarLength(s[0]) == 2 || VarLength(s[0]) == 8;
    assert s[2..] == tail;
    if length < 0x4000 {
      Powers();
      TaggedReadsBack(length, 64, 2, tail);
      assert Pow256(1) == 0x100;
    } else if VarLength(s[0]) == 2 {
      var b := [s[0] % 64] + s[1..2];
      FromBigEndianTwo(s[0] % 64, s[1]);
      assert b == [s[0] % 64, s[1]];
    }
  }

  lemma FromBigEndianTwo(a: byte, b: byte)
    ensures FromBigEndian([a, b]) == a * 256 + b
  {
    assert [a, b][..1] == [a] && [a][..0] == [] && FromBigEndian([]) == 0;
    assert FromBigEndian([a]) == a;
  }

  lemma LongLengthsAreLost()
    ensures DecodeVar(LengthField(0x4000)) == Some((0, []))
    ensures LengthField(0x4000) == LengthField(0)
  {
    LengthReadsBack(0, []);
    assert LengthField(0) + [] == LengthField(0);
  }

  /** What a receiver should make of a packet the builder made. */
  function ExpectedHeader(cfg: Config, kind: PacketType, size: nat): Header {
    if kind == OneRtt then Header(None, OneRtt, size, cfg.peerCid, [], [], [], [])
    else Header(Some(cfg.version), kind, size, cfg.peerCid, cfg.hostCid, if kind == Initial then cfg.token else [], [], [])
  }

  /** Where the packet number starts, after everything else in the header. */
  function NumberOffset(cfg: Config, kind: PacketType): nat
    requires |cfg.token| <= UINT_VAR_MAX
  {
    HeaderSize(cfg, kind) - PACKET_NUMBER_SEND_SIZE
  }

  /** In front of these bytes the packet is read with its own header, length and place of the packet number. */
  predicate Reads(cfg: Config, kind: PacketType, bytes: seq<byte>, tail: seq<byte>)
    requires |cfg.token| <= UINT_VAR_MAX
  {
    var r := PullHeader(bytes + tail, |cfg.peerCid|);
    r.Some? && r.value.0 == ExpectedHeader(cfg, kind, |bytes|) && |bytes + tail| - |r.value.1| == NumberOffset(cfg, kind)
  }

  /** A size that the two-byte length field can hold; short headers have none. */
  predicate ShortEnough(cfg: Config, kind: PacketType, size: nat)
    requires |cfg.token| <= UINT_VAR_MAX
  {
    kind == OneRtt || size < NumberOffset(cfg, kind) + 0x4000
  }

  /** A long packet reads back in front of any bytes if it is short enough, and else of none; a short one on its own. */
  ghost predicate Made(cfg: Config, kind: PacketType, bytes: seq<byte>)
    requires |cfg.token| <= UINT_VAR_MAX
  {
    if kind == OneRtt then Reads(cfg, kind, bytes, [])
    else forall tail :: Reads(cfg, kind, bytes, tail) <==> ShortEnough(cfg, kind, |bytes|)
  }

  /** The header between the first byte and the packet number. */
  function Middle(cfg: Config, kind: PacketType, length: nat): seq<byte>
    requires |cfg.token| <= UINT_VAR_MAX
  {
    BigEndian(cfg.version, 4) + (BigEndian(|cfg.peerCid|, 1) + (cfg.peerCid + (BigEndian(|cfg.hostCid|, 1) + (cfg.hostCid
    + ((if kind == Initial then EncodeVar(|cfg.token|) + cfg.token else []) + LengthField(length))))))
  }

  lemma HeaderParts(cfg: Config, kind: PacketType, crypto: Crypto, length: nat, number: nat)
    requires Sendable(kind) && kind != OneRtt && |cfg.token| <= UINT_VAR_MAX
    ensures HeaderBytes(cfg, kind, crypto, length, number) ==
            [LongFirstByte(cfg.version, kind, 1)] + (Middle(cfg, kind, length) + BigEndian(number, 2))
  {
    hide BigEndian, EncodeVar, TypeBits, LengthField;
    var token := if kind == Initial then EncodeVar(|cfg.token|) + cfg.token else [];
    Chain([LongFirstByte(cfg.version, kind, 1)], BigEndian(cfg.version, 4), BigEndian(|cfg.peerCid|, 1), cfg.peerCid,
          BigEndian(|cfg.hostCid|, 1), cfg.hostCid, token, LengthField(length), BigEndian(number, 2));
  }

  lemma Chain(a: seq<byte>, b: seq<byte>, c: seq<byte>, d: seq<byte>, e: seq<byte>, f: seq<byte>, g: seq<byte>, h: seq<byte>,
              i: seq<byte>)
    ensures a + b + c + d + e + f + g + h + i == a + ((b + (c + (d + (e + (f + (g + h)))))) + i)
  {
  }

  lemma LengthByte(n: byte)
    ensures BigEndian(n, 1) == [n]
  {
    assert BigEndian(n / 256, 0) == [];
  }

  lemma CidReadsBack(cid: seq<byte>, tail: seq<byte>)
    requires |cid| <= CONNECTION_ID_MAX_SIZE
    ensures PullCid(BigEndian(|cid|, 1) + (cid + tail)) == Some((cid, tail))
  {
    LengthByte(|cid|);
    hide BigEndian;
    var s := BigEndian(|cid|, 1) + (cid + tail);
    assert s[1..] == cid + tail && (cid + tail)[..|cid|] == cid && (cid + tail)[|cid|..] == tail;
  }

  /** The token and length of a long header, in front of the bytes they count. */
  lemma TailReadsBack(cfg: Config, kind: PacketType, length: nat, rest: seq<byte>)
    requires kind in {Initial, ZeroRtt, HandshakePacket} && |cfg.token| <= UINT_VAR_MAX
    ensures var d := DecodeVar(LengthField(length) + rest);
            PullLongTail(kind, (if kind == Initial then EncodeVar(|cfg.token|) + cfg.token else []) + LengthField(length) + rest) ==
            if d.None? then None else Some((if kind == Initial then cfg.token else [], [], d.value.0, d.value.1))
  {
    hide EncodeVar, DecodeVar, LengthField;
    if kind == Initial {
      var t := cfg.token;
      VarRoundTrip(|t|, t + (LengthField(length) + rest));
      assert EncodeVar(|t|) + t + LengthField(length) + rest == EncodeVar(|t|) + (t + (LengthField(length) + rest));
      assert (t + (LengthField(length) + rest))[..|t|] == t && (t + (LengthField(length) + rest))[|t|..] == LengthField(length) + rest;
    } else {
      assert [] + LengthField(length) + rest == LengthField(length) + rest;
    }
  }

  /** Any first byte with the same high bits, the same middle, and as many bytes as the length says. */
  lemma LongReadsBack(cfg: Config, kind: PacketType, first: byte, length: nat, rest: seq<byte>)
    requires Proper(cfg) && kind in {Initial, ZeroRtt, HandshakePacket} && length <= |rest|
    requires first / 16 == LongFirstByte(cfg.version, kind, 1) / 16
    ensures var s := [first] + (Middle(cfg, kind, length) + rest);
            var r := PullHeader(s, |cfg.peerCid|);
            (r.Some? && r.value.0 == ExpectedHeader(cfg, kind, |s| - |rest| + length) && |r.value.1| == |rest|) <==> length < 0x4000
  {
    hide PullLongTail, PullCid, LengthField, EncodeVar, DecodeVar, TypeBits, TypeOfBits;
    var token := if kind == Initial then EncodeVar(|cfg.token|) + cfg.token else [];
    var s3 := token + LengthField(length) + rest;
    var s2 := BigEndian(|cfg.hostCid|, 1) + (cfg.hostCid + s3);
    var s1 := BigEndian(|cfg.peerCid|, 1) + (cfg.peerCid + s2);
    var s := [first] + (Middle(cfg, kind, length) + rest);
    MiddleSplits(BigEndian(cfg.version, 4), BigEndian(|cfg.peerCid|, 1), cfg.peerCid, BigEndian(|cfg.hostCid|, 1), cfg.hostCid,
                 token, LengthField(length), rest);
    assert s == [first] + (BigEndian(cfg.version, 4) + s1);
    assert s[1..5] == BigEndian(cfg.version, 4) && s[5..] == s1;
    assert FromBigEndian(BigEndian(cfg.version, 4)) == cfg.version by { Powers(); ReadsBack(cfg.version, 4, []); }
    hide BigEndian, FromBigEndian, Middle;
    CidReadsBack(cfg.peerCid, s2);
    CidReadsBack(cfg.hostCid, s3);
    TailReadsBack(cfg, kind, length, rest);
    LengthReadsBack(length, rest);
    SameHighBits(first, LongFirstByte(cfg.version, kind, 1));
  }

  lemma MiddleSplits(a: seq<byte>, b: seq<byte>, c: seq<byte>, d: seq<byte>, e: seq<byte>, f: seq<byte>, g: seq<byte>, h: seq<byte>)
    ensures (a + (b + (c + (d + (e + (f + g)))))) + h == a + (b + (c + (d + (e + (f + g + h)))))
  {
  }

  lemma SameHighBits(a: byte, b: byte)
    requires a / 16 == b / 16
    ensures IsLong(a) == IsLong(b) && FixedBit(a) == FixedBit(b) && a / 16 % 4 == b / 16 % 4
  {
  }

  /** Every packet the builder protects has its exact size and reads back exactly when it is short enough. */
  lemma PacketReads(cfg: Config, o: Open, payload: seq<byte>, number: nat)
    requires Proper(cfg) && Sendable(o.kind) && Protects(o.crypto)
    ensures var bytes := Protected(cfg, o, payload, number);
            |bytes| == HeaderSize(cfg, o.kind) + |payload| + AEAD_TAG_SIZE && Made(cfg, o.kind, bytes)
  {
    var length := |payload| + PACKET_NUMBER_SEND_SIZE + AEAD_TAG_SIZE;
    var header := HeaderBytes(cfg, o.kind, o.crypto, length, number);
    HeaderFills(cfg, o.kind, o.crypto, length, number);
    hide HeaderSize, Made;
    var bytes := o.crypto.protect(header, payload, number);
    if o.kind == OneRtt {
      ShortReadsBack(cfg, o.crypto, length, number, header, bytes);
    } else {
      LongPacketReads(cfg, o.kind, o.crypto, length, number, header, bytes);
    }
  }

  lemma Inner(first: seq<byte>, middle: seq<byte>, last: seq<byte>)
    requires |first| == 1 && |last| == 2
    ensures var s := first + (middle + last); s[0] == first[0] && s[1..|s| - 2] == middle && |s| == 3 + |middle|
  {
  }

  lemma LongPacketReads(cfg: Config, kind: PacketType, crypto: Crypto, length: nat, number: nat, header: seq<byte>, bytes: seq<byte>)
    requires Proper(cfg) && Sendable(kind) && kind != OneRtt
    requires header == HeaderBytes(cfg, kind, crypto, length, number) && |header| == HeaderSize(cfg, kind) >= 3
    requires |bytes| == |header| + length - 2 && length >= 2 && bytes[0] / 16 == header[0] / 16
    requires bytes[1..|header| - 2] == header[1..|header| - 2]
    ensures Made(cfg, kind, bytes)
  {
    hide HeaderBytes, Middle, TypeBits, PullHeader, BigEndian;
    HeaderParts(cfg, kind, crypto, length, number);
    var middle := Middle(cfg, kind, length);
    var rest := bytes[1 + |middle|..];
    Inner([LongFirstByte(cfg.version, kind, 1)], middle, BigEndian(number, 2));
    assert bytes == [bytes[0]] + (middle + rest) by { assert bytes[1..] == middle + rest; }
    assert |rest| == length && 1 + |middle| == NumberOffset(cfg, kind);
    forall tail
      ensures Reads(cfg, kind, bytes, tail) <==> ShortEnough(cfg, kind, |bytes|)
    {
      LongReadsBack(cfg, kind, bytes[0], length, rest + tail);
      assert bytes + tail == [bytes[0]] + (middle + (rest + tail));
    }
  }

  lemma ShortReadsBack(cfg: Config, crypto: Crypto, length: nat, number: nat, header: seq<byte>, bytes: seq<byte>)
    requires Proper(cfg) && header == HeaderBytes(cfg, OneRtt, crypto, length, number) && |header| == 3 + |cfg.peerCid|
    requires |bytes| >= |header| && bytes[0] / 32 == header[0] / 32
    requires bytes[1..|header| - 2] == header[1..|header| - 2]
    ensures Made(cfg, OneRtt, bytes)
  {
    var first := 0x40 + (if cfg.spinBit then 0x20 else 0) + 4 * (crypto.keyPhase % 2) + 1;
    assert BigEndian(first, 1) == [first] by { assert BigEndian(first / 256, 0) == []; }
    hide BigEndian;
    assert header == [first] + cfg.peerCid + BigEndian(number, 2);
    assert header[1..|header| - 2] == cfg.peerCid;
    assert bytes[1..][..|cfg.peerCid|] == bytes[1..|header| - 2];
    assert bytes + [] == bytes;
  }

  // ---- Datagrams ----

  function Join(pieces: seq<Piece>): seq<byte> {
    if pieces == [] then [] else pieces[0].bytes + Join(pieces[1..])
  }

  /** A short-header packet can only be the last of its datagram, and nothing is padded after it. */
  predicate ShortLast(pieces: seq<Piece>, padding: nat) {
    && (forall i :: 0 <= i < |pieces| - 1 ==> pieces[i].sent.kind != OneRtt)
    && (pieces != [] && pieces[|pieces| - 1].sent.kind == OneRtt ==> padding == 0)
  }

  ghost predicate AllMade(cfg: Config, pieces: seq<Piece>) {
    |cfg.token| <= UINT_VAR_MAX &&
    forall p | p in pieces :: Sendable(p.sent.kind) && p.bytes != [] && p.sent.sentBytes == |p.bytes| && Made(cfg, p.sent.kind, p.bytes)
  }

  /** Every packet can be read back. */
  predicate AllShort(cfg: Config, pieces: seq<Piece>)
    requires |cfg.token| <= UINT_VAR_MAX
  {
    forall p | p in pieces :: ShortEnough(cfg, p.sent.kind, p.sent.sentBytes)
  }

  /** What the receiver should find: every packet with its own header and exactly its own bytes. */
  function ExpectedPackets(cfg: Config, pieces: seq<Piece>): seq<Packet>
    requires |cfg.token| <= UINT_VAR_MAX
  {
    if pieces == [] then []
    else
      var (sent, bytes) := (pieces[0].sent, pieces[0].bytes);
      [Packet(ExpectedHeader(cfg, sent.kind, sent.sentBytes), NumberOffset(cfg, sent.kind), bytes)] + ExpectedPackets(cfg, pieces[1..])
  }

  /** Zero bytes after the last packet are not taken for another one. */
  lemma PaddingRejected(n: nat, cidLength: nat)
    ensures Split(Zeros(n), cidLength) == []
  {
    if n > 0 { assert !IsLong(Zeros(n)[0]) && !FixedBit(Zeros(n)[0]); }
  }

  /** A packet that reads back is cut off whole; one that does not is not found. */
  lemma SplitStep(cfg: Config, kind: PacketType, bytes: seq<byte>, tail: seq<byte>)
    requires |cfg.token| <= UINT_VAR_MAX && Sendable(kind)
    ensures var s, n := bytes + tail, |cfg.peerCid|;
            var packet := Packet(ExpectedHeader(cfg, kind, |bytes|), NumberOffset(cfg, kind), bytes);
            if Reads(cfg, kind, bytes, tail) then Split(s, n) == [packet] + Split(tail, n)
            else Split(s, n) == [] || Split(s, n)[0] != packet
  {
    hide PullHeader, HeaderSize;
    var s := bytes + tail;
    assert s[..|bytes|] == bytes && s[|bytes|..] == tail;
  }

  /** The walk over a datagram undoes the coalescing exactly when every packet is short enough. */
  lemma {:induction false} SplitUndoesJoin(cfg: Config, pieces: seq<Piece>, padding: nat)
    requires AllMade(cfg, pieces) && ShortLast(pieces, padding)
    ensures Split(Join(pieces) + Zeros(padding), |cfg.peerCid|) == ExpectedPackets(cfg, pieces) <==> AllShort(cfg, pieces)
    decreases |pieces|
  {
    hide Reads, Split, ShortEnough, NumberOffset;
    if pieces == [] {
      assert Join(pieces) + Zeros(padding) == Zeros(padding);
      PaddingRejected(padding, |cfg.peerCid|);
    } else {
      var p, tail := pieces[0], Join(pieces[1..]) + Zeros(padding);
      assert p in pieces;
      assert AllMade(cfg, pieces[1..]) && ShortLast(pieces[1..], padding);
      SplitUndoesJoin(cfg, pieces[1..], padding);
      assert Join(pieces) + Zeros(padding) == p.bytes + tail;
      if p.sent.kind == OneRtt {
        assert pieces[1..] == [];
        assert tail == [];
      }
      PieceReads(cfg, p.sent.kind, p.bytes, tail);
      SplitStep(cfg, p.sent.kind, p.bytes, tail);
      FirstShort(cfg, pieces);
      SameRest(Packet(ExpectedHeader(cfg, p.sent.kind, |p.bytes|), NumberOffset(cfg, p.sent.kind), p.bytes),
               Split(tail, |cfg.peerCid|), ExpectedPackets(cfg, pieces[1..]));
    }
  }

  lemma SameRest(first: Packet, a: seq<Packet>, b: seq<Packet>)
    ensures [first] + a == [first] + b <==> a == b
  {
    assert ([first] + a)[1..] == a && ([first] + b)[1..] == b;
  }

  lemma PieceReads(cfg: Config, kind: PacketType, bytes: seq<byte>, tail: seq<byte>)
    requires |cfg.token| <= UINT_VAR_MAX && Made(cfg, kind, bytes) && (kind == OneRtt ==> tail == [])
    ensures Reads(cfg, kind, bytes, tail) <==> ShortEnough(cfg, kind, |bytes|)
  {
  }

  lemma FirstShort(cfg: Config, pieces: seq<Piece>)
    requires |cfg.token| <= UINT_VAR_MAX && pieces != []
    ensures AllShort(cfg, pieces) <==> ShortEnough(cfg, pieces[0].sent.kind, pieces[0].sent.sentBytes) && AllShort(cfg, pieces[1..])
  {
    assert pieces == [pieces[0]] + pieces[1..];
  }
}
