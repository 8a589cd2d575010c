/** The bytes on the wire, written out: reading and writing agree with each other elsewhere, and with the standards here. */
module WireFormats {
  import opened Common
  import opened Buffers
  import opened RangeSets
  import AckFrames
  import BuilderSpec
  import H3Spec
  import Headers
  import PacketNumbers
  import StreamFrames
  import StreamSpec
  import TlsCodec
  import TlsHello

  // ---- Variable-length integers (section 16 of RFC 9000) ----

  lemma OneMore(v: nat, n: nat)
    ensures BigEndian(v, n + 1) == BigEndian(v / 0x100, n) + [v % 0x100] && BigEndian(v, 0) == []
  {
  }

  lemma TwoBytes(v: nat)
    ensures BigEndian(v, 1) == [v % 0x100] && BigEndian(v, 2) == [v / 0x100 % 0x100, v % 0x100]
  {
    OneMore(v, 0);
    OneMore(v, 1);
    OneMore(v / 0x100, 0);
  }

  lemma FourBytes(v: nat)
    ensures BigEndian(v, 4) == [v / 0x100_0000 % 0x100, v / 0x1_0000 % 0x100, v / 0x100 % 0x100, v % 0x100]
  {
    hide BigEndian;
    OneMore(v, 3);
    OneMore(v / 0x100, 2);
    TwoBytes(v / 0x1_0000);
    assert v / 0x100 / 0x100 == v / 0x1_0000 && v / 0x1_0000 / 0x100 == v / 0x100_0000;
  }

  /** The size of a value is two to the power of the two high bits of its first byte; the rest is the value, high bytes first. */
  lemma VarBytes(v: nat)
    requires v <= UINT_VAR_MAX
    ensures v < 0x40 ==> EncodeVar(v) == [v]
    ensures 0x40 <= v < 0x4000 ==> EncodeVar(v) == [0x40 + v / 0x100, v % 0x100]
    ensures 0x4000 <= v < 0x4000_0000 ==>
              EncodeVar(v) == [0x80 + v / 0x100_0000, v / 0x1_0000 % 0x100, v / 0x100 % 0x100, v % 0x100]
    ensures v >= 0x4000_0000 ==>
              |EncodeVar(v)| == 8 && EncodeVar(v)[0] / 0x40 == 3 && EncodeVar(v)[4..] == BigEndian(v, 4)
              && EncodeVar(v)[..4] == BigEndian(0xC000_0000 + v / 0x1_0000_0000, 4)
  {
    hide BigEndian;
    if v < 0x40 {
      TwoBytes(v);
    } else if v < 0x4000 {
      TwoBytes(v + 0x4000);
    } else if v < 0x4000_0000 {
      FourBytes(v + 0x8000_0000);
      HighTag(v);
    } else {
      EightBytes(v + 0xC000_0000_0000_0000);
      EightTag(v);
    }
  }

  lemma HighTag(v: nat)
    requires v < 0x4000_0000
    ensures (v + 0x8000_0000) / 0x100_0000 % 0x100 == 0x80 + v / 0x100_0000
    ensures (v + 0x8000_0000) / 0x1_0000 % 0x100 == v / 0x1_0000 % 0x100 && (v + 0x8000_0000) / 0x100 % 0x100 == v / 0x100 % 0x100
    ensures (v + 0x8000_0000) % 0x100 == v % 0x100
  {
    TagApart(v);
    SameLowByte(v / 0x1_0000, 0x80);
    SameLowByte(v / 0x100, 0x8000);
    SameLowByte(v, 0x80_0000);
  }

  lemma TagApart(v: nat)
    requires v < 0x4000_0000
    ensures (v + 0x8000_0000) / 0x100_0000 == v / 0x100_0000 + 0x80 < 0x100
    ensures (v + 0x8000_0000) / 0x1_0000 == v / 0x1_0000 + 0x100 * 0x80
    ensures (v + 0x8000_0000) / 0x100 == v / 0x100 + 0x100 * 0x8000
  {
  }

  lemma SameLowByte(v: nat, k: nat)
    ensures (v + 0x100 * k) % 0x100 == v % 0x100
  {
  }

  lemma EightBytes(v: nat)
    ensures BigEndian(v, 8) == BigEndian(v / 0x1_0000_0000, 4) + BigEndian(v, 4)
  {
    hide BigEndian;
    Halves(v, 4);
    assert v / 0x100 / 0x100 / 0x100 / 0x100 == v / 0x1_0000_0000;
    Powers();
  }

  /** A longer number starts with its high part. */
  lemma Halves(v: nat, n: nat)
    requires n == 4
    ensures BigEndian(v, 8) == BigEndian(v / 0x100 / 0x100 / 0x100 / 0x100, 4) + BigEndian(v, 4)
  {
    hide BigEndian;
    OneMore(v, 7);
    OneMore(v / 0x100, 6);
    OneMore(v / 0x100 / 0x100, 5);
    OneMore(v / 0x100 / 0x100 / 0x100, 4);
    OneMore(v, 3);
    OneMore(v / 0x100, 2);
    OneMore(v / 0x100 / 0x100, 1);
    OneMore(v / 0x100 / 0x100 / 0x100, 0);
  }

  lemma EightTag(v: nat)
    requires 0x4000_0000 <= v <= UINT_VAR_MAX
    ensures (v + 0xC000_0000_0000_0000) / 0x1_0000_0000 == 0xC000_0000 + v / 0x1_0000_0000
    ensures BigEndian(v + 0xC000_0000_0000_0000, 4) == BigEndian(v, 4)
    ensures BigEndian(0xC000_0000 + v / 0x1_0000_0000, 4)[0] / 0x40 == 3
  {
    hide BigEndian;
    FourBytes(v + 0xC000_0000_0000_0000);
    FourBytes(v);
    SameLow(v);
    FourBytes(0xC000_0000 + v / 0x1_0000_0000);
  }

  lemma Shifted(v: nat, k: nat)
    ensures (v + 0x100 * k) % 0x100 == v % 0x100 && (v + 0x100 * k) / 0x100 == v / 0x100 + k
  {
    RemainderUnique(v + 0x100 * k, 0x100, v / 0x100 + k, v % 0x100);
  }

  lemma SameLow(v: nat)
    ensures var w := v + 0xC000_0000_0000_0000;
            && w % 0x100 == v % 0x100 && w / 0x100 % 0x100 == v / 0x100 % 0x100
            && w / 0x1_0000 % 0x100 == v / 0x1_0000 % 0x100 && w / 0x100_0000 % 0x100 == v / 0x100_0000 % 0x100
  {
    var w := v + 0xC000_0000_0000_0000;
    Shifted(v, 0xC0_0000_0000_0000);
    Shifted(v / 0x100, 0xC000_0000_0000);
    Shifted(v / 0x100 / 0x100, 0xC0_0000_0000);
    Shifted(v / 0x100 / 0x100 / 0x100, 0xC000_0000);
    Thrice(v);
    Thrice(w);
  }

  lemma Thrice(v: nat)
    ensures v / 0x100 / 0x100 == v / 0x1_0000 && v / 0x100 / 0x100 / 0x100 == v / 0x100_0000
  {
  }

  /** The examples of appendix A.1 of RFC 9000, and a value in more bytes than it needs. */
  lemma VarExamples()
    ensures EncodeVar(37) == [0x25] && EncodeVar(15293) == [0x7B, 0xBD] && EncodeVar(494878333) == [0x9D, 0x7F, 0x3E, 0x7D]
    ensures EncodeVar(151288809941952652) == [0xC2, 0x19, 0x7C, 0x5E, 0xFF, 0x14, 0xE8, 0x8C]
    ensures DecodeVar([0x40, 0x25]) == Some((37, []))
  {
    hide BigEndian, EncodeVar;
    VarBytes(37);
    VarBytes(15293);
    VarBytes(494878333);
    LongExample();
    assert [0x40 as byte, 0x25][1..2] == [0x25] && [0x40 as byte, 0x25][2..] == [];
    assert [0x40 as byte % 64] + [0x25] == [0, 0x25];
    assert [0 as byte, 0x25][..1] == [0] && [0 as byte][..0] == [];
    assert FromBigEndian([0]) == 0;
  }

  lemma LongExample()
    ensures EncodeVar(151288809941952652) == [0xC2, 0x19, 0x7C, 0x5E, 0xFF, 0x14, 0xE8, 0x8C]
  {
    hide BigEndian, EncodeVar;
    VarBytes(151288809941952652);
    FourBytes(151288809941952652);
    FourBytes(0xC000_0000 + 151288809941952652 / 0x1_0000_0000);
    var e := EncodeVar(151288809941952652);
    assert e == e[..4] + e[4..];
  }

  // ---- Frames ----

  /** The ranges 0 to 2 and 5, with a delay of 2: largest, delay, count, first length, then a gap and a length. */
  lemma AckExample()
    ensures var rs := [Range(0, 3), Range(5, 6)];
            AckFrames.Encodable(rs) && AckFrames.EncodeAck(rs, 2) == [5, 2, 1, 0, 1, 2]
  {
    hide EncodeVar;
    var rs := [Range(0, 3), Range(5, 6)];
    assert rs[..1] == [Range(0, 3)];
    VarBytes(5);
    VarBytes(2);
    VarBytes(1);
    VarBytes(0);
    assert AckFrames.EncodeGaps(rs[..1]) == [];
  }

  /** A STREAM frame with an offset, a length and the end of the stream. */
  lemma StreamExample()
    ensures StreamFrames.StreamBytes(4, StreamSpec.Frame(1, [0x68, 0x69], true)) == [0x0F, 4, 1, 0x40, 2, 0x68, 0x69]
    ensures StreamFrames.StreamBytes(4, StreamSpec.Frame(0, [0x68], false)) == [0x0A, 4, 0x40, 1, 0x68]
  {
    hide EncodeVar, BigEndian;
    VarBytes(0x0F);
    VarBytes(0x0A);
    VarBytes(4);
    VarBytes(1);
    TwoBytes(0x4002);
    TwoBytes(0x4001);
  }

  // ---- Packets (section 17 of RFC 9000, section 3.2 of RFC 9369, appendix A.3 of RFC 9000) ----

  /** The first byte of long headers with two-byte packet numbers. */
  lemma FirstBytes()
    ensures Headers.LongFirstByte(1, Headers.Initial, 1) == 0xC1 && Headers.LongFirstByte(1, Headers.ZeroRtt, 1) == 0xD1
    ensures Headers.LongFirstByte(1, Headers.HandshakePacket, 1) == 0xE1 && Headers.LongFirstByte(1, Headers.Retry, 0) == 0xF0
    ensures Headers.LongFirstByte(0x6B33_43CF, Headers.Initial, 1) == 0xD1
    ensures Headers.LongFirstByte(0x6B33_43CF, Headers.ZeroRtt, 1) == 0xE1
    ensures Headers.LongFirstByte(0x6B33_43CF, Headers.HandshakePacket, 1) == 0xF1
    ensures Headers.LongFirstByte(0x6B33_43CF, Headers.Retry, 0) == 0xC0
  {
  }

  /** A handshake header: version, destination, source, length and number; and a short one. */
  lemma HeaderExample(crypto: BuilderSpec.Crypto)
    requires crypto.keyPhase == 1
    ensures var cfg := BuilderSpec.Config([8], [9, 9], [], 1, true, 1200, true, None, None);
            && BuilderSpec.HeaderBytes(cfg, Headers.HandshakePacket, crypto, 20, 3) ==
               [0xE1, 0, 0, 0, 1, 2, 9, 9, 1, 8, 0x40, 20, 0, 3]
            && BuilderSpec.HeaderBytes(cfg, Headers.OneRtt, crypto, 20, 0x1_0203) == [0x65, 9, 9, 2, 3]
  {
    hide BigEndian;
    TwoBytes(1);
    TwoBytes(2);
    FourBytes(1);
    TwoBytes(0x4014);
    TwoBytes(3);
    TwoBytes(0x65);
    TwoBytes(0x1_0203);
  }

  /** The example of appendix A.3. */
  lemma NumberExample()
    ensures PacketNumbers.DecodePacketNumber(0x9B32, 16, 0xA82F_30EB) == 0xA82F_9B32
  {
    assert PacketNumbers.Window(16) == 0x1_0000 by { assert PacketNumbers.Window(8) == 256; }
  }

  // ---- The ClientHello (section 4 of RFC 8446) ----

  lemma GroupAndModeExtensions()
    ensures TlsHello.EncodeExtension(TlsHello.FieldExtension(TlsHello.Groups([0x001D]))) == [0, 10, 0, 4, 0, 2, 0, 0x1D]
    ensures TlsHello.EncodeExtension(TlsHello.FieldExtension(TlsHello.Modes([1]))) == [0, 45, 0, 2, 1, 1]
    ensures TlsHello.EncodeExtension(TlsHello.FieldExtension(TlsHello.Early)) == [0, 42, 0, 0]
  {
    hide BigEndian;
    TwoBytes(0);
    TwoBytes(1);
    TwoBytes(2);
    TwoBytes(4);
    TwoBytes(10);
    TwoBytes(42);
    TwoBytes(45);
    TwoBytes(0x001D);
    OneUint(2, 0x001D);
    OneUint(1, 1);
  }

  lemma AlgorithmAndVersionExtensions()
    ensures TlsHello.EncodeExtension(TlsHello.FieldExtension(TlsHello.Algorithms([0x0403]))) == [0, 13, 0, 4, 0, 2, 4, 3]
    ensures TlsHello.EncodeExtension(TlsHello.FieldExtension(TlsHello.Versions([0x0304]))) == [0, 43, 0, 3, 2, 3, 4]
  {
    hide BigEndian;
    TwoBytes(2);
    TwoBytes(3);
    TwoBytes(4);
    TwoBytes(13);
    TwoBytes(43);
    TwoBytes(0x0403);
    TwoBytes(0x0304);
    OneUint(2, 0x0403);
    OneUint(2, 0x0304);
  }

  lemma OneUint(width: nat, v: nat)
    ensures TlsHello.Uints(width, [v]) == BigEndian(v, width)
  {
    OneItem(TlsCodec.EncodeUint(width), v);
  }

  lemma OneItem<T>(encode: T -> seq<byte>, v: T)
    ensures TlsCodec.EncodeItems(encode, [v]) == encode(v)
  {
    var none: seq<T> := [];
    assert [v][1..] == none && TlsCodec.EncodeItems(encode, none) == [];
    assert encode(v) + [] == encode(v);
  }

  lemma NameExtensions()
    ensures TlsHello.EncodeExtension(TlsHello.FieldExtension(TlsHello.ServerName([0x61]))) == [0, 0, 0, 6, 0, 4, 0, 0, 1, 0x61]
    ensures TlsHello.EncodeExtension(TlsHello.FieldExtension(TlsHello.Alpn([[0x68, 0x33]]))) == [0, 16, 0, 5, 0, 3, 2, 0x68, 0x33]
  {
    hide BigEndian, TlsCodec.EncodeItems;
    TwoBytes(0);
    TwoBytes(1);
    TwoBytes(2);
    TwoBytes(3);
    TwoBytes(4);
    TwoBytes(5);
    TwoBytes(6);
    TwoBytes(16);
    OneItem(TlsCodec.EncodeOpaque(1), [0x68 as byte, 0x33]);
  }

  lemma KeyShareExtension()
    ensures TlsHello.EncodeExtension(TlsHello.FieldExtension(TlsHello.KeyShares([TlsCodec.KeyShare(0x001D, [7])]))) ==
            [0, 51, 0, 7, 0, 5, 0, 0x1D, 0, 1, 7]
  {
    hide BigEndian, TlsCodec.EncodeItems;
    TwoBytes(1);
    TwoBytes(5);
    TwoBytes(7);
    TwoBytes(51);
    TwoBytes(0x001D);
    OneItem(TlsCodec.ENCODE_KEY_SHARE, TlsCodec.KeyShare(0x001D, [7]));
  }

  /** A ticket with its age, and a binder. */
  lemma TicketExtension()
    ensures TlsHello.EncodeExtension(TlsHello.FieldExtension(TlsHello.Psks(
              TlsCodec.OfferedPsks([TlsCodec.PskIdentity([7], 0x0102_0304)], [[9 as byte]])))) ==
            [0, 41, 0, 13, 0, 7, 0, 1, 7, 1, 2, 3, 4, 0, 2, 1, 9]
  {
    hide BigEndian, TlsCodec.EncodeItems;
    TwoBytes(41);
    TwoBytes(13);
    TwoBytes(7);
    TwoBytes(1);
    TwoBytes(2);
    FourBytes(0x0102_0304);
    OneItem(TlsCodec.ENCODE_IDENTITY, TlsCodec.PskIdentity([7], 0x0102_0304));
    OneItem(TlsCodec.EncodeOpaque(1), [9 as byte]);
  }

  /** Around the extensions: the message type and length, the version, the random bytes and three lists. */
  lemma HelloStarts(h: TlsHello.ClientHello)
    requires TlsHello.Complete(h) && |h.random| == 32 && h.sessionId == [5] && h.suites == [0x1301] && h.compressions == [0]
    ensures var e, fields := TlsHello.EncodeHello(h), TlsHello.EncodeFields(TlsHello.Fields(h));
            && |e| == 48 + |fields| && e[0] == 1 && e[1..4] == BigEndian(44 + |fields|, 3)
            && e[4..6] == [3, 3] && e[6..38] == h.random && e[38..46] == [1, 5, 0, 2, 0x13, 0x01, 1, 0]
            && e[46..48] == BigEndian(|fields|, 2) && e[48..] == fields
  {
    hide BigEndian, TlsHello.EncodeFields, TlsHello.Fields;
    TwoBytes(1);
    TwoBytes(2);
    TwoBytes(5);
    TwoBytes(0);
    TwoBytes(0x0303);
    TwoBytes(0x1301);
    OneUint(2, 0x1301);
    OneUint(1, 0);
    assert TlsHello.HelloFront(h) == [3, 3] + h.random + [1, 5] + [0, 2, 0x13, 0x01] + [1, 0];
  }
}
