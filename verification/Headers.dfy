/** QUIC packet headers (quic/packet.py) and the split of a datagram into packets (quic/connection.py). */
module Headers {
  import opened Common
  import opened Buffers

  const VERSION_1 := 0x00000001
  const VERSION_2 := 0x6B3343CF
  const NEGOTIATION := 0
  const CONNECTION_ID_MAX_SIZE := 20
  const INTEGRITY_TAG_SIZE := 16

  datatype PacketType = Initial | ZeroRtt | HandshakePacket | Retry | VersionNegotiation | OneRtt

  datatype Header = Header(
    version: Option<nat>,
    kind: PacketType,
    packetLength: nat,
    destination: seq<byte>,
    source: seq<byte>,
    token: seq<byte>,
    integrityTag: seq<byte>,
    supported: seq<nat>)

  // ---- The first byte ----

  predicate IsLong(first: byte) { first / 128 == 1 }

  predicate FixedBit(first: byte) { first / 64 % 2 == 1 }

  /** The two type bits of a long header, which depend on the version. */
  function TypeBits(version: nat, kind: PacketType): nat
    requires kind in {Initial, ZeroRtt, HandshakePacket, Retry}
  {
    var v1 := match kind case Initial => 0 case ZeroRtt => 1 case HandshakePacket => 2 case _ => 3;
    if version == VERSION_2 then (v1 + 1) % 4 else v1
  }

  function TypeOfBits(version: nat, bits: nat): (kind: PacketType)
    requires bits < 4
    ensures kind in {Initial, ZeroRtt, HandshakePacket, Retry}
  {
    var v1 := if version == VERSION_2 then (bits + 3) % 4 else bits;
    if v1 == 0 then Initial else if v1 == 1 then ZeroRtt else if v1 == 2 then HandshakePacket else Retry
  }

  /** Header form, fixed bit, packet type and four type-specific bits. */
  function LongFirstByte(version: nat, kind: PacketType, bits: nat): (b: byte)
    requires kind in {Initial, ZeroRtt, HandshakePacket, Retry} && bits < 16
    ensures IsLong(b) && FixedBit(b) && TypeOfBits(version, b / 16 % 4) == kind && b % 16 == bits
  {
    0x80 + 0x40 + 16 * TypeBits(version, kind) + bits
  }

  // ---- Reading a header ----

  function PullBytes(n: int, s: seq<byte>): Option<(seq<byte>, seq<byte>)> {
    if 0 <= n <= |s| then Some((s[..n], s[n..])) else None
  }

  /** A connection ID after its one-byte length, at most 20 bytes long. */
  function PullCid(s: seq<byte>): Option<(seq<byte>, seq<byte>)> {
    if s == [] || s[0] > CONNECTION_ID_MAX_SIZE then None else PullBytes(s[0], s[1..])
  }

  function PullVersions(s: seq<byte>): Option<seq<nat>> {
    if s == [] then Some([])
    else if |s| < 4 then None
    else
      match PullVersions(s[4..])
      case None => None
      case Some(rest) => Some([FromBigEndian(s[..4])] + rest)
  }

  /** The token and the length of the rest, by packet type; also the bytes after them. */
  function PullLongTail(kind: PacketType, s: seq<byte>): Option<(seq<byte>, seq<byte>, nat, seq<byte>)>
    requires kind in {Initial, ZeroRtt, HandshakePacket, Retry}
  {
    match kind
    case Initial =>
      (match DecodeVar(s)
       case None => None
       case Some((length, s1)) =>
         match PullBytes(length, s1)
         case None => None
         case Some((token, s2)) =>
           match DecodeVar(s2)
           case None => None
           case Some((rest, s3)) => Some((token, [], rest, s3)))
    case Retry =>
      (match PullBytes(|s| - INTEGRITY_TAG_SIZE, s)
       case None => None
       case Some((token, tag)) => Some((token, tag, 0, [])))
    case _ =>
      match DecodeVar(s)
      case None => None
      case Some((rest, s1)) => Some(([], [], rest, s1))
  }

  /** The header at the front of s, which runs to the end of the datagram, and the bytes after it. */
  function PullHeader(s: seq<byte>, cidLength: nat): Option<(Header, seq<byte>)> {
    if s == [] then None
    else if IsLong(s[0]) then PullLong(s)
    else if !FixedBit(s[0]) then None
    else
      match PullBytes(cidLength, s[1..])
      case None => None
      case Some((destination, rest)) => Some((Header(None, OneRtt, |s|, destination, [], [], [], []), rest))
  }

  function PullLong(s: seq<byte>): Option<(Header, seq<byte>)>
    requires s != []
  {
    if |s| < 5 then None
    else
      var version := FromBigEndian(s[1..5]);
      match PullCid(s[5..])
      case None => None
      case Some((destination, s1)) =>
        match PullCid(s1)
        case None => None
        case Some((source, s2)) =>
          if version == NEGOTIATION then
            match PullVersions(s2)
            case None => None
            case Some(versions) => Some((Header(Some(version), VersionNegotiation, |s|, destination, source, [], [], versions), []))
          else if !FixedBit(s[0]) then None
          else
            var kind := TypeOfBits(version, s[0] / 16 % 4);
            match PullLongTail(kind, s2)
            case None => None
            case Some((token, tag, length, rest)) =>
              if length > |rest| then None
              else Some((Header(Some(version), kind, |s| - |rest| + length, destination, source, token, tag, []), rest))
  }

  lemma HeaderMeasure(s: seq<byte>, cidLength: nat)
    ensures PullHeader(s, cidLength).Some? ==> 0 < PullHeader(s, cidLength).value.0.packetLength <= |s|
    ensures PullHeader(s, cidLength).Some? ==> |PullHeader(s, cidLength).value.1| <= |s|
  {
    hide DecodeVar, FromBigEndian;
    if s != [] && IsLong(s[0]) && PullLong(s).Some? {
      LongMeasure(s);
    }
  }

  lemma CidShortens(s: seq<byte>)
    ensures PullCid(s).Some? ==> |PullCid(s).value.1| < |s|
  {
  }

  lemma VarShortens(s: seq<byte>)
    ensures DecodeVar(s).Some? ==> |DecodeVar(s).value.1| < |s|
  {
  }

  lemma TailShortens(kind: PacketType, s: seq<byte>)
    requires kind in {Initial, ZeroRtt, HandshakePacket, Retry}
    ensures PullLongTail(kind, s).Some? ==> |PullLongTail(kind, s).value.3| <= |s|
  {
    hide DecodeVar;
    VarShortens(s);
    if kind == Initial && DecodeVar(s).Some? {
      var (length, s1) := DecodeVar(s).value;
      if length <= |s1| { VarShortens(s1[length..]); }
    }
  }

  lemma LongMeasure(s: seq<byte>)
    requires s != [] && PullLong(s).Some?
    ensures 0 < PullLong(s).value.0.packetLength <= |s| && |PullLong(s).value.1| <= |s|
  {
    hide PullCid, PullLongTail, PullVersions, FromBigEndian;
    CidShortens(s[5..]);
    var s1 := PullCid(s[5..]).value.1;
    CidShortens(s1);
    var s2 := PullCid(s1).value.1;
    TailShortens(TypeOfBits(FromBigEndian(s[1..5]), s[0] / 16 % 4), s2);
  }

  // ---- Splitting a datagram ----

  /** A packet as cut out of a datagram, with its header and the place where its packet number starts. */
  datatype Packet = Packet(header: Header, offset: nat, bytes: seq<byte>)

  /**
   The packets of a datagram: the walk goes on after each packet, and ends at a header it cannot read or at a
   packet that takes the rest of the datagram for itself.
   */
  function Split(s: seq<byte>, cidLength: nat): seq<Packet>
    decreases |s|
  {
    match PullHeader(s, cidLength)
    case None => []
    case Some((header, rest)) =>
      HeaderMeasure(s, cidLength);
      var packet := Packet(header, |s| - |rest|, s[..header.packetLength]);
      if header.kind in {VersionNegotiation, Retry} then [packet]
      else [packet] + Split(s[header.packetLength..], cidLength)
  }
}
