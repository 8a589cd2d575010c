/** What QuicPacketBuilder does, on values (quic/packet_builder.py). */
module BuilderSpec {
  import opened Common
  import opened Buffers
  import opened Headers

  const AEAD_TAG_SIZE := 16
  const PACKET_NUMBER_MAX_SIZE := 4
  const PACKET_NUMBER_SEND_SIZE := 2

  /** Packet protection: header and payload of a packet, and its number, to the protected bytes. */
  datatype Crypto = Crypto(keyPhase: nat, protect: (seq<byte>, seq<byte>, nat) -> seq<byte>)

  /** Frame types that do not elicit acknowledgements, and those that do not count as in flight. */
  const NON_ACK_ELICITING: set<nat> := {0x00, 0x02, 0x03, 0x1C, 0x1D}
  const NON_IN_FLIGHT: set<nat> := {0x02, 0x03, 0x1C, 0x1D}
  const CRYPTO_FRAME := 0x06

  datatype Config = Config(
    hostCid: seq<byte>,
    peerCid: seq<byte>,
    token: seq<byte>,
    version: nat,
    isClient: bool,
    maxDatagram: nat,
    spinBit: bool,
    maxFlight: Option<int>,
    maxTotal: Option<int>)

  datatype Sent = Sent(kind: PacketType, number: nat, inFlight: bool, ackEliciting: bool, isCrypto: bool, sentBytes: nat)

  /** A packet being written: the frames pushed so far. */
  datatype Open = Open(kind: PacketType, crypto: Crypto, inFlight: bool, ackEliciting: bool, isCrypto: bool, payload: seq<byte>)

  /** A finished packet: what is remembered of it and its protected bytes. */
  datatype Piece = Piece(sent: Sent, bytes: seq<byte>)

  /** A datagram as it was shipped, and the flight capacity it had. */
  datatype Shipped = Shipped(pieces: seq<Piece>, padding: nat, capacity: int)

  /** front holds the finished packets of the current datagram; shipped and pieces tell how datagrams came about. */
  datatype Builder = Builder(
    datagrams: seq<seq<byte>>,
    packets: seq<Sent>,
    front: seq<byte>,
    pieces: seq<Piece>,
    shipped: seq<Shipped>,
    open: Option<Open>,
    init: bool,
    needsPadding: bool,
    datagramFlight: nat,
    flight: nat,
    total: nat,
    bufferCapacity: int,
    flightCapacity: int,
    number: nat)

  function NewBuilder(cfg: Config, number: nat): Builder {
    Builder([], [], [], [], [], None, true, false, 0, 0, 0, cfg.maxDatagram, cfg.maxDatagram, number)
  }

  /** Stop is QuicPacketBuilderStop; Broken is a write past the end of the buffer. */
  datatype Result = Ok(b: Builder) | Stop(b: Builder) | Broken

  function Zeros(n: int): (z: seq<byte>)
    ensures |z| == if n > 0 then n else 0
  {
    if n > 0 then seq(n, _ => 0) else []
  }

  predicate Sendable(kind: PacketType) { kind in {Initial, ZeroRtt, HandshakePacket, OneRtt} }

  function HeaderSize(cfg: Config, kind: PacketType): nat
    requires |cfg.token| <= UINT_VAR_MAX
  {
    if kind == OneRtt then 3 + |cfg.peerCid|
    else
      11 + |cfg.peerCid| + |cfg.hostCid| + if kind == Initial then SizeVar(|cfg.token|) + |cfg.token| else 0
  }

  /** length | 0x4000 cut to two bytes: a two-byte varint as long as the length is below 0x4000. */
  function LengthField(length: nat): seq<byte> {
    BigEndian(if length / 0x4000 % 2 == 1 then length else length + 0x4000, 2)
  }

  /** A long header up to the source connection ID. */
  function LongFront(cfg: Config, kind: PacketType): (f: seq<byte>)
    requires Sendable(kind) && kind != OneRtt
    ensures |f| == 7 + |cfg.peerCid| + |cfg.hostCid|
  {
    [LongFirstByte(cfg.version, kind, PACKET_NUMBER_SEND_SIZE - 1)] + BigEndian(cfg.version, 4)
    + BigEndian(|cfg.peerCid|, 1) + cfg.peerCid + BigEndian(|cfg.hostCid|, 1) + cfg.hostCid
  }

  function HeaderBytes(cfg: Config, kind: PacketType, crypto: Crypto, length: nat, number: nat): seq<byte>
    requires Sendable(kind) && |cfg.token| <= UINT_VAR_MAX
  {
    if kind == OneRtt then
      BigEndian(0x40 + (if cfg.spinBit then 0x20 else 0) + 4 * (crypto.keyPhase % 2) + PACKET_NUMBER_SEND_SIZE - 1, 1)
      + cfg.peerCid + BigEndian(number, 2)
    else
      LongFront(cfg, kind)
      + (if kind == Initial then EncodeVar(|cfg.token|) + cfg.token else [])
      + LengthField(length) + BigEndian(number, 2)
  }

  function RemainingBuffer(cfg: Config, b: Builder): int
    requires b.open.Some? && |cfg.token| <= UINT_VAR_MAX
  {
    b.bufferCapacity - (|b.front| + HeaderSize(cfg, b.open.value.kind) + |b.open.value.payload|) - AEAD_TAG_SIZE
  }

  function RemainingFlight(cfg: Config, b: Builder): int
    requires b.open.Some? && |cfg.token| <= UINT_VAR_MAX
  {
    b.flightCapacity - (|b.front| + HeaderSize(cfg, b.open.value.kind) + |b.open.value.payload|) - AEAD_TAG_SIZE
  }

  // ---- Ending a packet and a datagram ----

  function Flush(b: Builder): Builder
    requires b.open.None?
  {
    if b.front == [] then b
    else
      var extra := if b.needsPadding && b.flightCapacity > |b.front| then b.flightCapacity - |b.front| else 0;
      var datagram := b.front + Zeros(extra);
      b.(datagrams := b.datagrams + [datagram], shipped := b.shipped + [Shipped(b.pieces, extra, b.flightCapacity)],
         front := [], pieces := [],
         datagramFlight := b.datagramFlight + extra, flight := b.flight + b.datagramFlight + extra,
         total := b.total + |datagram|, init := true)
  }

  /** Whether this packet makes its datagram one that has to be padded. */
  predicate Padded(cfg: Config, b: Builder)
    requires b.open.Some?
  {
    b.needsPadding || (b.open.value.kind == Initial && (cfg.isClient || b.open.value.ackEliciting))
  }

  /** The zero bytes added inside the packet. */
  function InnerPadding(cfg: Config, b: Builder): int
    requires b.open.Some? && |cfg.token| <= UINT_VAR_MAX
  {
    var sample := PACKET_NUMBER_MAX_SIZE - PACKET_NUMBER_SEND_SIZE - |b.open.value.payload|;
    if Padded(cfg, b) && b.open.value.kind == OneRtt && RemainingFlight(cfg, b) > sample then RemainingFlight(cfg, b) else sample
  }

  /** The packet as protected, given its padded payload. */
  function Protected(cfg: Config, o: Open, payload: seq<byte>, number: nat): seq<byte>
    requires Sendable(o.kind) && |cfg.token| <= UINT_VAR_MAX
  {
    o.crypto.protect(HeaderBytes(cfg, o.kind, o.crypto, |payload| + PACKET_NUMBER_SEND_SIZE + AEAD_TAG_SIZE, number), payload, number)
  }

  predicate WellFormed(cfg: Config, b: Builder) {
    |cfg.token| <= UINT_VAR_MAX && (b.open.Some? ==> Sendable(b.open.value.kind))
  }

  /** The packet with its padding: what is remembered of it, and its protected bytes. */
  function Seal(cfg: Config, b: Builder): Piece
    requires WellFormed(cfg, b) && b.open.Some?
  {
    var o := b.open.value;
    var pad := InnerPadding(cfg, b);
    var bytes := Protected(cfg, o, o.payload + Zeros(pad), b.number);
    Piece(Sent(o.kind, b.number, o.inFlight || pad > 0, o.ackEliciting, o.isCrypto, |bytes|), bytes)
  }

  /** The builder with a finished packet in its datagram. */
  function Append(cfg: Config, b: Builder, p: Piece): Builder
    requires b.open.Some?
  {
    b.(open := None, needsPadding := Padded(cfg, b) && p.sent.kind != OneRtt,
       front := b.front + p.bytes, pieces := b.pieces + [p], packets := b.packets + [p.sent],
       datagramFlight := b.datagramFlight + (if p.sent.inFlight then |p.bytes| else 0),
       number := b.number + 1)
  }

  /** An empty packet is given up; a packet that does not fit the buffer breaks the builder. */
  function EndPacket(cfg: Config, b: Builder): (r: Result)
    requires WellFormed(cfg, b) && b.open.Some?
    ensures !r.Stop? && (r.Ok? ==> r.b.open.None?)
  {
    var o := b.open.value;
    if o.payload == [] then Ok(b.(open := None))
    else
      var p := Seal(cfg, b);
      if |b.front| + HeaderSize(cfg, o.kind) + |o.payload| + Max(0, InnerPadding(cfg, b)) > cfg.maxDatagram
         || |b.front| + |p.bytes| > cfg.maxDatagram then Broken
      else Ok(if o.kind == OneRtt then Flush(Append(cfg, b, p)) else Append(cfg, b, p))
  }

  function Ended(cfg: Config, b: Builder): (r: Result)
    requires WellFormed(cfg, b)
    ensures !r.Stop? && (r.Ok? ==> r.b.open.None?)
  {
    if b.open.Some? then EndPacket(cfg, b) else Ok(b)
  }

  // ---- Starting a packet and a frame ----

  function BeginDatagram(cfg: Config, b: Builder): Builder {
    if !b.init then b
    else
      var capacity := if cfg.maxTotal.Some? && cfg.maxTotal.value - b.total < b.bufferCapacity then cfg.maxTotal.value - b.total
                      else b.bufferCapacity;
      var flight := if cfg.maxFlight.Some? && cfg.maxFlight.value - b.flight < capacity then cfg.maxFlight.value - b.flight
                    else capacity;
      b.(bufferCapacity := capacity, flightCapacity := flight, datagramFlight := 0, init := false, needsPadding := false)
  }

  /** A datagram with little space left is finished before the next packet. */
  function FlushIfFull(b: Builder): (f: Builder)
    requires b.open.None?
    ensures f.open.None?
  {
    if b.bufferCapacity - |b.front| < 128 then Flush(b) else b
  }

  function StartPacket(cfg: Config, b: Builder, kind: PacketType, crypto: Crypto): (r: Result)
    requires WellFormed(cfg, b) && Sendable(kind)
    ensures r.Ok? ==> r.b.open.Some? && r.b.open.value.kind == kind
  {
    var ended := Ended(cfg, b);
    if ended.Broken? then Broken
    else
      var b2 := BeginDatagram(cfg, FlushIfFull(ended.b));
      if |b2.front| + HeaderSize(cfg, kind) >= b2.bufferCapacity then Stop(b2)
      else Ok(b2.(open := Some(Open(kind, crypto, false, false, false, []))))
  }

  /** A frame of some type that asks for so much room, and the bytes its writer adds after the type. */
  function StartFrame(cfg: Config, b: Builder, frameType: nat, capacity: int): (r: Result)
    requires WellFormed(cfg, b) && b.open.Some? && frameType <= UINT_VAR_MAX
    ensures r.Ok? ==> WellFormed(cfg, r.b) && r.b.open.Some?
  {
    if RemainingBuffer(cfg, b) < capacity || (frameType !in NON_IN_FLIGHT && RemainingFlight(cfg, b) < capacity) then Stop(b)
    else
      var r := Write(cfg, b, EncodeVar(frameType));
      if !r.Ok? then r
      else
        var o := r.b.open.value;
        Ok(r.b.(open := Some(o.(ackEliciting := o.ackEliciting || frameType !in NON_ACK_ELICITING,
                                inFlight := o.inFlight || frameType !in NON_IN_FLIGHT,
                                isCrypto := o.isCrypto || frameType == CRYPTO_FRAME))))
  }

  /** Bytes pushed into the builder's buffer. */
  function Write(cfg: Config, b: Builder, bytes: seq<byte>): (r: Result)
    requires WellFormed(cfg, b) && b.open.Some?
    ensures r.Ok? ==> WellFormed(cfg, r.b) && r.b.open.Some?
  {
    var o := b.open.value;
    if |b.front| + HeaderSize(cfg, o.kind) + |o.payload| + |bytes| > cfg.maxDatagram then Broken
    else Ok(b.(open := Some(o.(payload := o.payload + bytes))))
  }

  /** The final flush, before the datagrams and packets are handed over. */
  function Finish(cfg: Config, b: Builder): (r: Result)
    requires WellFormed(cfg, b)
  {
    var ended := Ended(cfg, b);
    if ended.Broken? then Broken else Ok(Flush(ended.b))
  }
}
