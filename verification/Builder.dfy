/** The packet builder, writing headers and padding in place (quic/packet_builder.py). */
module Builders {
  import opened Common
  import opened Buffers
  import opened Headers
  import opened BuilderSpec
  import opened Coalescing

  /** How a call ends: normally, with QuicPacketBuilderStop, or with a write past the end of the buffer. */
  datatype Status = Fine | Stopped | WriteError

  class PacketBuilder {
    const cfg: Config
    const buffer: Buffer
    var datagrams: seq<seq<byte>>
    var datagramFlightBytes: nat
    var datagramInit: bool
    var datagramNeedsPadding: bool
    var packets: seq<Sent>
    var flightBytes: nat
    var totalBytes: nat
    var headerSize: nat
    var packet: Option<Sent>
    var packetCrypto: Crypto
    var packetNumber: nat
    var packetStart: nat
    var bufferCapacity: int
    var flightCapacity: int
    ghost var pieces: seq<Piece>
    ghost var shipped: seq<Shipped>

    ghost predicate Valid()
      reads this, buffer
    {
      && buffer.Valid() && buffer.base.Length == cfg.maxDatagram && |cfg.token| <= UINT_VAR_MAX
      && flightCapacity <= cfg.maxDatagram && bufferCapacity <= cfg.maxDatagram
      && (packet.Some? ==> Sendable(packet.value.kind) && headerSize == HeaderSize(cfg, packet.value.kind)
                           && packetStart + headerSize <= buffer.pos
                           && packet.value == Sent(packet.value.kind, packetNumber, packet.value.inFlight,
                                                   packet.value.ackEliciting, packet.value.isCrypto, 0))
    }

    /** The frames pushed into the packet being written. */
    ghost function Opened(): Option<Open>
      requires Valid()
      reads this, buffer, buffer.base
    {
      if packet.None? then None
      else
        Some(Open(packet.value.kind, packetCrypto, packet.value.inFlight, packet.value.ackEliciting, packet.value.isCrypto,
                  buffer.base[packetStart + headerSize..buffer.pos]))
    }

    ghost function State(): Builder
      requires Valid()
      reads this, buffer, buffer.base
    {
      Builder(datagrams, packets, buffer.base[..if packet.Some? then packetStart else buffer.pos], pieces, shipped, Opened(),
              datagramInit, datagramNeedsPadding, datagramFlightBytes, flightBytes, totalBytes,
              bufferCapacity, flightCapacity, packetNumber)
    }

    constructor (cfg: Config, crypto: Crypto, number: nat)
      requires |cfg.token| <= UINT_VAR_MAX
      ensures Valid() && State() == NewBuilder(cfg, number) && this.cfg == cfg && fresh(buffer) && fresh(buffer.base)
    {
      this.cfg := cfg;
      buffer := new Buffer(cfg.maxDatagram);
      datagrams, datagramFlightBytes, datagramInit, datagramNeedsPadding := [], 0, true, false;
      packets, flightBytes, totalBytes, headerSize, packet := [], 0, 0, 0, None;
      packetCrypto, packetNumber, packetStart := crypto, number, 0;
      bufferCapacity, flightCapacity := cfg.maxDatagram, cfg.maxDatagram;
      pieces, shipped := [], [];
    }

    method RemainingBufferSpace() returns (n: int)
      requires Valid() && packet.Some?
      ensures n == RemainingBuffer(cfg, State())
    {
      n := bufferCapacity - buffer.pos - AEAD_TAG_SIZE;
    }

    method RemainingFlightSpace() returns (n: int)
      requires Valid() && packet.Some?
      ensures n == RemainingFlight(cfg, State())
    {
      n := flightCapacity - buffer.pos - AEAD_TAG_SIZE;
    }

    /** The zero bytes a datagram still needs; zero if none. */
    method PadDatagram() returns (extra: nat)
      requires Valid() && packet.None? && buffer.pos > 0
      modifies this`datagramFlightBytes, buffer`pos, buffer.base
      ensures Valid() && buffer.Data() == old(buffer.Data()) + Zeros(extra) && buffer.pos == old(buffer.pos) + extra
      ensures extra == if datagramNeedsPadding && flightCapacity > old(buffer.pos) then flightCapacity - old(buffer.pos) else 0
      ensures datagramFlightBytes == old(datagramFlightBytes) + extra
    {
      extra := 0;
      if datagramNeedsPadding {
        var extraBytes := flightCapacity - buffer.pos;
        if extraBytes > 0 {
          var ok := buffer.PushBytes(Zeros(extraBytes));
          datagramFlightBytes := datagramFlightBytes + extraBytes;
          extra := extraBytes;
        }
      }
      if extra == 0 { assert buffer.Data() + [] == buffer.Data(); }
    }

    method FlushCurrentDatagram()
      requires Valid() && packet.None?
      modifies this, buffer`pos, buffer.base
      ensures Valid() && packet.None? && State() == Flush(old(State()))
    {
      ghost var was := State();
      assert was.front == buffer.Data();
      if buffer.pos > 0 {
        var extra := PadDatagram();
        assert State() == was.(front := was.front + Zeros(extra), datagramFlight := was.datagramFlight + extra);
        Ship(extra);
      }
    }

    /** Hands the datagram over and starts again at the front of the buffer. */
    method Ship(ghost extra: nat)
      requires Valid() && packet.None?
      modifies this, buffer`pos
      ensures Valid() && packet.None?
      ensures var was := old(State());
              State() == was.(datagrams := was.datagrams + [was.front],
                              shipped := was.shipped + [Shipped(was.pieces, extra, was.flightCapacity)],
                              front := [], pieces := [], flight := was.flight + was.datagramFlight,
                              total := was.total + |was.front|, init := true)
    {
      datagrams := datagrams + [buffer.base[..buffer.pos]];
      shipped := shipped + [Shipped(pieces, extra, flightCapacity)];
      pieces := [];
      flightBytes := flightBytes + datagramFlightBytes;
      totalBytes := totalBytes + buffer.pos;
      datagramInit := true;
      var sought := buffer.Seek(0);
    }

    // ---- Ending a packet ----

    /** A long header up to the source connection ID. */
    method PushLongFront(kind: PacketType, ghost d0: seq<byte>, ghost r0: seq<byte>) returns (ghost done: seq<byte>)
      requires buffer.Valid() && Sendable(kind) && kind != OneRtt && d0 == buffer.Data() && r0 == buffer.Rest()
      requires |r0| >= 7 + |cfg.peerCid| + |cfg.hostCid|
      modifies buffer`pos, buffer.base
      ensures buffer.Valid() && Wrote(d0, r0, buffer.Data(), buffer.Rest(), done)
      ensures done == LongFront(cfg, kind)
    {
      var first := LongFirstByte(cfg.version, kind, PACKET_NUMBER_SEND_SIZE - 1);
      LengthByte(first);
      hide BigEndian, TypeBits, Wrote;
      WroteNothing(d0, r0);
      done := PushUintPart(buffer, first, 1, d0, r0, []);
      assert done == [first];
      done := PushUintPart(buffer, cfg.version, 4, d0, r0, done);
      done := PushUintPart(buffer, |cfg.peerCid|, 1, d0, r0, done);
      done := PushBytesPart(buffer, cfg.peerCid, d0, r0, done);
      done := PushUintPart(buffer, |cfg.hostCid|, 1, d0, r0, done);
      done := PushBytesPart(buffer, cfg.hostCid, d0, r0, done);
    }

    /** Writes a long header where the buffer stands. */
    method PushLongHeader(kind: PacketType, length: nat)
      requires buffer.Valid() && |cfg.token| <= UINT_VAR_MAX && Sendable(kind) && kind != OneRtt
      requires |buffer.Rest()| >= HeaderSize(cfg, kind)
      modifies buffer`pos, buffer.base
      ensures buffer.Valid()
      ensures Wrote(old(buffer.Data()), old(buffer.Rest()), buffer.Data(), buffer.Rest(),
                    HeaderBytes(cfg, kind, packetCrypto, length, packetNumber))
    {
      ghost var d0, r0 := buffer.Data(), buffer.Rest();
      VarRoundTrip(|cfg.token|, []);
      hide EncodeVar, DecodeVar, SizeVar, BigEndian, TypeBits, LongFront, Wrote;
      ghost var done := PushLongFront(kind, d0, r0);
      done := PushToken(kind, d0, r0, done);
      done := PushUintPart(buffer, if length / 0x4000 % 2 == 1 then length else length + 0x4000, 2, d0, r0, done);
      done := PushUintPart(buffer, packetNumber, 2, d0, r0, done);
    }

    method PushToken(kind: PacketType, ghost d0: seq<byte>, ghost r0: seq<byte>, ghost done: seq<byte>)
      returns (ghost next: seq<byte>)
      requires buffer.Valid() && |cfg.token| <= UINT_VAR_MAX && Wrote(d0, r0, buffer.Data(), buffer.Rest(), done)
      requires kind == Initial ==> |done| + |EncodeVar(|cfg.token|)| + |cfg.token| <= |r0|
      modifies buffer`pos, buffer.base
      ensures buffer.Valid() && Wrote(d0, r0, buffer.Data(), buffer.Rest(), next)
      ensures next == done + if kind == Initial then EncodeVar(|cfg.token|) + cfg.token else []
    {
      hide EncodeVar, Wrote;
      next := done;
      if kind == Initial {
        next := PushVarPart(buffer, |cfg.token|, d0, r0, next);
        next := PushBytesPart(buffer, cfg.token, d0, r0, next);
      }
    }

    method PushShortHeader(ghost length: nat)
      requires buffer.Valid() && |cfg.token| <= UINT_VAR_MAX && |buffer.Rest()| >= HeaderSize(cfg, OneRtt)
      modifies buffer`pos, buffer.base
      ensures buffer.Valid()
      ensures Wrote(old(buffer.Data()), old(buffer.Rest()), buffer.Data(), buffer.Rest(),
                    HeaderBytes(cfg, OneRtt, packetCrypto, length, packetNumber))
    {
      ghost var d0, r0 := buffer.Data(), buffer.Rest();
      WroteNothing(d0, r0);
      hide BigEndian, Wrote;
      var first := 0x40 + (if cfg.spinBit then 0x20 else 0) + 4 * (packetCrypto.keyPhase % 2) + PACKET_NUMBER_SEND_SIZE - 1;
      ghost var done := PushUintPart(buffer, first, 1, d0, r0, []);
      done := PushBytesPart(buffer, cfg.peerCid, d0, r0, done);
      done := PushUintPart(buffer, packetNumber, 2, d0, r0, done);
      assert [] + BigEndian(first, 1) == BigEndian(first, 1);
    }

    /** How much padding the packet needs; also settles whether its datagram still needs any. */
    method SettlePadding() returns (n: int)
      requires Valid() && packet.Some?
      modifies this`datagramNeedsPadding
      ensures Valid() && n == InnerPadding(cfg, old(State()))
      ensures State() == old(State()).(needsPadding := Padded(cfg, old(State())) && packet.value.kind != OneRtt)
    {
      hide HeaderSize;
      var kind := packet.value.kind;
      ghost var was := State();
      n := PACKET_NUMBER_MAX_SIZE - PACKET_NUMBER_SEND_SIZE + headerSize - (buffer.pos - packetStart);
      if (cfg.isClient || packet.value.ackEliciting) && kind == Initial {
        datagramNeedsPadding := true;
      }
      assert State() == was.(needsPadding := Padded(cfg, was));
      if datagramNeedsPadding && kind == OneRtt {
        var remaining := RemainingFlightSpace();
        if remaining > n {
          n := remaining;
        }
        datagramNeedsPadding := false;
      }
    }

    method PushPadding(n: nat) returns (ok: bool)
      requires Valid() && packet.Some? && n > 0
      modifies this`packet, buffer`pos, buffer.base
      ensures ok <==> old(buffer.pos) + n <= cfg.maxDatagram
      ensures ok ==> Valid() && packet.Some?
      ensures ok ==>
                var was := old(State());
                var o := was.open.value;
                State() == was.(open := Some(o.(payload := o.payload + Zeros(n), inFlight := true)))
    {
      ghost var was, start := buffer.Data(), packetStart + headerSize;
      ok := buffer.PushBytes(Zeros(n));
      if !ok { return; }
      Slices(was, Zeros(n), buffer.Data(), packetStart, start);
      DataSlices(buffer, packetStart, start);
      packet := Some(packet.value.(inFlight := true));
    }

    /** Adds the padding a packet needs. */
    method PadPacket() returns (ok: bool)
      requires Valid() && packet.Some?
      modifies this`packet, this`datagramNeedsPadding, buffer`pos, buffer.base
      ensures var was := old(State());
              var o := was.open.value;
              var pad := InnerPadding(cfg, was);
              && (ok <==> |was.front| + HeaderSize(cfg, o.kind) + |o.payload| + Max(0, pad) <= cfg.maxDatagram)
              && (ok ==> Valid() && packet.Some?
                         && State() == was.(needsPadding := Padded(cfg, was) && o.kind != OneRtt,
                                            open := Some(o.(payload := o.payload + Zeros(pad), inFlight := o.inFlight || pad > 0))))
    {
      hide InnerPadding, Padded;
      ghost var was := State();
      var n := SettlePadding();
      ok := true;
      if n > 0 {
        ok := PushPadding(n);
      } else {
        assert was.open.value.payload + [] == was.open.value.payload;
      }
    }

    /** Writes the header of the packet into the room kept for it. */
    method WriteHeader(length: nat)
      requires Valid() && packet.Some?
      modifies buffer`pos, buffer.base
      ensures buffer.Valid()
      ensures buffer.Data() == old(buffer.base[..packetStart])
                               + HeaderBytes(cfg, packet.value.kind, packetCrypto, length, packetNumber)
      ensures buffer.Rest() == old(buffer.base[..])[packetStart + headerSize..]
      ensures |HeaderBytes(cfg, packet.value.kind, packetCrypto, length, packetNumber)| == headerSize
    {
      ghost var all := buffer.base[..];
      HeaderFills(cfg, packet.value.kind, packetCrypto, length, packetNumber);
      var sought := buffer.Seek(packetStart);
      assert buffer.Rest() == all[packetStart..] && all[packetStart..][headerSize..] == all[packetStart + headerSize..];
      if packet.value.kind != OneRtt {
        PushLongHeader(packet.value.kind, length);
      } else {
        PushShortHeader(length);
      }
    }

    /** Writes the header and protects the packet where it stands in the buffer. */
    method SealInPlace(ghost front: seq<byte>, ghost payload: seq<byte>) returns (ok: bool, size: nat)
      requires Valid() && packet.Some?
      requires front == buffer.base[..packetStart] && payload == buffer.base[packetStart + headerSize..buffer.pos]
      modifies buffer`pos, buffer.base
      ensures var header := HeaderBytes(cfg, packet.value.kind, packetCrypto, |payload| + 2 + AEAD_TAG_SIZE, packetNumber);
              var bytes := packetCrypto.protect(header, payload, packetNumber);
              && (ok <==> |front| + |bytes| <= cfg.maxDatagram)
              && (ok ==> buffer.Valid() && buffer.Data() == front + bytes && size == |bytes|)
    {
      hide HeaderBytes, HeaderSize;
      ghost var all := buffer.base[..];
      var end := buffer.pos;
      assert all[packetStart + headerSize..end] == payload;
      var length := end - packetStart - headerSize + PACKET_NUMBER_SEND_SIZE + AEAD_TAG_SIZE;
      ghost var header := HeaderBytes(cfg, packet.value.kind, packetCrypto, length, packetNumber);
      WriteHeader(length);
      var plainHeader, plainPayload := ReadPlain(end, front, header, all);
      var bytes := packetCrypto.protect(plainHeader, plainPayload, packetNumber);
      var sought := buffer.Seek(packetStart);
      ok := buffer.PushBytes(bytes);
      size := |bytes|;
    }

    /** The header just written and the frames after it. */
    method ReadPlain(end: nat, ghost front: seq<byte>, ghost header: seq<byte>, ghost all: seq<byte>)
      returns (plainHeader: seq<byte>, plainPayload: seq<byte>)
      requires buffer.Valid() && buffer.Data() == front + header && |front| == packetStart && |header| == headerSize
      requires packetStart + headerSize <= end <= |all| == buffer.base.Length && buffer.Rest() == all[packetStart + headerSize..]
      ensures plainHeader == header && plainPayload == all[packetStart + headerSize..end]
      ensures buffer.base[..packetStart] == front
    {
      Plain(buffer, front, header, all, end);
      plainHeader := buffer.base[packetStart..packetStart + headerSize];
      plainPayload := buffer.base[packetStart + headerSize..end];
    }

    /** Everything but the place where the packet being written ends. */
    ghost predicate Sound()
      reads this, buffer
    {
      && buffer.Valid() && buffer.base.Length == cfg.maxDatagram && |cfg.token| <= UINT_VAR_MAX
      && flightCapacity <= cfg.maxDatagram && bufferCapacity <= cfg.maxDatagram
    }

    /** Records the packet that now takes up the last size bytes of the buffer. */
    method Record(size: nat, ghost bytes: seq<byte>)
      requires Sound() && packet.Some? && size == |bytes|
      modifies this`packet, this`packets, this`pieces, this`datagramFlightBytes, this`packetNumber
      ensures Valid() && packet.None?
      ensures var sent := old(packet).value.(sentBytes := size);
              State() == Builder(datagrams, old(packets) + [sent], buffer.Data(), old(pieces) + [Piece(sent, bytes)], shipped,
                                 None, datagramInit, datagramNeedsPadding,
                                 old(datagramFlightBytes) + (if sent.inFlight then size else 0), flightBytes, totalBytes,
                                 bufferCapacity, flightCapacity, old(packetNumber) + 1)
    {
      var sent := packet.value.(sentBytes := size);
      packets := packets + [sent];
      pieces := pieces + [Piece(sent, bytes)];
      if sent.inFlight {
        datagramFlightBytes := datagramFlightBytes + size;
      }
      packetNumber := packetNumber + 1;
      packet := None;
    }

    /** Takes back the room of a packet without frames. */
    method Cancel()
      requires Valid() && packet.Some? && buffer.pos == packetStart + headerSize
      modifies this`packet, buffer`pos
      ensures Valid() && packet.None? && State() == old(State()).(open := None)
    {
      var sought := buffer.Seek(packetStart);
      packet := None;
    }

    /** Seals the padded packet and records it. */
    method SealAndRecord() returns (ok: bool)
      requires Valid() && packet.Some?
      modifies this, buffer`pos, buffer.base
      ensures var was := old(State());
              var bytes := Protected(cfg, was.open.value, was.open.value.payload, was.number);
              && (ok <==> |was.front| + |bytes| <= cfg.maxDatagram)
              && (ok ==> Valid() && packet.None? && State() == Recorded(was, bytes))
    {
      ghost var was := State();
      ghost var bytes := Protected(cfg, was.open.value, was.open.value.payload, packetNumber);
      hide HeaderBytes, HeaderSize;
      var size;
      ok, size := SealInPlace(was.front, was.open.value.payload);
      if !ok { return; }
      Record(size, bytes);
    }

    method EndPacket() returns (ok: bool)
      requires Valid() && packet.Some?
      modifies this, buffer`pos, buffer.base
      ensures ok <==> BuilderSpec.EndPacket(cfg, old(State())).Ok?
      ensures ok ==> Valid() && packet.None? && Ok(State()) == BuilderSpec.EndPacket(cfg, old(State()))
    {
      hide HeaderSize, InnerPadding, Padded, Protected, Recorded, Flush, Append, Seal;
      ghost var was := State();
      assert |was.open.value.payload| == buffer.pos - packetStart - headerSize;
      if buffer.pos - packetStart > headerSize {
        var kind := packet.value.kind;
        ok := PadPacket();
        if !ok { return; }
        SealedBytes(cfg, was, State());
        ok := SealAndRecord();
        if ok && kind == OneRtt {
          FlushCurrentDatagram();
        }
      } else {
        Cancel();
        ok := true;
      }
    }

    // ---- Starting packets and frames ----

    /** Sets the capacities of a new datagram from what is left of the budgets. */
    method InitializeDatagram()
      requires Valid() && packet.None?
      modifies this`bufferCapacity, this`flightCapacity, this`datagramFlightBytes, this`datagramInit, this`datagramNeedsPadding
      ensures Valid() && State() == BeginDatagram(cfg, old(State()))
    {
      if datagramInit {
        if cfg.maxTotal.Some? {
          var remaining := cfg.maxTotal.value - totalBytes;
          if remaining < bufferCapacity {
            bufferCapacity := remaining;
          }
        }
        flightCapacity := bufferCapacity;
        if cfg.maxFlight.Some? {
          var remaining := cfg.maxFlight.value - flightBytes;
          if remaining < flightCapacity {
            flightCapacity := remaining;
          }
        }
        datagramFlightBytes := 0;
        datagramInit := false;
        datagramNeedsPadding := false;
      }
    }

    /** Makes room for the header of a new packet. */
    method OpenPacket(kind: PacketType, crypto: Crypto)
      requires Valid() && packet.None? && Sendable(kind) && buffer.pos + HeaderSize(cfg, kind) <= cfg.maxDatagram
      modifies this`headerSize, this`packet, this`packetCrypto, this`packetStart, buffer`pos
      ensures Valid() && packet.Some?
      ensures State() == old(State()).(open := Some(Open(kind, crypto, false, false, false, [])))
    {
      packetStart := buffer.pos;
      headerSize := HeaderSize(cfg, kind);
      packet := Some(Sent(kind, packetNumber, false, false, false, 0));
      packetCrypto := crypto;
      var sought := buffer.Seek(packetStart + headerSize);
      assert buffer.base[packetStart + headerSize..buffer.pos] == [];
    }

    method StartPacket(kind: PacketType, crypto: Crypto) returns (status: Status)
      requires Valid() && Sendable(kind)
      modifies this, buffer`pos, buffer.base
      ensures status.WriteError? <==> BuilderSpec.StartPacket(cfg, old(State()), kind, crypto).Broken?
      ensures status.Fine? ==> Valid() && packet.Some? && Ok(State()) == BuilderSpec.StartPacket(cfg, old(State()), kind, crypto)
      ensures status.Stopped? ==> Valid() && Stop(State()) == BuilderSpec.StartPacket(cfg, old(State()), kind, crypto)
    {
      hide Ended, FlushIfFull, BeginDatagram, HeaderSize;
      var ok := EndIfOpen();
      if !ok { return WriteError; }
      FlushWhenFull();
      InitializeDatagram();
      if buffer.pos + HeaderSize(cfg, kind) >= bufferCapacity { return Stopped; }
      OpenPacket(kind, crypto);
      status := Fine;
    }

    method EndIfOpen() returns (ok: bool)
      requires Valid()
      modifies this, buffer`pos, buffer.base
      ensures ok <==> Ended(cfg, old(State())).Ok?
      ensures ok ==> Valid() && packet.None? && Ok(State()) == Ended(cfg, old(State()))
    {
      hide BuilderSpec.EndPacket;
      ok := true;
      if packet.Some? {
        ok := EndPacket();
      }
    }

    method FlushWhenFull()
      requires Valid() && packet.None?
      modifies this, buffer`pos, buffer.base
      ensures Valid() && packet.None? && State() == FlushIfFull(old(State()))
    {
      hide Flush;
      if bufferCapacity - buffer.pos < 128 {
        FlushCurrentDatagram();
      }
    }

    /** Bytes pushed into the buffer by the writer of a frame. */
    method PushFrameBytes(bytes: seq<byte>) returns (ok: bool)
      requires Valid() && packet.Some?
      modifies buffer`pos, buffer.base
      ensures ok <==> Write(cfg, old(State()), bytes).Ok?
      ensures ok ==> Valid() && Ok(State()) == Write(cfg, old(State()), bytes)
    {
      ghost var was, start := buffer.Data(), packetStart + headerSize;
      ok := buffer.PushBytes(bytes);
      if !ok { return; }
      Slices(was, bytes, buffer.Data(), packetStart, start);
      DataSlices(buffer, packetStart, start);
    }

    method StartFrame(frameType: nat, capacity: int) returns (status: Status)
      requires Valid() && packet.Some? && frameType <= UINT_VAR_MAX
      modifies this`packet, buffer`pos, buffer.base
      ensures status.WriteError? <==> BuilderSpec.StartFrame(cfg, old(State()), frameType, capacity).Broken?
      ensures status.Fine? ==>
                Valid() && packet.Some? && Ok(State()) == BuilderSpec.StartFrame(cfg, old(State()), frameType, capacity)
      ensures status.Stopped? ==> Valid() && Stop(State()) == BuilderSpec.StartFrame(cfg, old(State()), frameType, capacity)
    {
      hide HeaderSize, EncodeVar;
      var remaining := RemainingBufferSpace();
      if remaining < capacity { return Stopped; }
      if frameType !in NON_IN_FLIGHT {
        var flight := RemainingFlightSpace();
        if flight < capacity { return Stopped; }
      }
      var ok := PushFrameBytes(EncodeVar(frameType));
      if !ok { return WriteError; }
      MarkFrame(frameType);
      status := Fine;
    }

    /** What a frame of some type makes of its packet. */
    method MarkFrame(frameType: nat)
      requires Valid() && packet.Some?
      modifies this`packet
      ensures Valid() && packet.Some?
      ensures var was := old(State());
              var o := was.open.value;
              State() == was.(open := Some(o.(ackEliciting := o.ackEliciting || frameType !in NON_ACK_ELICITING,
                                              inFlight := o.inFlight || frameType !in NON_IN_FLIGHT,
                                              isCrypto := o.isCrypto || frameType == CRYPTO_FRAME)))
    {
      if frameType !in NON_ACK_ELICITING {
        packet := Some(packet.value.(ackEliciting := true));
      }
      if frameType !in NON_IN_FLIGHT {
        packet := Some(packet.value.(inFlight := true));
      }
      if frameType == CRYPTO_FRAME {
        packet := Some(packet.value.(isCrypto := true));
      }
    }

    /** Hands over the datagrams and packets assembled so far. */
    method FlushAll() returns (ok: bool, assembled: seq<seq<byte>>, sent: seq<Sent>)
      requires Valid()
      modifies this, buffer`pos, buffer.base
      ensures ok <==> Finish(cfg, old(State())).Ok?
      ensures ok ==> var b := Finish(cfg, old(State())).b;
                     Valid() && assembled == b.datagrams && sent == b.packets
                     && State() == b.(datagrams := [], packets := [], shipped := [])
    {
      hide Ended, Flush;
      ok := EndIfOpen();
      if !ok { return ok, [], []; }
      FlushCurrentDatagram();
      assembled, sent := datagrams, packets;
      datagrams, packets, shipped := [], [], [];
    }
  }

  /** The builder once the packet being written has been sealed to these bytes. */
  ghost function Recorded(b: Builder, bytes: seq<byte>): Builder
    requires b.open.Some?
  {
    var o := b.open.value;
    var sent := Sent(o.kind, b.number, o.inFlight, o.ackEliciting, o.isCrypto, |bytes|);
    b.(open := None, front := b.front + bytes, pieces := b.pieces + [Piece(sent, bytes)], packets := b.packets + [sent],
       datagramFlight := b.datagramFlight + (if sent.inFlight then |bytes| else 0), number := b.number + 1)
  }

  /** Padding, sealing and recording a packet is appending the sealed packet. */
  lemma SealedBytes(cfg: Config, was: Builder, padded: Builder)
    requires WellFormed(cfg, was) && was.open.Some?
    requires var o, pad := was.open.value, InnerPadding(cfg, was);
             padded == was.(needsPadding := Padded(cfg, was) && o.kind != OneRtt,
                            open := Some(o.(payload := o.payload + Zeros(pad), inFlight := o.inFlight || pad > 0)))
    ensures var bytes := Protected(cfg, padded.open.value, padded.open.value.payload, padded.number);
            Seal(cfg, was).bytes == bytes && Recorded(padded, bytes) == Append(cfg, was, Seal(cfg, was))
            && Seal(cfg, was).sent.kind == was.open.value.kind
  {
    hide HeaderBytes, InnerPadding, Padded;
  }

  /** The plain packet as it stands in the buffer once its header has been written. */
  lemma Plain(buffer: Buffer, front: seq<byte>, header: seq<byte>, all: seq<byte>, end: nat)
    requires buffer.Valid() && buffer.Data() == front + header && |front| + |header| <= end <= |all| == buffer.base.Length
    requires buffer.Rest() == all[|front| + |header|..]
    ensures buffer.base[..|front|] == front && buffer.base[|front|..|front| + |header|] == header
    ensures buffer.base[|front| + |header|..end] == all[|front| + |header|..end]
  {
    var n := |front| + |header|;
    assert buffer.base[..n][..|front|] == buffer.base[..|front|];
    assert buffer.base[..n][|front|..] == buffer.base[|front|..n];
    assert buffer.base[n..][..end - n] == buffer.base[n..end] && all[n..][..end - n] == all[n..end];
  }

  lemma Slices(before: seq<byte>, more: seq<byte>, after: seq<byte>, a: nat, b: nat)
    requires after == before + more && a <= b <= |before|
    ensures after[..a] == before[..a] && after[b..] == before[b..] + more
  {
  }

  lemma DataSlices(buffer: Buffer, a: nat, b: nat)
    requires buffer.Valid() && a <= b <= buffer.pos
    ensures buffer.Data()[..a] == buffer.base[..a] && buffer.Data()[b..] == buffer.base[b..buffer.pos]
  {
  }

  /** One field of a header, for which there is room; next is everything written so far. */
  method PushBytesPart(buffer: Buffer, bytes: seq<byte>, ghost d0: seq<byte>, ghost r0: seq<byte>, ghost done: seq<byte>)
    returns (ghost next: seq<byte>)
    requires buffer.Valid() && Wrote(d0, r0, buffer.Data(), buffer.Rest(), done) && |done| + |bytes| <= |r0|
    modifies buffer`pos, buffer.base
    ensures buffer.Valid() && next == done + bytes && Wrote(d0, r0, buffer.Data(), buffer.Rest(), next)
  {
    ghost var d1, r1 := buffer.Data(), buffer.Rest();
    var ok := buffer.PushBytes(bytes);
    WroteTwice(d0, r0, d1, r1, buffer.Data(), buffer.Rest(), done, bytes);
    next := done + bytes;
  }

  method PushUintPart(buffer: Buffer, v: nat, n: nat, ghost d0: seq<byte>, ghost r0: seq<byte>, ghost done: seq<byte>)
    returns (ghost next: seq<byte>)
    requires n in {1, 2, 4, 8}
    requires buffer.Valid() && Wrote(d0, r0, buffer.Data(), buffer.Rest(), done) && |done| + n <= |r0|
    modifies buffer`pos, buffer.base
    ensures buffer.Valid() && next == done + BigEndian(v, n) && Wrote(d0, r0, buffer.Data(), buffer.Rest(), next)
  {
    hide BigEndian;
    ghost var d1, r1 := buffer.Data(), buffer.Rest();
    var ok := buffer.PushUint(v, n);
    WroteTwice(d0, r0, d1, r1, buffer.Data(), buffer.Rest(), done, BigEndian(v, n));
    next := done + BigEndian(v, n);
  }

  method PushVarPart(buffer: Buffer, v: nat, ghost d0: seq<byte>, ghost r0: seq<byte>, ghost done: seq<byte>)
    returns (ghost next: seq<byte>)
    requires v <= UINT_VAR_MAX
    requires buffer.Valid() && Wrote(d0, r0, buffer.Data(), buffer.Rest(), done) && |done| + |EncodeVar(v)| <= |r0|
    modifies buffer`pos, buffer.base
    ensures buffer.Valid() && next == done + EncodeVar(v) && Wrote(d0, r0, buffer.Data(), buffer.Rest(), next)
  {
    VarRoundTrip(v, []);
    assert v % TWO_TO_64 == v;
    hide EncodeVar, DecodeVar, SizeVar;
    ghost var d1, r1 := buffer.Data(), buffer.Rest();
    var ok := buffer.PushUintVar(v);
    WroteTwice(d0, r0, d1, r1, buffer.Data(), buffer.Rest(), done, EncodeVar(v));
    next := done + EncodeVar(v);
  }
}
