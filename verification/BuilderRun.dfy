/** Every datagram a builder makes, over all sequences of packets and frames. */
module BuilderRuns {
  import opened Common
  import opened Buffers
  import opened Headers
  import opened BuilderSpec
  import opened Coalescing

  function SentOf(pieces: seq<Piece>): seq<Sent> {
    if pieces == [] then [] else SentOf(pieces[..|pieces| - 1]) + [pieces[|pieces| - 1].sent]
  }

  function AllSent(shipped: seq<Shipped>): seq<Sent> {
    if shipped == [] then [] else AllSent(shipped[..|shipped| - 1]) + SentOf(shipped[|shipped| - 1].pieces)
  }

  function TotalLength(datagrams: seq<seq<byte>>): nat {
    if datagrams == [] then 0 else TotalLength(datagrams[..|datagrams| - 1]) + |datagrams[|datagrams| - 1]|
  }

  /** The bytes of the packets in flight. */
  function FlightOf(pieces: seq<Piece>): nat {
    if pieces == [] then 0
    else
      var p := pieces[|pieces| - 1];
      FlightOf(pieces[..|pieces| - 1]) + if p.sent.inFlight then |p.bytes| else 0
  }

  /** Packets in flight and the padding after them. */
  function TotalFlight(shipped: seq<Shipped>): nat {
    if shipped == [] then 0
    else
      var x := shipped[|shipped| - 1];
      TotalFlight(shipped[..|shipped| - 1]) + FlightOf(x.pieces) + x.padding
  }

  /** A datagram that has to be padded (section 14.1 of RFC 9000). */
  predicate HasInitial(cfg: Config, pieces: seq<Piece>) {
    exists p | p in pieces :: p.sent.kind == Initial && (cfg.isClient || p.sent.ackEliciting)
  }

  /** What a shipped datagram is made of, and that it is as long as it has to be. */
  ghost predicate WellShipped(cfg: Config, datagram: seq<byte>, x: Shipped) {
    && datagram == Join(x.pieces) + Zeros(x.padding)
    && AllMade(cfg, x.pieces) && ShortLast(x.pieces, x.padding)
    && (HasInitial(cfg, x.pieces) ==> |datagram| >= x.capacity)
  }

  ghost predicate ShippedWell(cfg: Config, b: Builder) {
    |b.shipped| == |b.datagrams| && forall i :: 0 <= i < |b.datagrams| ==> WellShipped(cfg, b.datagrams[i], b.shipped[i])
  }

  /** The finished packets at the front of the buffer. */
  ghost predicate GoodFront(cfg: Config, b: Builder) {
    && b.front == Join(b.pieces) && AllMade(cfg, b.pieces) && ShortLast(b.pieces, if b.needsPadding then 1 else 0)
    && (HasInitial(cfg, b.pieces) ==> b.needsPadding || |b.front| >= b.flightCapacity)
    && (b.pieces != [] ==> !b.init)
  }

  /** Packets are numbered one after the other and accounted for, and so are the bytes shipped. */
  predicate Accounted(first: nat, b: Builder) {
    && b.packets == AllSent(b.shipped) + SentOf(b.pieces)
    && (forall i :: 0 <= i < |b.packets| ==> b.packets[i].number == first + i)
    && b.number == first + |b.packets|
    && b.total == TotalLength(b.datagrams)
  }

  /** The bytes in flight, shipped and not yet shipped. */
  predicate FlightCounted(b: Builder) {
    b.flight == TotalFlight(b.shipped) && (!b.init ==> b.datagramFlight == FlightOf(b.pieces))
  }

  ghost predicate Inv(cfg: Config, first: nat, b: Builder) {
    && WellFormed(cfg, b) && ShippedWell(cfg, b) && GoodFront(cfg, b) && Accounted(first, b) && FlightCounted(b)
    && (b.open.Some? ==> Protects(b.open.value.crypto) && !b.init)
    && (b.open.Some? ==> NoShort(b))
  }

  /** Short-header packets are shipped as soon as they are finished. */
  predicate NoShort(b: Builder) { forall p | p in b.pieces :: p.sent.kind != OneRtt }

  lemma {:induction false} JoinAppend(pieces: seq<Piece>, p: Piece)
    ensures Join(pieces + [p]) == Join(pieces) + p.bytes
  {
    if pieces == [] {
      assert [] + [p] == [p] && [p][1..] == [];
      assert Join([p]) == p.bytes + [] && [] + p.bytes == p.bytes + [];
    } else {
      assert (pieces + [p])[1..] == pieces[1..] + [p];
      JoinAppend(pieces[1..], p);
      assert pieces[0].bytes + (Join(pieces[1..]) + p.bytes) == pieces[0].bytes + Join(pieces[1..]) + p.bytes;
    }
  }

  lemma JoinEmpty(cfg: Config, pieces: seq<Piece>)
    requires AllMade(cfg, pieces)
    ensures Join(pieces) == [] <==> pieces == []
  {
    hide Made;
    if pieces != [] { assert pieces[0] in pieces; }
  }

  lemma FlushShips(cfg: Config, b: Builder)
    requires ShippedWell(cfg, b) && GoodFront(cfg, b) && b.open.None?
    ensures ShippedWell(cfg, Flush(b)) && GoodFront(cfg, Flush(b)) && Flush(b).front == []
  {
    hide Made;
    JoinEmpty(cfg, b.pieces);
    var f := Flush(b);
    if b.front != [] {
      assert f.shipped[..|b.shipped|] == b.shipped && f.datagrams[..|b.datagrams|] == b.datagrams;
      assert WellShipped(cfg, f.datagrams[|b.datagrams|], f.shipped[|b.shipped|]);
    }
  }

  lemma FlushAccounts(first: nat, b: Builder)
    requires Accounted(first, b) && b.open.None?
    ensures Accounted(first, Flush(b))
  {
    var f := Flush(b);
    if b.front != [] {
      assert f.shipped[..|b.shipped|] == b.shipped && f.datagrams[..|b.datagrams|] == b.datagrams;
      assert AllSent(f.shipped) == AllSent(b.shipped) + SentOf(b.pieces);
      assert AllSent(f.shipped) + [] == AllSent(f.shipped);
    }
  }

  lemma FlushCounts(cfg: Config, b: Builder)
    requires GoodFront(cfg, b) && FlightCounted(b) && b.open.None?
    ensures FlightCounted(Flush(b))
  {
    hide Made;
    var f := Flush(b);
    if b.front != [] {
      assert f.shipped[..|b.shipped|] == b.shipped;
    }
  }

  lemma AppendCounts(cfg: Config, b: Builder, p: Piece)
    requires FlightCounted(b) && b.open.Some? && !b.init
    ensures FlightCounted(Append(cfg, b, p))
  {
    var a := Append(cfg, b, p);
    assert a.pieces[..|b.pieces|] == b.pieces;
  }

  lemma FlushKeeps(cfg: Config, first: nat, b: Builder)
    requires Inv(cfg, first, b) && b.open.None?
    ensures Inv(cfg, first, Flush(b)) && NoShort(Flush(b)) && Flush(b).front == [] && Flush(b).open.None?
  {
    FlushShips(cfg, b);
    FlushAccounts(first, b);
    FlushCounts(cfg, b);
    FlushEmpties(cfg, b);
    hide ShippedWell, GoodFront, Accounted, FlightCounted;
  }

  lemma FlushEmpties(cfg: Config, b: Builder)
    requires GoodFront(cfg, b) && b.open.None?
    ensures NoShort(Flush(b))
  {
    hide Made;
    JoinEmpty(cfg, b.pieces);
  }

  /** The packet being written will be one that reads back: one whose length fits the two-byte field, or a short one. */
  predicate LengthFits(cfg: Config, b: Builder)
    requires WellFormed(cfg, b) && b.open.Some?
  {
    b.open.value.kind == OneRtt
    || |b.open.value.payload| + Max(0, InnerPadding(cfg, b)) + PACKET_NUMBER_SEND_SIZE + AEAD_TAG_SIZE < 0x4000
  }

  /** The sealed packet has its exact size and reads back exactly when its length fits. */
  lemma SealReads(cfg: Config, b: Builder)
    requires Proper(cfg) && WellFormed(cfg, b) && b.open.Some? && Protects(b.open.value.crypto)
    ensures var p, o := Seal(cfg, b), b.open.value;
            && |p.bytes| == HeaderSize(cfg, o.kind) + |o.payload| + Max(0, InnerPadding(cfg, b)) + AEAD_TAG_SIZE
            && p.sent.sentBytes == |p.bytes| && p.sent.kind == o.kind && p.sent.number == b.number
            && Made(cfg, o.kind, p.bytes)
            && (ShortEnough(cfg, o.kind, p.sent.sentBytes) <==> LengthFits(cfg, b))
  {
    var o := b.open.value;
    var payload := o.payload + Zeros(InnerPadding(cfg, b));
    var length := |payload| + PACKET_NUMBER_SEND_SIZE + AEAD_TAG_SIZE;
    HeaderFills(cfg, o.kind, o.crypto, length, b.number);
    hide Made, HeaderBytes, InnerPadding;
    assert |o.crypto.protect(HeaderBytes(cfg, o.kind, o.crypto, length, b.number), payload, b.number)|
           == HeaderSize(cfg, o.kind) + |payload| + AEAD_TAG_SIZE;
    assert o.kind != OneRtt ==> HeaderSize(cfg, o.kind) >= 11;
    PacketReads(cfg, o, payload, b.number);
  }

  /** In datagrams of at most 0x4000 bytes every length fits. */
  lemma SmallDatagramsFit(cfg: Config, b: Builder)
    requires Proper(cfg) && WellFormed(cfg, b) && b.open.Some? && Protects(b.open.value.crypto)
    requires b.open.value.payload != [] && EndPacket(cfg, b).Ok? && cfg.maxDatagram <= 0x4000
    ensures LengthFits(cfg, b)
  {
    SealReads(cfg, b);
    HeaderFills(cfg, b.open.value.kind, b.open.value.crypto, 0, 0);
    hide Made, Seal, InnerPadding, HeaderBytes, HeaderSize, Flush;
  }

  lemma AppendKeepsFront(cfg: Config, b: Builder, p: Piece)
    requires GoodFront(cfg, b) && NoShort(b) && b.open.Some? && !b.init && p.sent.kind == b.open.value.kind
    requires p.sent.ackEliciting == b.open.value.ackEliciting
    requires Sendable(p.sent.kind) && p.bytes != [] && p.sent.sentBytes == |p.bytes| && Made(cfg, p.sent.kind, p.bytes)
    requires p.sent.kind == OneRtt && Padded(cfg, b) ==> |b.front| + |p.bytes| >= b.flightCapacity
    ensures GoodFront(cfg, Append(cfg, b, p)) && (p.sent.kind != OneRtt ==> NoShort(Append(cfg, b, p)))
  {
    hide Made;
    JoinAppend(b.pieces, p);
    var a := Append(cfg, b, p);
    forall q | q in a.pieces
      ensures q in b.pieces || q == p
    {
    }
    assert HasInitial(cfg, a.pieces) ==> HasInitial(cfg, b.pieces) || (p.sent.kind == Initial && (cfg.isClient || p.sent.ackEliciting));
    if HasInitial(cfg, b.pieces) && !b.needsPadding { assert |a.front| >= a.flightCapacity; }
  }

  lemma AppendKeepsAccount(cfg: Config, first: nat, b: Builder, p: Piece)
    requires Accounted(first, b) && b.open.Some? && p.sent.number == b.number
    ensures Accounted(first, Append(cfg, b, p))
  {
    var a := Append(cfg, b, p);
    assert a.pieces[..|b.pieces|] == b.pieces;
    assert SentOf(a.pieces) == SentOf(b.pieces) + [p.sent];
    assert AllSent(b.shipped) + (SentOf(b.pieces) + [p.sent]) == AllSent(b.shipped) + SentOf(b.pieces) + [p.sent];
  }

  /** Padding inside a short-header packet brings the datagram to its flight capacity. */
  lemma ShortPacketFills(cfg: Config, b: Builder, size: nat)
    requires WellFormed(cfg, b) && b.open.Some? && b.open.value.kind == OneRtt && Padded(cfg, b)
    requires size == HeaderSize(cfg, OneRtt) + |b.open.value.payload| + Max(0, InnerPadding(cfg, b)) + AEAD_TAG_SIZE
    ensures |b.front| + size >= b.flightCapacity
  {
  }

  lemma EndKeeps(cfg: Config, first: nat, b: Builder)
    requires Proper(cfg)
    requires Inv(cfg, first, b) && b.open.Some? && EndPacket(cfg, b).Ok?
    ensures var e := EndPacket(cfg, b).b; Inv(cfg, first, e) && NoShort(e) && e.open.None?
  {
    hide Made, ShippedWell, GoodFront, Accounted, FlightCounted, Protects, HeaderSize, InnerPadding, Protected;
    if b.open.value.payload == [] {
      SameFront(cfg, first, b, b.(open := None));
    } else {
      var p := Seal(cfg, b);
      SealReads(cfg, b);
      if p.sent.kind == OneRtt && Padded(cfg, b) { ShortPacketFills(cfg, b, |p.bytes|); }
      AppendKeepsFront(cfg, b, p);
      AppendKeepsAccount(cfg, first, b, p);
      AppendCounts(cfg, b, p);
      var a := Append(cfg, b, p);
      assert ShippedWell(cfg, a) by { SameShipped(cfg, b, a); }
      if p.sent.kind == OneRtt {
        FlushKeeps(cfg, first, a);
      }
    }
  }

  lemma SameShipped(cfg: Config, b: Builder, a: Builder)
    requires ShippedWell(cfg, b) && a.shipped == b.shipped && a.datagrams == b.datagrams
    ensures ShippedWell(cfg, a)
  {
  }

  /** The invariants of finished packets do not depend on the packet being written. */
  lemma SameFront(cfg: Config, first: nat, b: Builder, a: Builder)
    requires ShippedWell(cfg, b) && GoodFront(cfg, b) && Accounted(first, b) && FlightCounted(b) && a == b.(open := a.open)
    ensures ShippedWell(cfg, a) && GoodFront(cfg, a) && Accounted(first, a) && FlightCounted(a)
    ensures NoShort(b) ==> NoShort(a)
  {
  }

  lemma BeginKeeps(cfg: Config, first: nat, b: Builder)
    requires Inv(cfg, first, b) && b.open.None? && NoShort(b)
    ensures Inv(cfg, first, BeginDatagram(cfg, b)) && NoShort(BeginDatagram(cfg, b)) && !BeginDatagram(cfg, b).init
    ensures BeginDatagram(cfg, b).open.None?
  {
    hide Made, ShippedWell, Accounted;
    assert ShippedWell(cfg, BeginDatagram(cfg, b)) && Accounted(first, BeginDatagram(cfg, b)) by { BeginSame(cfg, first, b); }
  }

  lemma BeginSame(cfg: Config, first: nat, b: Builder)
    requires ShippedWell(cfg, b) && Accounted(first, b)
    ensures ShippedWell(cfg, BeginDatagram(cfg, b)) && Accounted(first, BeginDatagram(cfg, b))
  {
  }

  /** The builder as an exception or a result leaves it. */
  function After(r: Result): Builder
    requires !r.Broken?
  {
    r.b
  }

  lemma StartKeeps(cfg: Config, first: nat, b: Builder, kind: PacketType, crypto: Crypto)
    requires Proper(cfg) && Sendable(kind) && Protects(crypto)
    requires Inv(cfg, first, b) && NoShort(b) && !StartPacket(cfg, b, kind, crypto).Broken?
    ensures Inv(cfg, first, After(StartPacket(cfg, b, kind, crypto))) && NoShort(After(StartPacket(cfg, b, kind, crypto)))
  {
    hide EndPacket, Flush, BeginDatagram, ShippedWell, GoodFront, Accounted, FlightCounted, Protects, HeaderSize;
    if b.open.Some? { EndKeeps(cfg, first, b); }
    var e := if b.open.Some? then EndPacket(cfg, b).b else b;
    FlushKeeps(cfg, first, e);
    var f := if e.bufferCapacity - |e.front| < 128 then Flush(e) else e;
    BeginKeeps(cfg, first, f);
    var g := BeginDatagram(cfg, f);
    SameFront(cfg, first, g, g.(open := Some(Open(kind, crypto, false, false, false, []))));
  }

  /** Frames and the bytes of their writers only touch the packet being written. */
  lemma FrameKeeps(cfg: Config, first: nat, b: Builder, a: Builder)
    requires Inv(cfg, first, b) && NoShort(b) && b.open.Some? && a.open.Some? && a == b.(open := a.open)
    requires a.open.value.kind == b.open.value.kind && a.open.value.crypto == b.open.value.crypto
    ensures Inv(cfg, first, a) && NoShort(a)
  {
    hide ShippedWell, GoodFront, Accounted, FlightCounted, Protects;
    SameFront(cfg, first, b, a);
  }

  // ---- Runs ----

  /** Start a packet, or add a frame with the bytes its writer pushes after the type. */
  datatype Action = Begin(kind: PacketType, crypto: Crypto) | Frame(frameType: nat, capacity: int, body: seq<byte>)

  ghost predicate Legal(a: Action) {
    match a
    case Begin(kind, crypto) => Sendable(kind) && Protects(crypto)
    case Frame(frameType, _, _) => frameType <= UINT_VAR_MAX
  }

  /** A frame needs a packet to go in. */
  function Step(cfg: Config, b: Builder, a: Action): (r: Result)
    requires WellFormed(cfg, b)
    ensures !r.Broken? ==> WellFormed(cfg, r.b)
  {
    match a
    case Begin(kind, crypto) => if Sendable(kind) then StartPacket(cfg, b, kind, crypto) else Broken
    case Frame(frameType, capacity, body) =>
      if b.open.None? || frameType > UINT_VAR_MAX then Broken
      else
        match StartFrame(cfg, b, frameType, capacity)
        case Ok(b1) => Write(cfg, b1, body)
        case r => r
  }

  /** A run goes on after QuicPacketBuilderStop, but not after a write past the end of the buffer. */
  function Run(cfg: Config, b: Builder, actions: seq<Action>): (r: Result)
    requires WellFormed(cfg, b)
    ensures !r.Broken? ==> WellFormed(cfg, r.b)
    decreases |actions|
  {
    if actions == [] then Ok(b)
    else
      var r := Step(cfg, b, actions[0]);
      if r.Broken? then Broken else Run(cfg, After(r), actions[1..])
  }

  lemma StepKeeps(cfg: Config, first: nat, b: Builder, a: Action)
    requires Proper(cfg) && Legal(a)
    requires Inv(cfg, first, b) && NoShort(b) && !Step(cfg, b, a).Broken?
    ensures Inv(cfg, first, After(Step(cfg, b, a))) && NoShort(After(Step(cfg, b, a)))
  {
    hide StartPacket, Inv, NoShort, Protects;
    match a
    case Begin(kind, crypto) => StartKeeps(cfg, first, b, kind, crypto);
    case Frame(frameType, capacity, body) =>
      if StartFrame(cfg, b, frameType, capacity).Ok? {
        FrameKeeps(cfg, first, b, Step(cfg, b, a).b);
      }
  }

  lemma {:induction false} RunKeeps(cfg: Config, first: nat, b: Builder, actions: seq<Action>)
    requires Proper(cfg) && forall a | a in actions :: Legal(a)
    requires WellFormed(cfg, b) && Inv(cfg, first, b) && NoShort(b) && !Run(cfg, b, actions).Broken?
    ensures Inv(cfg, first, After(Run(cfg, b, actions))) && NoShort(After(Run(cfg, b, actions)))
    decreases |actions|
  {
    hide Step, Inv, NoShort, Legal;
    if actions != [] {
      StepKeeps(cfg, first, b, actions[0]);
      RunKeeps(cfg, first, After(Step(cfg, b, actions[0])), actions[1..]);
    }
  }

  lemma FinishKeeps(cfg: Config, first: nat, b: Builder)
    requires Proper(cfg) && Inv(cfg, first, b) && NoShort(b) && Finish(cfg, b).Ok?
    ensures Inv(cfg, first, Finish(cfg, b).b) && Finish(cfg, b).b.pieces == []
  {
    hide EndPacket, ShippedWell, Accounted, Protects, Made;
    if b.open.Some? { EndKeeps(cfg, first, b); }
    var e := if b.open.Some? then EndPacket(cfg, b).b else b;
    FlushKeeps(cfg, first, e);
    JoinEmpty(cfg, Flush(e).pieces);
  }

  lemma NewHolds(cfg: Config, first: nat)
    requires Proper(cfg)
    ensures Inv(cfg, first, NewBuilder(cfg, first)) && NoShort(NewBuilder(cfg, first))
  {
  }

  /**
   Whatever packets and frames are written, for every datagram handed over: a receiver splits it into exactly the
   builder's packets, each with the type, connection IDs, token, length and place of its number, if and only if no
   long-header packet in it is too long for its length field; a short-header packet is the last one and has no
   padding after it; and the datagram is as long as the flight allows if it carries an INITIAL that needs it. The
   packets reported are those in the datagrams, in order and numbered one after the other, the total is the sum of the
   datagrams' lengths, and the flight bytes are those of the packets in flight and the padding.
   */
  lemma EveryDatagram(cfg: Config, first: nat, actions: seq<Action>)
    requires Proper(cfg) && forall a | a in actions :: Legal(a)
    requires !Run(cfg, NewBuilder(cfg, first), actions).Broken?
    requires Finish(cfg, After(Run(cfg, NewBuilder(cfg, first), actions))).Ok?
    ensures var b := Finish(cfg, After(Run(cfg, NewBuilder(cfg, first), actions))).b;
            && |b.datagrams| == |b.shipped|
            && (forall i :: 0 <= i < |b.datagrams| ==>
                  && b.datagrams[i] == Join(b.shipped[i].pieces) + Zeros(b.shipped[i].padding)
                  && (Split(b.datagrams[i], |cfg.peerCid|) == ExpectedPackets(cfg, b.shipped[i].pieces)
                      <==> AllShort(cfg, b.shipped[i].pieces))
                  && ShortLast(b.shipped[i].pieces, b.shipped[i].padding)
                  && (HasInitial(cfg, b.shipped[i].pieces) ==> |b.datagrams[i]| >= b.shipped[i].capacity))
            && b.packets == AllSent(b.shipped)
            && (forall i :: 0 <= i < |b.packets| ==> b.packets[i].number == first + i)
            && b.total == TotalLength(b.datagrams) && b.flight == TotalFlight(b.shipped)
  {
    hide Run, Finish, AllMade, Split, Made, Legal;
    NewHolds(cfg, first);
    RunKeeps(cfg, first, NewBuilder(cfg, first), actions);
    FinishKeeps(cfg, first, After(Run(cfg, NewBuilder(cfg, first), actions)));
    var b := Finish(cfg, After(Run(cfg, NewBuilder(cfg, first), actions))).b;
    assert SentOf(b.pieces) == [] && AllSent(b.shipped) + [] == AllSent(b.shipped);
    forall i | 0 <= i < |b.datagrams|
      ensures WellShipped(cfg, b.datagrams[i], b.shipped[i])
      ensures Split(b.datagrams[i], |cfg.peerCid|) == ExpectedPackets(cfg, b.shipped[i].pieces)
              <==> AllShort(cfg, b.shipped[i].pieces)
    {
      SplitUndoesJoin(cfg, b.shipped[i].pieces, b.shipped[i].padding);
    }
  }
}
