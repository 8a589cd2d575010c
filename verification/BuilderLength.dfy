/** The datagram sizes for which a receiver can always split what the builder makes. */
module BuilderLengths {
  import opened Common
  import opened Buffers
  import opened Headers
  import opened BuilderSpec
  import opened Coalescing
  import opened BuilderRuns

  /** No packet is larger than a datagram. */
  predicate Sized(cfg: Config, b: Builder) { forall q | q in b.packets :: q.sentBytes <= cfg.maxDatagram }

  lemma EndSized(cfg: Config, b: Builder)
    requires WellFormed(cfg, b) && b.open.Some? && Sized(cfg, b) && EndPacket(cfg, b).Ok?
    ensures Sized(cfg, EndPacket(cfg, b).b)
  {
    hide HeaderSize, InnerPadding, Protected;
  }

  lemma StepSized(cfg: Config, b: Builder, a: Action)
    requires WellFormed(cfg, b) && Sized(cfg, b) && !Step(cfg, b, a).Broken?
    ensures Sized(cfg, After(Step(cfg, b, a)))
  {
    hide EndPacket, EncodeVar, HeaderSize;
    if a.Begin? && b.open.Some? { EndSized(cfg, b); }
  }

  lemma {:induction false} RunSized(cfg: Config, b: Builder, actions: seq<Action>)
    requires WellFormed(cfg, b) && Sized(cfg, b) && !Run(cfg, b, actions).Broken?
    ensures Sized(cfg, After(Run(cfg, b, actions)))
    decreases |actions|
  {
    hide Step, Sized;
    if actions != [] {
      StepSized(cfg, b, actions[0]);
      RunSized(cfg, After(Step(cfg, b, actions[0])), actions[1..]);
    }
  }

  lemma FinishSized(cfg: Config, b: Builder)
    requires WellFormed(cfg, b) && Sized(cfg, b) && Finish(cfg, b).Ok?
    ensures Sized(cfg, Finish(cfg, b).b)
  {
    hide EndPacket;
    if b.open.Some? { EndSized(cfg, b); }
  }

  lemma {:induction false} PieceSent(pieces: seq<Piece>, p: Piece)
    requires p in pieces
    ensures p.sent in SentOf(pieces)
  {
    var n := |pieces| - 1;
    if p != pieces[n] { PieceSent(pieces[..n], p); }
  }

  lemma {:induction false} ShippedSent(shipped: seq<Shipped>, i: nat, p: Piece)
    requires i < |shipped| && p in shipped[i].pieces
    ensures p.sent in AllSent(shipped)
  {
    var n := |shipped| - 1;
    if i == n { PieceSent(shipped[n].pieces, p); } else { ShippedSent(shipped[..n], i, p); }
  }

  /** The run ends with everything handed over. */
  ghost predicate Completes(cfg: Config, first: nat, actions: seq<Action>)
    requires |cfg.token| <= UINT_VAR_MAX
  {
    && (forall a | a in actions :: Legal(a))
    && !Run(cfg, NewBuilder(cfg, first), actions).Broken?
    && Finish(cfg, After(Run(cfg, NewBuilder(cfg, first), actions))).Ok?
  }

  ghost function HandedOver(cfg: Config, first: nat, actions: seq<Action>): Builder
    requires |cfg.token| <= UINT_VAR_MAX && Completes(cfg, first, actions)
  {
    Finish(cfg, After(Run(cfg, NewBuilder(cfg, first), actions))).b
  }

  /** A receiver splits every datagram into the packets it was made of. */
  predicate AllSplit(cfg: Config, b: Builder)
    requires |cfg.token| <= UINT_VAR_MAX
  {
    |b.datagrams| == |b.shipped| &&
    forall i :: 0 <= i < |b.datagrams| ==> Split(b.datagrams[i], |cfg.peerCid|) == ExpectedPackets(cfg, b.shipped[i].pieces)
  }

  /** The first datagram size in which a packet of the shortest long header can be too long. */
  function TooLong(cfg: Config): nat
    requires |cfg.token| <= UINT_VAR_MAX
  {
    NumberOffset(cfg, HandshakePacket) + 0x4000
  }

  lemma SmallAlwaysSplit(cfg: Config, first: nat, actions: seq<Action>)
    requires Proper(cfg) && Completes(cfg, first, actions) && cfg.maxDatagram < TooLong(cfg)
    ensures AllSplit(cfg, HandedOver(cfg, first, actions))
  {
    hide Run, Finish, Legal, AllSent, SentOf, Split, ExpectedPackets, SizeVar;
    EveryDatagram(cfg, first, actions);
    RunSized(cfg, NewBuilder(cfg, first), actions);
    FinishSized(cfg, After(Run(cfg, NewBuilder(cfg, first), actions)));
    var b := HandedOver(cfg, first, actions);
    forall i | 0 <= i < |b.datagrams|
      ensures AllShort(cfg, b.shipped[i].pieces)
    {
      forall p | p in b.shipped[i].pieces
        ensures ShortEnough(cfg, p.sent.kind, p.sent.sentBytes)
      {
        ShippedSent(b.shipped, i, p);
      }
    }
  }

  /** One packet whose payload is the shortest that is too long. */
  function LongRun(crypto: Crypto): seq<Action> {
    [Begin(HandshakePacket, crypto), Frame(CRYPTO_FRAME, 1, Zeros(0x4000 - 19))]
  }

  /** The builder after the run. */
  function LongPacket(cfg: Config, first: nat, crypto: Crypto): Builder {
    var payload := [6] + Zeros(0x4000 - 19);
    NewBuilder(cfg, first).(init := false, open := Some(Open(HandshakePacket, crypto, true, true, true, payload)))
  }

  lemma LongRunRuns(cfg: Config, first: nat, crypto: Crypto)
    requires Proper(cfg) && cfg.maxDatagram >= TooLong(cfg) && cfg.maxTotal.None? && cfg.maxFlight.None?
    ensures Run(cfg, NewBuilder(cfg, first), LongRun(crypto)) == Ok(LongPacket(cfg, first, crypto))
  {
    assert EncodeVar(CRYPTO_FRAME) == [6] by { assert BigEndian(0, 0) == []; }
    hide HeaderSize, Zeros, EncodeVar;
    var b0 := NewBuilder(cfg, first);
    var x, y := LongRun(crypto)[0], LongRun(crypto)[1];
    var b1 := b0.(init := false, open := Some(Open(HandshakePacket, crypto, false, false, false, [])));
    assert Step(cfg, b0, x) == Ok(b1);
    assert [] + [6] == [6];
    var b2 := b1.(open := Some(Open(HandshakePacket, crypto, true, true, true, [6])));
    assert StartFrame(cfg, b1, CRYPTO_FRAME, 1) == Ok(b2);
    assert Step(cfg, b1, y) == Ok(LongPacket(cfg, first, crypto));
    hide Step, LongPacket, NewBuilder;
    assert LongRun(crypto)[1..] == [y] && [y][1..] == [];
    assert Run(cfg, b1, [y]) == Ok(LongPacket(cfg, first, crypto));
  }

  lemma LongRunFails(cfg: Config, first: nat, crypto: Crypto)
    requires Proper(cfg) && cfg.maxDatagram >= TooLong(cfg) && cfg.maxTotal.None? && cfg.maxFlight.None?
    requires Protects(crypto)
    ensures Completes(cfg, first, LongRun(crypto)) && !AllSplit(cfg, HandedOver(cfg, first, LongRun(crypto)))
  {
    hide Zeros, Protects, Run, Split, ExpectedPackets, Made, HeaderSize;
    LongRunRuns(cfg, first, crypto);
    var b := LongPacket(cfg, first, crypto);
    LongPacketShips(cfg, first, crypto);
    hide LongPacket, Finish;
    EveryDatagram(cfg, first, LongRun(crypto));
    assert Seal(cfg, b) in Finish(cfg, b).b.shipped[0].pieces;
  }

  lemma LongPacketShips(cfg: Config, first: nat, crypto: Crypto)
    requires Proper(cfg) && cfg.maxDatagram >= TooLong(cfg) && Protects(crypto)
    ensures var b := LongPacket(cfg, first, crypto);
            && Finish(cfg, b).Ok? && Finish(cfg, b).b.shipped == [Shipped([Seal(cfg, b)], 0, b.flightCapacity)]
            && !ShortEnough(cfg, Seal(cfg, b).sent.kind, Seal(cfg, b).sent.sentBytes)
  {
    hide Zeros, Protects, Made, HeaderSize;
    var b := LongPacket(cfg, first, crypto);
    SealReads(cfg, b);
    var p := Seal(cfg, b);
    assert !LengthFits(cfg, b) && !Padded(cfg, b);
    hide Seal, InnerPadding;
    assert [] + p.bytes == p.bytes && [] + [p] == [p];
    var a := Append(cfg, b, p);
    assert EndPacket(cfg, b) == Ok(a) && a.pieces == [p] && a.front == p.bytes != [];
    assert Finish(cfg, b).b == Flush(a);
    assert Flush(a).shipped == [] + [Shipped([p], 0, b.flightCapacity)];
  }

  /**
   A receiver can split every datagram of every run if and only if datagrams are too short for a long-header packet
   of 0x4000 bytes after the length. Without budgets a longer datagram is filled by a single CRYPTO frame.
   */
  lemma SplitsExactly(cfg: Config, first: nat, crypto: Crypto)
    requires Proper(cfg) && cfg.maxTotal.None? && cfg.maxFlight.None? && Protects(crypto)
    ensures (forall actions | Completes(cfg, first, actions) :: AllSplit(cfg, HandedOver(cfg, first, actions)))
            <==> cfg.maxDatagram < TooLong(cfg)
  {
    hide Completes, AllSplit, HandedOver, TooLong, Protects;
    if cfg.maxDatagram < TooLong(cfg) {
      forall actions | Completes(cfg, first, actions)
        ensures AllSplit(cfg, HandedOver(cfg, first, actions))
      {
        SmallAlwaysSplit(cfg, first, actions);
      }
    } else {
      LongRunFails(cfg, first, crypto);
    }
  }
}
