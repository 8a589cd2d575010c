/** When the bytes in flight keep to the flight budget. */
module BuilderFlights {
  import opened Common
  import opened Buffers
  import opened Headers
  import opened BuilderSpec
  import opened Coalescing
  import opened BuilderRuns
  import opened BuilderBudgets

  /** The bytes in flight, those of the datagram in progress among them. */
  function InFlight(b: Builder): nat { b.flight + if b.init then 0 else b.datagramFlight }

  /** Nothing is in flight, or no more than the budget. */
  predicate FlightWithin(cfg: Config, b: Builder) {
    cfg.maxFlight.Some? ==> InFlight(b) == 0 || InFlight(b) <= cfg.maxFlight.value
  }

  /** The flight capacity of a datagram is at most what is left of the budget, and its packets in flight are in it. */
  predicate FlightRoom(cfg: Config, b: Builder) {
    && (b.front != [] || b.open.Some? ==> !b.init)
    && (!b.init ==> b.datagramFlight <= |b.front|)
    && (!b.init && cfg.maxFlight.Some? ==> b.flight + b.flightCapacity <= cfg.maxFlight.value)
  }

  /**
   What has to hold of a packet before it is ended: if it is in flight, or will be because a payload of one byte is
   padded, its header, payload and tag are within what is left of the budget.
   */
  predicate FlightFits(cfg: Config, b: Builder)
    requires WellFormed(cfg, b)
  {
    cfg.maxFlight.Some? && b.open.Some? && b.open.value.payload != []
    && (b.open.value.inFlight || |b.open.value.payload| == 1) ==>
      InFlight(b) + HeaderSize(cfg, b.open.value.kind) + Max(|b.open.value.payload|, 2) + AEAD_TAG_SIZE
      <= cfg.maxFlight.value
  }

  lemma FlushFlight(cfg: Config, b: Builder)
    requires FlightRoom(cfg, b) && b.open.None?
    ensures FlightRoom(cfg, Flush(b)) && (FlightWithin(cfg, Flush(b)) <==> FlightWithin(cfg, b))
    ensures Flush(b).front == []
  {
  }

  lemma SealInFlight(cfg: Config, b: Builder)
    requires WellFormed(cfg, b) && b.open.Some? && b.open.value.payload != []
    ensures var o, pad := b.open.value, InnerPadding(cfg, b);
            && (Seal(cfg, b).sent.inFlight <==> o.inFlight || pad > 0)
            && (pad > 0 && |o.payload| > 1 ==> pad == RemainingFlight(cfg, b))
            && (|o.payload| == 1 ==> pad == Max(1, pad) && (pad > 1 ==> pad == RemainingFlight(cfg, b)))
  {
    hide HeaderSize, Protected;
  }

  lemma AppendFlight(cfg: Config, b: Builder, p: Piece)
    requires WellFormed(cfg, b) && FlightRoom(cfg, b) && b.open.Some? && b.open.value.payload != []
    requires var o, pad := b.open.value, InnerPadding(cfg, b);
             && |p.bytes| == HeaderSize(cfg, o.kind) + |o.payload| + Max(0, pad) + AEAD_TAG_SIZE
             && (p.sent.inFlight <==> o.inFlight || pad > 0)
             && (pad > 0 && |o.payload| > 1 ==> pad == RemainingFlight(cfg, b))
             && (|o.payload| == 1 ==> pad == Max(1, pad) && (pad > 1 ==> pad == RemainingFlight(cfg, b)))
    ensures var a := Append(cfg, b, p);
            FlightRoom(cfg, a) && (FlightWithin(cfg, a) <==> FlightWithin(cfg, b) && FlightFits(cfg, b))
  {
    hide InnerPadding, HeaderSize;
  }

  /** Ending a packet keeps to the budget exactly if the packet fits what is left of it. */
  lemma EndFlight(cfg: Config, b: Builder)
    requires WellFormed(cfg, b) && FlightRoom(cfg, b) && b.open.Some? && Protects(b.open.value.crypto)
    requires EndPacket(cfg, b).Ok?
    ensures var e := EndPacket(cfg, b).b;
            FlightRoom(cfg, e) && (FlightWithin(cfg, e) <==> FlightWithin(cfg, b) && FlightFits(cfg, b))
  {
    if b.open.value.payload != [] {
      SealSize(cfg, b);
      var p := Seal(cfg, b);
      SealInFlight(cfg, b);
      hide Seal, Protects, HeaderSize, Flush, InnerPadding;
      AppendFlight(cfg, b, p);
      if p.sent.kind == OneRtt { FlushFlight(cfg, Append(cfg, b, p)); }
    }
  }

  lemma BeginFlight(cfg: Config, b: Builder)
    requires FlightRoom(cfg, b) && b.open.None?
    ensures var a := BeginDatagram(cfg, b);
            && FlightRoom(cfg, a) && (FlightWithin(cfg, a) <==> FlightWithin(cfg, b))
            && !a.init && a.open.None?
  {
  }

  lemma OpensFlight(cfg: Config, b: Builder, kind: PacketType, crypto: Crypto)
    requires FlightRoom(cfg, b) && !b.init
    ensures var a := b.(open := Some(Open(kind, crypto, false, false, false, [])));
            FlightRoom(cfg, a) && (FlightWithin(cfg, a) <==> FlightWithin(cfg, b))
  {
  }

  lemma StartFlight(cfg: Config, b: Builder, kind: PacketType, crypto: Crypto)
    requires WellFormed(cfg, b) && FlightRoom(cfg, b) && Sendable(kind) && !StartPacket(cfg, b, kind, crypto).Broken?
    requires b.open.Some? ==> Protects(b.open.value.crypto)
    ensures var a := After(StartPacket(cfg, b, kind, crypto));
            FlightRoom(cfg, a) && (FlightWithin(cfg, a) <==> FlightWithin(cfg, b) && FlightFits(cfg, b))
  {
    hide EndPacket, Flush, Protects, HeaderSize, BeginDatagram, FlightWithin, FlightRoom;
    if b.open.Some? { EndFlight(cfg, b); }
    var e := Ended(cfg, b).b;
    FlushFlight(cfg, e);
    var g := BeginDatagram(cfg, FlushIfFull(e));
    BeginFlight(cfg, FlushIfFull(e));
    OpensFlight(cfg, g, kind, crypto);
  }

  lemma StartOpens(cfg: Config, b: Builder, kind: PacketType, crypto: Crypto)
    requires WellFormed(cfg, b) && Sendable(kind) && !StartPacket(cfg, b, kind, crypto).Broken?
    ensures After(StartPacket(cfg, b, kind, crypto)).open in {None, Some(Open(kind, crypto, false, false, false, []))}
  {
    hide EndPacket, Flush, HeaderSize;
  }

  lemma StepFlight(cfg: Config, b: Builder, a: Action)
    requires WellFormed(cfg, b) && FlightRoom(cfg, b) && Legal(a) && !Step(cfg, b, a).Broken?
    requires b.open.Some? ==> Protects(b.open.value.crypto)
    ensures FlightRoom(cfg, After(Step(cfg, b, a)))
    ensures FlightWithin(cfg, After(Step(cfg, b, a)))
            <==> FlightWithin(cfg, b) && (a.Begin? ==> FlightFits(cfg, b))
    ensures After(Step(cfg, b, a)).open.Some? ==> Protects(After(Step(cfg, b, a)).open.value.crypto)
  {
    hide StartPacket, Protects, HeaderSize, EncodeVar, FlightFits;
    match a
    case Begin(kind, crypto) => StartFlight(cfg, b, kind, crypto); StartOpens(cfg, b, kind, crypto);
    case Frame(_, _, _) =>
  }

  /** Every packet fits what is left of the flight budget when it is ended. */
  predicate FlightKept(cfg: Config, b: Builder, actions: seq<Action>)
    requires WellFormed(cfg, b)
    decreases |actions|
  {
    if actions == [] then FlightFits(cfg, b)
    else
      (actions[0].Begin? ==> FlightFits(cfg, b))
      && (!Step(cfg, b, actions[0]).Broken? ==> FlightKept(cfg, After(Step(cfg, b, actions[0])), actions[1..]))
  }

  lemma {:induction false} RunFlight(cfg: Config, b: Builder, actions: seq<Action>)
    requires WellFormed(cfg, b) && FlightRoom(cfg, b) && (b.open.Some? ==> Protects(b.open.value.crypto))
    requires (forall a | a in actions :: Legal(a)) && !Run(cfg, b, actions).Broken?
    requires Finish(cfg, After(Run(cfg, b, actions))).Ok?
    ensures var f := Finish(cfg, After(Run(cfg, b, actions))).b;
            && InFlight(f) == f.flight
            && (FlightWithin(cfg, f) <==> FlightWithin(cfg, b) && FlightKept(cfg, b, actions))
    decreases |actions|
  {
    hide FlightWithin, FlightRoom, HeaderSize, Protects, Legal, Step, EndPacket, Flush, InFlight;
    if actions == [] {
      if b.open.Some? { EndFlight(cfg, b); }
      LastFlush(cfg, Ended(cfg, b).b);
    } else {
      StepFlight(cfg, b, actions[0]);
      RunFlight(cfg, After(Step(cfg, b, actions[0])), actions[1..]);
    }
  }

  lemma LastFlush(cfg: Config, b: Builder)
    requires FlightRoom(cfg, b) && b.open.None?
    ensures InFlight(Flush(b)) == Flush(b).flight && (FlightWithin(cfg, Flush(b)) <==> FlightWithin(cfg, b))
  {
    FlushFlight(cfg, b);
  }

  /**
   Over every run, the bytes of the packets in flight and the padding after them are none or within the flight budget
   if and only if every packet fit what was left of the budget when it was ended.
   */
  lemma FlightInBudget(cfg: Config, first: nat, actions: seq<Action>)
    requires Proper(cfg) && (forall a | a in actions :: Legal(a))
    requires !Run(cfg, NewBuilder(cfg, first), actions).Broken?
    requires Finish(cfg, After(Run(cfg, NewBuilder(cfg, first), actions))).Ok?
    requires cfg.maxFlight.Some?
    ensures var flight := TotalFlight(Finish(cfg, After(Run(cfg, NewBuilder(cfg, first), actions))).b.shipped);
            flight == 0 || flight <= cfg.maxFlight.value <==> FlightKept(cfg, NewBuilder(cfg, first), actions)
  {
    hide Run, Finish, FlightKept, Legal;
    EveryDatagram(cfg, first, actions);
    RunFlight(cfg, NewBuilder(cfg, first), actions);
  }

  // ---- Writers that keep to the room granted ----

  /**
   A writer keeps to the flight space when its frame or its packet is in flight, and a packet of one byte is only
   ended when one byte of the flight space is left.
   */
  predicate FlightGranted(cfg: Config, b: Builder, a: Action)
    requires WellFormed(cfg, b)
  {
    match a
    case Begin(_, _) => OneByteFits(cfg, b)
    case Frame(frameType, capacity, body) =>
      b.open.Some? && frameType <= UINT_VAR_MAX && StartFrame(cfg, b, frameType, capacity).Ok?
      && (b.open.value.inFlight || frameType !in NON_IN_FLIGHT) ==>
        |EncodeVar(frameType)| + |body| <= RemainingFlight(cfg, b)
  }

  predicate OneByteFits(cfg: Config, b: Builder)
    requires WellFormed(cfg, b)
  {
    b.open.Some? && |b.open.value.payload| == 1 ==> RemainingFlight(cfg, b) > 0
  }

  predicate FlightGrantedRun(cfg: Config, b: Builder, actions: seq<Action>)
    requires WellFormed(cfg, b)
    decreases |actions|
  {
    if actions == [] then OneByteFits(cfg, b)
    else
      FlightGranted(cfg, b, actions[0])
      && (!Step(cfg, b, actions[0]).Broken? ==> FlightGrantedRun(cfg, After(Step(cfg, b, actions[0])), actions[1..]))
  }

  /** A packet in flight is within the flight capacity. */
  predicate OpenWithin(cfg: Config, b: Builder)
    requires WellFormed(cfg, b)
  {
    b.open.Some? && b.open.value.inFlight ==> RemainingFlight(cfg, b) >= 0 && b.open.value.payload != []
  }

  lemma GrantedFits(cfg: Config, b: Builder)
    requires WellFormed(cfg, b) && FlightRoom(cfg, b) && OpenWithin(cfg, b) && OneByteFits(cfg, b)
    ensures FlightFits(cfg, b)
  {
    hide HeaderSize;
  }

  lemma StepWithin(cfg: Config, b: Builder, a: Action)
    requires WellFormed(cfg, b) && OpenWithin(cfg, b) && FlightGranted(cfg, b, a) && !Step(cfg, b, a).Broken?
    ensures OpenWithin(cfg, After(Step(cfg, b, a)))
  {
    hide EndPacket, Flush, HeaderSize, EncodeVar;
    if a.Frame? && b.open.Some? && a.frameType <= UINT_VAR_MAX { VarRoundTrip(a.frameType, []); }
  }

  /** Writers that keep to the flight space granted keep every packet within the flight budget. */
  lemma {:induction false} GrantedFlightKept(cfg: Config, b: Builder, actions: seq<Action>)
    requires WellFormed(cfg, b) && FlightRoom(cfg, b) && OpenWithin(cfg, b)
    requires b.open.Some? ==> Protects(b.open.value.crypto)
    requires (forall a | a in actions :: Legal(a)) && FlightGrantedRun(cfg, b, actions)
    ensures FlightKept(cfg, b, actions)
    decreases |actions|
  {
    hide FlightRoom, FlightFits, OpenWithin, Protects, Legal, Step, FlightWithin;
    if actions == [] {
      GrantedFits(cfg, b);
    } else {
      if actions[0].Begin? { GrantedFits(cfg, b); }
      if !Step(cfg, b, actions[0]).Broken? {
        StepFlight(cfg, b, actions[0]);
        StepWithin(cfg, b, actions[0]);
        GrantedFlightKept(cfg, After(Step(cfg, b, actions[0])), actions[1..]);
      }
    }
  }

  // ---- Runs that go past the budget ----

  lemma AckGoesOn(crypto: Crypto, body: seq<byte>)
    requires |body| <= 1000
    ensures Step(TIGHT_FLIGHT, Tight(TIGHT_FLIGHT, crypto, true, [1]), Frame(0x02, 1, body)) ==
            Ok(Tight(TIGHT_FLIGHT, crypto, true, [1, 2] + body))
  {
    assert EncodeVar(0x02) == [2] by { assert BigEndian(0, 0) == []; }
    assert [1] + [2] == [1, 2];
  }

  lemma TightFlight(crypto: Crypto, payload: seq<byte>)
    requires Protects(crypto) && payload != [] && |payload| <= 1002
    ensures var b := Tight(TIGHT_FLIGHT, crypto, true, payload);
            Finish(TIGHT_FLIGHT, b).Ok? && Finish(TIGHT_FLIGHT, b).b.flight == 27 + Max(2, |payload|)
  {
    SealSize(TIGHT_FLIGHT, Tight(TIGHT_FLIGHT, crypto, true, payload));
    hide Seal, Protects;
  }

  /** A packet with one byte and no room left: it is padded by one byte that the budget does not have. */
  lemma OneByteOverruns(crypto: Crypto)
    requires Protects(crypto)
    ensures var r := Run(TIGHT_FLIGHT, NewBuilder(TIGHT_FLIGHT, 0), [Begin(HandshakePacket, crypto), Frame(0x01, 1, [])]);
            r.Ok? && Finish(TIGHT_FLIGHT, r.b).Ok? && Finish(TIGHT_FLIGHT, r.b).b.flight == 29
  {
    var cfg := TIGHT_FLIGHT;
    PingFits(cfg, crypto);
    TightFlight(crypto, [1]);
    hide Step, Granted, Finish, Tight, NewBuilder;
    TwoSteps(cfg, NewBuilder(cfg, 0), Begin(HandshakePacket, crypto), Tight(cfg, crypto, false, []), Frame(0x01, 1, []),
             Tight(cfg, crypto, true, [1]));
  }

  /** A frame that is not in flight itself, in a packet that is: only the space of the datagram stops it. */
  lemma AckOverruns(crypto: Crypto, body: seq<byte>)
    requires Protects(crypto) && |body| <= 1000
    ensures var actions := [Begin(HandshakePacket, crypto), Frame(0x01, 1, []), Frame(0x02, 1, body)];
            var r := Run(TIGHT_FLIGHT, NewBuilder(TIGHT_FLIGHT, 0), actions);
            r.Ok? && Finish(TIGHT_FLIGHT, r.b).Ok? && Finish(TIGHT_FLIGHT, r.b).b.flight == 29 + |body|
  {
    var cfg := TIGHT_FLIGHT;
    PingFits(cfg, crypto);
    AckGoesOn(crypto, body);
    TightFlight(crypto, [1, 2] + body);
    var x, y, z := Begin(HandshakePacket, crypto), Frame(0x01, 1, []), Frame(0x02, 1, body);
    hide Step, Finish, Tight, NewBuilder;
    assert [x, y, z][1..] == [y, z] && [y, z][1..] == [z] && [z][1..] == [];
    assert Run(cfg, Tight(cfg, crypto, true, [1]), [z]) == Ok(Tight(cfg, crypto, true, [1, 2] + body));
    assert Run(cfg, Tight(cfg, crypto, false, []), [y, z]) == Ok(Tight(cfg, crypto, true, [1, 2] + body));
  }
}
