/** A builder whose writers keep to the room they are granted keeps to its budgets. */
module BuilderBudgets {
  import opened Common
  import opened Buffers
  import opened Headers
  import opened BuilderSpec
  import opened Coalescing
  import opened BuilderRuns

  /** The datagram in progress fits its capacity, which fits what is left of the budget. */
  ghost predicate InBudget(cfg: Config, b: Builder) {
    && WellFormed(cfg, b) && 0 <= b.bufferCapacity <= cfg.maxDatagram && |b.front| <= b.bufferCapacity
    && (b.front != [] || b.open.Some? ==> !b.init)
    && (!b.init ==> b.flightCapacity <= b.bufferCapacity)
    && (cfg.maxTotal.Some? ==> b.total + (if b.init then 0 else b.bufferCapacity) <= cfg.maxTotal.value)
    && (forall d | d in b.datagrams :: |d| <= cfg.maxDatagram)
    && (b.open.Some? ==> Protects(b.open.value.crypto))
    && (b.open.Some? && b.open.value.payload != [] ==> RemainingBuffer(cfg, b) >= 0)
  }

  /** A payload of one byte is padded after the room was checked, so one byte must be left for that. */
  predicate CanEnd(cfg: Config, b: Builder)
    requires WellFormed(cfg, b)
  {
    b.open.Some? && |b.open.value.payload| == 1 ==> RemainingBuffer(cfg, b) > 0
  }

  /** The size of the sealed packet. */
  lemma SealSize(cfg: Config, b: Builder)
    requires WellFormed(cfg, b) && b.open.Some? && Protects(b.open.value.crypto)
    ensures |Seal(cfg, b).bytes| ==
            HeaderSize(cfg, b.open.value.kind) + |b.open.value.payload| + Max(0, InnerPadding(cfg, b)) + AEAD_TAG_SIZE
    ensures |Seal(cfg, b).bytes| == Seal(cfg, b).sent.sentBytes
  {
    var o := b.open.value;
    var payload := o.payload + Zeros(InnerPadding(cfg, b));
    var length := |payload| + PACKET_NUMBER_SEND_SIZE + AEAD_TAG_SIZE;
    HeaderFills(cfg, o.kind, o.crypto, length, b.number);
    hide HeaderBytes, InnerPadding, HeaderSize;
    assert |o.crypto.protect(HeaderBytes(cfg, o.kind, o.crypto, length, b.number), payload, b.number)|
           == HeaderSize(cfg, o.kind) + |payload| + AEAD_TAG_SIZE;
  }

  /** Exactly when a packet whose frames kept to the room granted overruns the buffer capacity. */
  lemma OverrunsExactly(cfg: Config, b: Builder)
    requires InBudget(cfg, b) && b.open.Some? && b.open.value.payload != []
    ensures |b.front| + |Seal(cfg, b).bytes| <= b.bufferCapacity <==> CanEnd(cfg, b)
  {
    SealSize(cfg, b);
    hide Seal, Protects, HeaderSize;
  }

  lemma EndInBudget(cfg: Config, b: Builder)
    requires InBudget(cfg, b) && b.open.Some? && CanEnd(cfg, b)
    ensures EndPacket(cfg, b).Ok? && InBudget(cfg, EndPacket(cfg, b).b)
  {
    if b.open.value.payload != [] {
      OverrunsExactly(cfg, b);
      SealSize(cfg, b);
      var p := Seal(cfg, b);
      var a := Append(cfg, b, p);
      hide Seal, Protects, HeaderSize, InnerPadding;
      if p.sent.kind == OneRtt { FlushInBudget(cfg, a); }
      FlushInBudget(cfg, a);
    }
  }

  lemma FlushInBudget(cfg: Config, b: Builder)
    requires InBudget(cfg, b) && b.open.None?
    ensures InBudget(cfg, Flush(b)) && Flush(b).open.None?
  {
    var f := Flush(b);
    if b.front != [] {
      var d := f.datagrams[|b.datagrams|];
      assert |d| <= b.bufferCapacity;
      forall x | x in f.datagrams
        ensures |x| <= cfg.maxDatagram
      {
        assert x in b.datagrams || x == d;
      }
    }
  }

  lemma BeginInBudget(cfg: Config, b: Builder)
    requires InBudget(cfg, b) && b.open.None?
    ensures InBudget(cfg, BeginDatagram(cfg, b)) && !BeginDatagram(cfg, b).init && BeginDatagram(cfg, b).open.None?
  {
  }

  lemma StartInBudget(cfg: Config, b: Builder, kind: PacketType, crypto: Crypto)
    requires InBudget(cfg, b) && CanEnd(cfg, b) && Sendable(kind) && Protects(crypto)
    ensures !StartPacket(cfg, b, kind, crypto).Broken? && InBudget(cfg, After(StartPacket(cfg, b, kind, crypto)))
  {
    hide EndPacket, Flush, BeginDatagram, Protects, HeaderSize;
    if b.open.Some? { EndInBudget(cfg, b); }
    var e := if b.open.Some? then EndPacket(cfg, b).b else b;
    FlushInBudget(cfg, e);
    BeginInBudget(cfg, if e.bufferCapacity - |e.front| < 128 then Flush(e) else e);
  }

  /** A packet joins the datagram in progress exactly when that has at least 128 bytes left, and else starts a new one. */
  lemma JoinsOrStarts(cfg: Config, b: Builder, kind: PacketType, crypto: Crypto)
    requires WellFormed(cfg, b) && Sendable(kind) && StartPacket(cfg, b, kind, crypto).Ok?
    ensures Ended(cfg, b).Ok?
    ensures var e, r := Ended(cfg, b).b, StartPacket(cfg, b, kind, crypto).b;
            && r.front == (if e.bufferCapacity - |e.front| >= 128 then e.front else [])
            && |r.datagrams| == |e.datagrams| + (if e.front != [] && e.bufferCapacity - |e.front| < 128 then 1 else 0)
            && |r.front| + HeaderSize(cfg, kind) < r.bufferCapacity
  {
    hide EndPacket, HeaderSize;
  }

  /** The bytes of a header before the first frame. */
  function HeaderRoom(cfg: Config, kind: PacketType): nat
    requires |cfg.token| <= UINT_VAR_MAX
  {
    if kind == OneRtt then 1 + |cfg.peerCid| + 2
    else
      1 + 4 + 1 + |cfg.peerCid| + 1 + |cfg.hostCid|
      + (if kind == Initial then |EncodeVar(|cfg.token|)| + |cfg.token| else 0) + 2 + 2
  }

  /**
   A packet is started exactly when its header leaves room in its datagram. A new datagram may use what the total
   budget leaves of its size, and of that what the flight budget leaves.
   */
  lemma StartsExactly(cfg: Config, b: Builder, kind: PacketType, crypto: Crypto)
    requires WellFormed(cfg, b) && Sendable(kind) && Ended(cfg, b).Ok?
    ensures var e, s := Ended(cfg, b).b, StartPacket(cfg, b, kind, crypto);
            && !s.Broken? && (s.Ok? <==> |s.b.front| + HeaderRoom(cfg, kind) < s.b.bufferCapacity)
            && if !e.init && (e.front == [] || e.bufferCapacity - |e.front| >= 128) then
                 s.b.front == e.front && s.b.bufferCapacity == e.bufferCapacity && s.b.flightCapacity == e.flightCapacity
               else
                 && (e.init || s.b.front == [])
                 && s.b.bufferCapacity == (if cfg.maxTotal.Some? then Min(e.bufferCapacity, cfg.maxTotal.value - s.b.total)
                                           else e.bufferCapacity)
                 && s.b.flightCapacity == (if cfg.maxFlight.Some? then Min(s.b.bufferCapacity, cfg.maxFlight.value - s.b.flight)
                                           else s.b.bufferCapacity)
  {
    hide EndPacket, DecodeVar;
    VarRoundTrip(|cfg.token|, []);
    hide EncodeVar, SizeVar;
  }

  /** A frame is started exactly when there is room for it, also in the flight unless its type does not count there. */
  lemma FrameStartsExactly(cfg: Config, b: Builder, frameType: nat, capacity: int)
    requires WellFormed(cfg, b) && b.open.Some? && frameType <= UINT_VAR_MAX
    ensures var used := |b.front| + HeaderRoom(cfg, b.open.value.kind) + |b.open.value.payload| + 16;
            StartFrame(cfg, b, frameType, capacity).Stop? <==>
            b.bufferCapacity - used < capacity || (frameType !in {0x02, 0x03, 0x1C, 0x1D} && b.flightCapacity - used < capacity)
  {
    hide DecodeVar;
    VarRoundTrip(|cfg.token|, []);
    hide EncodeVar, SizeVar;
  }

  /** The writer of a frame keeps to the room left; a packet is only ended when it can be. */
  predicate Granted(cfg: Config, b: Builder, a: Action)
    requires WellFormed(cfg, b)
  {
    match a
    case Begin(_, _) => CanEnd(cfg, b)
    case Frame(frameType, capacity, body) =>
      b.open.Some? && frameType <= UINT_VAR_MAX
      && (StartFrame(cfg, b, frameType, capacity).Stop? || |EncodeVar(frameType)| + |body| <= RemainingBuffer(cfg, b))
  }

  predicate GrantedRun(cfg: Config, b: Builder, actions: seq<Action>)
    requires WellFormed(cfg, b)
    decreases |actions|
  {
    actions != [] ==>
      Granted(cfg, b, actions[0])
      && (!Step(cfg, b, actions[0]).Broken? ==> GrantedRun(cfg, After(Step(cfg, b, actions[0])), actions[1..]))
  }

  lemma StepInBudget(cfg: Config, b: Builder, a: Action)
    requires InBudget(cfg, b) && Legal(a) && Granted(cfg, b, a)
    ensures !Step(cfg, b, a).Broken? && InBudget(cfg, After(Step(cfg, b, a)))
  {
    hide Protects, HeaderSize, EncodeVar;
    match a
    case Begin(kind, crypto) => StartInBudget(cfg, b, kind, crypto);
    case Frame(frameType, capacity, body) =>
  }

  lemma {:induction false} RunInBudget(cfg: Config, b: Builder, actions: seq<Action>)
    requires WellFormed(cfg, b) && InBudget(cfg, b)
    requires (forall a | a in actions :: Legal(a)) && GrantedRun(cfg, b, actions)
    ensures !Run(cfg, b, actions).Broken? && InBudget(cfg, After(Run(cfg, b, actions)))
    decreases |actions|
  {
    hide InBudget, Legal, Step, Granted;
    if actions != [] {
      StepInBudget(cfg, b, actions[0]);
      RunInBudget(cfg, After(Step(cfg, b, actions[0])), actions[1..]);
    }
  }

  /**
   If every writer keeps to the room it is granted and no packet is ended with a single byte and no room left, the
   builder never breaks, no datagram is longer than allowed, and all of them together keep to the total budget.
   */
  lemma TotalInBudget(cfg: Config, first: nat, actions: seq<Action>)
    requires Proper(cfg) && (cfg.maxTotal.Some? ==> cfg.maxTotal.value >= 0)
    requires (forall a | a in actions :: Legal(a)) && GrantedRun(cfg, NewBuilder(cfg, first), actions)
    requires !Run(cfg, NewBuilder(cfg, first), actions).Broken? ==> CanEnd(cfg, After(Run(cfg, NewBuilder(cfg, first), actions)))
    ensures !Run(cfg, NewBuilder(cfg, first), actions).Broken?
    ensures var r := Finish(cfg, After(Run(cfg, NewBuilder(cfg, first), actions)));
            && r.Ok?
            && (forall d | d in r.b.datagrams :: |d| <= cfg.maxDatagram)
            && (cfg.maxTotal.Some? ==> r.b.total <= cfg.maxTotal.value)
  {
    hide Run, EndPacket, Flush, Legal, Protects, HeaderSize;
    RunInBudget(cfg, NewBuilder(cfg, first), actions);
    var b := After(Run(cfg, NewBuilder(cfg, first), actions));
    if b.open.Some? { EndInBudget(cfg, b); }
    FlushInBudget(cfg, if b.open.Some? then EndPacket(cfg, b).b else b);
  }

  // ---- A run that goes past the budget ----

  /** Room for a packet of one byte and no more, in the total or in flight. */
  const TIGHT_TOTAL := Config([], [], [], VERSION_1, false, 1200, false, None, Some(28))
  const TIGHT_FLIGHT := Config([], [], [], VERSION_1, false, 1200, false, Some(28), None)

  /** The builder with a packet that holds this payload. */
  function Tight(cfg: Config, crypto: Crypto, inFlight: bool, payload: seq<byte>): Builder {
    BeginDatagram(cfg, NewBuilder(cfg, 0)).(open := Some(Open(HandshakePacket, crypto, inFlight, inFlight, false, payload)))
  }

  lemma PingFits(cfg: Config, crypto: Crypto)
    requires cfg in {TIGHT_TOTAL, TIGHT_FLIGHT}
    ensures Step(cfg, NewBuilder(cfg, 0), Begin(HandshakePacket, crypto)) == Ok(Tight(cfg, crypto, false, []))
    ensures Step(cfg, Tight(cfg, crypto, false, []), Frame(0x01, 1, [])) == Ok(Tight(cfg, crypto, true, [1]))
    ensures Granted(cfg, NewBuilder(cfg, 0), Begin(HandshakePacket, crypto))
    ensures Granted(cfg, Tight(cfg, crypto, false, []), Frame(0x01, 1, []))
  {
    assert EncodeVar(0x01) == [1] by { assert BigEndian(0, 0) == []; }
    assert [] + [1] == [1] && [1] + [] == [1];
  }

  lemma TightTotal(crypto: Crypto)
    requires Protects(crypto)
    ensures var b := Tight(TIGHT_TOTAL, crypto, true, [1]); Finish(TIGHT_TOTAL, b).Ok? && Finish(TIGHT_TOTAL, b).b.total == 29
  {
    SealSize(TIGHT_TOTAL, Tight(TIGHT_TOTAL, crypto, true, [1]));
    hide Seal, Protects;
  }

  lemma TwoSteps(cfg: Config, b0: Builder, x: Action, b1: Builder, y: Action, b2: Builder)
    requires WellFormed(cfg, b0) && Step(cfg, b0, x) == Ok(b1) && Step(cfg, b1, y) == Ok(b2)
    requires Granted(cfg, b0, x) && Granted(cfg, b1, y)
    ensures GrantedRun(cfg, b0, [x, y]) && Run(cfg, b0, [x, y]) == Ok(b2)
  {
    hide Step, Granted;
    assert [x, y][1..] == [y] && [y][1..] == [];
    assert Run(cfg, b1, [y]) == Ok(b2) && GrantedRun(cfg, b1, [y]);
  }

  /** One byte in a packet that leaves no room: the total goes past the budget it was checked against. */
  lemma OneBytePayloadOverruns(crypto: Crypto)
    requires Protects(crypto)
    ensures var actions := [Begin(HandshakePacket, crypto), Frame(0x01, 1, [])];
            var r := Run(TIGHT_TOTAL, NewBuilder(TIGHT_TOTAL, 0), actions);
            && GrantedRun(TIGHT_TOTAL, NewBuilder(TIGHT_TOTAL, 0), actions)
            && r.Ok? && Finish(TIGHT_TOTAL, r.b).Ok? && Finish(TIGHT_TOTAL, r.b).b.total == 29
  {
    var cfg := TIGHT_TOTAL;
    PingFits(cfg, crypto);
    TightTotal(crypto);
    hide Step, Granted, Finish, Tight, NewBuilder;
    TwoSteps(cfg, NewBuilder(cfg, 0), Begin(HandshakePacket, crypto), Tight(cfg, crypto, false, []), Frame(0x01, 1, []),
             Tight(cfg, crypto, true, [1]));
  }
}
