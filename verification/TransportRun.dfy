/**
 Streams on top of loss recovery: frames travel in packets, ACK frames name packets that arrived, and what recovery
 decides about a packet is reported to the streams whose frames it carried (quic/connection.py, quic/recovery.py,
 quic/stream.py). That each frame is reported at most once, and acknowledged only if it arrived, is proved here.
 */
module TransportRuns {
  import opened Common
  import opened StreamSpec
  import S = StreamRuns
  import R = RecoverySpec

  /** A frame in a packet: the delivery handler of one stream with the frame it is called for. */
  datatype Load = Load(stream: nat, frame: nat)

  /** A stream asked for a frame while a packet is written. */
  datatype Request = Request(stream: nat, maxSize: int, maxOffset: Option<int>)

  datatype Transport = Transport(
    streams: seq<S.System>,
    recovery: R.State,             // of the one packet space that carries streams
    cargo: map<nat, seq<Load>>,    // what each packet ever sent carried
    next: nat,                     // the next packet number
    received: set<nat>,            // packets that arrived
    acks: set<set<nat>>,           // ACK frames ever sent
    misreported: bool)             // a handler was called for a frame that was not in flight

  datatype Action =
    | Open
    | AppWrite(i: nat, data: seq<byte>, end: bool)
    | Drop(request: Request)
    | SendPacket(packet: R.Packet, requests: seq<Request>)
    | PacketArrives(n: nat)
    | SendAck(numbers: set<nat>)
    | AckArrives(numbers: set<nat>, largest: int)
    | DetectLoss(now: real, delay: real)
    | Reschedule(now: real)
    | ExitSlowStart
    | DiscardSpace

  function Init(maxDatagramSize: nat): Transport {
    Transport([], R.NewState(1, maxDatagramSize), map[], 0, {}, {}, false)
  }

  predicate Enabled(t: Transport, a: Action) {
    match a
    case Open => true
    case AppWrite(i, _, _) => i < |t.streams| && !t.streams[i].snd.fin
    case Drop(request) => request.stream < |t.streams|
    case SendPacket(_, requests) => forall r | r in requests :: r.stream < |t.streams|
    case PacketArrives(n) => n in t.cargo
    case SendAck(numbers) => numbers <= t.received
    case AckArrives(numbers, _) => numbers in t.acks
    case DetectLoss(_, _) => true
    case Reschedule(_) => true
    case ExitSlowStart => true
    case DiscardSpace => true
  }

  // ---- Frames in and out of packets ----

  ghost predicate Sound(ys: seq<S.System>) { forall i | 0 <= i < |ys| :: S.Inv(ys[i]) && ys[i].honest }

  /** The frames the streams give for a packet, in turn. */
  ghost function Taken(ys: seq<S.System>, requests: seq<Request>): (seq<S.System>, seq<Load>)
    requires Sound(ys) && forall r | r in requests :: r.stream < |ys|
    decreases |requests|
  {
    if requests == [] then (ys, [])
    else
      var r := requests[0];
      var y := S.Step(ys[r.stream], S.Send(r.maxSize, r.maxOffset));
      TakeOne(ys, r);
      var (rest, loads) := Taken(ys[r.stream := y], requests[1..]);
      (rest, (if |y.snd.sent| > |ys[r.stream].snd.sent| then [Load(r.stream, |ys[r.stream].snd.sent|)] else []) + loads)
  }

  lemma TakeOne(ys: seq<S.System>, r: Request)
    requires Sound(ys) && r.stream < |ys|
    ensures var y := S.Step(ys[r.stream], S.Send(r.maxSize, r.maxOffset));
            && Sound(ys[r.stream := y])
            && y.heard == ys[r.stream].heard && ys[r.stream].snd.sent <= y.snd.sent
            && (if |y.snd.sent| > |ys[r.stream].snd.sent| then
                  |y.snd.sent| == |ys[r.stream].snd.sent| + 1 && y.snd.open == ys[r.stream].snd.open + {|ys[r.stream].snd.sent|}
                else y.snd.open == ys[r.stream].snd.open)
  {
    SentOne(ys[r.stream], r.maxSize, r.maxOffset);
    hide S.Inv, S.Step;
  }

  lemma SentOne(x: S.System, maxSize: int, maxOffset: Option<int>)
    requires S.Inv(x) && x.honest
    ensures var y := S.Step(x, S.Send(maxSize, maxOffset));
            && S.Inv(y) && y.honest && y.heard == x.heard && x.snd.sent <= y.snd.sent
            && (if |y.snd.sent| > |x.snd.sent| then |y.snd.sent| == |x.snd.sent| + 1 && y.snd.open == x.snd.open + {|x.snd.sent|}
                else y.snd.open == x.snd.open)
  {
    S.StepKeeps(x, S.Send(maxSize, maxOffset));
    FrameShape(x.snd, maxSize, maxOffset);
    hide SenderInv, GetFrame, S.Faithful, S.Ending, S.Trusting;
  }

  /** The frames of a packet reach their receivers. */
  ghost function Landed(ys: seq<S.System>, loads: seq<Load>): seq<S.System>
    requires Sound(ys) && forall l | l in loads :: l.stream < |ys| && l.frame < |ys[l.stream].snd.sent|
    decreases |loads|
  {
    if loads == [] then ys
    else
      var l := loads[0];
      LandOne(ys, l);
      Landed(ys[l.stream := S.Step(ys[l.stream], S.Arrive(l.frame))], loads[1..])
  }

  lemma LandOne(ys: seq<S.System>, l: Load)
    requires Sound(ys) && l.stream < |ys| && l.frame < |ys[l.stream].snd.sent|
    ensures var y := S.Step(ys[l.stream], S.Arrive(l.frame));
            Sound(ys[l.stream := y]) && y.snd == ys[l.stream].snd && ys[l.stream].heard <= y.heard && l.frame in y.heard
  {
    S.StepKeeps(ys[l.stream], S.Arrive(l.frame));
    S.ArrivalEnding(ys[l.stream], l.frame);
    hide S.Inv, Handle;
  }

  /** The delivery handlers of these frames are run; the flag tells that one was run for a frame not in flight. */
  ghost function Told(ys: seq<S.System>, loads: seq<Load>, d: Delivery): (seq<S.System>, bool)
    requires Sound(ys)
    decreases |loads|
  {
    if loads == [] then (ys, false)
    else
      var l := loads[0];
      if l.stream < |ys| && l.frame in ys[l.stream].snd.open && (d.Acked? ==> l.frame in ys[l.stream].heard) then
        TellOne(ys, l, d);
        Told(ys[l.stream := S.Step(ys[l.stream], S.Report(l.frame, d))], loads[1..], d)
      else (ys, true)
  }

  lemma TellOne(ys: seq<S.System>, l: Load, d: Delivery)
    requires Sound(ys) && l.stream < |ys| && l.frame in ys[l.stream].snd.open && (d.Acked? ==> l.frame in ys[l.stream].heard)
    ensures var y := S.Step(ys[l.stream], S.Report(l.frame, d));
            && Sound(ys[l.stream := y])
            && y.heard == ys[l.stream].heard && y.snd.sent == ys[l.stream].snd.sent
            && y.snd.open == ys[l.stream].snd.open - {l.frame}
  {
    S.StepKeeps(ys[l.stream], S.Report(l.frame, d));
    hide S.Inv;
  }

  /** Everything carried by the packets of a list. */
  function Carried(cargo: map<nat, seq<Load>>, ps: seq<R.Packet>): seq<Load> {
    if ps == [] then []
    else (if ps[0].number in cargo then cargo[ps[0].number] else []) + Carried(cargo, ps[1..])
  }

  // ---- Steps ----

  /** Packets leave recovery with a report each, and the handlers of their frames are run. */
  ghost function Reported(t: Transport, gone: R.Packet -> bool, d: Delivery, recovery: R.State): Transport
    requires Inv(t)
  {
    var (ys, wrong) := Told(t.streams, Carried(t.cargo, R.Select(t.recovery.spaces[0].sent, gone)), d);
    t.(streams := ys, recovery := recovery, misreported := t.misreported || wrong)
  }

  ghost function Step(t: Transport, a: Action): Transport
    requires Inv(t) && Enabled(t, a)
  {
    match a
    case Open => t.(streams := t.streams + [S.NEW_SYSTEM])
    case AppWrite(i, data, end) => t.(streams := t.streams[i := S.Step(t.streams[i], S.DoWrite(data, end))])
    case Drop(request) => t.(streams := Taken(t.streams, [request]).0)
    case SendPacket(packet, requests) =>
      var (ys, loads) := Taken(t.streams, requests);
      t.(streams := ys, recovery := R.Sent(t.recovery, 0, packet.(number := t.next)),
         cargo := t.cargo[t.next := loads], next := t.next + 1)
    case PacketArrives(n) =>
      assert forall l | l in t.cargo[n] :: Fits(t, l);
      t.(streams := Landed(t.streams, t.cargo[n]), received := t.received + {n})
    case SendAck(numbers) => t.(acks := t.acks + {numbers})
    case AckArrives(numbers, largest) =>
      Reported(t, (p: R.Packet) => p.number in numbers, Acked, R.Acknowledged(t.recovery, 0, Ints(numbers), largest))
    case DetectLoss(now, delay) =>
      var s := t.recovery.spaces[0];
      Reported(t, (p: R.Packet) => R.IsLost(p, s.largestAcked, now - delay), Lost, R.Detected(t.recovery, 0, now, delay))
    case Reschedule(now) => Reported(t, (p: R.Packet) => p.crypto, Lost, R.CryptoLost(t.recovery, 0, now))
    case ExitSlowStart => t.(recovery := R.Step(t.recovery, R.ExitSlowStart))
    case DiscardSpace => t.(recovery := R.Discarded(t.recovery, 0))
  }

  function Ints(numbers: set<nat>): set<int> { set n: int | n in numbers }

  // ---- The invariant ----

  ghost predicate Fits(t: Transport, l: Load) { l.stream < |t.streams| && l.frame < |t.streams[l.stream].snd.sent| }

  ghost predicate InFlight(t: Transport, l: Load) { Fits(t, l) && l.frame in t.streams[l.stream].snd.open }

  ghost predicate Arrived(t: Transport, l: Load) { Fits(t, l) && l.frame in t.streams[l.stream].heard }

  /** No frame is in two packets, or twice in one. */
  ghost predicate Separate(cargo: map<nat, seq<Load>>) {
    forall n, m, a, b | n in cargo && m in cargo && 0 <= a < |cargo[n]| && 0 <= b < |cargo[m]| && cargo[n][a] == cargo[m][b] ::
      n == m && a == b
  }

  ghost predicate Numbered(t: Transport) {
    && |t.recovery.spaces| == 1 && R.Inv(t.recovery)
    && (forall x | x in t.recovery.registered :: x.0 == 0 && 0 <= x.1 < t.next)
    && (forall n | n in t.cargo :: n < t.next)
    && (forall p | p in t.recovery.spaces[0].sent :: p.number in t.cargo)
  }

  ghost predicate Loaded(t: Transport) {
    && |t.recovery.spaces| == 1 && Separate(t.cargo)
    && (forall n, l | n in t.cargo && l in t.cargo[n] :: Fits(t, l))
    && (forall p, l | p in t.recovery.spaces[0].sent && p.number in t.cargo && l in t.cargo[p.number] :: InFlight(t, l))
    && (forall n, l | n in t.received && n in t.cargo && l in t.cargo[n] :: Arrived(t, l))
    && t.received <= t.cargo.Keys && (forall s | s in t.acks :: s <= t.received)
  }

  ghost predicate Inv(t: Transport) {
    Sound(t.streams) && Numbered(t) && Loaded(t) && !t.misreported
  }

  // ---- Writing packets ----

  ghost predicate Distinct(loads: seq<Load>) { forall a, b | 0 <= a < b < |loads| :: loads[a] != loads[b] }

  /** Streams have only sent more: what was in flight or had arrived still is and has. */
  ghost predicate Grown(ys: seq<S.System>, zs: seq<S.System>) {
    |ys| <= |zs| && forall i | 0 <= i < |ys| ::
      |ys[i].snd.sent| <= |zs[i].snd.sent| && ys[i].snd.open <= zs[i].snd.open && ys[i].heard <= zs[i].heard
  }

  /** The frames taken are new, different from each other, and in flight. */
  lemma {:induction false} TakenIsNew(ys: seq<S.System>, requests: seq<Request>)
    requires Sound(ys) && forall r | r in requests :: r.stream < |ys|
    ensures var (zs, loads) := Taken(ys, requests);
            && Sound(zs) && Grown(ys, zs) && |zs| == |ys| && Distinct(loads)
            && forall l | l in loads :: l.stream < |ys| && |ys[l.stream].snd.sent| <= l.frame < |zs[l.stream].snd.sent|
                                        && l.frame in zs[l.stream].snd.open
    decreases |requests|
  {
    hide S.Step, S.Inv;
    if requests != [] {
      var r := requests[0];
      TakeOne(ys, r);
      var y := S.Step(ys[r.stream], S.Send(r.maxSize, r.maxOffset));
      TakenIsNew(ys[r.stream := y], requests[1..]);
    }
  }

  lemma {:induction false} LandedIsHeard(ys: seq<S.System>, loads: seq<Load>)
    requires Sound(ys) && forall l | l in loads :: l.stream < |ys| && l.frame < |ys[l.stream].snd.sent|
    ensures var zs := Landed(ys, loads);
            && Sound(zs) && Grown(ys, zs) && |zs| == |ys| && (forall i | 0 <= i < |ys| :: zs[i].snd == ys[i].snd)
            && forall l | l in loads :: l.frame in zs[l.stream].heard
    decreases |loads|
  {
    hide S.Step, S.Inv;
    if loads != [] {
      LandOne(ys, loads[0]);
      LandedIsHeard(ys[loads[0].stream := S.Step(ys[loads[0].stream], S.Arrive(loads[0].frame))], loads[1..]);
    }
  }

  // ---- Reports ----

  /** Reports on different frames in flight, acknowledged only if they arrived, go through one by one. */
  lemma {:induction false} ToldIsRight(ys: seq<S.System>, loads: seq<Load>, d: Delivery)
    requires Sound(ys) && Distinct(loads)
    requires forall l | l in loads :: l.stream < |ys| && l.frame in ys[l.stream].snd.open && (d.Acked? ==> l.frame in ys[l.stream].heard)
    ensures var (zs, wrong) := Told(ys, loads, d);
            && !wrong && Sound(zs) && |zs| == |ys|
            && (forall i | 0 <= i < |ys| :: zs[i].heard == ys[i].heard && zs[i].snd.sent == ys[i].snd.sent)
            && forall i: nat, k: nat | i < |ys| && k in ys[i].snd.open && Load(i, k) !in loads :: k in zs[i].snd.open
    decreases |loads|
  {
    hide S.Step, S.Inv;
    if loads != [] {
      var l := loads[0];
      assert l in loads;
      TellOne(ys, l, d);
      var y := S.Step(ys[l.stream], S.Report(l.frame, d));
      assert forall a | 0 < a < |loads| :: loads[a] != l;
      ToldIsRight(ys[l.stream := y], loads[1..], d);
    }
  }

  lemma {:induction false} CarriedMember(cargo: map<nat, seq<Load>>, ps: seq<R.Packet>, l: Load)
    ensures l in Carried(cargo, ps) <==> exists p :: p in ps && p.number in cargo && l in cargo[p.number]
  {
    if ps != [] {
      CarriedMember(cargo, ps[1..], l);
      assert ps == [ps[0]] + ps[1..];
    }
  }

  lemma {:induction false} CarriedDistinct(cargo: map<nat, seq<Load>>, ps: seq<R.Packet>)
    requires Separate(cargo) && R.Increasing(ps)
    ensures Distinct(Carried(cargo, ps))
  {
    if ps != [] {
      CarriedDistinct(cargo, ps[1..]);
      var first := if ps[0].number in cargo then cargo[ps[0].number] else [];
      var rest := Carried(cargo, ps[1..]);
      forall a, b | 0 <= a < b < |first + rest|
        ensures (first + rest)[a] != (first + rest)[b]
      {
        if a < |first| <= b {
          var l := rest[b - |first|];
          CarriedMember(cargo, ps[1..], l);
          var p :| p in ps[1..] && p.number in cargo && l in cargo[p.number];
          var i :| 0 <= i < |ps[1..]| && ps[1..][i] == p;
          assert ps[i + 1] == p && ps[0].number < p.number;
        }
      }
    }
  }

  /** The frames of packets taken out of recovery can be reported, and no other frame is affected. */
  lemma ReportedKeeps(t: Transport, gone: R.Packet -> bool, d: Delivery, recovery: R.State)
    requires Inv(t) && |recovery.spaces| == 1 && R.Inv(recovery) && recovery.registered == t.recovery.registered
    requires recovery.spaces[0].sent == R.Select(t.recovery.spaces[0].sent, p => !gone(p))
    requires d.Acked? ==> forall p | p in t.recovery.spaces[0].sent && gone(p) :: p.number in t.received
    ensures Inv(Reported(t, gone, d, recovery))
  {
    hide R.Inv, S.Inv, Told, Carried, R.Select, Separate;
    var out := R.Select(t.recovery.spaces[0].sent, gone);
    var loads := Carried(t.cargo, out);
    Reportable(t, gone, d, out, loads);
    forall l | l in loads
      ensures l.stream < |t.streams| && l.frame in t.streams[l.stream].snd.open
      ensures d.Acked? ==> l.frame in t.streams[l.stream].heard
    {
      assert InFlight(t, l) && (d.Acked? ==> Arrived(t, l));
    }
    ToldIsRight(t.streams, loads, d);
    LeftAlone(t, gone, out, loads);
    StillLoaded(t, gone, recovery, Reported(t, gone, d, recovery), loads);
  }

  /** The frames of packets that leave are different, in flight, and arrived if they are acknowledged. */
  lemma Reportable(t: Transport, gone: R.Packet -> bool, d: Delivery, out: seq<R.Packet>, loads: seq<Load>)
    requires Numbered(t) && Loaded(t) && out == R.Select(t.recovery.spaces[0].sent, gone) && loads == Carried(t.cargo, out)
    requires d.Acked? ==> forall p | p in t.recovery.spaces[0].sent && gone(p) :: p.number in t.received
    ensures Distinct(loads) && forall l | l in loads :: InFlight(t, l) && (d.Acked? ==> Arrived(t, l))
  {
    var sent := t.recovery.spaces[0].sent;
    assert R.SpaceInv(t.recovery.spaces[0]);
    hide R.Inv;
    R.SelectIncreasing(sent, gone);
    CarriedDistinct(t.cargo, out);
    forall l | l in loads
      ensures InFlight(t, l) && (d.Acked? ==> Arrived(t, l))
    {
      CarriedMember(t.cargo, out, l);
      var p :| p in out && p.number in t.cargo && l in t.cargo[p.number];
      R.SelectMember(sent, gone, p);
    }
  }

  lemma OneCargo(cargo: map<nat, seq<Load>>, n: nat, m: nat, l: Load)
    requires Separate(cargo) && n in cargo && m in cargo && l in cargo[n] && l in cargo[m]
    ensures n == m
  {
    var a :| 0 <= a < |cargo[n]| && cargo[n][a] == l;
    var b :| 0 <= b < |cargo[m]| && cargo[m][b] == l;
  }

  lemma OnePacket(ps: seq<R.Packet>, p: R.Packet, q: R.Packet)
    requires R.Increasing(ps) && p in ps && q in ps && p.number == q.number
    ensures p == q
  {
    var i :| 0 <= i < |ps| && ps[i] == p;
    var j :| 0 <= j < |ps| && ps[j] == q;
  }

  /** A packet that stays shares no frame with those that leave. */
  lemma LeftAlone(t: Transport, gone: R.Packet -> bool, out: seq<R.Packet>, loads: seq<Load>)
    requires Numbered(t) && Separate(t.cargo)
    requires out == R.Select(t.recovery.spaces[0].sent, gone) && loads == Carried(t.cargo, out)
    ensures forall p, l | p in R.Select(t.recovery.spaces[0].sent, x => !gone(x)) && p.number in t.cargo && l in t.cargo[p.number] ::
              l !in loads && p in t.recovery.spaces[0].sent
  {
    var sent := t.recovery.spaces[0].sent;
    assert R.SpaceInv(t.recovery.spaces[0]);
    hide R.Inv;
    forall p, l | p in R.Select(sent, x => !gone(x)) && p.number in t.cargo && l in t.cargo[p.number]
      ensures l !in loads && p in sent
    {
      R.SelectMember(sent, x => !gone(x), p);
      CarriedMember(t.cargo, out, l);
      forall q | q in out && q.number in t.cargo && l in t.cargo[q.number]
        ensures q == p && gone(q)
      {
        R.SelectMember(sent, gone, q);
        OneCargo(t.cargo, p.number, q.number, l);
        OnePacket(sent, p, q);
      }
    }
  }

  lemma StillLoaded(t: Transport, gone: R.Packet -> bool, recovery: R.State, z: Transport, loads: seq<Load>)
    requires Inv(t) && |recovery.spaces| == 1 && R.Inv(recovery) && recovery.registered == t.recovery.registered
    requires recovery.spaces[0].sent == R.Select(t.recovery.spaces[0].sent, p => !gone(p))
    requires z == t.(streams := z.streams, recovery := recovery) && Sound(z.streams) && |z.streams| == |t.streams|
    requires forall i | 0 <= i < |t.streams| ::
               z.streams[i].heard == t.streams[i].heard && z.streams[i].snd.sent == t.streams[i].snd.sent
    requires forall i: nat, k: nat | i < |t.streams| && k in t.streams[i].snd.open && Load(i, k) !in loads ::
               k in z.streams[i].snd.open
    requires forall p, l | p in recovery.spaces[0].sent && p.number in t.cargo && l in t.cargo[p.number] ::
               l !in loads && p in t.recovery.spaces[0].sent
    ensures Inv(z)
  {
    hide R.Inv, S.Inv, R.Select;
    forall p | p in z.recovery.spaces[0].sent
      ensures p.number in z.cargo
    {
      R.SelectMember(t.recovery.spaces[0].sent, x => !gone(x), p);
    }
    forall p, l | p in z.recovery.spaces[0].sent && p.number in z.cargo && l in z.cargo[p.number]
      ensures InFlight(z, l)
    {
      assert InFlight(t, l);
    }
    forall n, l | n in z.cargo && l in z.cargo[n]
      ensures Fits(z, l)
    {
      assert Fits(t, l);
    }
    forall n, l | n in z.received && n in z.cargo && l in z.cargo[n]
      ensures Arrived(z, l)
    {
      assert Arrived(t, l);
    }
  }

  // ---- Every step ----

  lemma GrownLoaded(t: Transport, z: Transport)
    requires Inv(t) && z == t.(streams := z.streams) && Sound(z.streams) && Grown(t.streams, z.streams)
    ensures Inv(z)
  {
    hide R.Inv, S.Inv;
    forall n, l | n in z.cargo && l in z.cargo[n]
      ensures Fits(z, l)
    {
      assert Fits(t, l);
    }
    forall p, l | p in z.recovery.spaces[0].sent && p.number in z.cargo && l in z.cargo[p.number]
      ensures InFlight(z, l)
    {
      assert InFlight(t, l);
    }
    forall n, l | n in z.received && n in z.cargo && l in z.cargo[n]
      ensures Arrived(z, l)
    {
      assert Arrived(t, l);
    }
  }

  lemma SendPacketKeeps(t: Transport, packet: R.Packet, requests: seq<Request>)
    requires Inv(t) && forall r | r in requests :: r.stream < |t.streams|
    ensures Inv(Step(t, SendPacket(packet, requests)))
  {
    var z := Step(t, SendPacket(packet, requests));
    var (ys, loads) := Taken(t.streams, requests);
    var p := packet.(number := t.next);
    TakenIsNew(t.streams, requests);
    hide Taken;
    R.SentKeeps(t.recovery, 0, p);
    GrownLoaded(t, t.(streams := ys));
    hide R.Inv, S.Inv, Grown;
    assert t.next !in t.cargo;
    NewCargo(t, loads);
    assert z.recovery.spaces[0].sent == t.recovery.spaces[0].sent + [p];
    LoadedWith(t.(streams := ys), z, p, loads);
  }

  /** The frames of a new packet are in no other packet. */
  lemma NewCargo(t: Transport, loads: seq<Load>)
    requires Loaded(t) && t.next !in t.cargo && Distinct(loads)
    requires forall l | l in loads :: l.stream < |t.streams| && |t.streams[l.stream].snd.sent| <= l.frame
    ensures Separate(t.cargo[t.next := loads])
  {
    var cargo := t.cargo[t.next := loads];
    forall n, m, a, b | n in cargo && m in cargo && 0 <= a < |cargo[n]| && 0 <= b < |cargo[m]| && cargo[n][a] == cargo[m][b]
      ensures n == m && a == b
    {
      if n != t.next { assert cargo[n][a] in t.cargo[n] && Fits(t, cargo[n][a]); }
      if m != t.next { assert cargo[m][b] in t.cargo[m] && Fits(t, cargo[m][b]); }
    }
  }

  lemma LoadedWith(t: Transport, z: Transport, p: R.Packet, loads: seq<Load>)
    requires Inv(t) && t.next !in t.cargo && p.number == t.next
    requires z == t.(recovery := z.recovery, cargo := t.cargo[t.next := loads], next := t.next + 1)
    requires |z.recovery.spaces| == 1 && R.Inv(z.recovery) && z.recovery.registered == t.recovery.registered + {(0, p.number)}
    requires z.recovery.spaces[0].sent == t.recovery.spaces[0].sent + [p] && Separate(z.cargo)
    requires forall l | l in loads :: InFlight(t, l)
    ensures Inv(z)
  {
    hide R.Inv, S.Inv;
    forall n, l | n in z.cargo && l in z.cargo[n]
      ensures Fits(z, l)
    {
      assert n == t.next ==> InFlight(t, l);
      assert n != t.next ==> Fits(t, l);
    }
    forall q, l | q in z.recovery.spaces[0].sent && q.number in z.cargo && l in z.cargo[q.number]
      ensures InFlight(z, l)
    {
      assert q == p || q in t.recovery.spaces[0].sent;
      assert InFlight(t, l);
    }
    forall n, l | n in z.received && n in z.cargo && l in z.cargo[n]
      ensures Arrived(z, l)
    {
      assert Arrived(t, l);
    }
  }

  lemma ArrivalKeeps(t: Transport, n: nat)
    requires Inv(t) && n in t.cargo
    ensures Inv(Step(t, PacketArrives(n)))
  {
    hide R.Inv, S.Inv, Landed;
    assert forall l | l in t.cargo[n] :: Fits(t, l);
    LandedIsHeard(t.streams, t.cargo[n]);
    var z := t.(streams := Landed(t.streams, t.cargo[n]));
    GrownLoaded(t, z);
    WithReceived(z, n);
  }

  lemma WithReceived(t: Transport, n: nat)
    requires Inv(t) && n in t.cargo && forall l | l in t.cargo[n] :: Arrived(t, l)
    ensures Inv(t.(received := t.received + {n}))
  {
    hide R.Inv, S.Inv, Sound, Separate;
    var z := t.(received := t.received + {n});
    forall m, l | m in z.received && m in z.cargo && l in z.cargo[m]
      ensures Arrived(z, l)
    {
      assert Arrived(t, l);
    }
    forall m, l | m in z.cargo && l in z.cargo[m]
      ensures Fits(z, l)
    {
      assert Fits(t, l);
    }
    forall p, l | p in z.recovery.spaces[0].sent && p.number in z.cargo && l in z.cargo[p.number]
      ensures InFlight(z, l)
    {
      assert InFlight(t, l);
    }
  }

  lemma AckKeeps(t: Transport, numbers: set<nat>, largest: int)
    requires Inv(t) && numbers in t.acks
    ensures Inv(Step(t, AckArrives(numbers, largest)))
  {
    var gone := (p: R.Packet) => p.number in numbers;
    R.StepKeeps(t.recovery, R.Ack(0, Ints(numbers), largest));
    var r := R.Acknowledged(t.recovery, 0, Ints(numbers), largest);
    SameSelection(t.recovery.spaces[0].sent, p => !((x: R.Packet) => x.number in Ints(numbers))(p), p => !gone(p));
    hide R.Inv;
    ReportedKeeps(t, gone, Acked, r);
  }

  lemma {:induction false} SameSelection(ps: seq<R.Packet>, a: R.Packet -> bool, b: R.Packet -> bool)
    requires forall p | p in ps :: a(p) == b(p)
    ensures R.Select(ps, a) == R.Select(ps, b)
  {
    if ps != [] {
      SameSelection(ps[1..], a, b);
    }
  }

  lemma LostShape(r: R.State, now: real, delay: real, gone: R.Packet -> bool)
    requires |r.spaces| == 1 && gone == ((p: R.Packet) => R.IsLost(p, r.spaces[0].largestAcked, now - delay))
    ensures var d := R.Detected(r, 0, now, delay);
            |d.spaces| == 1 && d.registered == r.registered && d.spaces[0].sent == R.Select(r.spaces[0].sent, p => !gone(p))
  {
  }

  lemma LossKeeps(t: Transport, now: real, delay: real)
    requires Inv(t)
    ensures Inv(Step(t, DetectLoss(now, delay)))
  {
    hide R.Inv, R.Detected, Loaded, Sound, Reported;
    var s := t.recovery.spaces[0];
    var gone := (p: R.Packet) => R.IsLost(p, s.largestAcked, now - delay);
    R.StepKeeps(t.recovery, R.DetectLoss(0, now, delay));
    LostShape(t.recovery, now, delay, gone);
    ReportedKeeps(t, gone, Lost, R.Detected(t.recovery, 0, now, delay));
  }

  lemma CryptoShape(r: R.State, now: real, gone: R.Packet -> bool)
    requires |r.spaces| == 1 && gone == ((p: R.Packet) => p.crypto)
    ensures var d := R.CryptoLost(r, 0, now);
            |d.spaces| == 1 && d.registered == r.registered && d.spaces[0].sent == R.Select(r.spaces[0].sent, p => !gone(p))
  {
  }

  lemma RescheduleKeeps(t: Transport, now: real)
    requires Inv(t)
    ensures Inv(Step(t, Reschedule(now)))
  {
    hide R.Inv, R.CryptoLost, Loaded, Sound, Reported;
    var gone := (p: R.Packet) => p.crypto;
    R.StepKeeps(t.recovery, R.Reschedule(0, now));
    CryptoShape(t.recovery, now, gone);
    ReportedKeeps(t, gone, Lost, R.CryptoLost(t.recovery, 0, now));
  }

  lemma WriteKeepsAll(t: Transport, i: nat, data: seq<byte>, end: bool)
    requires Inv(t) && i < |t.streams| && !t.streams[i].snd.fin
    ensures Inv(Step(t, AppWrite(i, data, end)))
  {
    hide Numbered, Loaded;
    WriteGrows(t.streams, i, data, end);
    GrownLoaded(t, Step(t, AppWrite(i, data, end)));
  }

  lemma WriteGrows(ys: seq<S.System>, i: nat, data: seq<byte>, end: bool)
    requires Sound(ys) && i < |ys| && !ys[i].snd.fin
    ensures var zs := ys[i := S.Step(ys[i], S.DoWrite(data, end))]; Sound(zs) && Grown(ys, zs)
  {
    S.StepKeeps(ys[i], S.DoWrite(data, end));
    hide S.Inv;
  }

  lemma StepKeeps(t: Transport, a: Action)
    requires Inv(t) && Enabled(t, a)
    ensures Inv(Step(t, a))
  {
    match a
    case Open =>
      S.StartHolds();
      hide S.Inv, R.Inv;
      GrownLoaded(t, Step(t, a));
    case AppWrite(i, data, end) => WriteKeepsAll(t, i, data, end);
    case Drop(request) =>
      TakenIsNew(t.streams, [request]);
      hide S.Inv, R.Inv, Taken;
      GrownLoaded(t, Step(t, a));
    case SendPacket(packet, requests) => SendPacketKeeps(t, packet, requests);
    case PacketArrives(n) => ArrivalKeeps(t, n);
    case SendAck(numbers) =>
      hide S.Inv, R.Inv;
      FewerTracked(t, t.(acks := t.acks + {numbers}));
    case AckArrives(numbers, largest) => AckKeeps(t, numbers, largest);
    case DetectLoss(now, delay) => LossKeeps(t, now, delay);
    case Reschedule(now) => RescheduleKeeps(t, now);
    case ExitSlowStart =>
      R.StepKeeps(t.recovery, R.ExitSlowStart);
      hide S.Inv, R.Inv;
      FewerTracked(t, t.(recovery := R.Step(t.recovery, R.ExitSlowStart)));
    case DiscardSpace =>
      R.StepKeeps(t.recovery, R.Discard(0));
      hide S.Inv, R.Inv;
      FewerTracked(t, t.(recovery := R.Discarded(t.recovery, 0)));
  }

  lemma FewerTracked(t: Transport, z: Transport)
    requires Inv(t) && z == t.(recovery := z.recovery, acks := z.acks) && |z.recovery.spaces| == 1 && R.Inv(z.recovery)
    requires forall s | s in z.acks :: s <= t.received
    requires z.recovery.registered == t.recovery.registered
    requires forall p | p in z.recovery.spaces[0].sent :: p in t.recovery.spaces[0].sent
    ensures Inv(z)
  {
    hide R.Inv, S.Inv, Sound, Separate;
    forall n, l | n in z.cargo && l in z.cargo[n]
      ensures Fits(z, l)
    {
      assert Fits(t, l);
    }
    forall p, l | p in z.recovery.spaces[0].sent && p.number in z.cargo && l in z.cargo[p.number]
      ensures InFlight(z, l)
    {
      assert InFlight(t, l);
    }
    forall n, l | n in z.received && n in z.cargo && l in z.cargo[n]
      ensures Arrived(z, l)
    {
      assert Arrived(t, l);
    }
  }

  // ---- Runs ----

  ghost predicate Legal(size: nat, acts: seq<Action>)
    requires size > 0
    decreases |acts|, 0
  {
    acts == [] || (Legal(size, acts[..|acts| - 1]) && Enabled(Run(size, acts[..|acts| - 1]), acts[|acts| - 1]))
  }

  ghost function Run(size: nat, acts: seq<Action>): (t: Transport)
    requires size > 0 && Legal(size, acts)
    ensures Inv(t)
    decreases |acts|, 1
  {
    if acts == [] then R.NewStateHolds(1, size); Init(size)
    else
      StepKeeps(Run(size, acts[..|acts| - 1]), acts[|acts| - 1]);
      Step(Run(size, acts[..|acts| - 1]), acts[|acts| - 1])
  }

  /**
   In every run over a network that loses, duplicates and reorders packets and ACK frames: no delivery handler is ever
   run twice for a frame, or for one that is not in flight, and none hears of an acknowledgement unless its frame
   arrived. So for every stream the output is a prefix of the input, and a finished sender means a receiver that has
   handed everything over and is finished.
   */
  lemma EveryStreamDelivers(size: nat, acts: seq<Action>, i: nat)
    requires size > 0 && Legal(size, acts) && i < |Run(size, acts).streams|
    ensures var t := Run(size, acts);
            var y := t.streams[i];
            && !t.misreported && y.honest && !y.failed && y.out <= y.snd.written
            && (y.snd.finished ==> y.rcv.finished && y.out == y.snd.written)
  {
    var t := Run(size, acts);
    var y := t.streams[i];
    assert S.Inv(y) && y.honest;
    hide Run, Legal;
    if y.snd.finished { S.FinishedIsDelivered(y); }
    hide SenderInv, S.Trusting;
  }

  /** While a packet is tracked, every frame it carries is in flight, and no other packet carries it. */
  lemma TrackedIsInFlight(size: nat, acts: seq<Action>, p: R.Packet, l: Load)
    requires size > 0 && Legal(size, acts)
    requires var t := Run(size, acts);
             |t.recovery.spaces| == 1 && p in t.recovery.spaces[0].sent && p.number in t.cargo && l in t.cargo[p.number]
    ensures var t := Run(size, acts);
            InFlight(t, l) && forall n | n in t.cargo && l in t.cargo[n] :: n == p.number
  {
    var t := Run(size, acts);
    assert Inv(t);
    hide Run, Legal, R.Inv, S.Inv;
    forall n | n in t.cargo && l in t.cargo[n]
      ensures n == p.number
    {
      var a :| 0 <= a < |t.cargo[n]| && t.cargo[n][a] == l;
      var b :| 0 <= b < |t.cargo[p.number]| && t.cargo[p.number][b] == l;
    }
  }
}
