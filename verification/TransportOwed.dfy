/**
 No report is forgotten: every frame in flight is carried by a packet still tracked, unless its packet was dropped or
 discarded, and what recovery decides about a packet reaches the bytes of its frames.
 */
module TransportOwed {
  import opened Common
  import opened StreamSpec
  import S = StreamRuns
  import R = RecoverySpec
  import opened TransportRuns

  // ---- What a report does to the bytes of a frame ----

  /** The bytes of a frame are acknowledged, and so is its FIN. */
  ghost predicate Done(ys: seq<S.System>, l: Load) {
    l.stream < |ys| && l.frame < |ys[l.stream].snd.sent| &&
    var s := ys[l.stream].snd;
    && (forall x | x in s.sent[l.frame].Offsets() :: x < s.start || x in s.acked)
    && (s.sent[l.frame].fin ==> s.ackedFin)
  }

  /** The bytes of a frame wait to be sent again, and so does its FIN. */
  ghost predicate Waits(ys: seq<S.System>, l: Load) {
    l.stream < |ys| && l.frame < |ys[l.stream].snd.sent| &&
    var s := ys[l.stream].snd;
    && s.sent[l.frame].Offsets() <= s.pending && (s.sent[l.frame].fin ==> s.pendingEof) && (s.sent[l.frame].data != [] ==> !s.bufferIsEmpty)
  }

  ghost predicate Settled(ys: seq<S.System>, l: Load, d: Delivery) { if d.Acked? then Done(ys, l) else Waits(ys, l) }

  lemma ReportSettles(ys: seq<S.System>, l: Load, d: Delivery, m: Load)
    requires Sound(ys) && l.stream < |ys| && l.frame in ys[l.stream].snd.open && (d.Acked? ==> l.frame in ys[l.stream].heard)
    ensures var zs := ys[l.stream := S.Step(ys[l.stream], S.Report(l.frame, d))];
            Settled(zs, l, d) && (Settled(ys, m, d) ==> Settled(zs, m, d))
  {
    assert S.Inv(ys[l.stream]);
    ReportOne(ys[l.stream].snd, d, l.frame);
    hide S.Inv, SenderInv, OnDelivery;
  }

  lemma ReportOne(s: Sender, d: Delivery, k: nat)
    requires SenderInv(s) && k in s.open
    ensures k < |s.sent|
    ensures var t := OnDelivery(s, d, k);
            && t.sent == s.sent
            && (d.Acked? ==>
                  && (forall x | x in s.sent[k].Offsets() :: x < t.start || x in t.acked) && (s.sent[k].fin ==> t.ackedFin)
                  && (forall x | x < s.start || x in s.acked :: x < t.start || x in t.acked) && (s.ackedFin ==> t.ackedFin))
            && (d.Lost? ==>
                  && s.sent[k].Offsets() <= t.pending && (s.sent[k].fin ==> t.pendingEof)
                  && (s.sent[k].data != [] ==> !t.bufferIsEmpty)
                  && s.pending <= t.pending && (s.pendingEof ==> t.pendingEof) && (!s.bufferIsEmpty ==> !t.bufferIsEmpty))
  {
    if d.Acked? { AckConserves(s, k); }
    hide Accurate, FinTracked, RunEnd;
  }

  /** Every frame reported is settled by its report. */
  lemma {:induction false} ToldSettles(ys: seq<S.System>, loads: seq<Load>, d: Delivery, m: Load)
    requires Sound(ys) && Distinct(loads)
    requires forall l | l in loads :: l.stream < |ys| && l.frame in ys[l.stream].snd.open && (d.Acked? ==> l.frame in ys[l.stream].heard)
    ensures m in loads || Settled(ys, m, d) ==> Settled(Told(ys, loads, d).0, m, d)
    decreases |loads|
  {
    hide S.Step, S.Inv, Settled;
    if loads != [] {
      var l := loads[0];
      assert l in loads;
      TellOne(ys, l, d);
      ReportSettles(ys, l, d, m);
      var y := S.Step(ys[l.stream], S.Report(l.frame, d));
      assert forall a | 0 < a < |loads| :: loads[a] != l;
      assert loads == [l] + loads[1..];
      ToldSettles(ys[l.stream := y], loads[1..], d, m);
    }
  }

  /** An ACK that arrives settles every frame of the packets it names as acknowledged. */
  lemma AckReachesFrames(t: Transport, numbers: set<nat>, largest: int, p: R.Packet, l: Load)
    requires Inv(t) && numbers in t.acks
    requires p in t.recovery.spaces[0].sent && p.number in numbers && p.number in t.cargo && l in t.cargo[p.number]
    ensures Done(Step(t, AckArrives(numbers, largest)).streams, l)
  {
    hide R.Inv, S.Inv, Told, Carried, R.Select, Separate, Settled, Done, Waits;
    var gone := (x: R.Packet) => x.number in numbers;
    ReportReaches(t, gone, Acked, p, l);
    assert Settled(Step(t, AckArrives(numbers, largest)).streams, l, Acked);
    Unfold(Step(t, AckArrives(numbers, largest)).streams, l);
  }

  lemma Unfold(ys: seq<S.System>, l: Load)
    ensures Settled(ys, l, Acked) == Done(ys, l) && Settled(ys, l, Lost) == Waits(ys, l)
  {
    hide Done, Waits;
  }

  /** A packet found lost puts the bytes of every frame it carried back among those to be sent. */
  lemma LossReachesFrames(t: Transport, now: real, delay: real, p: R.Packet, l: Load)
    requires Inv(t) && p in t.recovery.spaces[0].sent && p.number in t.cargo && l in t.cargo[p.number]
    requires p.number <= t.recovery.spaces[0].largestAcked
    requires p.number + 3 <= t.recovery.spaces[0].largestAcked || p.sentTime + delay <= now
    ensures Waits(Step(t, DetectLoss(now, delay)).streams, l)
  {
    hide R.Inv, S.Inv, Told, Carried, R.Select, Separate, Settled, Done, Waits;
    var s := t.recovery.spaces[0];
    var gone := (x: R.Packet) => R.IsLost(x, s.largestAcked, now - delay);
    ReportReaches(t, gone, Lost, p, l);
    Unfold(Step(t, DetectLoss(now, delay)).streams, l);
  }

  lemma ReportReaches(t: Transport, gone: R.Packet -> bool, d: Delivery, p: R.Packet, l: Load)
    requires Inv(t) && p in t.recovery.spaces[0].sent && gone(p) && p.number in t.cargo && l in t.cargo[p.number]
    requires d.Acked? ==> forall q | q in t.recovery.spaces[0].sent && gone(q) :: q.number in t.received
    ensures Settled(Told(t.streams, Carried(t.cargo, R.Select(t.recovery.spaces[0].sent, gone)), d).0, l, d)
  {
    var out := R.Select(t.recovery.spaces[0].sent, gone);
    var loads := Carried(t.cargo, out);
    R.SelectMember(t.recovery.spaces[0].sent, gone, p);
    CarriedMember(t.cargo, out, l);
    hide R.Inv, S.Inv, Told, Carried, R.Select, Separate, Settled;
    Reportable(t, gone, d, out, loads);
    forall x | x in loads
      ensures x.stream < |t.streams| && x.frame in t.streams[x.stream].snd.open && (d.Acked? ==> x.frame in t.streams[x.stream].heard)
    {
      assert TransportRuns.InFlight(t, x) && (d.Acked? ==> Arrived(t, x));
    }
    ToldSettles(t.streams, loads, d, l);
  }

  // ---- No frame is left without a report to come ----

  /** A packet that is tracked carries the frame. */
  ghost predicate OnBoard(t: Transport, l: Load) {
    exists p :: |t.recovery.spaces| > 0 && p in t.recovery.spaces[0].sent && p.number in t.cargo && l in t.cargo[p.number]
  }

  /** Every frame in flight is on board of a tracked packet, but for those forgotten. */
  ghost predicate Owed(t: Transport, forgotten: iset<Load>) {
    forall i: nat, k: nat | i < |t.streams| && k in t.streams[i].snd.open :: OnBoard(t, Load(i, k)) || Load(i, k) in forgotten
  }

  /** What a step forgets: a frame taken and dropped, and everything on board when the space is discarded. */
  ghost function Forgets(t: Transport, a: Action): iset<Load>
    requires Inv(t) && Enabled(t, a)
  {
    match a
    case Drop(request) => iset l | l in Taken(t.streams, [request]).1
    case DiscardSpace => iset l | OnBoard(t, l)
    case _ => iset{}
  }

  lemma {:induction false} TakenOpens(ys: seq<S.System>, requests: seq<Request>, i: nat, k: nat)
    requires Sound(ys) && (forall r | r in requests :: r.stream < |ys|) && i < |ys|
    ensures var (zs, loads) := Taken(ys, requests);
            |zs| == |ys| && (k in zs[i].snd.open <==> k in ys[i].snd.open || Load(i, k) in loads)
    decreases |requests|
  {
    hide S.Step, S.Inv;
    if requests != [] {
      var r := requests[0];
      TakeOne(ys, r);
      var y := S.Step(ys[r.stream], S.Send(r.maxSize, r.maxOffset));
      TakenOpens(ys[r.stream := y], requests[1..], i, k);
    }
  }

  lemma {:induction false} ToldCloses(ys: seq<S.System>, loads: seq<Load>, d: Delivery, i: nat, k: nat)
    requires Sound(ys) && Distinct(loads) && i < |ys|
    requires forall l | l in loads :: l.stream < |ys| && l.frame in ys[l.stream].snd.open && (d.Acked? ==> l.frame in ys[l.stream].heard)
    ensures var zs := Told(ys, loads, d).0;
            |zs| == |ys| && (k in zs[i].snd.open <==> k in ys[i].snd.open && Load(i, k) !in loads)
    decreases |loads|
  {
    hide S.Step, S.Inv;
    if loads != [] {
      var l := loads[0];
      assert l in loads;
      TellOne(ys, l, d);
      var y := S.Step(ys[l.stream], S.Report(l.frame, d));
      assert forall a | 0 < a < |loads| :: loads[a] != l;
      assert loads == [l] + loads[1..];
      ToldCloses(ys[l.stream := y], loads[1..], d, i, k);
    }
  }

  /** Packets that leave take their frames out of flight; what is still in flight is on board of those that stay. */
  lemma ReportedOwed(t: Transport, gone: R.Packet -> bool, d: Delivery, recovery: R.State, forgotten: iset<Load>)
    requires Inv(t) && |recovery.spaces| == 1 && Owed(t, forgotten)
    requires recovery.spaces[0].sent == R.Select(t.recovery.spaces[0].sent, p => !gone(p))
    requires d.Acked? ==> forall q | q in t.recovery.spaces[0].sent && gone(q) :: q.number in t.received
    ensures Owed(Reported(t, gone, d, recovery), forgotten)
  {
    hide R.Inv, S.Inv, Told, Carried, R.Select, Separate;
    var sent := t.recovery.spaces[0].sent;
    var out := R.Select(sent, gone);
    var loads := Carried(t.cargo, out);
    Reportable(t, gone, d, out, loads);
    forall x | x in loads
      ensures x.stream < |t.streams| && x.frame in t.streams[x.stream].snd.open && (d.Acked? ==> x.frame in t.streams[x.stream].heard)
    {
      assert TransportRuns.InFlight(t, x) && (d.Acked? ==> Arrived(t, x));
    }
    var z := Reported(t, gone, d, recovery);
    ToldIsRight(t.streams, loads, d);
    forall i: nat, k: nat | i < |z.streams| && k in z.streams[i].snd.open
      ensures OnBoard(z, Load(i, k)) || Load(i, k) in forgotten
    {
      ToldCloses(t.streams, loads, d, i, k);
      if OnBoard(t, Load(i, k)) {
        var p :| p in sent && p.number in t.cargo && Load(i, k) in t.cargo[p.number];
        CarriedMember(t.cargo, out, Load(i, k));
        R.SelectMember(sent, gone, p);
        R.SelectMember(sent, x => !gone(x), p);
        assert p in z.recovery.spaces[0].sent;
      }
    }
  }

  /** Nothing new in flight, and no packet less. */
  lemma SameOwed(t: Transport, z: Transport, forgotten: iset<Load>)
    requires Inv(t) && Owed(t, forgotten) && |z.recovery.spaces| == 1
    requires z.cargo == t.cargo && z.recovery.spaces[0].sent == t.recovery.spaces[0].sent
    requires forall i: nat, k: nat | i < |z.streams| && k in z.streams[i].snd.open :: i < |t.streams| && k in t.streams[i].snd.open
    ensures Owed(z, forgotten)
  {
    hide R.Inv, S.Inv, Separate;
    forall i: nat, k: nat | i < |z.streams| && k in z.streams[i].snd.open
      ensures OnBoard(z, Load(i, k)) || Load(i, k) in forgotten
    {
      if OnBoard(t, Load(i, k)) {
        var p :| p in t.recovery.spaces[0].sent && p.number in t.cargo && Load(i, k) in t.cargo[p.number];
        assert p in z.recovery.spaces[0].sent;
      }
    }
  }

  lemma SendOwed(t: Transport, packet: R.Packet, requests: seq<Request>, forgotten: iset<Load>)
    requires Inv(t) && Owed(t, forgotten) && forall r | r in requests :: r.stream < |t.streams|
    ensures Owed(Step(t, SendPacket(packet, requests)), forgotten)
  {
    hide R.Inv, S.Inv, Taken, Separate;
    var z := Step(t, SendPacket(packet, requests));
    var p := packet.(number := t.next);
    TakenIsNew(t.streams, requests);
    assert z.recovery.spaces[0].sent == t.recovery.spaces[0].sent + [p];
    forall i: nat, k: nat | i < |z.streams| && k in z.streams[i].snd.open
      ensures OnBoard(z, Load(i, k)) || Load(i, k) in forgotten
    {
      TakenOpens(t.streams, requests, i, k);
      if k in t.streams[i].snd.open {
        if OnBoard(t, Load(i, k)) {
          var q :| q in t.recovery.spaces[0].sent && q.number in t.cargo && Load(i, k) in t.cargo[q.number];
          assert q in z.recovery.spaces[0].sent && q.number != t.next;
        }
      } else {
        assert p in z.recovery.spaces[0].sent;
      }
    }
  }

  lemma DropOwed(t: Transport, request: Request, forgotten: iset<Load>)
    requires Inv(t) && Owed(t, forgotten) && request.stream < |t.streams|
    ensures Owed(Step(t, Drop(request)), forgotten + Forgets(t, Drop(request)))
  {
    hide R.Inv, S.Inv, Taken, Separate;
    var z := Step(t, Drop(request));
    TakenIsNew(t.streams, [request]);
    forall i: nat, k: nat | i < |z.streams| && k in z.streams[i].snd.open
      ensures OnBoard(z, Load(i, k)) || Load(i, k) in forgotten + Forgets(t, Drop(request))
    {
      TakenOpens(t.streams, [request], i, k);
      if k in t.streams[i].snd.open && OnBoard(t, Load(i, k)) {
        var q :| q in t.recovery.spaces[0].sent && q.number in t.cargo && Load(i, k) in t.cargo[q.number];
        assert q in z.recovery.spaces[0].sent;
      }
    }
  }

  lemma ArriveOwed(t: Transport, n: nat, forgotten: iset<Load>)
    requires Inv(t) && Owed(t, forgotten) && n in t.cargo
    ensures Owed(Step(t, PacketArrives(n)), forgotten)
  {
    hide R.Inv, S.Inv, Landed, Separate;
    assert forall l | l in t.cargo[n] :: Fits(t, l);
    LandedIsHeard(t.streams, t.cargo[n]);
    SameOwed(t, Step(t, PacketArrives(n)), forgotten);
  }

  lemma WriteOwed(t: Transport, i: nat, data: seq<byte>, end: bool, forgotten: iset<Load>)
    requires Inv(t) && Owed(t, forgotten) && i < |t.streams| && !t.streams[i].snd.fin
    ensures Owed(Step(t, AppWrite(i, data, end)), forgotten)
  {
    hide R.Inv, Separate, Owed;
    assert S.Inv(t.streams[i]);
    hide S.Inv;
    SameOwed(t, Step(t, AppWrite(i, data, end)), forgotten);
  }

  lemma StepOwed(t: Transport, a: Action, forgotten: iset<Load>)
    requires Inv(t) && Enabled(t, a) && Owed(t, forgotten)
    ensures Owed(Step(t, a), forgotten + Forgets(t, a))
  {
    hide R.Inv, S.Inv, Owed, Sound, Loaded, R.Detected, R.CryptoLost;
    var all := forgotten + Forgets(t, a);
    match a
    case Open =>
      assert all == forgotten;
      SameOwed(t, Step(t, a), forgotten);
    case AppWrite(i, data, end) =>
      assert all == forgotten;
      WriteOwed(t, i, data, end, forgotten);
    case Drop(request) => DropOwed(t, request, forgotten);
    case SendPacket(packet, requests) =>
      assert all == forgotten;
      SendOwed(t, packet, requests, forgotten);
    case PacketArrives(n) =>
      assert all == forgotten;
      ArriveOwed(t, n, forgotten);
    case SendAck(numbers) =>
      assert all == forgotten;
      SameOwed(t, Step(t, a), forgotten);
    case AckArrives(numbers, largest) =>
      assert all == forgotten;
      AckOwed(t, numbers, largest, forgotten);
    case DetectLoss(now, delay) =>
      assert all == forgotten;
      var gone := (p: R.Packet) => R.IsLost(p, t.recovery.spaces[0].largestAcked, now - delay);
      LostShape(t.recovery, now, delay, gone);
      ReportedOwed(t, gone, Lost, R.Detected(t.recovery, 0, now, delay), forgotten);
    case Reschedule(now) =>
      assert all == forgotten;
      var gone := (p: R.Packet) => p.crypto;
      CryptoShape(t.recovery, now, gone);
      ReportedOwed(t, gone, Lost, R.CryptoLost(t.recovery, 0, now), forgotten);
    case ExitSlowStart =>
      assert all == forgotten;
      SameOwed(t, Step(t, a), forgotten);
    case DiscardSpace => DiscardOwed(t, forgotten);
  }

  lemma AckOwed(t: Transport, numbers: set<nat>, largest: int, forgotten: iset<Load>)
    requires Inv(t) && Owed(t, forgotten) && numbers in t.acks
    ensures Owed(Step(t, AckArrives(numbers, largest)), forgotten)
  {
    hide S.Inv, Owed, Separate;
    var gone := (p: R.Packet) => p.number in numbers;
    assert forall n: nat :: n in Ints(numbers) <==> n in numbers;
    SameSelection(t.recovery.spaces[0].sent, p => !((x: R.Packet) => x.number in Ints(numbers))(p), p => !gone(p));
    assert t.recovery.cc.window > 0;
    hide R.Inv;
    ReportedOwed(t, gone, Acked, R.Acknowledged(t.recovery, 0, Ints(numbers), largest), forgotten);
  }

  lemma DiscardOwed(t: Transport, forgotten: iset<Load>)
    requires Inv(t) && Owed(t, forgotten)
    ensures Owed(Step(t, DiscardSpace), forgotten + Forgets(t, DiscardSpace))
  {
    hide R.Inv, S.Inv, Separate, OnBoard;
  }

  /** Everything forgotten in a run. */
  ghost function Forgotten(size: nat, acts: seq<Action>): iset<Load>
    requires size > 0 && Legal(size, acts)
    decreases |acts|
  {
    if acts == [] then iset{}
    else Forgotten(size, acts[..|acts| - 1]) + Forgets(Run(size, acts[..|acts| - 1]), acts[|acts| - 1])
  }

  /**
   In every run each frame in flight travels in a packet that is still tracked, so that its report is to come, unless
   it was dropped before it went into a packet or the space of its packet was discarded. With `AckReachesFrames` and
   `LossReachesFrames` that report settles its bytes.
   */
  lemma {:induction false} EveryFrameIsOwed(size: nat, acts: seq<Action>)
    requires size > 0 && Legal(size, acts)
    ensures Owed(Run(size, acts), Forgotten(size, acts))
    decreases |acts|
  {
    hide Step, Owed, Forgets;
    if acts == [] {
      NothingOwed(size);
    } else {
      EveryFrameIsOwed(size, acts[..|acts| - 1]);
      StepOwed(Run(size, acts[..|acts| - 1]), acts[|acts| - 1], Forgotten(size, acts[..|acts| - 1]));
    }
  }

  lemma NothingOwed(size: nat)
    ensures Owed(Init(size), iset{})
  {
  }
}
