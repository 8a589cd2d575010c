/** Packet loss recovery, updated in place (quic/recovery.py, quic/congestion/reno_default.py). */
module Recovery {
  import opened Common
  import opened RangeSets
  import opened RecoverySpec

  // ---- Removing packets one by one ----

  /** Deleting one key of the dictionary. */
  function Without(ps: seq<Packet>, number: int): seq<Packet> {
    Select(ps, (p: Packet) => p.number != number)
  }

  function WithoutAll(ps: seq<Packet>, gone: seq<Packet>): seq<Packet> {
    if gone == [] then ps else Without(WithoutAll(ps, gone[..|gone| - 1]), gone[|gone| - 1].number)
  }

  lemma {:induction false} SelectConcat(a: seq<Packet>, b: seq<Packet>, keep: Packet -> bool)
    ensures Select(a + b, keep) == Select(a, keep) + Select(b, keep)
  {
    if a == [] {
      assert a + b == b;
    } else {
      var first := if keep(a[0]) then [a[0]] else [];
      assert (a + b)[1..] == a[1..] + b;
      SelectConcat(a[1..], b, keep);
      assert Select(a, keep) == first + Select(a[1..], keep);
      assert Select(a + b, keep) == first + Select(a[1..] + b, keep);
      hide Select;
      Cons(first, Select(a[1..], keep), Select(b, keep));
    }
  }

  lemma Cons(a: seq<Packet>, b: seq<Packet>, c: seq<Packet>)
    ensures a + (b + c) == a + b + c
  {
  }

  lemma SelectAppend(ps: seq<Packet>, p: Packet, keep: Packet -> bool)
    ensures Select(ps + [p], keep) == if keep(p) then Select(ps, keep) + [p] else Select(ps, keep)
  {
    SelectConcat(ps, [p], keep);
    assert Select([p], keep) == if keep(p) then [p] else [];
  }

  lemma {:induction false} SelectSelect(ps: seq<Packet>, a: Packet -> bool, b: Packet -> bool)
    ensures Select(Select(ps, a), b) == Select(ps, p => a(p) && b(p))
  {
    if ps != [] {
      SelectSelect(ps[1..], a, b);
      var rest := Select(ps[1..], a);
      if a(ps[0]) {
        assert Select(ps, a) == [ps[0]] + rest;
        assert ([ps[0]] + rest)[1..] == rest;
      } else {
        assert Select(ps, a) == rest;
      }
    }
  }

  lemma {:induction false} SelectSame(ps: seq<Packet>, a: Packet -> bool, b: Packet -> bool)
    requires forall p | p in ps :: a(p) == b(p)
    ensures Select(ps, a) == Select(ps, b)
  {
    if ps != [] {
      SelectSame(ps[1..], a, b);
    }
  }

  lemma {:induction false} SelectAll(ps: seq<Packet>, keep: Packet -> bool)
    requires forall p | p in ps :: keep(p)
    ensures Select(ps, keep) == ps
  {
    if ps != [] {
      SelectAll(ps[1..], keep);
      assert ps == [ps[0]] + ps[1..];
    }
  }

  lemma {:induction false} WithoutAllIsSelect(ps: seq<Packet>, gone: seq<Packet>)
    ensures WithoutAll(ps, gone) == Select(ps, (p: Packet) => p.number !in Numbers(gone))
  {
    var stays := (p: Packet) => p.number !in Numbers(gone);
    if gone == [] {
      SelectAll(ps, stays);
    } else {
      var front, n := gone[..|gone| - 1], gone[|gone| - 1].number;
      WithoutAllIsSelect(ps, front);
      var a := (p: Packet) => p.number !in Numbers(front);
      var b := (p: Packet) => p.number != n;
      SelectSelect(ps, a, b);
      assert Numbers(gone) == Numbers(front) + {n} by {
        assert gone == front + [gone[|gone| - 1]];
        assert forall i | 0 <= i < |front| :: gone[i] == front[i];
      }
      SelectSame(ps, p => a(p) && b(p), stays);
    }
  }

  /** Deleting the selected packets by number leaves the packets that were not selected. */
  lemma WithoutSelected(ps: seq<Packet>, gone: Packet -> bool)
    requires Increasing(ps)
    ensures WithoutAll(ps, Select(ps, gone)) == Select(ps, p => !gone(p))
  {
    var out := Select(ps, gone);
    WithoutAllIsSelect(ps, out);
    forall p | p in ps
      ensures p.number !in Numbers(out) <==> !gone(p)
    {
      SelectMember(ps, gone, p);
      if p.number in Numbers(out) {
        var i :| 0 <= i < |out| && out[i].number == p.number;
        SelectMember(ps, gone, out[i]);
        var a :| 0 <= a < |ps| && ps[a] == out[i];
        var b :| 0 <= b < |ps| && ps[b] == p;
      }
      if gone(p) {
        var i :| 0 <= i < |out| && out[i] == p;
        assert out[i].number in Numbers(out);
      }
    }
    SelectSame(ps, (p: Packet) => p.number !in Numbers(out), p => !gone(p));
  }

  lemma {:induction false} OnAllAckedAppend(cc: Reno, ps: seq<Packet>, p: Packet)
    requires cc.window > 0
    ensures OnAllAcked(cc, ps + [p]) == if p.inFlight then OnAcked(OnAllAcked(cc, ps), p) else OnAllAcked(cc, ps)
    decreases |ps|
  {
    if ps == [] {
      assert ps + [p] == [p];
    } else {
      assert (ps + [p])[1..] == ps[1..] + [p];
      OnAllAckedAppend(if ps[0].inFlight then OnAcked(cc, ps[0]) else cc, ps[1..], p);
    }
  }

  // ---- Congestion controller ----

  class RenoController {
    const maxDatagramSize: nat
    var bytesInFlight: int
    var congestionWindow: nat
    var ssthresh: Option<nat>
    var recoveryStartTime: real
    var stash: nat

    ghost function State(): Reno reads this {
      Reno(maxDatagramSize, bytesInFlight, congestionWindow, ssthresh, recoveryStartTime, stash)
    }

    constructor (maxDatagramSize: nat)
      ensures State() == NewReno(maxDatagramSize)
    {
      this.maxDatagramSize := maxDatagramSize;
      bytesInFlight, congestionWindow, ssthresh := 0, INITIAL_WINDOW * maxDatagramSize, None;
      recoveryStartTime, stash := 0.0, 0;
    }

    method OnPacketAcked(p: Packet)
      requires congestionWindow > 0
      modifies this
      ensures State() == OnAcked(old(State()), p)
    {
      bytesInFlight := bytesInFlight - p.bytes;
      if p.sentTime <= recoveryStartTime {
        return;
      }
      if ssthresh == None || congestionWindow < ssthresh.value {
        congestionWindow := congestionWindow + p.bytes;
      } else {
        stash := stash + p.bytes;
        var count := stash / congestionWindow;
        Division(stash, congestionWindow);
        if count != 0 {
          stash := stash - count * congestionWindow;
          congestionWindow := congestionWindow + count * maxDatagramSize;
        }
      }
    }

    method OnPacketSent(p: Packet)
      modifies this`bytesInFlight
      ensures bytesInFlight == old(bytesInFlight) + p.bytes
    {
      bytesInFlight := bytesInFlight + p.bytes;
    }

    method OnPacketsExpired(packets: seq<Packet>)
      requires forall p | p in packets :: p.inFlight
      modifies this`bytesInFlight
      ensures bytesInFlight == old(bytesInFlight) - InFlightBytes(packets)
    {
      for k := 0 to |packets|
        invariant bytesInFlight == old(bytesInFlight) - InFlightBytes(packets[..k])
      {
        assert packets[..k + 1] == packets[..k] + [packets[k]];
        CountsAppend(packets[..k], packets[k]);
        bytesInFlight := bytesInFlight - packets[k].bytes;
      }
      assert packets[..|packets|] == packets;
    }

    method OnPacketsLost(packets: seq<Packet>, now: real)
      requires packets != [] && forall p | p in packets :: p.inFlight
      modifies this
      ensures State() == OnAllLost(old(State()), packets, now)
    {
      SelectAll(packets, (p: Packet) => p.inFlight);
      var lostLargestTime := 0.0;
      for k := 0 to |packets|
        invariant State() == old(State()).(bytesInFlight := old(bytesInFlight) - InFlightBytes(packets[..k]))
        invariant k > 0 ==> lostLargestTime == packets[k - 1].sentTime
      {
        assert packets[..k + 1] == packets[..k] + [packets[k]];
        CountsAppend(packets[..k], packets[k]);
        bytesInFlight := bytesInFlight - packets[k].bytes;
        lostLargestTime := packets[k].sentTime;
      }
      assert packets[..|packets|] == packets;
      if lostLargestTime > recoveryStartTime {
        recoveryStartTime := now;
        congestionWindow := Max(congestionWindow / 2, MINIMUM_WINDOW * maxDatagramSize);
        ssthresh := Some(congestionWindow);
      }
    }

    /** The round-trip monitor's verdict is a parameter. */
    method OnRttMeasurement(increasing: bool)
      modifies this`ssthresh
      ensures ssthresh == if old(ssthresh) == None && increasing then Some(congestionWindow) else old(ssthresh)
    {
      if ssthresh == None && increasing {
        ssthresh := Some(congestionWindow);
      }
    }
  }

  lemma Division(a: nat, b: nat)
    requires b > 0
    ensures a / b * b + a % b == a && a - a / b * b == a % b
  {
  }

  // ---- Round-trip times ----

  datatype Rtt = Rtt(initial: real, initialized: bool, latest: real, min: Option<real>, smoothed: real, variance: real)

  function MaxReal(a: real, b: real): real { if a < b then b else a }

  function MinReal(a: real, b: real): real { if a < b then a else b }

  const MAX_ACK_DELAY := 0.025

  /** The estimate after a sample; an absent minimum stands for infinity. */
  function Sampled(r: Rtt, sample: real, ackDelay: real): Rtt {
    var floor := MaxReal(sample, 0.001);
    var min := if r.min == None || floor < r.min.value then floor else r.min.value;
    var delay := MinReal(ackDelay, MAX_ACK_DELAY);
    var latest := if floor > min + delay then floor - delay else floor;
    var gap := if min < latest then latest - min else min - latest;
    if !r.initialized then Rtt(r.initial, true, latest, Some(min), sample, sample / 2.0)
    else Rtt(r.initial, true, latest, Some(min),
             7.0 / 8.0 * r.smoothed + 1.0 / 8.0 * latest, 3.0 / 4.0 * r.variance + 1.0 / 4.0 * gap)
  }

  function LossDelay(r: Rtt): real {
    9.0 / 8.0 * if r.initialized then MaxReal(r.latest, r.smoothed) else r.initial
  }

  /** on_rtt_measurement, when a sample was taken. */
  function AfterSample(r: State, sampled: bool, increasing: bool): State {
    if sampled && increasing && r.cc.ssthresh == None then r.(cc := r.cc.(ssthresh := Some(r.cc.window))) else r
  }

  function AckedPackets(r: State, i: nat, acked: set<int>): seq<Packet>
    requires i < |r.spaces|
  {
    Select(r.spaces[i].sent, (p: Packet) => p.number in acked)
  }

  // ---- Recovery ----

  class PacketRecovery {
    var spaces: seq<Space>
    const cc: RenoController
    var rtt: Rtt
    var ptoCount: nat
    var probes: nat                          // calls of the send_probe callback
    ghost var log: seq<Report>
    ghost var registered: set<(int, int)>
    ghost var dropped: set<(int, int)>

    ghost function State(): State
      reads this, cc
    {
      RecoverySpec.State(spaces, cc.State(), log, registered, dropped)
    }

    constructor (count: nat, maxDatagramSize: nat, initialRtt: real)
      ensures State() == NewState(count, maxDatagramSize) && ptoCount == 0
    {
      spaces := seq(count, _ => NEW_SPACE);
      cc := new RenoController(maxDatagramSize);
      rtt := Rtt(initialRtt, false, 0.0, None, 0.0, 0.0);
      ptoCount, probes := 0, 0;
      log, registered, dropped := [], {}, {};
    }

    method OnPacketSent(i: nat, p: Packet)
      requires i < |spaces|
      modifies this`spaces, this`registered, cc`bytesInFlight
      ensures State() == Sent(old(State()), i, p)
    {
      var s := spaces[i];
      s := s.(sent := s.sent + [p]);
      if p.ackEliciting {
        s := s.(ackEliciting := s.ackEliciting + 1);
      }
      spaces := spaces[i := s];
      if p.inFlight {
        cc.OnPacketSent(p);
      }
      registered := registered + {(i, p.number)};
    }

    method DiscardSpace(i: nat)
      requires i < |spaces|
      modifies this, cc`bytesInFlight
      ensures State() == Discarded(old(State()), i) && ptoCount == 0 && rtt == old(rtt)
    {
      var s := spaces[i];
      var inFlight := InFlight(s.sent);
      InFlightOnly(s.sent);
      cc.OnPacketsExpired(inFlight);
      spaces := spaces[i := s.(sent := [], ackEliciting := 0, lossTime := None)];
      ptoCount := 0;
      dropped := dropped + Tagged(i, Numbers(s.sent));
    }

    /** Pop every acknowledged packet, lowest number first, until one is above the largest acknowledged. */
    method RemoveAcked(i: nat, ranges: RangeSet, largest: int) returns (eliciting: bool, newest: Option<Packet>)
      requires i < |spaces| && Increasing(spaces[i].sent) && cc.congestionWindow > 0
      requires forall x | x in ranges.Contents() :: x <= largest
      modifies this`spaces, this`log, cc
      ensures State() == Acknowledged(old(State()), i, ranges.Contents(), largest)
      ensures var out := AckedPackets(old(State()), i, ranges.Contents());
              && (eliciting <==> Eliciting(out) > 0)
              && newest == if out == [] then None else Some(out[|out| - 1])
    {
      hide Increasing, Progress, Elements, Canonical, Acknowledged, AckedPackets;
      ghost var r := State();
      var s;
      s, eliciting, newest := PopAcked(i, ranges, largest);
      ProgressEnd(r, i, ranges.Contents(), largest, s, cc.State(), log, eliciting, newest);
      spaces := spaces[i := s];
    }

    method PopAcked(i: nat, ranges: RangeSet, largest: int) returns (s: Space, eliciting: bool, newest: Option<Packet>)
      requires i < |spaces| && Increasing(spaces[i].sent) && cc.congestionWindow > 0
      requires forall x | x in ranges.Contents() :: x <= largest
      modifies this`log, cc
      ensures Progress(old(State()), i, AckedPackets(old(State()), i, ranges.Contents()), largest, s, cc.State(), log, eliciting, newest)
    {
      hide Increasing, Progress, Elements, Canonical;
      ghost var r := State();
      ghost var acked := ranges.Contents();
      ghost var gone := (p: Packet) => p.number in acked;
      eliciting, newest := false, None;
      s := spaces[i];
      if largest > s.largestAcked {
        s := s.(largestAcked := largest);
      }
      var snapshot := s.sent;
      assert snapshot[..0] == [];
      ProgressStart(r, i, largest, s);
      var k := 0;
      while k < |snapshot|
        invariant 0 <= k <= |snapshot|
        invariant Progress(r, i, Select(snapshot[..k], gone), largest, s, cc.State(), log, eliciting, newest)
      {
        var p := snapshot[k];
        assert snapshot[..k + 1] == snapshot[..k] + [p];
        SelectAppend(snapshot[..k], p, gone);
        if p.number > largest {
          NothingAbove(snapshot, k, largest, gone);
          break;
        }
        var b := ranges.Has(p.number);
        if b {
          ProgressStep(r, i, Select(snapshot[..k], gone), p, largest, s, cc.State(), log, eliciting, newest);
          s := AckOne(i, p, s);
          eliciting := eliciting || p.ackEliciting;
          newest := Some(p);
        }
        k := k + 1;
      }
      assert k == |snapshot| ==> snapshot[..k] == snapshot;
    }

    method AckOne(i: nat, p: Packet, s: Space) returns (t: Space)
      requires cc.congestionWindow > 0
      modifies this`log, cc
      ensures t == s.(sent := Without(s.sent, p.number), ackEliciting := s.ackEliciting - if p.ackEliciting then 1 else 0)
      ensures cc.State() == if p.inFlight then OnAcked(old(cc.State()), p) else old(cc.State())
      ensures log == old(log) + [Report(i, p.number, Acked)]
    {
      t := s.(sent := Without(s.sent, p.number));
      if p.ackEliciting {
        t := t.(ackEliciting := t.ackEliciting - 1);
      }
      if p.inFlight {
        cc.OnPacketAcked(p);
      }
      log := log + [Report(i, p.number, Acked)];
    }

    /** Declare packets lost: each leaves its space and has its handlers run once. */
    method OnPacketsLost(i: nat, packets: seq<Packet>, ghost gone: Packet -> bool, now: real)
      requires i < |spaces| && Increasing(spaces[i].sent) && packets == Select(spaces[i].sent, gone)
      modifies this`spaces, this`log, cc
      ensures State() == Take(old(State()), i, gone, Lost, old(spaces)[i], OnAllLost(old(cc.State()), packets, now))
    {
      WithoutSelected(spaces[i].sent, gone);
      var lost := RemoveLost(i, packets);
      TellController(lost, packets, now);
    }

    method RemoveLost(i: nat, packets: seq<Packet>) returns (lost: seq<Packet>)
      requires i < |spaces|
      modifies this`spaces, this`log
      ensures lost == InFlight(packets) && log == old(log) + Reports(packets, i, Lost)
      ensures var s := old(spaces)[i];
              spaces == old(spaces)[i := s.(sent := WithoutAll(s.sent, packets),
                                            ackEliciting := s.ackEliciting - Eliciting(packets))]
    {
      hide WithoutAll, Without, Reports, InFlight, Eliciting;
      ghost var r := log;
      var s := spaces[i];
      lost := [];
      LossStart(r, s.sent, i, packets);
      for k := 0 to |packets|
        invariant spaces == old(spaces)
        invariant s == spaces[i].(sent := WithoutAll(spaces[i].sent, packets[..k]),
                                  ackEliciting := spaces[i].ackEliciting - Eliciting(packets[..k]))
        invariant lost == InFlight(packets[..k])
        invariant log == r + Reports(packets[..k], i, Lost)
      {
        var p := packets[k];
        LossStep(r, spaces[i].sent, i, packets, k);
        s := s.(sent := Without(s.sent, p.number));
        if p.inFlight {
          lost := lost + [p];
        }
        if p.ackEliciting {
          s := s.(ackEliciting := s.ackEliciting - 1);
        }
        log := log + [Report(i, p.number, Lost)];
      }
      assert packets[..|packets|] == packets;
      spaces := spaces[i := s];
    }

    method TellController(lost: seq<Packet>, ghost packets: seq<Packet>, now: real)
      requires lost == InFlight(packets)
      modifies cc
      ensures cc.State() == OnAllLost(old(cc.State()), packets, now)
    {
      InFlightOnly(packets);
      SelectAll(lost, (p: Packet) => p.inFlight);
      if lost != [] {
        cc.OnPacketsLost(lost, now);
      }
    }

    method DetectLoss(i: nat, now: real)
      requires i < |spaces| && Increasing(spaces[i].sent)
      modifies this`spaces, this`log, cc
      ensures State() == Detected(old(State()), i, now, LossDelay(rtt))
    {
      ghost var r := State();
      var s := spaces[i];
      var lossDelay := LossDelay(rtt);
      var lost, lossTime := ScanForLoss(s, now, lossDelay);
      TimerFirst(r, i, now, lossDelay, lossTime);
      spaces := spaces[i := s.(lossTime := lossTime)];
      OnPacketsLost(i, lost, (p: Packet) => IsLost(p, s.largestAcked, now - lossDelay), now);
    }

    /** The scan stops at the first packet above the largest acknowledged, as the numbers only grow. */
    method ScanForLoss(s: Space, now: real, lossDelay: real) returns (lost: seq<Packet>, lossTime: Option<real>)
      requires Increasing(s.sent)
      ensures lost == Select(s.sent, (p: Packet) => IsLost(p, s.largestAcked, now - lossDelay))
      ensures lossTime == EarliestLoss(Select(s.sent, (p: Packet) => !IsLost(p, s.largestAcked, now - lossDelay)),
                                       s.largestAcked, lossDelay)
    {
      hide Increasing, Select, EarliestLoss;
      ghost var gone := (p: Packet) => IsLost(p, s.largestAcked, now - lossDelay);
      ghost var stays := (p: Packet) => !IsLost(p, s.largestAcked, now - lossDelay);
      var packetThreshold := s.largestAcked - PACKET_THRESHOLD;
      var timeThreshold := now - lossDelay;
      lost, lossTime := [], None;
      var k := 0;
      ScanStart(s.sent, s.largestAcked, gone, stays, lossDelay);
      while k < |s.sent|
        invariant 0 <= k <= |s.sent|
        invariant lost == Select(s.sent[..k], gone)
        invariant lossTime == EarliestLoss(Select(s.sent[..k], stays), s.largestAcked, lossDelay)
      {
        var p := s.sent[k];
        if p.number > s.largestAcked {
          NothingAbove(s.sent, k, s.largestAcked, gone);
          NoTimerAbove(s.sent, k, s.largestAcked, stays, lossDelay);
          return;
        }
        ScanStep(s.sent, k, s.largestAcked, gone, stays, lossDelay);
        if p.number <= packetThreshold || p.sentTime <= timeThreshold {
          lost := lost + [p];
        } else {
          var packetLossTime := p.sentTime + lossDelay;
          if lossTime == None || lossTime.value > packetLossTime {
            lossTime := Some(packetLossTime);
          }
        }
        k := k + 1;
      }
      assert s.sent[..k] == s.sent;
    }

    /** An ACK frame: remove what it covers, take a sample if it is due, then scan for losses. */
    method OnAckReceived(ranges: RangeSet, ackDelay: real, now: real, i: nat, increasing: bool)
      requires i < |spaces| && Inv(State()) && ranges.Valid() && |ranges.ranges| > 0
      modifies this, cc
      ensures var r := old(State());
              var acked := ranges.Contents();
              var largest := ranges.ranges[|ranges.ranges| - 1].stop - 1;
              var out := AckedPackets(r, i, acked);
              var sampled := out != [] && out[|out| - 1].number == largest && Eliciting(out) > 0;
              && rtt == (if sampled then Sampled(old(rtt), now - out[|out| - 1].sentTime, ackDelay) else old(rtt))
              && r.cc.window > 0
              && State() == (if out == [] then Acknowledged(r, i, acked, largest) else
                             Detected(AfterSample(Acknowledged(r, i, acked, largest), sampled, increasing),
                                      i, now, LossDelay(rtt)))
              && ptoCount == if out == [] then old(ptoCount) else 0
    {
      hide Inv, Acknowledged, Detected, Elements, Canonical, AckedPackets, Eliciting, AfterSample, Sampled, LossDelay, Increasing;
      var bounds := ranges.Bounds();
      var largest := bounds.stop - 1;
      var eliciting, newest := AckSpace(i, ranges, largest);
      if newest == None {
        return;
      }
      NewlyAcked(newest.value, largest == newest.value.number && eliciting, ackDelay, now, i, increasing);
    }

    /** Removing what is acknowledged leaves the space in the order of packet numbers. */
    method AckSpace(i: nat, ranges: RangeSet, largest: int) returns (eliciting: bool, newest: Option<Packet>)
      requires i < |spaces| && Inv(State()) && forall x | x in ranges.Contents() :: x <= largest
      modifies this`spaces, this`log, cc
      ensures old(cc.State()).window > 0 && i < |spaces| && Increasing(spaces[i].sent)
      ensures State() == Acknowledged(old(State()), i, ranges.Contents(), largest)
      ensures var out := AckedPackets(old(State()), i, ranges.Contents());
              && (eliciting <==> Eliciting(out) > 0)
              && newest == if out == [] then None else Some(out[|out| - 1])
    {
      AckIsOrdered(State(), i, ranges.Contents(), largest);
      hide Inv, Acknowledged, Elements, Canonical, AckedPackets, Eliciting, Increasing;
      eliciting, newest := RemoveAcked(i, ranges, largest);
    }

    method NewlyAcked(newest: Packet, sampled: bool, ackDelay: real, now: real, i: nat, increasing: bool)
      requires i < |spaces| && Increasing(spaces[i].sent)
      modifies this, cc
      ensures rtt == if sampled then Sampled(old(rtt), now - newest.sentTime, ackDelay) else old(rtt)
      ensures State() == Detected(AfterSample(old(State()), sampled, increasing), i, now, LossDelay(rtt))
      ensures ptoCount == 0
    {
      if sampled {
        rtt := Sampled(rtt, now - newest.sentTime, ackDelay);
        cc.OnRttMeasurement(increasing);
      }
      DetectLoss(i, now);
      ptoCount := 0;
    }

    /** Retransmit outstanding CRYPTO data of every space, then ask for a probe. */
    method RescheduleData(now: real)
      requires Inv(State())
      modifies this, cc
      ensures State() == AllCryptoLost(old(State()), |old(spaces)|, now) && |spaces| == |old(spaces)|
      ensures probes == old(probes) + 1 && rtt == old(rtt) && ptoCount == old(ptoCount)
    {
      hide Inv, CryptoLost;
      ghost var r := State();
      for i := 0 to |spaces|
        invariant State() == AllCryptoLost(r, i, now)
        invariant |spaces| == |r.spaces| && Inv(State())
        invariant probes == old(probes) && rtt == old(rtt) && ptoCount == old(ptoCount)
      {
        RescheduleSpace(i, now);
      }
      probes := probes + 1;
    }

    method RescheduleSpace(i: nat, now: real)
      requires i < |spaces| && Inv(State())
      modifies this`spaces, this`log, cc
      ensures State() == CryptoLost(old(State()), i, now) && Inv(State())
    {
      StepKeeps(State(), Reschedule(i, now));
      assert SpaceInv(spaces[i]);
      hide Inv;
      var packets := Select(spaces[i].sent, (p: Packet) => p.crypto);
      if packets != [] {
        OnPacketsLost(i, packets, (p: Packet) => p.crypto, now);
      } else {
        NoCrypto(State(), i, now);
      }
    }

    /** The space whose loss timer fires first. */
    method GetLossSpace() returns (best: Option<nat>)
      ensures best == None <==> forall i | 0 <= i < |spaces| :: spaces[i].lossTime == None
      ensures best.Some? ==> best.value < |spaces| && spaces[best.value].lossTime.Some?
      ensures best.Some? ==> forall i | 0 <= i < |spaces| && spaces[i].lossTime.Some? ::
                spaces[best.value].lossTime.value <= spaces[i].lossTime.value
    {
      best := None;
      for k := 0 to |spaces|
        invariant best == None <==> forall i | 0 <= i < k :: spaces[i].lossTime == None
        invariant best.Some? ==> best.value < k && spaces[best.value].lossTime.Some?
        invariant best.Some? ==> forall i | 0 <= i < k && spaces[i].lossTime.Some? ::
                    spaces[best.value].lossTime.value <= spaces[i].lossTime.value
      {
        if spaces[k].lossTime.Some? && (best == None || spaces[k].lossTime.value < spaces[best.value].lossTime.value) {
          best := Some(k);
        }
      }
    }

    /** The timer fires: scan the space that is due, or else back off and retransmit CRYPTO data. */
    method OnLossDetectionTimeout(now: real)
      requires Inv(State())
      modifies this, cc
      ensures (exists i | 0 <= i < |old(spaces)| :: old(spaces)[i].lossTime.Some?) ==>
              ptoCount == old(ptoCount) && probes == old(probes) &&
              exists i | 0 <= i < |old(spaces)| && old(spaces)[i].lossTime.Some? ::
                State() == Detected(old(State()), i, now, LossDelay(rtt)) &&
                forall j | 0 <= j < |old(spaces)| && old(spaces)[j].lossTime.Some? ::
                  old(spaces)[i].lossTime.value <= old(spaces)[j].lossTime.value
      ensures (forall i | 0 <= i < |old(spaces)| :: old(spaces)[i].lossTime == None) ==>
              ptoCount == old(ptoCount) + 1 && probes == old(probes) + 1 &&
              State() == AllCryptoLost(old(State()), |old(spaces)|, now)
    {
      var lossSpace := GetLossSpace();
      if lossSpace.Some? {
        assert SpaceInv(spaces[lossSpace.value]);
        DetectLoss(lossSpace.value, now);
      } else {
        ptoCount := ptoCount + 1;
        RescheduleData(now);
      }
    }
  }

  /** Acknowledging keeps the space in the order of packet numbers. */
  lemma AckIsOrdered(r: State, i: nat, acked: set<int>, largest: int)
    requires Inv(r) && i < |r.spaces| && forall x | x in acked :: x <= largest
    ensures Increasing(r.spaces[i].sent) && r.cc.window > 0
    ensures i < |Acknowledged(r, i, acked, largest).spaces|
    ensures Increasing(Acknowledged(r, i, acked, largest).spaces[i].sent)
  {
    StepKeeps(r, Ack(i, acked, largest));
    assert SpaceInv(r.spaces[i]) && SpaceInv(Acknowledged(r, i, acked, largest).spaces[i]);
  }

  /** reschedule_data over the first n spaces. */
  function AllCryptoLost(r: State, n: nat, now: real): (s: State)
    requires n <= |r.spaces|
    ensures |s.spaces| == |r.spaces|
  {
    if n == 0 then r else CryptoLost(AllCryptoLost(r, n - 1, now), n - 1, now)
  }

  lemma NoCrypto(r: State, i: nat, now: real)
    requires i < |r.spaces| && Select(r.spaces[i].sent, (p: Packet) => p.crypto) == []
    ensures CryptoLost(r, i, now) == r
  {
    var ps := r.spaces[i].sent;
    forall p | p in ps
      ensures !p.crypto
    {
      SelectMember(ps, (x: Packet) => x.crypto, p);
    }
    SelectAll(ps, (p: Packet) => !p.crypto);
    SelectSame(ps, (p: Packet) => !p.crypto, p => !((x: Packet) => x.crypto)(p));
    assert r.log + Reports([], i, Lost) == r.log;
  }

  lemma LossStart(log: seq<Report>, sent: seq<Packet>, i: nat, packets: seq<Packet>)
    ensures packets[..0] == [] && WithoutAll(sent, packets[..0]) == sent && Eliciting(packets[..0]) == 0
    ensures InFlight(packets[..0]) == [] && log + Reports(packets[..0], i, Lost) == log
  {
    assert Reports([], i, Lost) == [];
  }

  lemma LossStep(log: seq<Report>, sent: seq<Packet>, i: nat, packets: seq<Packet>, k: nat)
    requires k < |packets|
    ensures var front, p := packets[..k], packets[k];
            && WithoutAll(sent, packets[..k + 1]) == Without(WithoutAll(sent, front), p.number)
            && Eliciting(packets[..k + 1]) == Eliciting(front) + (if p.ackEliciting then 1 else 0)
            && InFlight(packets[..k + 1]) == (if p.inFlight then InFlight(front) + [p] else InFlight(front))
            && log + Reports(packets[..k + 1], i, Lost) == log + Reports(front, i, Lost) + [Report(i, p.number, Lost)]
  {
    assert packets[..k + 1] == packets[..k] + [packets[k]];
    assert packets[..k + 1][..k] == packets[..k];
    CountsAppend(packets[..k], packets[k]);
    SelectAppend(packets[..k], packets[k], (p: Packet) => p.inFlight);
  }

  lemma ScanStart(ps: seq<Packet>, largest: int, gone: Packet -> bool, stays: Packet -> bool, delay: real)
    ensures Select(ps[..0], gone) == [] && EarliestLoss(Select(ps[..0], stays), largest, delay) == None
  {
  }

  lemma ScanStep(ps: seq<Packet>, k: nat, largest: int, gone: Packet -> bool, stays: Packet -> bool, delay: real)
    requires k < |ps| && ps[k].number <= largest && gone(ps[k]) == !stays(ps[k])
    ensures var lost, lossTime := Select(ps[..k], gone), EarliestLoss(Select(ps[..k], stays), largest, delay);
            var next := ps[k].sentTime + delay;
            && Select(ps[..k + 1], gone) == (if gone(ps[k]) then lost + [ps[k]] else lost)
            && EarliestLoss(Select(ps[..k + 1], stays), largest, delay) ==
               (if stays(ps[k]) && (lossTime == None || lossTime.value > next) then Some(next) else lossTime)
  {
    assert ps[..k + 1] == ps[..k] + [ps[k]];
    SelectAppend(ps[..k], ps[k], gone);
    SelectAppend(ps[..k], ps[k], stays);
    EarliestAppend(Select(ps[..k], stays), ps[k], largest, delay);
  }

  /** Setting the timer before the lost packets are removed comes to the same. */
  lemma TimerFirst(r: State, i: nat, now: real, delay: real, timer: Option<real>)
    requires i < |r.spaces|
    requires var s := r.spaces[i];
             timer == EarliestLoss(Select(s.sent, (p: Packet) => !IsLost(p, s.largestAcked, now - delay)), s.largestAcked, delay)
    ensures var s := r.spaces[i];
            var gone := (p: Packet) => IsLost(p, s.largestAcked, now - delay);
            Detected(r, i, now, delay) ==
            Take(r.(spaces := r.spaces[i := s.(lossTime := timer)]), i, gone, Lost, s.(lossTime := timer),
                 OnAllLost(r.cc, Select(s.sent, gone), now))
  {
    var s := r.spaces[i];
    var gone := (p: Packet) => IsLost(p, s.largestAcked, now - delay);
    SelectSame(s.sent, p => !gone(p), (p: Packet) => !IsLost(p, s.largestAcked, now - delay));
    var t := Detected(r, i, now, delay).spaces[i];
    assert r.spaces[i := s.(lossTime := timer)][i := t] == r.spaces[i := t];
  }

  lemma EarliestAppend(ps: seq<Packet>, p: Packet, largest: int, delay: real)
    ensures var rest := EarliestLoss(ps, largest, delay);
            EarliestLoss(ps + [p], largest, delay) ==
            if p.number > largest then rest
            else if rest == None || rest.value > p.sentTime + delay then Some(p.sentTime + delay)
            else rest
  {
    assert (ps + [p])[..|ps|] == ps;
  }

  /** Packets above the largest acknowledged never set the timer. */
  lemma NoTimerAbove(ps: seq<Packet>, k: nat, largest: int, stays: Packet -> bool, delay: real)
    requires Increasing(ps) && k < |ps| && ps[k].number > largest
    ensures EarliestLoss(Select(ps[..k], stays), largest, delay) == EarliestLoss(Select(ps, stays), largest, delay)
  {
    GrowingFrom(ps, k);
    TimerStops(ps, k, |ps|, largest, stays, delay);
    assert ps[..|ps|] == ps;
  }

  lemma {:induction false} TimerStops(ps: seq<Packet>, k: nat, n: nat, largest: int, stays: Packet -> bool, delay: real)
    requires k <= n <= |ps|
    requires forall j :: k <= j < n ==> ps[j].number > largest
    ensures EarliestLoss(Select(ps[..k], stays), largest, delay) == EarliestLoss(Select(ps[..n], stays), largest, delay)
    decreases n
  {
    if n > k {
      TimerStops(ps, k, n - 1, largest, stays, delay);
      assert ps[..n] == ps[..n - 1] + [ps[n - 1]];
      SelectAppend(ps[..n - 1], ps[n - 1], stays);
      EarliestAppend(Select(ps[..n - 1], stays), ps[n - 1], largest, delay);
    }
  }

  /** The packets in out are gone from the space, reported and accounted for. */
  ghost predicate Progress(r: State, i: nat, out: seq<Packet>, largest: int, s: Space, cc: Reno,
                           log: seq<Report>, eliciting: bool, newest: Option<Packet>)
    requires i < |r.spaces|
  {
    && s == r.spaces[i].(sent := WithoutAll(r.spaces[i].sent, out),
                         ackEliciting := r.spaces[i].ackEliciting - Eliciting(out),
                         largestAcked := Max(r.spaces[i].largestAcked, largest))
    && r.cc.window > 0 && cc == OnAllAcked(r.cc, out)
    && log == r.log + Reports(out, i, Acked)
    && (eliciting <==> Eliciting(out) > 0)
    && newest == if out == [] then None else Some(out[|out| - 1])
  }

  lemma ProgressStart(r: State, i: nat, largest: int, s: Space)
    requires i < |r.spaces| && r.cc.window > 0
    requires s == r.spaces[i].(largestAcked := Max(r.spaces[i].largestAcked, largest))
    ensures Progress(r, i, [], largest, s, r.cc, r.log, false, None)
  {
    assert r.log + Reports([], i, Acked) == r.log;
  }

  lemma ProgressEnd(r: State, i: nat, acked: set<int>, largest: int, s: Space, cc: Reno,
                    log: seq<Report>, eliciting: bool, newest: Option<Packet>)
    requires i < |r.spaces| && Increasing(r.spaces[i].sent)
    requires Progress(r, i, AckedPackets(r, i, acked), largest, s, cc, log, eliciting, newest)
    ensures r.cc.window > 0
    ensures var out := AckedPackets(r, i, acked);
            (eliciting <==> Eliciting(out) > 0) && newest == if out == [] then None else Some(out[|out| - 1])
    ensures Acknowledged(r, i, acked, largest) == r.(spaces := r.spaces[i := s], cc := cc, log := log)
  {
    WithoutSelected(r.spaces[i].sent, (p: Packet) => p.number in acked);
  }

  lemma ProgressStep(r: State, i: nat, out: seq<Packet>, p: Packet, largest: int, s: Space, cc: Reno,
                     log: seq<Report>, eliciting: bool, newest: Option<Packet>)
    requires i < |r.spaces| && Progress(r, i, out, largest, s, cc, log, eliciting, newest)
    ensures cc.window > 0
    ensures Progress(r, i, out + [p], largest,
                     s.(sent := Without(s.sent, p.number),
                        ackEliciting := s.ackEliciting - if p.ackEliciting then 1 else 0),
                     if p.inFlight then OnAcked(cc, p) else cc,
                     log + [Report(i, p.number, Acked)], eliciting || p.ackEliciting, Some(p))
  {
    assert (out + [p])[..|out|] == out;
    CountsAppend(out, p);
    OnAllAckedAppend(r.cc, out, p);
  }

  lemma GrowingFrom(ps: seq<Packet>, k: nat)
    requires Increasing(ps) && k < |ps|
    ensures forall j :: k <= j < |ps| ==> ps[j].number >= ps[k].number
  {
  }

  /** Numbers only grow along the list, so stopping at the first one above largest misses nothing. */
  lemma NothingAbove(ps: seq<Packet>, k: nat, largest: int, gone: Packet -> bool)
    requires Increasing(ps) && k < |ps| && ps[k].number > largest
    requires forall p :: gone(p) ==> p.number <= largest
    ensures Select(ps[..k], gone) == Select(ps, gone)
  {
    GrowingFrom(ps, k);
    StopEarly(ps[..k], ps[k..], gone);
    assert ps[..k] + ps[k..] == ps;
  }

  lemma StopEarly(a: seq<Packet>, b: seq<Packet>, keep: Packet -> bool)
    requires forall j :: 0 <= j < |b| ==> !keep(b[j])
    ensures Select(a + b, keep) == Select(a, keep)
  {
    SelectConcat(a, b, keep);
    SelectNone(b, keep);
  }

  lemma {:induction false} SelectNone(ps: seq<Packet>, keep: Packet -> bool)
    requires forall j :: 0 <= j < |ps| ==> !keep(ps[j])
    ensures Select(ps, keep) == []
  {
    if ps != [] {
      SelectNone(ps[1..], keep);
    }
  }

  lemma {:induction false} InFlightOnly(ps: seq<Packet>)
    ensures forall p | p in InFlight(ps) :: p.inFlight
    ensures InFlightBytes(InFlight(ps)) == InFlightBytes(ps)
  {
    if ps != [] {
      InFlightOnly(ps[1..]);
      var rest := InFlight(ps[1..]);
      assert InFlight(ps) == if ps[0].inFlight then [ps[0]] + rest else rest;
      assert ([ps[0]] + rest)[1..] == rest;
    }
  }
}
