/** What loss detection, the congestion window and the round-trip estimate come to, in plain numbers (quic/recovery.py). */
module RecoveryLaws {
  import opened Common
  import opened RecoverySpec
  import opened Recovery
  import opened RecoveryRuns

  // ---- Which packets leave ----

  /** A packet three or more below the largest acknowledged, or not above it and sent no later than the loss delay ago. */
  predicate Late(p: Packet, largest: int, now: real, delay: real) {
    p.number <= largest && (p.number + 3 <= largest || p.sentTime + delay <= now)
  }

  /** Entry a of the log reports this packet of space i with this outcome. */
  ghost predicate Tells(log: seq<Report>, a: int, i: nat, number: nat, d: Delivery) {
    0 <= a < |log| && log[a] == Report(i, number, d)
  }

  /** Packets that are gone are those reported anew; the log is only added to. */
  ghost predicate LeftExactly(before: State, after: State, i: nat, gone: Packet -> bool, d: Delivery) {
    && i < |before.spaces| == |after.spaces|
    && (forall p :: p in after.spaces[i].sent <==> p in before.spaces[i].sent && !gone(p))
    && before.log <= after.log
    && (forall p | p in before.spaces[i].sent && gone(p) :: exists a :: a >= |before.log| && Tells(after.log, a, i, p.number, d))
    && (forall a | |before.log| <= a < |after.log| :: after.log[a].space == i && after.log[a].delivery == d
          && exists p :: p in before.spaces[i].sent && gone(p) && p.number == after.log[a].number)
  }

  lemma TakeExactly(r: State, i: nat, keep: Packet -> bool, d: Delivery, space: Space, cc: Reno, gone: Packet -> bool)
    requires i < |r.spaces| && forall p :: keep(p) <==> gone(p)
    ensures LeftExactly(r, Take(r, i, keep, d, space, cc), i, gone, d)
  {
    var t := Take(r, i, keep, d, space, cc);
    var out := Select(r.spaces[i].sent, keep);
    forall p
      ensures p in t.spaces[i].sent <==> p in r.spaces[i].sent && !gone(p)
    {
      SelectMember(r.spaces[i].sent, x => !keep(x), p);
    }
    forall p
      ensures p in out <==> p in r.spaces[i].sent && gone(p)
    {
      SelectMember(r.spaces[i].sent, keep, p);
    }
    hide Select;
    LoggedExactly(r.log, out, i, d);
  }

  lemma LoggedExactly(log: seq<Report>, out: seq<Packet>, i: nat, d: Delivery)
    ensures var more := log + Reports(out, i, d);
            && log <= more
            && (forall p | p in out :: exists a :: a >= |log| && Tells(more, a, i, p.number, d))
            && (forall a | |log| <= a < |more| :: more[a].space == i && more[a].delivery == d
                  && exists p :: p in out && p.number == more[a].number)
  {
    var more := log + Reports(out, i, d);
    forall p | p in out
      ensures exists a :: a >= |log| && Tells(more, a, i, p.number, d)
    {
      var j :| 0 <= j < |out| && out[j] == p;
      assert Tells(more, |log| + j, i, p.number, d);
    }
    forall a | |log| <= a < |more|
      ensures exists p :: p in out && p.number == more[a].number
    {
      assert out[a - |log|] in out;
    }
  }

  /**
   A loss scan takes out exactly the late packets and reports exactly those as lost: one less than three below the
   largest acknowledged and sent within the loss delay stays, and so does everything above.
   */
  lemma ScanExactly(r: State, i: nat, now: real, delay: real)
    requires i < |r.spaces|
    ensures LeftExactly(r, Detected(r, i, now, delay), i, (p: Packet) => Late(p, r.spaces[i].largestAcked, now, delay), Lost)
    ensures Detected(r, i, now, delay).spaces[i].largestAcked == r.spaces[i].largestAcked
  {
    var s := r.spaces[i];
    var keep := (p: Packet) => IsLost(p, s.largestAcked, now - delay);
    TakeExactly(r, i, keep, Lost, s.(lossTime := EarliestLoss(Select(s.sent, p => !keep(p)), s.largestAcked, delay)),
                OnAllLost(r.cc, Select(s.sent, keep), now), (p: Packet) => Late(p, s.largestAcked, now, delay));
  }

  /** An ACK takes out exactly the packets it names and reports exactly those as acknowledged. */
  lemma AckExactly(r: State, i: nat, acked: set<int>, largest: int)
    requires i < |r.spaces| && r.cc.window > 0
    ensures LeftExactly(r, Acknowledged(r, i, acked, largest), i, (p: Packet) => p.number in acked, Acked)
    ensures var after := Acknowledged(r, i, acked, largest).spaces[i].largestAcked;
            after >= r.spaces[i].largestAcked && after >= largest && after in {r.spaces[i].largestAcked, largest}
  {
    var keep := (p: Packet) => p.number in acked;
    TakeExactly(r, i, keep, Acked, r.spaces[i].(largestAcked := Max(r.spaces[i].largestAcked, largest)),
                OnAllAcked(r.cc, Select(r.spaces[i].sent, keep)), (p: Packet) => p.number in acked);
  }

  /** Retransmission of CRYPTO data takes out exactly the CRYPTO packets. */
  lemma CryptoExactly(r: State, i: nat, now: real)
    requires i < |r.spaces|
    ensures LeftExactly(r, CryptoLost(r, i, now), i, (p: Packet) => p.crypto, Lost)
  {
    var keep := (p: Packet) => p.crypto;
    TakeExactly(r, i, keep, Lost, r.spaces[i], OnAllLost(r.cc, Select(r.spaces[i].sent, keep), now), (p: Packet) => p.crypto);
  }

  /** Over all spaces: no CRYPTO packet stays anywhere, and every other packet does. */
  lemma {:induction false} NoCryptoLeft(r: State, n: nat, now: real)
    requires n <= |r.spaces|
    ensures var c := AllCryptoLost(r, n, now);
            && (forall i, p :: 0 <= i < n ==> (p in c.spaces[i].sent <==> p in r.spaces[i].sent && !p.crypto))
            && (forall i | n <= i < |r.spaces| :: c.spaces[i] == r.spaces[i])
  {
    if n > 0 {
      NoCryptoLeft(r, n - 1, now);
      CryptoExactly(AllCryptoLost(r, n - 1, now), n - 1, now);
    }
  }

  /** Discarding a space leaves nothing tracked, no count and no timer, reports nothing and leaves the other spaces alone. */
  lemma DiscardExactly(r: State, i: nat)
    requires i < |r.spaces|
    ensures var d := Discarded(r, i);
            && |d.spaces| == |r.spaces| && d.spaces[i].sent == [] && d.spaces[i].ackEliciting == 0 && d.spaces[i].lossTime == None
            && d.spaces[i].largestAcked == r.spaces[i].largestAcked && d.log == r.log && d.registered == r.registered
            && (forall j | 0 <= j < |r.spaces| && j != i :: d.spaces[j] == r.spaces[j])
            && (forall p | p in r.spaces[i].sent :: (i, p.number) in d.dropped)
            && d.cc.window == r.cc.window && d.cc.ssthresh == r.cc.ssthresh
  {
    forall p | p in r.spaces[i].sent
      ensures (i, p.number) in Discarded(r, i).dropped
    {
      assert p.number in Numbers(r.spaces[i].sent);
    }
  }

  // ---- The congestion window ----

  /** The bytes of packets in flight that were sent after the last cut. */
  function FreshBytes(ps: seq<Packet>, cut: real): nat {
    if ps == [] then 0
    else (if ps[0].inFlight && ps[0].sentTime > cut then ps[0].bytes else 0) + FreshBytes(ps[1..], cut)
  }

  /** A new connection may have ten datagrams in flight. */
  lemma FirstWindow(size: nat)
    ensures NewReno(size).window == 10 * size && NewReno(size).ssthresh == None && NewReno(size).bytesInFlight == 0
    ensures NewReno(size).stash == 0 && NewReno(size).recoveryStart == 0.0
  {
  }

  /** In slow start the window grows by every byte acknowledged that was sent after the last cut, and by no other. */
  lemma {:induction false} SlowStartExactly(cc: Reno, ps: seq<Packet>)
    requires cc.window > 0 && cc.ssthresh == None
    ensures var r := OnAllAcked(cc, ps);
            r.window == cc.window + FreshBytes(ps, cc.recoveryStart) && r.ssthresh == None && r.stash == cc.stash
            && r.recoveryStart == cc.recoveryStart
    decreases |ps|
  {
    if ps != [] {
      var next := if ps[0].inFlight then OnAcked(cc, ps[0]) else cc;
      SlowStartExactly(next, ps[1..]);
    }
  }

  /** Slow start also ends, at the present window, with a sample that shows round trips growing, and with no other sample. */
  lemma SampleEndsSlowStart(r: State, sampled: bool, increasing: bool)
    ensures var s := AfterSample(r, sampled, increasing);
            && (s.cc.ssthresh == None <==> r.cc.ssthresh == None && !(sampled && increasing))
            && (r.cc.ssthresh.Some? ==> s == r) && (s.cc.ssthresh.Some? && s != r ==> s.cc.ssthresh == Some(r.cc.window))
            && s.cc.window == r.cc.window && s.spaces == r.spaces && s.log == r.log
  {
  }

  /** In congestion avoidance less than a window of acknowledged bytes is saved up and changes nothing. */
  lemma {:induction false} SavedUp(cc: Reno, ps: seq<Packet>)
    requires cc.ssthresh.Some? && cc.window >= cc.ssthresh.value && cc.window > 0
    requires cc.stash + FreshBytes(ps, cc.recoveryStart) < cc.window
    ensures var r := OnAllAcked(cc, ps);
            r.window == cc.window && r.stash == cc.stash + FreshBytes(ps, cc.recoveryStart)
            && r.ssthresh == cc.ssthresh && r.recoveryStart == cc.recoveryStart && r.maxDatagramSize == cc.maxDatagramSize
    decreases |ps|
  {
    if ps != [] {
      var next := if ps[0].inFlight then OnAcked(cc, ps[0]) else cc;
      if ps[0].inFlight && ps[0].sentTime > cc.recoveryStart {
        RemainderUnique(cc.stash + ps[0].bytes, cc.window, 0, cc.stash + ps[0].bytes);
      }
      SavedUp(next, ps[1..]);
    }
  }

  /** And the packet that completes a window's worth makes the window one datagram larger and leaves the rest saved up. */
  lemma RoundGrowsByOne(cc: Reno, ps: seq<Packet>, last: Packet)
    requires cc.ssthresh.Some? && cc.window >= cc.ssthresh.value && cc.window > 0
    requires cc.stash + FreshBytes(ps, cc.recoveryStart) < cc.window
    requires last.inFlight && last.sentTime > cc.recoveryStart
    requires cc.window <= cc.stash + FreshBytes(ps, cc.recoveryStart) + last.bytes < 2 * cc.window
    ensures var r := OnAcked(OnAllAcked(cc, ps), last);
            && r.window == cc.window + cc.maxDatagramSize
            && r.stash == cc.stash + FreshBytes(ps, cc.recoveryStart) + last.bytes - cc.window
  {
    hide OnAllAcked, FreshBytes;
    SavedUp(cc, ps);
    hide OnAcked;
    LastOfRound(OnAllAcked(cc, ps), last);
  }

  lemma LastOfRound(cc: Reno, last: Packet)
    requires cc.ssthresh.Some? && cc.window >= cc.ssthresh.value && cc.window > 0 && last.sentTime > cc.recoveryStart
    requires cc.window <= cc.stash + last.bytes < 2 * cc.window
    ensures OnAcked(cc, last).window == cc.window + cc.maxDatagramSize && OnAcked(cc, last).stash == cc.stash + last.bytes - cc.window
  {
    RemainderUnique(cc.stash + last.bytes, cc.window, 1, cc.stash + last.bytes - cc.window);
  }

  /** A cut leaves half the window, but never less than two datagrams, and slow start ends there. */
  lemma CutExactly(cc: Reno, ps: seq<Packet>, now: real)
    ensures var r := OnAllLost(cc, ps, now);
            if LastSentAfter(ps, cc.recoveryStart) then
              && r.window >= 2 * cc.maxDatagramSize && 2 * r.window <= Max(cc.window, 4 * cc.maxDatagramSize)
              && 2 * r.window >= cc.window - 1 && r.ssthresh == Some(r.window) && r.recoveryStart == now && r.stash == cc.stash
            else
              r.window == cc.window && r.ssthresh == cc.ssthresh && r.recoveryStart == cc.recoveryStart && r.stash == cc.stash
  {
  }

  // ---- Round-trip times ----

  function Power(x: real, n: nat): real { if n == 0 then 1.0 else x * Power(x, n - 1) }

  /** Samples that all are the same, without a delay: the estimate is that value and the variance dies out by quarters. */
  lemma {:induction false} SteadySamples(initial: real, x: real, n: nat)
    requires x >= 0.001 && n > 0
    ensures var r := SampledAll(NewRtt(initial), seq(n, _ => Sample(x, 0.0)));
            && r.smoothed == x && r.latest == x && r.min == Some(x) && r.initialized
            && r.variance == x / 2.0 * Power(0.75, n - 1)
  {
    var all := seq(n, _ => Sample(x, 0.0));
    assert all[..n - 1] == seq(n - 1, _ => Sample(x, 0.0));
    if n > 1 {
      SteadySamples(initial, x, n - 1);
    } else {
      assert all[..0] == [];
    }
  }

  /**
   One more sample moves the smoothed value an eighth of the way to the latest one. That is the sample, at least a
   millisecond, less the acknowledgement delay of at most 25 ms unless this would take it below the minimum.
   */
  lemma NextSample(r: Rtt, sample: real, ackDelay: real)
    requires r.initialized && r.min.Some?
    ensures var s := Sampled(r, sample, ackDelay);
            var floor := if sample < 0.001 then 0.001 else sample;
            var delay := if ackDelay < 0.025 then ackDelay else 0.025;
            && s.min.Some? && s.min.value <= floor && s.min.value <= r.min.value && s.min.value in {floor, r.min.value}
            && (s.latest == floor - delay || s.latest == floor)
            && (s.latest == floor - delay <==> floor - delay > s.min.value || delay == 0.0)
            && (s.smoothed - s.latest) * 8.0 == 7.0 * (r.smoothed - s.latest)
            && (s.variance - AbsReal(s.latest - s.min.value)) * 4.0 == 3.0 * (r.variance - AbsReal(s.latest - s.min.value))
  {
  }

  function AbsReal(x: real): real { if x < 0.0 then -x else x }

  /** Losses are declared by time after nine eighths of the larger of the latest and the smoothed value. */
  lemma DelayIs(r: Rtt)
    ensures r.initialized ==> LossDelay(r) * 8.0 >= 9.0 * r.latest && LossDelay(r) * 8.0 >= 9.0 * r.smoothed
                              && (LossDelay(r) * 8.0 == 9.0 * r.latest || LossDelay(r) * 8.0 == 9.0 * r.smoothed)
    ensures !r.initialized ==> LossDelay(r) * 8.0 == 9.0 * r.initial
  {
  }
}
