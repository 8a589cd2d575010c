/** The recovery handlers as runs of single steps, and the round-trip estimate over all samples (quic/recovery.py). */
module RecoveryRuns {
  import opened Common
  import opened RecoverySpec
  import opened Recovery

  // ---- Every handler is a sequence of steps ----

  ghost predicate Reachable(spaces: nat, size: nat, r: State) {
    size > 0 && exists acts :: Legal(spaces, size, acts) && Run(spaces, size, acts) == r
  }

  lemma StepReaches(spaces: nat, size: nat, r: State, a: Action)
    requires Reachable(spaces, size, r) && Enabled(r, a)
    ensures Inv(r) && Reachable(spaces, size, Step(r, a))
  {
    var acts :| Legal(spaces, size, acts) && Run(spaces, size, acts) == r;
    var more := acts + [a];
    assert more[..|more| - 1] == acts;
    hide Step, Enabled, Inv;
    assert Legal(spaces, size, more) && Run(spaces, size, more) == Step(r, a);
  }

  /** An ACK frame: removal, perhaps the end of slow start, then a loss scan. */
  lemma AckReaches(spaces: nat, size: nat, r: State, i: nat, acked: set<int>, largest: int, sampled: bool, increasing: bool,
                   now: real, delay: real)
    requires Reachable(spaces, size, r) && i < |r.spaces|
    ensures r.cc.window > 0
    ensures Reachable(spaces, size, Acknowledged(r, i, acked, largest))
    ensures Reachable(spaces, size, Detected(AfterSample(Acknowledged(r, i, acked, largest), sampled, increasing), i, now, delay))
  {
    hide Reachable;
    StepReaches(spaces, size, r, Ack(i, acked, largest));
    assert r.cc.window > 0;
    var a := Acknowledged(r, i, acked, largest);
    StepReaches(spaces, size, a, ExitSlowStart);
    var b := AfterSample(a, sampled, increasing);
    assert Reachable(spaces, size, b);
    StepReaches(spaces, size, b, DetectLoss(i, now, delay));
  }

  /** Retransmitting CRYPTO data, space by space. */
  lemma {:induction false} CryptoReaches(spaces: nat, size: nat, r: State, n: nat, now: real)
    requires Reachable(spaces, size, r) && n <= |r.spaces|
    ensures Reachable(spaces, size, AllCryptoLost(r, n, now))
  {
    hide Reachable, CryptoLost;
    if n > 0 {
      CryptoReaches(spaces, size, r, n - 1, now);
      StepReaches(spaces, size, AllCryptoLost(r, n - 1, now), Reschedule(n - 1, now));
    }
  }

  // ---- Round-trip times ----

  function NewRtt(initial: real): Rtt { Rtt(initial, false, 0.0, None, 0.0, 0.0) }

  datatype Sample = Sample(rtt: real, ackDelay: real)

  function Floored(s: Sample): real { MaxReal(s.rtt, 0.001) }

  /** The estimate after all samples, oldest first. */
  function SampledAll(r: Rtt, samples: seq<Sample>): Rtt {
    if samples == [] then r
    else
      var k := |samples| - 1;
      Sampled(SampledAll(r, samples[..k]), samples[k].rtt, samples[k].ackDelay)
  }

  ghost predicate Realistic(samples: seq<Sample>, most: real) {
    forall s | s in samples :: s.rtt <= most && s.ackDelay >= 0.0
  }

  /** How the estimate stands after some samples, at least one. */
  ghost predicate Estimates(r: Rtt, samples: seq<Sample>, most: real)
    requires samples != []
  {
    && r.initialized && r.min.Some? && 0.001 <= r.min.value <= r.latest <= most
    && (exists s :: s in samples && r.min.value == Floored(s))
    && (forall s | s in samples :: r.min.value <= Floored(s))
    && r.smoothed <= most
    && (samples[0].rtt >= 0.001 ==> r.smoothed >= 0.001)
    && (samples[0].rtt >= 0.0 ==> 0.0 <= r.variance <= most)
  }

  /**
   After any samples the minimum is the least of them, cut off at a millisecond; the latest value lies between the
   minimum and the largest sample; the smoothed value and the variance never exceed the largest sample; and losses
   are never declared sooner than 9/8 of a millisecond after sending by time alone.
   */
  lemma {:induction false} EstimateBounds(initial: real, samples: seq<Sample>, most: real)
    requires samples != [] && Realistic(samples, most) && most >= 0.001
    ensures var r := SampledAll(NewRtt(initial), samples);
            Estimates(r, samples, most) && LossDelay(r) >= 9.0 / 8.0 * 0.001
    decreases |samples|
  {
    var k := |samples| - 1;
    var front, last := samples[..k], samples[k];
    assert samples == front + [last] && last in samples;
    if k > 0 {
      EstimateBounds(initial, front, most);
      OneMoreSample(SampledAll(NewRtt(initial), front), front, last, most);
    }
  }

  lemma OneMoreSample(r: Rtt, front: seq<Sample>, last: Sample, most: real)
    requires front != [] && Estimates(r, front, most) && Realistic(front + [last], most) && most >= 0.001
    ensures Estimates(Sampled(r, last.rtt, last.ackDelay), front + [last], most)
  {
    assert last in front + [last];
    var s :| s in front && r.min.value == Floored(s);
    assert s in front + [last];
  }

  /**
   The smoothed value stays at or above a millisecond in every state of a run exactly when the first sample does: the
   first one is taken as it is, without the lower limit.
   */
  lemma SmoothedFloor(initial: real, samples: seq<Sample>, most: real)
    requires samples != [] && Realistic(samples, most) && most >= 0.001
    ensures (forall n :: 0 < n <= |samples| ==> SampledAll(NewRtt(initial), samples[..n]).smoothed >= 0.001) <==>
            samples[0].rtt >= 0.001
  {
    var one := samples[..1];
    assert one == [samples[0]] && one[..0] == [];
    assert SampledAll(NewRtt(initial), one).smoothed == samples[0].rtt;
    if samples[0].rtt >= 0.001 {
      forall n | 0 < n <= |samples|
        ensures SampledAll(NewRtt(initial), samples[..n]).smoothed >= 0.001
      {
        EstimateBounds(initial, samples[..n], most);
      }
    }
  }
}
