/** Packet numbers sent as their low bits (quic/packet.py, appendix A.3 of RFC 9000). */
module PacketNumbers {
  import opened Common

  const NUMBER_LIMIT := 0x4000_0000_0000_0000

  function Window(bits: nat): (w: nat)
    ensures w > 0 && (bits > 0 ==> w % 2 == 0)
  {
    if bits == 0 then 1 else 2 * Window(bits - 1)
  }

  function DecodePacketNumber(truncated: nat, bits: nat, expected: nat): int {
    var window := Window(bits);
    var half := window / 2;
    var candidate := expected - expected % window + truncated;
    if candidate <= expected - half && candidate < NUMBER_LIMIT - window then candidate + window
    else if candidate > expected + half && candidate >= window then candidate - window
    else candidate
  }

  /** Near enough to the expected number, or in its window at either end of the number space. */
  predicate Recoverable(number: int, window: nat, expected: int)
  {
    var half := window / 2;
    || expected - half < number <= expected + half
    || (expected + half < number < window)
    || (NUMBER_LIMIT - window <= number <= expected - half && expected < NUMBER_LIMIT)
  }

  /** A multiple of w is zero or at least w away from it. */
  predicate Multiple(d: int, w: nat) { d == 0 || d == w || d + w == 0 || d >= 2 * w || d + 2 * w <= 0 }

  lemma DifferenceOfMultiples(w: nat, a: int, b: int)
    requires w > 0
    ensures Multiple(w * a - w * b, w)
  {
    var k := a - b;
    assert w * a - w * b == w * k;
    assert k >= 2 ==> w * k >= w * 2;
    assert k <= -2 ==> w * k <= w * -2;
  }

  lemma LimitIsMultiple(bits: nat)
    requires bits <= 62
    ensures NUMBER_LIMIT == Window(bits) * Window(62 - bits)
  {
    hide Window;
    Limit();
    WindowProduct(62 - bits, bits);
  }

  lemma {:induction false} WindowProduct(a: nat, b: nat)
    ensures Window(a + b) == Window(a) * Window(b)
  {
    if a > 0 {
      WindowProduct(a - 1, b);
      assert 2 * (Window(a - 1) * Window(b)) == Window(a) * Window(b);
    }
  }

  lemma Limit()
    ensures Window(62) == NUMBER_LIMIT
  {
    assert Window(10) == 1024;
    assert Window(20) == 1024 * 1024;
    assert Window(30) == 1024 * 1024 * 1024;
    assert Window(40) == 1024 * Window(30);
    assert Window(50) == 1024 * Window(40);
    assert Window(60) == 1024 * Window(50);
  }

  /** The case analysis, with every product of the window named. */
  lemma Cases(number: nat, w: nat, expected: nat, base: int, low: int)
    requires w >= 2 && w % 2 == 0 && w <= NUMBER_LIMIT && number < NUMBER_LIMIT && expected <= NUMBER_LIMIT
    requires base <= expected < base + w && 0 <= low < w
    requires Multiple(number - (base + low), w) && Multiple(base, w) && Multiple(NUMBER_LIMIT - base, w)
    ensures var c := base + low;
            var decoded := if c <= expected - w / 2 && c < NUMBER_LIMIT - w then c + w
                           else if c > expected + w / 2 && c >= w then c - w
                           else c;
            decoded == number <==> Recoverable(number, w, expected)
  {
  }

  /** A window starts at a multiple of its size, in steps of its size from any other. */
  lemma Starts(v: nat, other: nat, w: nat)
    requires w > 0
    ensures Multiple(v - v % w, w) && Multiple((v - v % w) - (other - other % w), w)
  {
    assert v - v % w == w * (v / w) && other - other % w == w * (other / w);
    DifferenceOfMultiples(w, v / w, 0);
    DifferenceOfMultiples(w, v / w, other / w);
  }

  lemma LimitStarts(v: nat, bits: nat)
    requires bits <= 62
    ensures var w := Window(bits); w <= NUMBER_LIMIT && Multiple(NUMBER_LIMIT - (v - v % w), w)
  {
    LimitIsMultiple(bits);
    RemainderUnique(NUMBER_LIMIT, Window(bits), Window(62 - bits), 0);
    Starts(NUMBER_LIMIT, v, Window(bits));
    Starts(NUMBER_LIMIT, 0, Window(bits));
  }

  /** Exactly which numbers survive truncation. */
  lemma RecoveredExactly(number: nat, bits: nat, expected: nat)
    requires 0 < bits <= 62 && number < NUMBER_LIMIT && expected <= NUMBER_LIMIT
    ensures DecodePacketNumber(number % Window(bits), bits, expected) == number <==>
            Recoverable(number, Window(bits), expected)
  {
    var w := Window(bits);
    assert w >= 2;
    Starts(expected, expected, w);
    Starts(number, expected, w);
    LimitStarts(expected, bits);
    Cases(number, w, expected, expected - expected % w, number % w);
  }

  // ---- Receiving ----

  /** The largest number received so far, -1 before the first. */
  function Largest(numbers: seq<nat>): (m: int)
    ensures m >= -1 && (numbers != [] ==> m in numbers) && forall n | n in numbers :: n <= m
  {
    if numbers == [] then -1
    else
      var k := |numbers| - 1;
      assert numbers == numbers[..k] + [numbers[k]];
      Max(Largest(numbers[..k]), numbers[k])
  }

  /** A space's expected packet number after the packets carrying these numbers (quic/connection.py). */
  function Expected(numbers: seq<int>): (e: nat) {
    if numbers == [] then 0
    else
      var e, n := Expected(numbers[..|numbers| - 1]), numbers[|numbers| - 1];
      if n > e then n + 1 else e
  }

  lemma {:induction false} ExpectedFollowsLargest(numbers: seq<nat>)
    ensures Largest(numbers) <= Expected(numbers) <= Largest(numbers) + 1
  {
    if numbers != [] {
      ExpectedFollowsLargest(numbers[..|numbers| - 1]);
    }
  }

  /** What a receiver that has decoded these numbers makes of the low 16 bits of the next. */
  function ReceiveOne(before: seq<int>, number: nat): int {
    DecodePacketNumber(number % 0x1_0000, 16, Expected(before))
  }

  /** What a receiver makes of packets sent with the low 16 bits of these numbers. */
  function Received(numbers: seq<nat>): (decoded: seq<int>)
    ensures |decoded| == |numbers|
  {
    if numbers == [] then []
    else
      var before := Received(numbers[..|numbers| - 1]);
      before + [ReceiveOne(before, numbers[|numbers| - 1])]
  }

  /** Each number arrives within half a window of the one after the largest received before it. */
  ghost predicate Timely(numbers: seq<nat>) {
    forall i :: 0 <= i < |numbers| ==>
      numbers[i] < NUMBER_LIMIT
      && Largest(numbers[..i]) + 1 - 0x8000 < numbers[i] <= Largest(numbers[..i]) + 0x8000
  }

  /** Over every run of timely packets the receiver recovers every number from its 16 bits. */
  lemma {:induction false} EveryNumberRecovered(numbers: seq<nat>)
    requires Timely(numbers)
    ensures Received(numbers) == numbers
  {
    hide ReceiveOne, Timely;
    if numbers != [] {
      var before, last := numbers[..|numbers| - 1], numbers[|numbers| - 1];
      TimelyPrefix(numbers);
      EveryNumberRecovered(before);
      LastRecovered(numbers);
      assert Received(numbers) == before + [last];
      assert numbers == before + [last];
    }
  }

  lemma TimelyPrefix(numbers: seq<nat>)
    requires Timely(numbers) && numbers != []
    ensures Timely(numbers[..|numbers| - 1])
  {
    var k := |numbers| - 1;
    assert forall i | 0 <= i < k :: numbers[..k][..i] == numbers[..i];
  }

  lemma LastRecovered(numbers: seq<nat>)
    requires Timely(numbers) && numbers != []
    ensures var k := |numbers| - 1;
            ReceiveOne(numbers[..k], numbers[k]) == numbers[k]
  {
    var k := |numbers| - 1;
    ExpectedFollowsLargest(numbers[..k]);
    assert Window(16) == 0x1_0000 by {
      assert Window(8) == 256;
    }
    assert Largest(numbers[..k]) < NUMBER_LIMIT by {
      if k > 0 {
        var m := Largest(numbers[..k]);
        assert m in numbers[..k];
      }
    }
    RecoveredExactly(numbers[k], 16, Expected(numbers[..k]));
  }
}
