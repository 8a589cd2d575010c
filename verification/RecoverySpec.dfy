/**
 Loss recovery on values (quic/recovery.py, quic/congestion/reno_default.py): which packets
 leave a packet space, with what report, and what that does to the counters.
 */
module RecoverySpec {
  import opened Common

  datatype Packet = Packet(
    number: nat, inFlight: bool, ackEliciting: bool, crypto: bool, sentTime: real, bytes: nat)

  /** Running the delivery handlers of one packet. */
  datatype Report = Report(space: nat, number: nat, delivery: Delivery)

  datatype Space = Space(
    sent: seq<Packet>,        // insertion order of the sent_packets dictionary
    ackEliciting: int,        // ack_eliciting_in_flight
    largestAcked: int,
    lossTime: Option<real>)

  const NEW_SPACE := Space([], 0, 0, None)

  // ---- Packet lists ----

  function Select(ps: seq<Packet>, keep: Packet -> bool): (r: seq<Packet>)
    ensures |r| <= |ps|
  {
    if ps == [] then []
    else (if keep(ps[0]) then [ps[0]] else []) + Select(ps[1..], keep)
  }

  function Numbers(ps: seq<Packet>): set<int> { set i | 0 <= i < |ps| :: ps[i].number }

  function InFlightBytes(ps: seq<Packet>): nat {
    if ps == [] then 0 else (if ps[0].inFlight then ps[0].bytes else 0) + InFlightBytes(ps[1..])
  }

  function Eliciting(ps: seq<Packet>): nat {
    if ps == [] then 0 else (if ps[0].ackEliciting then 1 else 0) + Eliciting(ps[1..])
  }

  predicate Increasing(ps: seq<Packet>) {
    forall i, j :: 0 <= i < j < |ps| ==> ps[i].number < ps[j].number
  }

  function Reports(ps: seq<Packet>, space: nat, d: Delivery): (r: seq<Report>)
    ensures |r| == |ps|
  {
    seq(|ps|, i requires 0 <= i < |ps| => Report(space, ps[i].number, d))
  }

  lemma SelectMember(ps: seq<Packet>, keep: Packet -> bool, p: Packet)
    ensures p in Select(ps, keep) <==> p in ps && keep(p)
  {
    if ps != [] {
      SelectMember(ps[1..], keep, p);
      assert ps == [ps[0]] + ps[1..];
    }
  }

  lemma {:induction false} SelectSplit(ps: seq<Packet>, p: Packet -> bool)
    ensures InFlightBytes(ps) == InFlightBytes(Select(ps, p)) + InFlightBytes(Select(ps, x => !p(x)))
    ensures Eliciting(ps) == Eliciting(Select(ps, p)) + Eliciting(Select(ps, x => !p(x)))
  {
    if ps != [] {
      SelectSplit(ps[1..], p);
      var q := (x: Packet) => !p(x);
      assert Select(ps, p) == if p(ps[0]) then [ps[0]] + Select(ps[1..], p) else Select(ps[1..], p);
      assert Select(ps, q) == if p(ps[0]) then Select(ps[1..], q) else [ps[0]] + Select(ps[1..], q);
    }
  }

  lemma {:induction false} SelectIncreasing(ps: seq<Packet>, keep: Packet -> bool)
    requires Increasing(ps)
    ensures Increasing(Select(ps, keep))
  {
    if ps != [] {
      SelectIncreasing(ps[1..], keep);
      var rest := Select(ps[1..], keep);
      forall j | 0 <= j < |rest|
        ensures ps[0].number < rest[j].number
      {
        SelectMember(ps[1..], keep, rest[j]);
        var k :| 0 <= k < |ps[1..]| && ps[1..][k] == rest[j];
        assert ps[k + 1] == rest[j];
      }
    }
  }

  /** In an increasing list a number names one packet, so its fate is decided by that packet. */
  lemma SelectNumbers(ps: seq<Packet>, p: Packet -> bool)
    requires Increasing(ps)
    ensures Numbers(Select(ps, p)) + Numbers(Select(ps, x => !p(x))) == Numbers(ps)
    ensures Numbers(Select(ps, p)) !! Numbers(Select(ps, x => !p(x)))
  {
    var q := (x: Packet) => !p(x);
    var a, b := Select(ps, p), Select(ps, q);
    forall n | n in Numbers(ps)
      ensures n in Numbers(a) + Numbers(b)
    {
      var i :| 0 <= i < |ps| && ps[i].number == n;
      SelectMember(ps, p, ps[i]);
      SelectMember(ps, q, ps[i]);
    }
    forall i | 0 <= i < |a|
      ensures a[i] in ps && p(a[i])
    {
      SelectMember(ps, p, a[i]);
    }
    forall i | 0 <= i < |b|
      ensures b[i] in ps && !p(b[i])
    {
      SelectMember(ps, q, b[i]);
    }
    forall i, j | 0 <= i < |a| && 0 <= j < |b|
      ensures a[i].number != b[j].number
    {
      var k :| 0 <= k < |ps| && ps[k] == a[i];
      var l :| 0 <= l < |ps| && ps[l] == b[j];
    }
  }

  // ---- Congestion controller ----

  datatype Reno = Reno(
    maxDatagramSize: nat,
    bytesInFlight: int,
    window: nat,
    ssthresh: Option<nat>,
    recoveryStart: real,
    stash: nat)

  const MINIMUM_WINDOW := 2
  const INITIAL_WINDOW := 10

  function NewReno(maxDatagramSize: nat): Reno {
    Reno(maxDatagramSize, 0, INITIAL_WINDOW * maxDatagramSize, None, 0.0, 0)
  }

  function OnAcked(cc: Reno, p: Packet): (r: Reno)
    requires cc.window > 0
    ensures r.window >= cc.window && r.bytesInFlight == cc.bytesInFlight - p.bytes && r.maxDatagramSize == cc.maxDatagramSize
  {
    var less := cc.(bytesInFlight := cc.bytesInFlight - p.bytes);
    if p.sentTime <= cc.recoveryStart then less
    else if cc.ssthresh == None || cc.window < cc.ssthresh.value then
      less.(window := cc.window + p.bytes)
    else
      var count := (cc.stash + p.bytes) / cc.window;
      less.(stash := (cc.stash + p.bytes) % cc.window, window := cc.window + count * cc.maxDatagramSize)
  }

  /** All in-flight packets of a list acknowledged in order. */
  function OnAllAcked(cc: Reno, ps: seq<Packet>): (r: Reno)
    requires cc.window > 0
    ensures r.window >= cc.window && r.bytesInFlight == cc.bytesInFlight - InFlightBytes(ps)
    ensures r.maxDatagramSize == cc.maxDatagramSize
    decreases |ps|
  {
    hide OnAcked;
    if ps == [] then cc
    else OnAllAcked(if ps[0].inFlight then OnAcked(cc, ps[0]) else cc, ps[1..])
  }

  function InFlight(ps: seq<Packet>): seq<Packet> { Select(ps, (p: Packet) => p.inFlight) }

  /** Loss of a non-empty list of in-flight packets; the window is cut once per recovery period. */
  function OnAllLost(cc: Reno, ps: seq<Packet>, now: real): (r: Reno)
    ensures r.maxDatagramSize == cc.maxDatagramSize
    ensures r.window == cc.window || r.window == Max(cc.window / 2, MINIMUM_WINDOW * cc.maxDatagramSize)
  {
    var lost := InFlight(ps);
    var less := cc.(bytesInFlight := cc.bytesInFlight - InFlightBytes(ps));
    if lost != [] && lost[|lost| - 1].sentTime > cc.recoveryStart then
      var window := Max(cc.window / 2, MINIMUM_WINDOW * cc.maxDatagramSize);
      less.(recoveryStart := now, window := window, ssthresh := Some(window))
    else less
  }

  /** The last packet of a list that counts as in flight was sent after this time. */
  predicate LastSentAfter(ps: seq<Packet>, time: real) {
    var lost := InFlight(ps);
    lost != [] && lost[|lost| - 1].sentTime > time
  }

  /**
   The window is cut at most once per recovery period: after a cut, another loss cuts it again exactly when the last
   packet lost was sent after that cut.
   */
  lemma CutOncePerPeriod(cc: Reno, first: seq<Packet>, now: real, second: seq<Packet>, later: real)
    requires LastSentAfter(first, cc.recoveryStart)
    ensures var cut := OnAllLost(cc, first, now);
            var again := OnAllLost(cut, second, later);
            && cut.window == Max(cc.window / 2, MINIMUM_WINDOW * cc.maxDatagramSize) && cut.ssthresh == Some(cut.window)
            && again.window == (if LastSentAfter(second, now) then Max(cut.window / 2, MINIMUM_WINDOW * cc.maxDatagramSize)
                                else cut.window)
            && again.bytesInFlight == cc.bytesInFlight - InFlightBytes(first) - InFlightBytes(second)
  {
  }

  // ---- Recovery state ----

  datatype State = State(
    spaces: seq<Space>,
    cc: Reno,
    log: seq<Report>,                // every run of a packet's delivery handlers, oldest first
    registered: set<(int, int)>,     // (space, number) of every packet ever sent
    dropped: set<(int, int)>)        // packets of discarded spaces

  function Tagged(space: nat, numbers: set<int>): set<(int, int)> { set n | n in numbers :: (space, n) }

  function Reported(log: seq<Report>): set<(int, int)> { set a | 0 <= a < |log| :: (log[a].space, log[a].number) }

  ghost predicate OncePerPacket(log: seq<Report>) {
    forall a, b :: 0 <= a < b < |log| ==> log[a].space != log[b].space || log[a].number != log[b].number
  }

  function TotalBytes(spaces: seq<Space>): nat {
    if spaces == [] then 0 else InFlightBytes(spaces[0].sent) + TotalBytes(spaces[1..])
  }

  function Pending(spaces: seq<Space>): set<(int, int)> {
    set i, n | 0 <= i < |spaces| && n in Numbers(spaces[i].sent) :: (i, n)
  }

  ghost predicate SpaceInv(s: Space) { Increasing(s.sent) && s.ackEliciting == Eliciting(s.sent) }

  /** Bytes in flight add up over all spaces, and every registered packet has exactly one fate. */
  ghost predicate Inv(r: State) {
    && (forall i | 0 <= i < |r.spaces| :: SpaceInv(r.spaces[i]))
    && r.cc.bytesInFlight == TotalBytes(r.spaces)
    && r.cc.maxDatagramSize > 0 && r.cc.window >= MINIMUM_WINDOW * r.cc.maxDatagramSize
    && OncePerPacket(r.log)
    && r.registered == Pending(r.spaces) + Reported(r.log) + r.dropped
    && Pending(r.spaces) !! Reported(r.log) && Pending(r.spaces) !! r.dropped && Reported(r.log) !! r.dropped
  }

  /** Packets of one space leave it with one report each; everything else stays. */
  function Take(r: State, i: nat, gone: Packet -> bool, d: Delivery, space: Space, cc: Reno): State
    requires i < |r.spaces|
  {
    var out := Select(r.spaces[i].sent, gone);
    var left := Select(r.spaces[i].sent, p => !gone(p));
    r.(spaces := r.spaces[i := space.(sent := left, ackEliciting := r.spaces[i].ackEliciting - Eliciting(out))],
       cc := cc,
       log := r.log + Reports(out, i, d))
  }

  lemma {:induction false} TotalBytesAfter(spaces: seq<Space>, i: nat, s: Space)
    requires i < |spaces|
    ensures TotalBytes(spaces[i := s]) == TotalBytes(spaces) - InFlightBytes(spaces[i].sent) + InFlightBytes(s.sent)
  {
    if i == 0 {
      assert spaces[i := s][1..] == spaces[1..];
    } else {
      assert spaces[i := s][1..] == spaces[1..][i - 1 := s];
      TotalBytesAfter(spaces[1..], i - 1, s);
    }
  }

  lemma PendingAfter(spaces: seq<Space>, i: nat, s: Space, out: set<int>)
    requires i < |spaces| && Numbers(s.sent) + out == Numbers(spaces[i].sent) && Numbers(s.sent) !! out
    ensures Pending(spaces[i := s]) + Tagged(i, out) == Pending(spaces)
    ensures Pending(spaces[i := s]) !! Tagged(i, out)
  {
    var after := spaces[i := s];
    forall x | x in Pending(spaces)
      ensures x in Pending(after) + Tagged(i, out)
    {
      var j, n :| 0 <= j < |spaces| && n in Numbers(spaces[j].sent) && x == (j, n);
      if j != i { assert after[j] == spaces[j]; }
    }
    forall x | x in Pending(after)
      ensures x in Pending(spaces) && x !in Tagged(i, out)
    {
      var j, n :| 0 <= j < |after| && n in Numbers(after[j].sent) && x == (j, n);
      if j != i { assert after[j] == spaces[j]; }
    }
  }

  lemma ReportsAdded(log: seq<Report>, ps: seq<Packet>, i: nat, d: Delivery)
    requires OncePerPacket(log) && Increasing(ps) && Reported(log) !! Tagged(i, Numbers(ps))
    ensures OncePerPacket(log + Reports(ps, i, d))
    ensures Reported(log + Reports(ps, i, d)) == Reported(log) + Tagged(i, Numbers(ps))
  {
    var more := Reports(ps, i, d);
    var all := log + more;
    forall a | 0 <= a < |ps|
      ensures (more[a].space, more[a].number) in Tagged(i, Numbers(ps)) && all[|log| + a] == more[a]
    {
      assert ps[a].number in Numbers(ps);
    }
    forall a | 0 <= a < |log|
      ensures (log[a].space, log[a].number) in Reported(log) && all[a] == log[a]
    {
    }
    forall a, b | 0 <= a < b < |all|
      ensures all[a].space != all[b].space || all[a].number != all[b].number
    {
      if a < |log| <= b {
        assert all[b] == more[b - |log|];
      }
    }
    forall x | x in Tagged(i, Numbers(ps))
      ensures x in Reported(all)
    {
      var a :| 0 <= a < |ps| && ps[a].number == x.1;
      assert all[|log| + a] == more[a];
    }
  }

  /** Taking packets out keeps every account balanced when the controller forgets the same bytes. */
  lemma TakeKeeps(r: State, i: nat, gone: Packet -> bool, d: Delivery, space: Space, cc: Reno)
    requires Inv(r) && i < |r.spaces|
    requires cc.bytesInFlight == r.cc.bytesInFlight - InFlightBytes(Select(r.spaces[i].sent, gone))
    requires cc.maxDatagramSize == r.cc.maxDatagramSize && cc.window >= MINIMUM_WINDOW * cc.maxDatagramSize
    ensures Inv(Take(r, i, gone, d, space, cc))
  {
    var r' := Take(r, i, gone, d, space, cc);
    var ps := r.spaces[i].sent;
    var out := Select(ps, gone);
    assert SpaceInv(r.spaces[i]);
    SelectSplit(ps, gone);
    SelectNumbers(ps, gone);
    SelectIncreasing(ps, gone);
    SelectIncreasing(ps, p => !gone(p));
    TotalBytesAfter(r.spaces, i, r'.spaces[i]);
    PendingAfter(r.spaces, i, r'.spaces[i], Numbers(out));
    ReportsAdded(r.log, out, i, d);
    TakeBalances(r, r', i, out);
  }

  lemma TakeBalances(r: State, r': State, i: nat, out: seq<Packet>)
    requires Inv(r) && i < |r.spaces|
    requires r'.registered == r.registered && r'.dropped == r.dropped
    requires Pending(r'.spaces) + Tagged(i, Numbers(out)) == Pending(r.spaces)
    requires Pending(r'.spaces) !! Tagged(i, Numbers(out))
    requires Reported(r'.log) == Reported(r.log) + Tagged(i, Numbers(out))
    ensures r'.registered == Pending(r'.spaces) + Reported(r'.log) + r'.dropped
    ensures Pending(r'.spaces) !! Reported(r'.log) && Pending(r'.spaces) !! r'.dropped
    ensures Reported(r'.log) !! r'.dropped
  {
  }

  // ---- Operations ----

  const PACKET_THRESHOLD := 3

  /** on_packet_sent: the packet joins its space and, if in flight, the byte count. */
  function Sent(r: State, i: nat, p: Packet): State
    requires i < |r.spaces|
  {
    var s := r.spaces[i];
    r.(spaces := r.spaces[i := s.(sent := s.sent + [p], ackEliciting := s.ackEliciting + if p.ackEliciting then 1 else 0)],
       cc := r.cc.(bytesInFlight := r.cc.bytesInFlight + if p.inFlight then p.bytes else 0),
       registered := r.registered + {(i, p.number)})
  }

  /** The removal part of on_ack_received. */
  function Acknowledged(r: State, i: nat, acked: set<int>, largest: int): State
    requires i < |r.spaces| && r.cc.window > 0
  {
    var gone := (p: Packet) => p.number in acked;
    Take(r, i, gone, Acked, r.spaces[i].(largestAcked := Max(r.spaces[i].largestAcked, largest)),
         OnAllAcked(r.cc, Select(r.spaces[i].sent, gone)))
  }

  /** Below the packet threshold, or older than the time threshold, and not above the largest acknowledged. */
  predicate IsLost(p: Packet, largest: int, before: real) {
    p.number <= largest && (p.number <= largest - PACKET_THRESHOLD || p.sentTime <= before)
  }

  /** The earliest time at which a remaining packet up to largest becomes late. */
  function EarliestLoss(ps: seq<Packet>, largest: int, delay: real): Option<real> {
    if ps == [] then None else
      var rest := EarliestLoss(ps[..|ps| - 1], largest, delay);
      var p := ps[|ps| - 1];
      if p.number > largest then rest
      else if rest == None || rest.value > p.sentTime + delay then Some(p.sentTime + delay)
      else rest
  }

  /** _detect_loss */
  function Detected(r: State, i: nat, now: real, delay: real): State
    requires i < |r.spaces|
  {
    var s := r.spaces[i];
    var gone := (p: Packet) => IsLost(p, s.largestAcked, now - delay);
    Take(r, i, gone, Lost,
         s.(lossTime := EarliestLoss(Select(s.sent, p => !gone(p)), s.largestAcked, delay)),
         OnAllLost(r.cc, Select(s.sent, gone), now))
  }

  /** reschedule_data in one space: its CRYPTO packets count as lost. */
  function CryptoLost(r: State, i: nat, now: real): State
    requires i < |r.spaces|
  {
    var gone := (p: Packet) => p.crypto;
    Take(r, i, gone, Lost, r.spaces[i], OnAllLost(r.cc, Select(r.spaces[i].sent, gone), now))
  }

  /** discard_space: the packets are forgotten without any report. */
  function Discarded(r: State, i: nat): State
    requires i < |r.spaces|
  {
    var s := r.spaces[i];
    r.(spaces := r.spaces[i := Space([], 0, s.largestAcked, None)],
       cc := r.cc.(bytesInFlight := r.cc.bytesInFlight - InFlightBytes(s.sent)),
       dropped := r.dropped + Tagged(i, Numbers(s.sent)))
  }

  predicate FreshNumber(r: State, i: nat, number: nat) {
    forall x | x in r.registered && x.0 == i :: x.1 < number
  }

  lemma SentKeeps(r: State, i: nat, p: Packet)
    requires Inv(r) && i < |r.spaces| && FreshNumber(r, i, p.number)
    ensures Inv(Sent(r, i, p))
  {
    var r' := Sent(r, i, p);
    var ps := r.spaces[i].sent;
    assert SpaceInv(r.spaces[i]);
    forall j | 0 <= j < |ps|
      ensures ps[j].number < p.number
    {
      assert ps[j].number in Numbers(ps) && (i, ps[j].number) in Pending(r.spaces);
    }
    CountsAppend(ps, p);
    TotalBytesAfter(r.spaces, i, r'.spaces[i]);
    assert Numbers(ps + [p]) == Numbers(ps) + {p.number} by {
      assert (ps + [p])[|ps|] == p;
      forall j | 0 <= j < |ps|
        ensures (ps + [p])[j].number == ps[j].number
      {
      }
    }
    assert r.spaces == r'.spaces[i := r.spaces[i]];
    PendingAfter(r'.spaces, i, r.spaces[i], {p.number});
    assert Tagged(i, {p.number}) == {(i, p.number)};
  }

  lemma {:induction false} CountsAppend(ps: seq<Packet>, p: Packet)
    ensures InFlightBytes(ps + [p]) == InFlightBytes(ps) + if p.inFlight then p.bytes else 0
    ensures Eliciting(ps + [p]) == Eliciting(ps) + if p.ackEliciting then 1 else 0
  {
    if ps == [] {
      assert ps + [p] == [p];
    } else {
      assert (ps + [p])[1..] == ps[1..] + [p];
      CountsAppend(ps[1..], p);
    }
  }

  lemma DiscardedKeeps(r: State, i: nat)
    requires Inv(r) && i < |r.spaces|
    ensures Inv(Discarded(r, i))
  {
    var r' := Discarded(r, i);
    var ps := r.spaces[i].sent;
    TotalBytesAfter(r.spaces, i, r'.spaces[i]);
    PendingAfter(r.spaces, i, r'.spaces[i], Numbers(ps));
  }

  // ---- Runs ----

  datatype Action =
    | Send(i: nat, p: Packet)
    | Ack(i: nat, acked: set<int>, largest: int)
    | DetectLoss(i: nat, now: real, delay: real)
    | Reschedule(i: nat, now: real)
    | ExitSlowStart
    | Discard(i: nat)

  predicate Enabled(r: State, a: Action) {
    match a
    case Send(i, p) => i < |r.spaces| && FreshNumber(r, i, p.number)
    case Ack(i, acked, largest) => i < |r.spaces|
    case DetectLoss(i, _, _) => i < |r.spaces|
    case Reschedule(i, _) => i < |r.spaces|
    case ExitSlowStart => true
    case Discard(i) => i < |r.spaces|
  }

  function Step(r: State, a: Action): State
    requires Enabled(r, a) && r.cc.window > 0
  {
    match a
    case Send(i, p) => Sent(r, i, p)
    case Ack(i, acked, largest) => Acknowledged(r, i, acked, largest)
    case DetectLoss(i, now, delay) => Detected(r, i, now, delay)
    case Reschedule(i, now) => CryptoLost(r, i, now)
    case ExitSlowStart => r.(cc := r.cc.(ssthresh := Some(r.cc.window)))
    case Discard(i) => Discarded(r, i)
  }

  lemma StepKeeps(r: State, a: Action)
    requires Inv(r) && Enabled(r, a)
    ensures Inv(Step(r, a))
  {
    match a
    case Send(i, p) => SentKeeps(r, i, p);
    case Ack(i, acked, largest) =>
      var gone := (p: Packet) => p.number in acked;
      TakeKeeps(r, i, gone, Acked, r.spaces[i].(largestAcked := Max(r.spaces[i].largestAcked, largest)),
                OnAllAcked(r.cc, Select(r.spaces[i].sent, gone)));
    case DetectLoss(i, now, delay) =>
      var s := r.spaces[i];
      var gone := (p: Packet) => IsLost(p, s.largestAcked, now - delay);
      TakeKeeps(r, i, gone, Lost,
                s.(lossTime := EarliestLoss(Select(s.sent, p => !gone(p)), s.largestAcked, delay)),
                OnAllLost(r.cc, Select(s.sent, gone), now));
    case Reschedule(i, now) =>
      var gone := (p: Packet) => p.crypto;
      TakeKeeps(r, i, gone, Lost, r.spaces[i], OnAllLost(r.cc, Select(r.spaces[i].sent, gone), now));
    case ExitSlowStart =>
    case Discard(i) => DiscardedKeeps(r, i);
  }

  function NewState(spaces: nat, maxDatagramSize: nat): State {
    State(seq(spaces, _ => NEW_SPACE), NewReno(maxDatagramSize), [], {}, {})
  }

  lemma {:induction false} NewStateHolds(spaces: nat, maxDatagramSize: nat)
    requires maxDatagramSize > 0
    ensures Inv(NewState(spaces, maxDatagramSize))
  {
    NothingInFlight(NewState(spaces, maxDatagramSize).spaces);
  }

  lemma {:induction false} NothingInFlight(spaces: seq<Space>)
    requires forall s | s in spaces :: s.sent == []
    ensures TotalBytes(spaces) == 0 && Pending(spaces) == {}
  {
    if spaces != [] {
      NothingInFlight(spaces[1..]);
    }
  }

  ghost predicate Legal(spaces: nat, size: nat, acts: seq<Action>)
    requires size > 0
    decreases |acts|, 0
  {
    acts == [] || (Legal(spaces, size, acts[..|acts| - 1]) &&
                   Enabled(Run(spaces, size, acts[..|acts| - 1]), acts[|acts| - 1]))
  }

  ghost function Run(spaces: nat, size: nat, acts: seq<Action>): (r: State)
    requires size > 0 && Legal(spaces, size, acts)
    ensures Inv(r)
    decreases |acts|, 1
  {
    if acts == [] then NewStateHolds(spaces, size); NewState(spaces, size) else
      StepKeeps(Run(spaces, size, acts[..|acts| - 1]), acts[|acts| - 1]);
      Step(Run(spaces, size, acts[..|acts| - 1]), acts[|acts| - 1])
  }

  /** The log entries about one packet. */
  ghost predicate About(r: State, a: int, i: nat, number: nat) {
    0 <= a < |r.log| && r.log[a].space == i && r.log[a].number == number
  }

  /**
   In every run, a packet ever sent is in exactly one place: still tracked, dropped with its
   space, or reported; and a reported packet was reported exactly once, as acknowledged or lost.
   */
  lemma EveryPacketHasOneFate(spaces: nat, size: nat, acts: seq<Action>, i: nat, number: nat)
    requires size > 0 && Legal(spaces, size, acts) && (i, number) in Run(spaces, size, acts).registered
    ensures var r := Run(spaces, size, acts);
            var tracked := i < |r.spaces| && number in Numbers(r.spaces[i].sent);
            var dropped := (i, number) in r.dropped;
            var reported := exists a :: About(r, a, i, number);
            && (tracked || dropped || reported)
            && !(tracked && dropped) && !(tracked && reported) && !(dropped && reported)
            && (forall a, b :: About(r, a, i, number) && About(r, b, i, number) ==> a == b)
  {
    var r := Run(spaces, size, acts);
    assert (i < |r.spaces| && number in Numbers(r.spaces[i].sent)) <==> (i, number) in Pending(r.spaces);
    if (i, number) in Reported(r.log) {
      var a :| 0 <= a < |r.log| && (r.log[a].space, r.log[a].number) == (i, number);
      assert About(r, a, i, number);
    }
    if exists a :: About(r, a, i, number) {
      var a :| About(r, a, i, number);
      assert (r.log[a].space, r.log[a].number) in Reported(r.log);
    }
    assert OncePerPacket(r.log);
  }

  /** In every run the controller's byte count and each space's packet count are exact. */
  lemma CountsAreExact(spaces: nat, size: nat, acts: seq<Action>)
    requires size > 0 && Legal(spaces, size, acts)
    ensures var r := Run(spaces, size, acts);
            && r.cc.bytesInFlight == TotalBytes(r.spaces) >= 0
            && r.cc.window >= MINIMUM_WINDOW * r.cc.maxDatagramSize
            && forall i | 0 <= i < |r.spaces| :: r.spaces[i].ackEliciting == Eliciting(r.spaces[i].sent)
  {
    var r := Run(spaces, size, acts);
    forall i | 0 <= i < |r.spaces|
      ensures r.spaces[i].ackEliciting == Eliciting(r.spaces[i].sent)
    {
      assert SpaceInv(r.spaces[i]);
    }
  }

  lemma {:induction false} EarliestLossIsLeast(ps: seq<Packet>, largest: int, delay: real)
    ensures var t := EarliestLoss(ps, largest, delay);
            && (t == None <==> forall p | p in ps :: p.number > largest)
            && (t.Some? ==> exists p :: p in ps && p.number <= largest && t.value == p.sentTime + delay)
            && (t.Some? ==> forall p | p in ps && p.number <= largest :: t.value <= p.sentTime + delay)
  {
    if ps != [] {
      var front, last := ps[..|ps| - 1], ps[|ps| - 1];
      assert ps == front + [last];
      EarliestLossIsLeast(front, largest, delay);
      var rest := EarliestLoss(front, largest, delay);
      if rest.Some? {
        var p :| p in front && p.number <= largest && rest.value == p.sentTime + delay;
        assert p in ps;
      }
      assert last in ps;
    }
  }

  /**
   After a loss scan nothing that remains is below either threshold, and the loss timer is the
   earliest moment at which something remaining becomes late, always in the future.
   */
  lemma NothingLateRemains(r: State, i: nat, now: real, delay: real)
    requires i < |r.spaces|
    ensures var s := Detected(r, i, now, delay).spaces[i];
            && (forall p | p in s.sent :: p in r.spaces[i].sent && !IsLost(p, s.largestAcked, now - delay))
            && (s.lossTime == None <==> forall p | p in s.sent :: p.number > s.largestAcked)
            && (s.lossTime.Some? ==> s.lossTime.value > now)
            && (forall p | p in s.sent && p.number <= s.largestAcked ::
                  s.lossTime.Some? && s.lossTime.value <= p.sentTime + delay)
  {
    var before := r.spaces[i];
    var s := Detected(r, i, now, delay).spaces[i];
    var gone := (p: Packet) => IsLost(p, before.largestAcked, now - delay);
    forall p | p in s.sent
      ensures p in before.sent && !IsLost(p, s.largestAcked, now - delay)
    {
      SelectMember(before.sent, x => !gone(x), p);
    }
    EarliestLossIsLeast(s.sent, s.largestAcked, delay);
  }
}
