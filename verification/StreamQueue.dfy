/** The order in which streams are served (_streams_queue in quic/connection.py). */
module StreamQueues {
  import opened Common

  /** What the service loop finds when it comes to a stream. */
  datatype Turn = Turn(
    finished: bool,
    stopPending: bool,
    stopFits: bool,        // the STOP_SENDING frame fits
    resetPending: bool,
    resetFits: bool,       // the RESET_STREAM frame fits
    blocked: bool,
    bufferEmpty: bool,
    used: Option<nat>)     // credit used by the STREAM frame; None when it does not fit

  datatype Outcome = Discarded | Raised | Served | Passed

  /** Raised stands for QuicPacketBuilderStop, which ends the loop. */
  function Act(t: Turn): Outcome {
    if t.finished then Discarded
    else if t.stopPending && !t.stopFits then Raised
    else if t.resetPending then if t.resetFits then Passed else Raised
    else if !t.blocked && !t.bufferEmpty then
      if t.used.None? then Raised else if t.used.value > 0 then Served else Passed
    else Passed
  }

  predicate NoDuplicates(q: seq<nat>) { forall i, j :: 0 <= i < j < |q| ==> q[i] != q[j] }

  function Members(q: seq<nat>): set<nat> { set x | x in q }

  /** How far the loop gets: to the first stream whose turn raises, or to the end. */
  function Reached(q: seq<nat>, turn: nat -> Turn): (n: nat)
    ensures n <= |q| && (n < |q| ==> Act(turn(q[n])) == Raised)
    ensures forall i :: 0 <= i < n ==> Act(turn(q[i])) != Raised
  {
    if q == [] || Act(turn(q[0])) == Raised then 0 else 1 + Reached(q[1..], turn)
  }

  /** The streams that came out of the pass in some way. */
  function Those(q: seq<nat>, turn: nat -> Turn, o: Outcome): set<nat> {
    set i | 0 <= i < Reached(q, turn) && Act(turn(q[i])) == o :: q[i]
  }

  /** The entries not in gone, in order. */
  function Keep(q: seq<nat>, gone: set<nat>): (k: seq<nat>)
    ensures forall x :: x in k <==> x in q && x !in gone
  {
    if q == [] then []
    else
      var last := q[|q| - 1];
      assert q == q[..|q| - 1] + [last];
      Keep(q[..|q| - 1], gone) + if last in gone then [] else [last]
  }

  /** After a pass: what was neither discarded nor served, in order, then what was served, in some order. */
  ghost predicate Pass(q: seq<nat>, turn: nat -> Turn, after: seq<nat>) {
    exists tail ::
      && after == Keep(q, Those(q, turn, Discarded) + Those(q, turn, Served)) + tail
      && NoDuplicates(tail) && Members(tail) == Those(q, turn, Served)
  }

  lemma JoinUnique(a: seq<nat>, b: seq<nat>)
    requires NoDuplicates(a) && NoDuplicates(b) && forall x | x in a :: x !in b
    ensures NoDuplicates(a + b)
  {
    forall i, j | 0 <= i < j < |a + b|
      ensures (a + b)[i] != (a + b)[j]
    {
      if i < |a| <= j {
        assert a[i] in a && b[j - |a|] in b;
      }
    }
  }

  lemma {:induction false} KeepUnique(q: seq<nat>, gone: set<nat>)
    requires NoDuplicates(q)
    ensures NoDuplicates(Keep(q, gone))
  {
    if q != [] {
      var n := |q| - 1;
      KeepUnique(q[..n], gone);
      assert q[n] !in q[..n];
      assert NoDuplicates([q[n]]);
      JoinUnique(Keep(q[..n], gone), [q[n]]);
      assert Keep(q[..n], gone) + [] == Keep(q[..n], gone);
    }
  }

  predicate Before(q: seq<nat>, x: nat, y: nat) { exists i, j :: 0 <= i < j < |q| && q[i] == x && q[j] == y }

  lemma {:induction false} KeepOrder(q: seq<nat>, gone: set<nat>, x: nat, y: nat)
    requires NoDuplicates(q) && x !in gone && y !in gone
    ensures Before(Keep(q, gone), x, y) <==> Before(q, x, y)
  {
    if q != [] {
      hide Before;
      var front, last := q[..|q| - 1], q[|q| - 1];
      KeepOrder(front, gone, x, y);
      assert q == front + [last];
      EndOrder(front, last, x, y);
      EndOrder(Keep(front, gone), last, x, y);
      assert Keep(front, gone) + [] == Keep(front, gone);
    }
  }

  lemma EndOrder(q: seq<nat>, last: nat, x: nat, y: nat)
    ensures Before(q + [last], x, y) <==> Before(q, x, y) || (x in q && y == last)
  {
    var r := q + [last];
    if Before(q, x, y) {
      var i, j :| 0 <= i < j < |q| && q[i] == x && q[j] == y;
      assert r[i] == x && r[j] == y;
    }
    if x in q && y == last {
      var i :| 0 <= i < |q| && q[i] == x;
      assert r[i] == x && r[|q|] == y;
    }
    if Before(r, x, y) {
      var i, j :| 0 <= i < j < |r| && r[i] == x && r[j] == y;
      assert q[i] == x;
      if j < |q| { assert q[j] == y; }
    }
  }

  lemma JoinOrder(a: seq<nat>, b: seq<nat>, x: nat, y: nat)
    requires NoDuplicates(a + b)
    ensures x in a && y in b ==> Before(a + b, x, y)
    ensures x in a && y in a ==> (Before(a + b, x, y) <==> Before(a, x, y))
    ensures x in b && y in a ==> !Before(a + b, x, y)
  {
    var q := a + b;
    if x in a && y in b {
      var i :| 0 <= i < |a| && a[i] == x;
      var j :| 0 <= j < |b| && b[j] == y;
      assert q[i] == x && q[|a| + j] == y;
    }
    if x in a && y in a {
      if Before(a, x, y) {
        var i, j :| 0 <= i < j < |a| && a[i] == x && a[j] == y;
        assert q[i] == x && q[j] == y;
      }
      if Before(q, x, y) {
        var i, j :| 0 <= i < j < |q| && q[i] == x && q[j] == y;
        var k :| 0 <= k < |a| && a[k] == y;
        assert q[k] == y;
        assert a[i] == x && a[j] == y;
      }
    }
    if x in b && y in a {
      var k :| 0 <= k < |b| && b[k] == x;
      var l :| 0 <= l < |a| && a[l] == y;
      assert q[|a| + k] == x && q[l] == y;
      assert forall i | 0 <= i < |q| && q[i] == x :: i == |a| + k;
      assert forall j | 0 <= j < |q| && q[j] == y :: j == l;
    }
  }

  /**
   After every pass, also one cut short, the queue holds every live stream once; streams not served keep their
   order and stay ahead of every stream served in the pass.
   */
  lemma PassKeepsOrder(q: seq<nat>, turn: nat -> Turn, after: seq<nat>)
    requires NoDuplicates(q) && Pass(q, turn, after)
    ensures NoDuplicates(after) && Members(after) == Members(q) - Those(q, turn, Discarded)
    ensures forall x, y | x in after && y in after && x !in Those(q, turn, Served) && y !in Those(q, turn, Served) ::
              Before(after, x, y) <==> Before(q, x, y)
    ensures forall x, y | x in after && x !in Those(q, turn, Served) && y in Those(q, turn, Served) ::
              Before(after, x, y) && !Before(after, y, x)
  {
    var served, gone := Those(q, turn, Served), Those(q, turn, Discarded) + Those(q, turn, Served);
    var kept := Keep(q, gone);
    var tail :| after == kept + tail && NoDuplicates(tail) && Members(tail) == served;
    KeepUnique(q, gone);
    TurnsAreSettled(q, turn);
    assert forall x :: x in tail <==> x in Members(tail);
    JoinUnique(kept, tail);
    forall x, y | x in after && y in after && x !in served && y !in served
      ensures Before(after, x, y) <==> Before(q, x, y)
    {
      JoinOrder(kept, tail, x, y);
      KeepOrder(q, gone, x, y);
    }
    forall x, y | x in after && x !in served && y in served
      ensures Before(after, x, y) && !Before(after, y, x)
    {
      JoinOrder(kept, tail, x, y);
      JoinOrder(kept, tail, y, x);
    }
  }

  /** No stream is both discarded and served. */
  lemma TurnsAreSettled(q: seq<nat>, turn: nat -> Turn)
    requires NoDuplicates(q)
    ensures Those(q, turn, Discarded) !! Those(q, turn, Served)
    ensures Those(q, turn, Discarded) <= Members(q) && Those(q, turn, Served) <= Members(q)
  {
  }

  // ---- Over several passes ----

  /** New streams join at the end between passes. */
  datatype Event = ServicePass(turn: nat -> Turn, after: seq<nat>) | Created(stream: nat)

  ghost predicate Follows(q: seq<nat>, e: Event, next: seq<nat>) {
    match e
    case ServicePass(turn, after) => Pass(q, turn, after) && next == after
    case Created(stream) => stream !in q && next == q + [stream]
  }

  /** A queue history in which stream x stays live and is not served. */
  ghost predicate Waiting(x: nat, history: seq<seq<nat>>, events: seq<Event>) {
    && |history| == |events| + 1 && x in history[0] && NoDuplicates(history[0])
    && (forall i :: 0 <= i < |events| ==> Follows(history[i], events[i], history[i + 1]))
    && (forall i :: 0 <= i < |events| && events[i].ServicePass? ==>
          x !in Those(history[i], events[i].turn, Served) && x !in Those(history[i], events[i].turn, Discarded))
  }

  /** The streams ahead of x. */
  function Ahead(q: seq<nat>, x: nat): set<nat> { set y | y in q && Before(q, y, x) }

  lemma BeforeMembers(q: seq<nat>, x: nat, y: nat)
    ensures Before(q, x, y) ==> x in q && y in q
  {
  }

  lemma StepShrinks(q: seq<nat>, e: Event, next: seq<nat>, x: nat)
    requires NoDuplicates(q) && x in q && Follows(q, e, next)
    requires e.ServicePass? ==> x !in Those(q, e.turn, Served) && x !in Those(q, e.turn, Discarded)
    ensures x in next && NoDuplicates(next) && Ahead(next, x) <= Ahead(q, x)
    ensures e.ServicePass? ==> Ahead(next, x) !! Those(q, e.turn, Served) && Ahead(next, x) !! Those(q, e.turn, Discarded)
  {
    hide Before;
    match e
    case ServicePass(turn, after) =>
      PassKeepsOrder(q, turn, after);
      hide Pass, Those;
      assert x in Members(after);
      forall y | y in Ahead(next, x)
        ensures y in Ahead(q, x) && y !in Those(q, turn, Served) && y !in Those(q, turn, Discarded)
      {
        assert y in Members(after);
      }
    case Created(stream) =>
      forall y | y in Ahead(next, x)
        ensures y in Ahead(q, x)
      {
        EndOrder(q, stream, y, x);
        BeforeMembers(q, y, x);
      }
      JoinUnique(q, [stream]);
  }

  /**
   While a stream waits, the streams ahead of it only become fewer, and whichever of them is served is behind it
   from then on: each of the others is served at most once before its turn comes.
   */
  lemma {:induction false} WaitingShrinks(x: nat, history: seq<seq<nat>>, events: seq<Event>, i: nat, j: nat)
    requires Waiting(x, history, events) && i <= j <= |events|
    ensures x in history[j] && NoDuplicates(history[j]) && Ahead(history[j], x) <= Ahead(history[i], x)
    ensures i < j && events[i].ServicePass? ==> Ahead(history[j], x) !! Those(history[i], events[i].turn, Served)
    decreases j
  {
    hide Ahead, Those, Follows;
    if j == 0 {
    } else if i == j {
      WaitingShrinks(x, history, events, j - 1, j - 1);
      StepShrinks(history[j - 1], events[j - 1], history[j], x);
    } else {
      WaitingShrinks(x, history, events, i, j - 1);
      StepShrinks(history[j - 1], events[j - 1], history[j], x);
    }
  }

  /** A stream has data to send and credit for it, and nothing stands in its way. */
  predicate Ready(t: Turn) {
    && !t.finished && (t.stopPending ==> t.stopFits) && !t.resetPending
    && !t.blocked && !t.bufferEmpty && t.used.Some? && t.used.value > 0
  }

  /** Something of a live stream does not fit the packet. */
  predicate Full(t: Turn) {
    && !t.finished
    && ((t.stopPending && !t.stopFits) || (t.resetPending && !t.resetFits)
        || (!t.resetPending && !t.blocked && !t.bufferEmpty && t.used.None?))
  }

  lemma TurnExactly(t: Turn)
    ensures Act(t) == Discarded <==> t.finished
    ensures Act(t) == Served <==> Ready(t)
    ensures Act(t) == Raised <==> Full(t)
  {
  }

  function Passes(events: seq<Event>): nat {
    if events == [] then 0 else Passes(events[..|events| - 1]) + if events[|events| - 1].ServicePass? then 1 else 0
  }

  /** A pass that serves others but not a stream that is ready serves only streams ahead of it. */
  lemma OvertakenOnlyFromAhead(q: seq<nat>, turn: nat -> Turn, x: nat)
    requires NoDuplicates(q) && x in q && Ready(turn(x)) && x !in Those(q, turn, Served)
    ensures Those(q, turn, Served) <= Ahead(q, x)
  {
    TurnExactly(turn(x));
    var k :| 0 <= k < |q| && q[k] == x;
    forall y | y in Those(q, turn, Served)
      ensures y in Ahead(q, x)
    {
      var i :| 0 <= i < Reached(q, turn) && Act(turn(q[i])) == Served && q[i] == y;
      assert Before(q, y, x);
    }
  }

  /**
   No stream starves: a stream that is ready at every pass is served after at most as many passes as there are streams
   ahead of it, if every pass serves one at all.
   */
  lemma {:induction false} ServedInTurn(x: nat, history: seq<seq<nat>>, events: seq<Event>)
    requires Waiting(x, history, events)
    requires forall i :: 0 <= i < |events| && events[i].ServicePass? ==>
               Ready(events[i].turn(x)) && Those(history[i], events[i].turn, Served) != {}
    ensures Passes(events) + |Ahead(history[|events|], x)| <= |Ahead(history[0], x)|
    decreases |events|
  {
    hide Those, Ahead, Follows;
    if events != [] {
      var n := |events| - 1;
      var before, e := events[..n], events[n];
      ServedInTurn(x, history[..n + 1], before);
      WaitingShrinks(x, history, events, n, n);
      StepShrinks(history[n], e, history[n + 1], x);
      if e.ServicePass? {
        OvertakenOnlyFromAhead(history[n], e.turn, x);
        Fewer(Ahead(history[n + 1], x), Ahead(history[n], x), Those(history[n], e.turn, Served));
      } else {
        NoMore(Ahead(history[n + 1], x), Ahead(history[n], x));
      }
    }
  }

  lemma Fewer(a: set<nat>, b: set<nat>, out: set<nat>)
    requires a <= b && out <= b && a !! out && out != {}
    ensures |a| < |b|
  {
    assert |a + out| == |a| + |out|;
    NoMore(a + out, b);
  }

  lemma NoMore(a: set<nat>, b: set<nat>)
    requires a <= b
    ensures |a| <= |b|
  {
    assert b == a + (b - a);
  }

  // ---- The queue itself ----

  class ServiceQueue {
    var streamsQueue: seq<nat>
    var streams: set<nat>
    var streamsFinished: set<nat>

    /** The queue holds every live stream once. */
    ghost predicate Valid() reads this { NoDuplicates(streamsQueue) && Members(streamsQueue) == streams }

    constructor ()
      ensures Valid() && streamsQueue == [] && streamsFinished == {}
    {
      streamsQueue, streams, streamsFinished := [], {}, {};
    }

    method CreateStream(stream: nat)
      requires Valid() && stream !in streams
      modifies this
      ensures Valid() && Follows(old(streamsQueue), Created(stream), streamsQueue)
      ensures streams == old(streams) + {stream} && streamsFinished == old(streamsFinished)
    {
      assert stream !in Members(streamsQueue);
      JoinUnique(streamsQueue, [stream]);
      streamsQueue := streamsQueue + [stream];
      streams := streams + {stream};
    }

    /** The loop over the queue: collects what was served and discards what was finished. */
    method ServeLoop(turn: nat -> Turn) returns (sent: set<nat>, discarded: set<nat>, raised: bool)
      requires Valid()
      modifies this`streams, this`streamsFinished
      ensures sent == Those(streamsQueue, turn, Served) && discarded == Those(streamsQueue, turn, Discarded)
      ensures streams == old(streams) - discarded && streamsFinished == old(streamsFinished) + discarded
      ensures raised <==> Reached(streamsQueue, turn) < |streamsQueue|
    {
      sent, discarded, raised := {}, {}, false;
      var i := 0;
      while i < |streamsQueue| && !raised
        invariant 0 <= i <= |streamsQueue|
        invariant forall k :: 0 <= k < i ==> Act(turn(streamsQueue[k])) != Raised
        invariant raised ==> i < |streamsQueue| && Act(turn(streamsQueue[i])) == Raised
        invariant sent == Outcomes(streamsQueue, turn, i, Served) && discarded == Outcomes(streamsQueue, turn, i, Discarded)
        invariant streams == old(streams) - discarded && streamsFinished == old(streamsFinished) + discarded
        decreases |streamsQueue| - i, !raised
      {
        var stream := streamsQueue[i];
        var t := turn(stream);
        OneMore(streamsQueue, turn, i);
        hide Outcomes;
        if t.finished {
          streams := streams - {stream};
          streamsFinished := streamsFinished + {stream};
          discarded := discarded + {stream};
        } else if t.stopPending && !t.stopFits {
          raised := true;
        } else if t.resetPending {
          raised := !t.resetFits;
        } else if !t.blocked && !t.bufferEmpty {
          if t.used.None? {
            raised := true;
          } else if t.used.value > 0 {
            sent := sent + {stream};
          }
        }
        if !raised { i := i + 1; }
      }
      ReachedIs(streamsQueue, turn, i);
    }

    /** One service pass; raised tells whether it was cut short. The new order is made either way. */
    method Serve(turn: nat -> Turn) returns (raised: bool)
      requires Valid()
      modifies this
      ensures Valid() && Pass(old(streamsQueue), turn, streamsQueue)
      ensures streams == old(streams) - Those(old(streamsQueue), turn, Discarded)
      ensures streamsFinished == old(streamsFinished) + Those(old(streamsQueue), turn, Discarded)
      ensures raised <==> Reached(old(streamsQueue), turn) < |old(streamsQueue)|
    {
      var sent, discarded;
      sent, discarded, raised := ServeLoop(turn);
      var tail := Listed(sent);
      streamsQueue := Keep(streamsQueue, discarded + sent) + tail;
      PassKeepsOrder(old(streamsQueue), turn, streamsQueue);
    }
  }

  /** The streams among the first n that came out in some way. */
  ghost function Outcomes(q: seq<nat>, turn: nat -> Turn, n: nat, o: Outcome): set<nat>
    requires n <= |q|
  {
    set i | 0 <= i < n && Act(turn(q[i])) == o :: q[i]
  }

  lemma OneMore(q: seq<nat>, turn: nat -> Turn, i: nat)
    requires i < |q|
    ensures forall o :: Outcomes(q, turn, i + 1, o) == Outcomes(q, turn, i, o) + if Act(turn(q[i])) == o then {q[i]} else {}
  {
    forall o
      ensures Outcomes(q, turn, i + 1, o) == Outcomes(q, turn, i, o) + if Act(turn(q[i])) == o then {q[i]} else {}
    {
    }
  }

  lemma ReachedIs(q: seq<nat>, turn: nat -> Turn, n: nat)
    requires n <= |q| && (forall k :: 0 <= k < n ==> Act(turn(q[k])) != Raised)
    requires n < |q| ==> Act(turn(q[n])) == Raised
    ensures Reached(q, turn) == n && forall o :: Those(q, turn, o) == Outcomes(q, turn, n, o)
  {
    assert Reached(q, turn) == n;
  }

  /** The members of a set in some order, as iterating over it gives them. */
  method Listed(s: set<nat>) returns (tail: seq<nat>)
    ensures NoDuplicates(tail) && Members(tail) == s
  {
    tail := [];
    var rest := s;
    while rest != {}
      invariant NoDuplicates(tail) && rest !! Members(tail) && Members(tail) + rest == s
      decreases |rest|
    {
      assert (forall y :: y !in rest) ==> rest == {};
      var x :| x in rest;
      assert x !in tail by { assert x !in Members(tail); }
      JoinUnique(tail, [x]);
      tail := tail + [x];
      rest := rest - {x};
    }
  }
}
