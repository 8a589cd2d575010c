/**
 What becomes of a stream whose FIN was taken from the sender and then dropped (quic/connection.py, quic/stream.py).
 Such a frame stays in flight for ever: nobody will report it.
 */
module FinDrops {
  import opened Common
  import opened StreamSpec
  import FlowEndpoints

  /** What can still happen to a sender whose end is written: frames are taken, and frames other than k are reported. */
  datatype Later = Take(maxSize: int, maxOffset: Option<int>) | Told(j: nat, d: Delivery)

  predicate MayFollow(s: Sender, k: nat, a: Later) { a.Told? ==> a.j in s.open && a.j != k }

  ghost function Follow(s: Sender, a: Later): (Sender, Option<Frame>)
    requires SenderInv(s) && (a.Told? ==> a.j in s.open)
  {
    match a
    case Take(maxSize, maxOffset) => GetFrame(s, maxSize, maxOffset)
    case Told(j, d) => (OnDelivery(s, d, j), None)
  }

  lemma FollowKeeps(s: Sender, k: nat, a: Later)
    requires SenderInv(s) && MayFollow(s, k, a)
    ensures SenderInv(Follow(s, a).0)
  {
    match a
    case Take(maxSize, maxOffset) => GetFrameKeeps(s, maxSize, maxOffset);
    case Told(j, d) => OnDeliveryKeeps(s, d, j);
  }

  /** A sequence of such events after s, at the end of which a FIN is known to have arrived or a frame with FIN was taken. */
  ghost predicate FinComes(s: Sender, k: nat, acts: seq<Later>)
    requires SenderInv(s)
    decreases |acts|
  {
    if acts == [] then s.ackedFin
    else
      MayFollow(s, k, acts[0]) &&
      var (next, frame) := Follow(s, acts[0]);
      FollowKeeps(s, k, acts[0]);
      (frame.Some? && frame.value.fin) || FinComes(next, k, acts[1..])
  }

  /** A sequence of such events after s, at the end of which the sender is finished. */
  ghost predicate Finishes(s: Sender, k: nat, acts: seq<Later>)
    requires SenderInv(s)
    decreases |acts|
  {
    if acts == [] then s.finished
    else
      MayFollow(s, k, acts[0]) &&
      (FollowKeeps(s, k, acts[0]);
       Finishes(Follow(s, acts[0]).0, k, acts[1..]))
  }

  /** A frame that carries the last byte written, or FIN itself. */
  predicate ReachesEnd(s: Sender, f: Frame) { f.fin || (f.data != [] && f.End() == |s.written|) }

  /** Some frame other than k, which is still to be reported, reaches the end. */
  ghost predicate EndInFlight(s: Sender, k: nat) {
    exists j :: j in s.open && j != k && 0 <= j < |s.sent| && ReachesEnd(s, s.sent[j])
  }

  /** No way is left for the end to be sent or acknowledged. */
  ghost predicate Hopeless(s: Sender, k: nat) {
    && SenderInv(s) && s.fin && !s.ackedFin && !s.pendingEof
    && |s.written| - 1 !in s.pending && !EndInFlight(s, k)
  }

  /** A frame that is cut from pending bytes does not reach the end unless the last byte is pending. */
  lemma ShortOfTheEnd(s: Sender, f: Frame)
    requires |s.written| - 1 !in s.pending && !s.pendingEof && CutFrom(f, s.written, s.fin) && f.Offsets() <= s.pending
    requires f.data == [] ==> s.pendingEof
    ensures !ReachesEnd(s, f)
  {
    assert f.End() - 1 in f.Offsets();
  }

  lemma TakeStaysHopeless(s: Sender, k: nat, maxSize: int, maxOffset: Option<int>)
    requires Hopeless(s, k)
    ensures var (next, frame) := GetFrame(s, maxSize, maxOffset);
            Hopeless(next, k) && (frame.Some? ==> !frame.value.fin)
  {
    GetFrameKeeps(s, maxSize, maxOffset);
    FrameShape(s, maxSize, maxOffset);
    var (next, frame) := GetFrame(s, maxSize, maxOffset);
    if frame.Some? {
      assert frame.value.data == [] ==> s.pendingEof;
      hide SenderInv, GetFrame, CutFrom;
      ShortOfTheEnd(s, frame.value);
    }
    hide SenderInv, GetFrame, CutFrom, ReachesEnd;
    NoneReachesEnd(s, next, k, frame);
  }

  lemma NoneReachesEnd(s: Sender, next: Sender, k: nat, frame: Option<Frame>)
    requires !EndInFlight(s, k) && next.written == s.written
    requires if frame.None? then next.sent == s.sent && next.open == s.open
             else
               && next.sent == s.sent + [frame.value] && next.open == s.open + {|s.sent|}
               && !ReachesEnd(s, frame.value)
    ensures !EndInFlight(next, k)
  {
    forall j | j in next.open && j != k && 0 <= j < |next.sent|
      ensures !ReachesEnd(next, next.sent[j])
    {
      if j < |s.sent| && j in s.open { assert !ReachesEnd(s, s.sent[j]); }
    }
  }

  lemma ReportStaysHopeless(s: Sender, k: nat, j: nat, d: Delivery)
    requires Hopeless(s, k) && j in s.open && j != k
    ensures Hopeless(OnDelivery(s, d, j), k)
  {
    OnDeliveryKeeps(s, d, j);
    assert CutFrom(s.sent[j], s.written, s.fin) && !ReachesEnd(s, s.sent[j]);
    assert |s.written| - 1 !in s.sent[j].Offsets();
    hide SenderInv;
  }

  /** A sender without a FIN acknowledged is not finished. */
  lemma NotFinished(s: Sender)
    requires SenderInv(s) && !s.ackedFin
    ensures !s.finished
  {
    hide Conserved, Accurate;
  }

  /** Once no way is left, none comes back, whatever happens, and the sender is never finished. */
  lemma {:induction false} StaysHopeless(s: Sender, k: nat, acts: seq<Later>)
    requires Hopeless(s, k)
    ensures !FinComes(s, k, acts) && !Finishes(s, k, acts)
    decreases |acts|
  {
    if acts == [] {
      NotFinished(s);
    } else if MayFollow(s, k, acts[0]) {
      FollowKeeps(s, k, acts[0]);
      match acts[0] {
        case Take(maxSize, maxOffset) => TakeStaysHopeless(s, k, maxSize, maxOffset);
        case Told(j, d) => ReportStaysHopeless(s, k, j, d);
      }
      hide Hopeless, GetFrame, OnDelivery;
      StaysHopeless(Follow(s, acts[0]).0, k, acts[1..]);
    }
  }

  /** If a frame that reaches the end is lost, the next frame taken carries FIN, and nothing waits after it. */
  lemma LossBringsFin(s: Sender, j: nat)
    requires SenderInv(s) && s.fin && s.pending == {} && !s.pendingEof
    requires j in s.open && ReachesEnd(s, s.sent[j])
    ensures var next := OnDelivery(s, Lost, j);
            && SenderInv(next) && next.open == s.open - {j}
            && var (last, frame) := GetFrame(next, |s.written|, None);
               && frame.Some? && frame.value.fin
               && last.sent == s.sent + [frame.value] && last.open == s.open - {j} + {|s.sent|}
               && SenderInv(last) && last.fin && last.pending == {} && !last.pendingEof
  {
    var f := s.sent[j];
    assert CutFrom(f, s.written, s.fin);
    OnDeliveryKeeps(s, Lost, j);
    var next := OnDelivery(s, Lost, j);
    GetFrameKeeps(next, |s.written|, None);
    assert next.pending == f.Offsets();
    hide Conserved, Accurate, FinTracked;
    if f.data == [] {
      assert f.Offsets() == {};
    } else {
      LastRun(f, next.pending);
    }
  }

  lemma LossSendsFin(s: Sender, k: nat, j: nat)
    requires SenderInv(s) && s.fin && s.pending == {} && !s.pendingEof
    requires j in s.open && j != k && ReachesEnd(s, s.sent[j])
    ensures FinComes(s, k, [Told(j, Lost), Take(|s.written|, None)])
  {
    assert j < |s.sent|;
    hide SenderInv, GetFrame, OnDelivery, ReachesEnd;
    LossBringsFin(s, j);
    var acts := [Told(j, Lost), Take(|s.written|, None)];
    assert acts[1..] == [Take(|s.written|, None)];
    assert FinComes(OnDelivery(s, Lost, j), k, acts[1..]);
  }

  // ---- Whether the sender can finish ----

  /** FIN was acknowledged, or is in a frame other than k still to be reported. */
  ghost predicate FinOnItsWay(s: Sender, k: nat) {
    s.ackedFin || exists j :: j in s.open && j != k && 0 <= j < |s.sent| && s.sent[j].fin
  }

  /** Nothing waits to be sent, and the dropped frame k carries no bytes. */
  ghost predicate AllTaken(s: Sender, k: nat) {
    s.fin && s.pending == {} && !s.pendingEof && (k in s.open && k < |s.sent| ==> s.sent[k].data == [])
  }

  /** With no frame but k in flight, everything has been acknowledged. */
  lemma AllReported(s: Sender, k: nat)
    requires SenderInv(s) && AllTaken(s, k) && FinOnItsWay(s, k) && s.open <= {k}
    ensures s.finished
  {
    assert !InFlight(s, s.start);
  }

  lemma AckStaysOnItsWay(s: Sender, k: nat, j: nat)
    requires SenderInv(s) && AllTaken(s, k) && FinOnItsWay(s, k) && j in s.open && j != k
    ensures var next := OnDelivery(s, Acked, j); AllTaken(next, k) && FinOnItsWay(next, k) && next.open == s.open - {j}
  {
    var next := OnDelivery(s, Acked, j);
    if !next.ackedFin {
      var i :| i in s.open && i != k && 0 <= i < |s.sent| && s.sent[i].fin;
      assert i in next.open && next.sent[i].fin;
    }
  }

  lemma FirstThen(s: Sender, k: nat, first: Later, rest: seq<Later>)
    requires SenderInv(s) && MayFollow(s, k, first) && SenderInv(Follow(s, first).0) && Finishes(Follow(s, first).0, k, rest)
    ensures Finishes(s, k, [first] + rest)
  {
    hide SenderInv, GetFrame, OnDelivery;
    assert ([first] + rest)[1..] == rest;
  }

  /** Acknowledging every frame but k finishes the sender. */
  lemma {:induction false} AcksFinish(s: Sender, k: nat) returns (acts: seq<Later>)
    requires SenderInv(s) && AllTaken(s, k) && FinOnItsWay(s, k)
    ensures Finishes(s, k, acts)
    decreases |s.open|
  {
    if s.open <= {k} {
      AllReported(s, k);
      acts := [];
    } else {
      var j: int :| j in s.open && j != k;
      assert j >= 0 by { assert SenderInv(s); }
      AckStaysOnItsWay(s, k, j);
      FollowKeeps(s, k, Told(j, Acked));
      hide SenderInv, AllTaken, FinOnItsWay, OnDelivery;
      var rest := AcksFinish(OnDelivery(s, Acked, j), k);
      acts := [Told(j, Acked)] + rest;
      FirstThen(s, k, Told(j, Acked), rest);
    }
  }

  lemma SentAgain(s: Sender, last: Sender, k: nat, j: nat, f: Frame)
    requires AllTaken(s, k) && k in s.open && k < |s.sent| && j != k
    requires f.fin && last.sent == s.sent + [f] && last.open == s.open - {j} + {|s.sent|}
    requires last.fin && last.pending == {} && !last.pendingEof
    ensures AllTaken(last, k) && FinOnItsWay(last, k) && k in last.open
  {
    assert last.sent[k] == s.sent[k] && last.sent[|s.sent|] == f && |s.sent| in last.open;
  }

  /** Losing a frame with the last byte, sending it again with FIN and acknowledging everything finishes the sender. */
  lemma EndFinishes(s: Sender, k: nat, j: nat) returns (acts: seq<Later>)
    requires SenderInv(s) && AllTaken(s, k) && k in s.open && j in s.open && j != k && ReachesEnd(s, s.sent[j])
    ensures Finishes(s, k, acts)
  {
    assert k < |s.sent|;
    hide SenderInv, GetFrame, OnDelivery, ReachesEnd;
    LossBringsFin(s, j);
    var next := OnDelivery(s, Lost, j);
    var (last, frame) := GetFrame(next, |s.written|, None);
    SentAgain(s, last, k, j, frame.value);
    hide AllTaken, FinOnItsWay, Finishes;
    var rest := AcksFinish(last, k);
    FirstThen(next, k, Take(|s.written|, None), rest);
    FirstThen(s, k, Told(j, Lost), [Take(|s.written|, None)] + rest);
    acts := [Told(j, Lost)] + ([Take(|s.written|, None)] + rest);
  }

  lemma LastRun(f: Frame, pending: set<int>)
    requires f.data != [] && pending == f.Offsets()
    ensures pending != {} && Least(pending) == f.offset && RunEnd(pending, f.offset) == f.End()
  {
    assert f.offset in pending;
    RunEndUnique(pending, f.offset, f.End());
  }

  lemma NothingMore(s: Sender, k: nat)
    requires SenderInv(s) && s.ackedFin
    ensures FinComes(s, k, [])
  {
    hide SenderInv;
  }

  /**
   After the FIN frame k was dropped, a FIN can still be sent or acknowledged in some continuation if and only if one
   was acknowledged before, or another frame in flight carries FIN or the last byte written. Otherwise the sender is
   finished at the end of no continuation.
   */
  lemma FinCanStillCome(s: Sender, k: nat)
    requires SenderInv(s) && s.fin && s.pending == {} && !s.pendingEof
    ensures (exists acts :: FinComes(s, k, acts)) <==> s.ackedFin || EndInFlight(s, k)
    ensures !s.ackedFin && !EndInFlight(s, k) ==> forall acts :: !Finishes(s, k, acts)
  {
    hide SenderInv;
    if s.ackedFin {
      NothingMore(s, k);
      hide FinComes;
      assert exists acts :: FinComes(s, k, acts);
    } else if EndInFlight(s, k) {
      var j :| j in s.open && j != k && 0 <= j < |s.sent| && ReachesEnd(s, s.sent[j]);
      LossSendsFin(s, k, j);
      hide FinComes;
      assert exists acts :: FinComes(s, k, acts);
    } else {
      assert Hopeless(s, k);
      hide FinComes, Finishes;
      forall acts
        ensures !FinComes(s, k, acts) && !Finishes(s, k, acts)
      {
        StaysHopeless(s, k, acts);
      }
      assert !exists acts :: FinComes(s, k, acts);
    }
  }

  /** The same condition decides whether the sender can ever finish, the dropped frame carrying no bytes. */
  lemma CanStillFinish(s: Sender, k: nat)
    requires SenderInv(s) && AllTaken(s, k) && k in s.open
    ensures (exists acts :: Finishes(s, k, acts)) <==> s.ackedFin || EndInFlight(s, k)
  {
    FinCanStillCome(s, k);
    hide SenderInv, Finishes;
    if s.ackedFin {
      var acts := AcksFinish(s, k);
    } else if EndInFlight(s, k) {
      var j :| j in s.open && j != k && 0 <= j < |s.sent| && ReachesEnd(s, s.sent[j]);
      var acts := EndFinishes(s, k, j);
    }
  }

  /**
   The call that drops a FIN, in terms of the sender before it: the end of the stream is lost for good, and the sender
   never finishes, unless FIN was acknowledged before or some frame in flight carries FIN or the last byte written.
   */
  lemma DroppedForGood(s: Sender, maxSize: int, maxOffset: Option<int>)
    requires SenderInv(s) && FlowEndpoints.FinAlone(s)
    ensures var (after, frame) := GetFrame(s, maxSize, maxOffset);
            && frame == Some(Frame(|s.written|, [], true)) && SenderInv(after) && |s.sent| in after.open
            && ((exists acts :: FinComes(after, |s.sent|, acts)) <==>
                s.ackedFin || exists j :: j in s.open && 0 <= j < |s.sent| && ReachesEnd(s, s.sent[j]))
            && ((exists acts :: Finishes(after, |s.sent|, acts)) <==>
                s.ackedFin || exists j :: j in s.open && 0 <= j < |s.sent| && ReachesEnd(s, s.sent[j]))
  {
    AfterDrop(s, maxSize, maxOffset);
    hide SenderInv, GetFrame, FinComes, Finishes, ReachesEnd;
    var after := GetFrame(s, maxSize, maxOffset).0;
    FinCanStillCome(after, |s.sent|);
    CanStillFinish(after, |s.sent|);
    SameEnds(s, after);
  }

  lemma AfterDrop(s: Sender, maxSize: int, maxOffset: Option<int>)
    requires SenderInv(s) && FlowEndpoints.FinAlone(s)
    ensures var (after, frame) := GetFrame(s, maxSize, maxOffset);
            && frame == Some(Frame(|s.written|, [], true)) && SenderInv(after)
            && after == PutInFlight(s.(pendingEof := false), frame.value) && s.fin && after.pending == {}
            && forall j | j in s.open :: 0 <= j < |s.sent|
  {
    GetFrameKeeps(s, maxSize, maxOffset);
    hide Accurate;
  }

  /** The dropped frame aside, the frames in flight that reach the end are those from before. */
  lemma SameEnds(s: Sender, after: Sender)
    requires after.written == s.written && |after.sent| == |s.sent| + 1 && after.sent[..|s.sent|] == s.sent
    requires after.open == s.open + {|s.sent|} && forall j | j in s.open :: 0 <= j < |s.sent|
    ensures EndInFlight(after, |s.sent|) <==> exists j :: j in s.open && 0 <= j < |s.sent| && ReachesEnd(s, s.sent[j])
  {
    if EndInFlight(after, |s.sent|) {
      var j :| j in after.open && j != |s.sent| && 0 <= j < |after.sent| && ReachesEnd(after, after.sent[j]);
      assert after.sent[j] == after.sent[..|s.sent|][j];
      assert ReachesEnd(s, s.sent[j]);
    }
    if exists j :: j in s.open && 0 <= j < |s.sent| && ReachesEnd(s, s.sent[j]) {
      var j :| j in s.open && 0 <= j < |s.sent| && ReachesEnd(s, s.sent[j]);
      assert after.sent[j] == after.sent[..|s.sent|][j];
      assert ReachesEnd(after, after.sent[j]);
    }
  }

  /** An empty stream whose end does not fit the packet it should have gone into never ends and never finishes. */
  lemma EmptyStreamNeverEnds(maxSize: int, maxOffset: Option<int>)
    requires maxSize < 0
    ensures var s := Write(NEW_SENDER, [], true);
            && SenderInv(s) && FlowEndpoints.FinAlone(s)
            && var (after, frame) := GetFrame(s, maxSize, maxOffset);
               frame.Some? && SenderInv(after) && forall acts :: !FinComes(after, 0, acts) && !Finishes(after, 0, acts)
  {
    var s := Write(NEW_SENDER, [], true);
    assert SenderInv(NEW_SENDER);
    WriteKeeps(NEW_SENDER, [], true);
    DroppedForGood(s, maxSize, maxOffset);
  }
}
