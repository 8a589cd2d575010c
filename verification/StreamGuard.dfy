/**
 What a receiver does with any frames at all, also those of a peer that keeps no rule (quic/stream.py,
 quic/connection.py): which it refuses, and where it stands after the others.
 */
module StreamGuards {
  import opened Common
  import opened StreamSpec
  import opened FlowEndpoints
  import FlowControl

  // ---- One receiver ----

  /** The receiver after some frames, unless one of them was refused. */
  function HandleAll(frames: seq<Frame>): Option<Receiver> {
    if frames == [] then Some(NEW_RECEIVER)
    else
      match HandleAll(frames[..|frames| - 1])
      case None => None
      case Some(r) =>
        match Handle(r, frames[|frames| - 1])
        case FinalSizeError => None
        case Handled(next, _) => Some(next)
  }

  /** Once a frame with FIN has come, the others end no later, and with FIN at the same place. */
  predicate Consistent(frames: seq<Frame>) {
    forall i, j :: 0 <= i < j < |frames| && frames[i].fin ==>
      frames[j].End() <= frames[i].End() && (frames[j].fin ==> frames[j].End() == frames[i].End())
  }

  ghost predicate Covers(frames: seq<Frame>, x: int) { exists f :: f in frames && x in f.Offsets() }

  /** Where a receiver stands: at the first offset that no frame covered, with the end that a FIN gave. */
  ghost predicate Stands(frames: seq<Frame>, r: Receiver) {
    && (forall x | 0 <= x < r.start :: Covers(frames, x)) && !Covers(frames, r.start)
    && (forall x :: x in r.store <==> x >= r.start && Covers(frames, x))
    && (r.final.Some? <==> exists f :: f in frames && f.fin)
    && (forall f | f in frames && f.fin :: r.final == Some(f.End()))
    && (forall f | f in frames :: f.End() <= r.highest) && (r.highest == 0 || exists f :: f in frames && f.End() == r.highest)
    && (r.finished <==> r.final == Some(r.start))
  }

  lemma StandsNext(frames: seq<Frame>, r: Receiver, f: Frame)
    requires Stands(frames, r) && Handle(r, f).Handled?
    ensures Stands(frames + [f], Handle(r, f).next)
  {
    var next, all := Handle(r, f).next, frames + [f];
    var store := r.store + Fresh(f, r.start);
    CoversMore(frames, f);
    var gone := Span(r.start, next.start);
    hide Covers;
    forall x
      ensures x in store <==> x >= r.start && Covers(all, x)
    {
      if 0 <= x < r.start { assert Covers(frames, x); }
    }
    assert gone <= store.Keys && next.start !in store;
    forall x | 0 <= x < next.start
      ensures Covers(all, x)
    {
      if x >= r.start { assert x in gone; }
    }
    hide Fresh, Front;
    FinsAndEnds(frames, r, f, next);
  }

  lemma CoversMore(frames: seq<Frame>, f: Frame)
    ensures forall x :: Covers(frames + [f], x) <==> Covers(frames, x) || x in f.Offsets()
  {
    var all := frames + [f];
    assert forall g :: g in all <==> g in frames || g == f;
    forall x
      ensures Covers(all, x) <==> Covers(frames, x) || x in f.Offsets()
    {
      if x in f.Offsets() { assert f in all; }
      if Covers(frames, x) {
        var g :| g in frames && x in g.Offsets();
        assert g in all;
      }
    }
  }

  lemma FinsAndEnds(frames: seq<Frame>, r: Receiver, f: Frame, next: Receiver)
    requires (r.final.Some? <==> exists f :: f in frames && f.fin) && forall f | f in frames && f.fin :: r.final == Some(f.End())
    requires (forall f | f in frames :: f.End() <= r.highest) && (r.highest == 0 || exists f :: f in frames && f.End() == r.highest)
    requires r.finished <==> r.final == Some(r.start)
    requires !(r.final.Some? && (f.End() > r.final.value || (f.fin && f.End() != r.final.value)))
    requires next.final == (if f.fin then Some(f.End()) else r.final) && next.highest == Max(r.highest, f.End())
    requires next.finished == (r.finished || next.final == Some(next.start)) && next.start >= r.start
    requires r.finished ==> next.start == r.start
    ensures var all := frames + [f];
            && (next.final.Some? <==> exists g :: g in all && g.fin)
            && (forall g | g in all && g.fin :: next.final == Some(g.End()))
            && (forall g | g in all :: g.End() <= next.highest) && (next.highest == 0 || exists g :: g in all && g.End() == next.highest)
            && (next.finished <==> next.final == Some(next.start))
  {
    var all := frames + [f];
    assert forall g :: g in all <==> g in frames || g == f;
    if r.final.Some? {
      var g :| g in frames && g.fin;
      assert g in all;
    }
    if r.highest > 0 {
      var g :| g in frames && g.End() == r.highest;
      assert g in all;
    }
    assert f in all;
  }

  /**
   After any frames that were not refused, whatever their order and overlap: everything before the first offset that
   none of them covered was handed over, the final size is the one that a FIN gave, and the receiver is finished
   exactly when both meet.
   */
  lemma {:induction false} ReceiverStands(frames: seq<Frame>)
    requires HandleAll(frames).Some?
    ensures Stands(frames, HandleAll(frames).value)
    decreases |frames|
  {
    hide Handle;
    if frames != [] {
      var before, f := frames[..|frames| - 1], frames[|frames| - 1];
      ReceiverStands(before);
      StandsNext(before, HandleAll(before).value, f);
      assert frames == before + [f];
    }
  }

  /** The byte at an offset in the last of these frames that has it. */
  function Newest(frames: seq<Frame>, x: int): Option<byte> {
    if frames == [] then None
    else
      var f := frames[|frames| - 1];
      if f.offset <= x < f.End() then Some(f.data[x - f.offset]) else Newest(frames[..|frames| - 1], x)
  }

  /** Where frames disagree, the receiver keeps the byte that came last. */
  lemma {:induction false} NewestIsKept(frames: seq<Frame>)
    requires HandleAll(frames).Some?
    ensures var r := HandleAll(frames).value; forall x | x in r.store :: x >= r.start && Newest(frames, x) == Some(r.store[x])
    decreases |frames|
  {
    if frames != [] {
      var before, f := frames[..|frames| - 1], frames[|frames| - 1];
      NewestIsKept(before);
      ReceiverStands(frames);
      NewestStored(before, HandleAll(before).value, f);
      hide Newest, Fresh, Front;
      assert frames == before + [f];
    }
  }

  lemma NewestStored(frames: seq<Frame>, r: Receiver, f: Frame)
    requires forall x | x in r.store :: x >= r.start && Newest(frames, x) == Some(r.store[x])
    ensures var store := r.store + Fresh(f, r.start); forall x | x in store :: Newest(frames + [f], x) == Some(store[x])
  {
    var all, store := frames + [f], r.store + Fresh(f, r.start);
    assert all[..|all| - 1] == frames && all[|all| - 1] == f;
    forall x | x in store
      ensures Newest(all, x) == Some(store[x])
    {
      assert x in Fresh(f, r.start) <==> x >= r.start && f.offset <= x < f.End();
    }
  }

  /** And it hands over, once, the byte that is the newest at that time. */
  lemma NewestIsHandedOver(frames: seq<Frame>, f: Frame)
    requires HandleAll(frames).Some? && Handle(HandleAll(frames).value, f).Handled?
    ensures var r := HandleAll(frames).value;
            var (next, event) := (Handle(r, f).next, Handle(r, f).event);
            && next.start - r.start == (if event.Some? then |event.value.data| else 0)
            && forall x | r.start <= x < next.start :: Newest(frames + [f], x) == Some(event.value.data[x - r.start])
  {
    hide Newest, Fresh, HandleAll, Handle, Front, RunEnd;
    var r := HandleAll(frames).value;
    NewestIsKept(frames);
    NewestStored(frames, r, f);
    HandsOver(r, f);
  }

  lemma HandsOver(r: Receiver, f: Frame)
    requires Handle(r, f).Handled?
    ensures var (store, next, event) := (r.store + Fresh(f, r.start), Handle(r, f).next, Handle(r, f).event);
            && next.start - r.start == (if event.Some? then |event.value.data| else 0)
            && forall x | r.start <= x < next.start :: x in store && store[x] == event.value.data[x - r.start]
  {
    hide Fresh, RunEnd, Front;
    var store := r.store + Fresh(f, r.start);
    FrontIs(store, r.start, RunEnd(store.Keys, r.start));
  }

  lemma FrontIs(store: map<int, byte>, start: int, stop: int)
    requires start <= stop && Span(start, stop) <= store.Keys
    ensures forall x | start <= x < stop :: x in store && store[x] == Front(store, start, stop)[x - start]
  {
    forall x | start <= x < stop
      ensures x in store && store[x] == Front(store, start, stop)[x - start]
    {
      assert x in Span(start, stop);
    }
  }

  /** The frames refused are exactly those that contradict a final size that came before. */
  lemma {:induction false} RefusedExactly(frames: seq<Frame>)
    ensures HandleAll(frames).Some? <==> Consistent(frames)
    decreases |frames|
  {
    hide Handle, Stands, Consistent;
    if frames == [] {
      AloneConsistent();
    } else {
      var before, f := frames[..|frames| - 1], frames[|frames| - 1];
      assert frames == before + [f];
      RefusedExactly(before);
      if HandleAll(before).Some? {
        ReceiverStands(before);
        OneMore(before, HandleAll(before).value, f);
      } else if Consistent(frames) {
        ConsistentBefore(before, f);
      }
    }
  }

  lemma AloneConsistent()
    ensures Consistent([])
  {
  }

  lemma ConsistentBefore(before: seq<Frame>, f: Frame)
    requires Consistent(before + [f])
    ensures Consistent(before)
  {
    var all := before + [f];
    forall i, j | 0 <= i < j < |before| && before[i].fin
      ensures before[j].End() <= before[i].End() && (before[j].fin ==> before[j].End() == before[i].End())
    {
      assert all[i] == before[i] && all[j] == before[j];
    }
  }

  lemma OneMore(before: seq<Frame>, r: Receiver, f: Frame)
    requires Stands(before, r) && Consistent(before)
    ensures Handle(r, f).Handled? <==> Consistent(before + [f])
  {
    hide Covers, Fresh, Front;
    var all := before + [f];
    if Handle(r, f).Handled? {
      forall i, j | 0 <= i < j < |all| && all[i].fin
        ensures all[j].End() <= all[i].End() && (all[j].fin ==> all[j].End() == all[i].End())
      {
        if j < |before| {
          assert all[i] == before[i] && all[j] == before[j];
        } else {
          assert before[i] in before;
        }
      }
    } else {
      var g :| g in before && g.fin;
      var i :| 0 <= i < |before| && before[i] == g;
      assert all[i] == g && all[|before|] == f;
    }
  }

  // ---- An end inside the data ----

  /** After some further frames the receiver is finished. */
  ghost predicate CanEnd(frames: seq<Frame>) { exists more: seq<Frame> :: Finished(frames + more) }

  predicate Finished(frames: seq<Frame>) { HandleAll(frames).Some? && HandleAll(frames).value.finished }

  /**
   A FIN is not compared with what came before it. If it gives an end at which some frame had a byte, the stream can
   never end, whatever comes; otherwise it still can.
   */
  lemma EndExactly(frames: seq<Frame>)
    requires HandleAll(frames).Some?
    ensures CanEnd(frames) <==> forall f | f in frames && f.fin :: !Covers(frames, f.End())
  {
    hide HandleAll, Covers;
    ReceiverStands(frames);
    var r := HandleAll(frames).value;
    if CanEnd(frames) {
      var more :| Finished(frames + more);
      ReceiverStands(frames + more);
      forall f | f in frames && f.fin
        ensures !Covers(frames, f.End())
      {
        assert f in frames + more;
        if Covers(frames, f.End()) { CoveredStill(frames, more, f.End()); }
      }
    }
    if forall f | f in frames && f.fin :: !Covers(frames, f.End()) {
      EndComes(frames, r);
    }
  }

  lemma CoveredStill(frames: seq<Frame>, more: seq<Frame>, x: int)
    requires Covers(frames, x)
    ensures Covers(frames + more, x)
  {
    var f :| f in frames && x in f.Offsets();
    assert f in frames + more;
  }

  /** One frame with everything up to the end. */
  lemma EndComes(frames: seq<Frame>, r: Receiver)
    requires HandleAll(frames) == Some(r) && Stands(frames, r) && forall f | f in frames && f.fin :: !Covers(frames, f.End())
    ensures CanEnd(frames)
  {
    hide HandleAll, Consistent, Stands, Covers;
    var n := if r.final.Some? then r.final.value else r.highest;
    EndsThere(frames, r, n);
    var last := Frame(0, seq(n, _ => 0), true);
    var all := frames + [last];
    RefusedExactly(frames);
    LastFits(frames, last);
    RefusedExactly(all);
    ReceiverStands(all);
    CoversMore(frames, last);
    StopsAtLast(all, HandleAll(all).value, n);
    assert Finished(frames + [last]);
  }

  /** The end given, or the highest offset: no frame has a byte there. */
  lemma EndsThere(frames: seq<Frame>, r: Receiver, n: nat)
    requires Stands(frames, r) && n == (if r.final.Some? then r.final.value else r.highest)
    requires forall f | f in frames && f.fin :: !Covers(frames, f.End())
    ensures !Covers(frames, n) && forall f | f in frames && f.fin :: f.End() == n
  {
    if r.final.Some? {
      var f :| f in frames && f.fin;
      hide Covers;
    }
  }

  /** Everything before n is covered, and n is not. */
  lemma StopsAtLast(all: seq<Frame>, z: Receiver, n: nat)
    requires Stands(all, z) && all != [] && all[|all| - 1].fin && all[|all| - 1].End() == n
    requires (forall x | 0 <= x < n :: Covers(all, x)) && !Covers(all, n)
    ensures z.finished
  {
    hide Covers;
    assert all[|all| - 1] in all;
  }

  lemma LastFits(frames: seq<Frame>, last: Frame)
    requires Consistent(frames) && last.fin && forall f | f in frames && f.fin :: f.End() == last.End()
    ensures Consistent(frames + [last])
  {
    var all := frames + [last];
    forall i, j | 0 <= i < j < |all| && all[i].fin
      ensures all[j].End() <= all[i].End() && (all[j].fin ==> all[j].End() == all[i].End())
    {
      assert i < |frames| ==> all[i] == frames[i] && frames[i] in frames;
      assert j < |frames| ==> all[j] == frames[j];
    }
  }

  /** Two bytes, and then an end after the first of them: accepted, although section 4.5 of RFC 9000 has it refused. */
  lemma EndInsideData()
    ensures var frames := [Frame(0, [1, 2], false), Frame(0, [1], true)]; HandleAll(frames).Some? && !CanEnd(frames)
  {
    var frames := [Frame(0, [1, 2], false), Frame(0, [1], true)];
    assert Consistent(frames);
    RefusedExactly(frames);
    EndExactly(frames);
    assert frames[1] in frames && frames[0] in frames;
    assert 1 in frames[0].Offsets();
    assert Covers(frames, 1);
  }

  // ---- All receivers of a connection ----

  /** The receiving side of a connection: its streams, each with its limit, and the connection limit. */
  datatype Side = Side(receivers: seq<Receiver>, locals: seq<nat>, limit: FlowControl.Limit)

  function NewSide(locals: seq<nat>, value: nat): Side {
    Side(seq(|locals|, _ => NEW_RECEIVER), locals, FlowControl.Limit(value, value, 0))
  }

  /** A frame on one of the streams. */
  function Next(s: Side, i: nat, f: Frame): (Side, FrameResult)
    requires i < |s.receivers| == |s.locals|
  {
    var (r, used, result) := Received(s.receivers[i], s.locals[i], s.limit, f);
    (s.(receivers := s.receivers[i := r], limit := s.limit.(used := used)), result)
  }

  function Total(rs: seq<Receiver>): nat { if rs == [] then 0 else Total(rs[..|rs| - 1]) + rs[|rs| - 1].highest }

  lemma {:induction false} TotalAfter(rs: seq<Receiver>, i: nat, r: Receiver)
    requires i < |rs|
    ensures Total(rs[i := r]) == Total(rs) - rs[i].highest + r.highest
  {
    var n := |rs| - 1;
    if i == n {
      assert rs[i := r][..n] == rs[..n];
    } else {
      assert rs[i := r][..n] == rs[..n][i := r];
      TotalAfter(rs[..n], i, r);
    }
  }

  /** No stream has seen more than its limit, and all of them together not more than the connection's. */
  predicate Guarded(s: Side) {
    && |s.receivers| == |s.locals| && s.limit.used == Total(s.receivers) <= s.limit.value
    && forall i | 0 <= i < |s.receivers| :: s.receivers[i].highest <= s.locals[i]
  }

  /**
   Whatever frame a peer sends: it is refused for flow control exactly when it reaches beyond the limit of its stream
   or would take the streams together beyond the connection limit; else it is refused exactly when it contradicts a
   final size. A frame refused changes nothing, and one accepted keeps all within their limits.
   */
  lemma GuardedExactly(s: Side, i: nat, f: Frame)
    requires Guarded(s) && i < |s.receivers|
    ensures var (t, result) := Next(s, i, f);
            var reach := s.receivers[i].(highest := Max(s.receivers[i].highest, f.End()));
            && Guarded(t) && t.locals == s.locals && t.limit.value == s.limit.value
            && (result.FlowControlError? <==> f.End() > s.locals[i] || Total(s.receivers[i := reach]) > s.limit.value)
            && (!result.FlowControlError? ==> (result.FinalSizeRaised? <==> Handle(s.receivers[i], f).FinalSizeError?))
            && (!result.Accepted? ==> t == s)
            && (result.Accepted? ==> t.receivers[i].highest == reach.highest && result.event == Handle(s.receivers[i], f).event)
  {
    var reach := s.receivers[i].(highest := Max(s.receivers[i].highest, f.End()));
    TotalAfter(s.receivers, i, reach);
    var t := Next(s, i, f).0;
    TotalAfter(s.receivers, i, t.receivers[i]);
    hide Fresh, Front, Total;
    assert s.receivers[i := s.receivers[i]] == s.receivers;
  }

  /** Over any frames on any streams. */
  function AllNext(s: Side, frames: seq<(nat, Frame)>): (t: Side)
    requires |s.receivers| == |s.locals| && forall x | x in frames :: x.0 < |s.receivers|
    ensures |t.receivers| == |t.locals| == |s.receivers|
  {
    if frames == [] then s
    else
      var n := |frames| - 1;
      Next(AllNext(s, frames[..n]), frames[n].0, frames[n].1).0
  }

  /** However a peer behaves, what was received never exceeds the limits, and the count of it is exact. */
  lemma {:induction false} LimitsHold(locals: seq<nat>, value: nat, frames: seq<(nat, Frame)>)
    requires forall x | x in frames :: x.0 < |locals|
    ensures Guarded(AllNext(NewSide(locals, value), frames))
    decreases |frames|
  {
    hide Next, Guarded;
    if frames == [] {
      NothingYet(locals, value);
    } else {
      var n := |frames| - 1;
      assert frames[n] in frames;
      LimitsHold(locals, value, frames[..n]);
      GuardedExactly(AllNext(NewSide(locals, value), frames[..n]), frames[n].0, frames[n].1);
    }
  }

  lemma NothingYet(locals: seq<nat>, value: nat)
    ensures Guarded(NewSide(locals, value))
  {
    NoTotal(NewSide(locals, value).receivers);
  }

  lemma {:induction false} NoTotal(rs: seq<Receiver>)
    requires forall r | r in rs :: r.highest == 0
    ensures Total(rs) == 0
  {
    if rs != [] { NoTotal(rs[..|rs| - 1]); }
  }
}
