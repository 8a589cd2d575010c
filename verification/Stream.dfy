/** The sending and receiving parts of a stream, updated in place (quic/stream.py). */
module Streams {
  import opened Common
  import opened RangeSets
  import opened StreamSpec

  class StreamSender {
    var bufferIsEmpty: bool
    var highestOffset: nat
    var isFinished: bool
    const acked: RangeSet
    var ackedFin: bool
    var buffer: seq<byte>
    var bufferFin: Option<nat>
    var bufferStart: nat
    var bufferStop: nat
    const pending: RangeSet
    var pendingEof: bool

    ghost var written: seq<byte>   // everything ever passed to Write
    ghost var sent: seq<Frame>     // frames returned by GetFrame
    ghost var open: set<int>       // indices of frames whose delivery was not reported

    ghost function State(): Sender
      reads this, acked, pending
    {
      Sender(written, bufferFin.Some?, bufferStart, acked.Contents(), pending.Contents(),
             pendingEof, ackedFin, bufferIsEmpty, highestOffset, isFinished, sent, open)
    }

    ghost predicate Valid()
      reads this, acked, pending
    {
      && acked != pending && acked.Valid() && pending.Valid()
      && bufferStart <= bufferStop == |written| && buffer == written[bufferStart..]
      && (bufferFin.Some? ==> bufferFin.value == bufferStop)
    }

    constructor ()
      ensures Valid() && State() == NEW_SENDER && fresh(acked) && fresh(pending)
    {
      bufferIsEmpty, highestOffset, isFinished := true, 0, false;
      acked := new RangeSet();
      pending := new RangeSet();
      ackedFin, pendingEof, bufferFin := false, false, None;
      buffer, bufferStart, bufferStop := [], 0, 0;
      written, sent, open := [], [], {};
    }

    lemma FirstIsLeast(p: set<int>, a: int)
      requires a in p && forall x | x in p :: a <= x
      ensures p != {} && Least(p) == a
    {
    }

    method NextOffset() returns (offset: int)
      requires Valid()
      ensures offset == if State().pending == {} then |State().written| else Least(State().pending)
    {
      if |pending.ranges| > 0 {
        FirstRange(pending.ranges);
        return pending.ranges[0].start;
      }
      return bufferStop;
    }

    method GetFrame(maxSize: int, maxOffset: Option<int>) returns (r: Option<Frame>)
      requires Valid() && SenderInv(State())
      modifies this, pending
      ensures Valid() && (State(), r) == StreamSpec.GetFrame(old(State()), maxSize, maxOffset)
    {
      ghost var s := State();
      assert s.pending <= Span(s.start, |s.written|) && (s.pendingEof ==> s.fin);
      hide SenderInv, Elements, Canonical;
      EmptyList(pending.ranges);
      if |pending.ranges| == 0 {
        if pendingEof {
          var f := FinOnly();
          return Some(f);
        }
        bufferIsEmpty := true;
        return None;
      }
      FirstRange(pending.ranges);
      var range := pending.ranges[0];
      var start := range.start;
      var stop := Min(range.stop, start + maxSize);
      if maxOffset.Some? && stop > maxOffset.value {
        stop := maxOffset.value;
      }
      FirstIsLeast(s.pending, start);
      assert range.stop == RunEnd(s.pending, start) && stop == FrameStop(s, start, maxSize, maxOffset);
      if stop <= start {
        return None;
      }
      assert range.stop - 1 in Span(start, range.stop);
      var f := CutFrame(start, stop);
      return Some(f);
    }

    method FinOnly() returns (f: Frame)
      requires Valid() && bufferFin.Some?
      modifies this
      ensures Valid() && f == Frame(|old(written)|, [], true)
      ensures State() == PutInFlight(old(State()).(pendingEof := false), f)
    {
      pendingEof := false;
      f := Frame(bufferFin.value, [], true);
      sent, open := sent + [f], open + {|sent|};
    }

    /** Take the pending bytes from start to stop out as a frame, with FIN when they are the last ones. */
    method CutFrame(start: nat, stop: nat) returns (f: Frame)
      requires Valid()
      requires bufferStart <= start < stop <= |written|
      modifies this, pending
      ensures Valid() && written == old(written) && bufferFin == old(bufferFin)
      ensures f == Frame(start, written[start..stop], bufferFin == Some(stop))
      ensures State() == PutInFlight(
                old(State()).(pending := old(State()).pending - Span(start, stop),
                              highest := Max(old(highestOffset), stop),
                              pendingEof := old(pendingEof) && !f.fin), f)
    {
      hide Canonical, Elements;
      assert buffer[start - bufferStart..stop - bufferStart] == written[start..stop];
      f := Frame(start, buffer[start - bufferStart..stop - bufferStart], false);
      pending.Subtract(start, stop);
      if stop > highestOffset {
        highestOffset := stop;
      }
      if bufferFin == Some(stop) {
        f := f.(fin := true);
        pendingEof := false;
      }
      sent, open := sent + [f], open + {|sent|};
    }

    /** The report for frame k, called with the offsets and FIN bit of that frame. */
    method OnDataDelivery(delivery: Delivery, start: nat, stop: nat, fin: bool, ghost k: int)
      requires Valid() && SenderInv(State()) && k in open
      requires start == sent[k].offset && stop == sent[k].End() && fin == sent[k].fin
      modifies this, acked, pending
      ensures Valid() && State() == OnDelivery(old(State()), delivery, k)
    {
      FinAssertHolds(State(), k);
      assert acked.Contents() + sent[k].Offsets() <= Span(bufferStart, |written|);
      assert !fin || Some(stop) == bufferFin;
      match delivery
      case Acked => OnAcked(start, stop, fin, k);
      case Lost => OnLost(start, stop, fin, k);
    }

    method OnAcked(start: nat, stop: nat, fin: bool, ghost k: int)
      requires Valid() && k in open && 0 <= k < |sent|
      requires start == sent[k].offset && stop == sent[k].End() && fin == sent[k].fin
      requires acked.Contents() + Span(start, stop) <= Span(bufferStart, |written|)
      modifies this, acked
      ensures Valid() && State() == OnDelivery(old(State()), Acked, k)
    {
      DiscardAcked(start, stop);
      open := open - {k};
      if fin {
        ackedFin := true;
      }
      if bufferFin == Some(bufferStart) && ackedFin {
        isFinished := true;
      }
    }

    method DiscardAcked(start: nat, stop: nat)
      requires Valid() && acked.Contents() + Span(start, stop) <= Span(bufferStart, |written|)
      modifies this`bufferStart, this`buffer, acked
      ensures Valid()
      ensures var s := old(State());
              var all := s.acked + Span(start, stop);
              var front := if stop > start then RunEnd(all, s.start) else s.start;
              State() == s.(acked := all - Span(s.start, front), start := front)
    {
      hide Canonical, Elements;
      ghost var s := State();
      if stop > start {
        acked.Add(start, stop);
        assert start in acked.Contents();
        EmptyList(acked.ranges);
        Release(s.acked + Span(start, stop));
      } else {
        assert s.acked + Span(start, stop) - Span(s.start, s.start) == s.acked;
      }
    }

    method OnLost(start: nat, stop: nat, fin: bool, ghost k: int)
      requires Valid() && k in open && 0 <= k < |sent|
      requires start == sent[k].offset && stop == sent[k].End() && fin == sent[k].fin
      modifies this, pending
      ensures Valid() && State() == OnDelivery(old(State()), Lost, k)
    {
      hide Canonical, Elements;
      ghost var s := State();
      open := open - {k};
      if stop > start {
        bufferIsEmpty := false;
        pending.Add(start, stop);
      } else {
        assert s.pending + Span(start, stop) == s.pending;
      }
      if fin {
        bufferIsEmpty := false;
        pendingEof := true;
      }
    }

    /** Drop the acknowledged bytes at the front of the buffer. */
    method Release(ghost all: set<int>)
      requires acked.Valid() && acked.Contents() == all && |acked.ranges| > 0
      requires bufferStart <= |written| && buffer == written[bufferStart..] && all <= Span(bufferStart, |written|)
      modifies this`bufferStart, this`buffer, acked
      ensures acked.Valid() && bufferStart == RunEnd(all, old(bufferStart))
      ensures acked.Contents() == all - Span(old(bufferStart), bufferStart)
      ensures bufferStart <= |written| && buffer == written[bufferStart..]
    {
      var first := acked.ranges[0];
      FirstRange(acked.ranges);
      if first.start == bufferStart {
        var size := first.stop - first.start;
        assert first.stop - 1 in Span(first.start, first.stop);
        var _ := acked.Shift();
        bufferStart := bufferStart + size;
        buffer := buffer[size..];
      } else {
        RunEndUnique(all, bufferStart, bufferStart);
      }
    }

    method Write(data: seq<byte>, endStream: bool)
      requires Valid() && bufferFin == None
      modifies this, pending
      ensures Valid() && State() == StreamSpec.Write(old(State()), data, endStream)
    {
      hide Canonical, Elements;
      ghost var s := State();
      var size := |data|;
      if size > 0 {
        bufferIsEmpty := false;
        pending.Add(bufferStop, bufferStop + size);
        buffer := buffer + data;
        bufferStop := bufferStop + size;
        written := written + data;
      } else {
        assert s.written + data == s.written;
      }
      assert pending.Contents() == s.pending + Span(|s.written|, |s.written| + size);
      assert Valid();
      label appended:
      if endStream {
        bufferIsEmpty := false;
        bufferFin := Some(bufferStop);
        pendingEof := true;
      }
      assert unchanged@appended(pending);
    }
  }

  datatype HandleResult = Raised | Returned(event: Option<Event>)

  /** The received bytes at the given offsets of a buffer that starts at start. */
  ghost function Bytes(keys: set<int>, start: int, buffer: seq<byte>): map<int, byte>
    requires keys <= Span(start, start + |buffer|)
  {
    map x | x in keys :: buffer[x - start]
  }

  /** Zero padding up to pos, then data written over the buffer at pos. */
  function Overlay(buffer: seq<byte>, pos: nat, data: seq<byte>): (b: seq<byte>)
    ensures |b| == Max(|buffer|, pos + |data|)
  {
    var padded := buffer + if pos > |buffer| then seq(pos - |buffer|, _ => 0) else [];
    padded[..pos] + data + padded[Min(pos + |data|, |padded|)..]
  }

  lemma OverlayStores(keys: set<int>, start: nat, buffer: seq<byte>, f: Frame)
    requires keys <= Span(start, start + |buffer|) && f.offset >= start
    ensures var b := Overlay(buffer, f.offset - start, f.data);
            && keys + f.Offsets() <= Span(start, start + |b|)
            && Bytes(keys + f.Offsets(), start, b) == Bytes(keys, start, buffer) + Fresh(f, start)
  {
  }

  /** Drop the part of a frame that was handed over before. */
  function Trim(frame: Frame, start: nat): (f: Frame)
    ensures f.offset >= start && Fresh(f, start) == Fresh(frame, start)
    ensures Max(f.End(), start) == Max(frame.End(), start)
  {
    if frame.offset < start then
      Frame(start, frame.data[Min(start - frame.offset, |frame.data|)..], frame.fin)
    else frame
  }

  lemma FrontOfBuffer(keys: set<int>, start: nat, buffer: seq<byte>, stop: int, store: map<int, byte>)
    requires keys <= Span(start, start + |buffer|) && store == Bytes(keys, start, buffer)
    requires start <= stop && Span(start, stop) <= keys
    ensures stop <= start + |buffer| && keys - Span(start, stop) <= Span(stop, start + |buffer|)
    ensures store.Keys == keys && Front(store, start, stop) == buffer[..stop - start]
    ensures Bytes(keys - Span(start, stop), stop, buffer[stop - start..]) == store - Span(start, stop)
  {
    assert start < stop ==> stop - 1 in Span(start, stop);
  }

  /** Overlaying a frame and cutting the front off the buffer does what Handle does to the store. */
  lemma StoredThenPulled(keys: set<int>, start: nat, buffer: seq<byte>, f: Frame)
    requires keys <= Span(start, start + |buffer|) && f.offset >= start
    ensures var b := Overlay(buffer, f.offset - start, f.data);
            var all := keys + f.Offsets();
            var stop := RunEnd(all, start);
            var store := Bytes(keys, start, buffer) + Fresh(f, start);
            && all <= Span(start, start + |b|) && stop <= start + |b| && store.Keys == all
            && all - Span(start, stop) <= Span(stop, start + |b|)
            && Front(store, start, stop) == b[..stop - start]
            && Bytes(all - Span(start, stop), stop, b[stop - start..]) == store - Span(start, stop)
  {
    hide Overlay, Fresh, Front, Bytes;
    OverlayStores(keys, start, buffer, f);
    var b := Overlay(buffer, f.offset - start, f.data);
    var all := keys + f.Offsets();
    FrontOfBuffer(all, start, b, RunEnd(all, start), Bytes(keys, start, buffer) + Fresh(f, start));
  }

  /** The state after storing a frame and pulling, in terms of the bytes stored before. */
  lemma WhatIsPulled(keys: set<int>, start: nat, was: seq<byte>, f: Frame, all: set<int>, b: seq<byte>, stop: nat,
                     left: set<int>, data: seq<byte>, rest: seq<byte>)
    requires keys <= Span(start, start + |was|) && f.offset >= start
    requires all == keys + f.Offsets() && b == Overlay(was, f.offset - start, f.data)
    requires stop == RunEnd(all, start) && left == all - Span(start, stop) && stop <= start + |b|
    requires data == b[..stop - start] && rest == b[stop - start..]
    ensures left <= Span(stop, stop + |rest|) && stop !in left && stop + |rest| == Max(start + |was|, f.End())
    ensures var store := Bytes(keys, start, was) + Fresh(f, start);
            && stop == RunEnd(store.Keys, start) && Span(start, stop) <= store.Keys
            && data == Front(store, start, stop) && Bytes(left, stop, rest) == store - Span(start, stop)
  {
    StoredThenPulled(keys, start, was, f);
    hide Overlay, Fresh, Bytes, Front;
  }

  class StreamReceiver {
    var highestOffset: nat
    var isFinished: bool
    var buffer: seq<byte>
    var bufferStart: nat
    var finalSize: Option<nat>
    const ranges: RangeSet

    ghost predicate Valid()
      reads this, ranges
    {
      && ranges.Valid()
      && ranges.Contents() <= Span(bufferStart, bufferStart + |buffer|) && bufferStart !in ranges.Contents()
      && (finalSize.Some? ==> finalSize.value <= bufferStart + |buffer|)
    }

    ghost function State(): Receiver
      requires Valid()
      reads this, ranges
    {
      Receiver(bufferStart, Bytes(ranges.Contents(), bufferStart, buffer), finalSize, highestOffset, isFinished)
    }

    constructor ()
      ensures Valid() && State() == NEW_RECEIVER && fresh(ranges)
    {
      highestOffset, isFinished, buffer, bufferStart, finalSize := 0, false, [], 0, None;
      ranges := new RangeSet();
    }

    method HandleFrame(frame: Frame) returns (r: HandleResult)
      requires Valid()
      modifies this, ranges
      ensures Valid()
      ensures match Handle(old(State()), frame)
              case FinalSizeError => r == Raised && State() == old(State())
              case Handled(next, event) => r == Returned(event) && State() == next
    {
      ghost var was := State();
      var pos := frame.offset - bufferStart;
      var count := |frame.data|;
      var frameEnd := frame.offset + count;
      if finalSize.Some? {
        if frameEnd > finalSize.value {
          return Raised;
        } else if frame.fin && frameEnd != finalSize.value {
          return Raised;
        }
      }
      if pos == 0 && count > 0 && buffer == [] {
        InOrder(was, frame);
        NoteEnd(frame);
        bufferStart := bufferStart + count;
        if frame.fin {
          isFinished := true;
        }
        return Returned(Some(StreamDataReceived(frame.data, frame.fin)));
      }
      r := Reassemble(frame);
    }

    method NoteEnd(frame: Frame)
      modifies this`finalSize, this`highestOffset
      ensures finalSize == if frame.fin then Some(frame.End()) else old(finalSize)
      ensures highestOffset == Max(old(highestOffset), frame.End())
    {
      var frameEnd := frame.offset + |frame.data|;
      if frame.fin {
        finalSize := Some(frameEnd);
      }
      if frameEnd > highestOffset {
        highestOffset := frameEnd;
      }
    }

    /** A chunk that continues the delivered bytes while nothing is buffered is its own longest run. */
    lemma InOrder(was: Receiver, f: Frame)
      requires was.store == map[] && f.offset == was.start && f.data != []
      ensures var store := was.store + Fresh(f, was.start);
              && RunEnd(store.Keys, was.start) == f.End()
              && Front(store, was.start, f.End()) == f.data
              && store - Span(was.start, f.End()) == map[]
    {
      var store := was.store + Fresh(f, was.start);
      assert store.Keys == Span(f.offset, f.End());
      RunEndUnique(store.Keys, was.start, f.End());
    }

    /** The buffered path: trim, store and pull the data at the front. */
    method Reassemble(frame: Frame) returns (r: HandleResult)
      requires Valid() && Handle(State(), frame).Handled?
      modifies this, ranges
      ensures Valid()
      ensures var out := Handle(old(State()), frame);
              r == Returned(out.event) && State() == out.next
    {
      hide Canonical, Elements;
      ghost var was := State();
      ghost var store := was.store + Fresh(frame, was.start);
      var f := Trim(frame, bufferStart);
      NoteEnd(frame);
      var data := StoreAndPull(f);
      assert Valid() && State() == Receiver(bufferStart, store - Span(was.start, bufferStart), finalSize,
                                            highestOffset, was.finished);
      r := Finish(data);
    }

    method Finish(data: seq<byte>) returns (r: HandleResult)
      requires Valid()
      modifies this`isFinished
      ensures Valid()
      ensures var end := finalSize == Some(bufferStart);
              && isFinished == (old(isFinished) || end)
              && r == Returned(if data != [] || end then Some(StreamDataReceived(data, end)) else None)
    {
      var endStream := finalSize == Some(bufferStart);
      if endStream {
        isFinished := true;
      }
      if data != [] || endStream {
        return Returned(Some(StreamDataReceived(data, endStream)));
      }
      return Returned(None);
    }

    method StoreAndPull(f: Frame) returns (data: seq<byte>)
      requires ranges.Valid() && ranges.Contents() <= Span(bufferStart, bufferStart + |buffer|)
      requires bufferStart <= f.offset
      modifies this`buffer, this`bufferStart, ranges
      ensures ranges.Valid() && ranges.Contents() <= Span(bufferStart, bufferStart + |buffer|)
      ensures bufferStart + |buffer| == Max(old(bufferStart + |buffer|), f.End())
      ensures var store := old(Bytes(ranges.Contents(), bufferStart, buffer)) + Fresh(f, old(bufferStart));
              && bufferStart == RunEnd(store.Keys, old(bufferStart)) && bufferStart !in ranges.Contents()
              && data == Front(store, old(bufferStart), bufferStart)
              && Bytes(ranges.Contents(), bufferStart, buffer) == store - Span(old(bufferStart), bufferStart)
    {
      hide Canonical, Elements, Overlay, Fresh, Bytes, Front, RunEnd;
      ghost var keys, start, was := ranges.Contents(), bufferStart, buffer;
      StoredThenPulled(keys, start, was, f);
      Store(f);
      ghost var all, b := ranges.Contents(), buffer;
      data := PullData();
      WhatIsPulled(keys, start, was, f, all, b, bufferStart, ranges.Contents(), data, buffer);
    }

    method Store(f: Frame)
      requires ranges.Valid() && bufferStart <= f.offset
      modifies this`buffer, ranges
      ensures ranges.Valid() && ranges.Contents() == old(ranges.Contents()) + f.Offsets()
      ensures buffer == Overlay(old(buffer), f.offset - bufferStart, f.data)
    {
      hide Canonical, Elements;
      if f.End() > f.offset {
        ranges.Add(f.offset, f.End());
      }
      assert ranges.Contents() == old(ranges.Contents()) + f.Offsets();
      var pos := f.offset - bufferStart;
      var gap := pos - |buffer|;
      if gap > 0 {
        buffer := buffer + seq(gap, _ => 0);
      }
      buffer := buffer[..pos] + f.data + buffer[Min(pos + |f.data|, |buffer|)..];
    }

    /** The bytes at the front leave the buffer; nothing else changes its place. */
    twostate predicate Pulled(data: seq<byte>)
      requires old(ranges.Contents()) <= Span(old(bufferStart), old(bufferStart) + |old(buffer)|)
      reads this, ranges
    {
      var keys, start := old(ranges.Contents()), old(bufferStart);
      && bufferStart == RunEnd(keys, start) && ranges.Contents() == keys - Span(start, bufferStart)
      && bufferStart <= start + |old(buffer)|
      && data == old(buffer)[..bufferStart - start] && buffer == old(buffer)[bufferStart - start..]
    }

    method PullData() returns (data: seq<byte>)
      requires ranges.Valid() && ranges.Contents() <= Span(bufferStart, bufferStart + |buffer|)
      modifies this`buffer, this`bufferStart, ranges
      ensures ranges.Valid() && Pulled(data)
    {
      hide Canonical, Elements;
      ghost var keys := ranges.Contents();
      EmptyList(ranges.ranges);
      if |ranges.ranges| > 0 { FirstRange(ranges.ranges); }
      var hasDataToRead := |ranges.ranges| > 0 && ranges.ranges[0].start == bufferStart;
      if !hasDataToRead {
        RunEndUnique(keys, bufferStart, bufferStart);
        return [];
      }
      var r := ranges.Shift();
      assert r.stop - 1 in Span(r.start, r.stop);
      var pos := r.stop - r.start;
      data := buffer[..pos];
      buffer := buffer[pos..];
      bufferStart := r.stop;
    }
  }
}
