/**
 What one direction of a QUIC stream does, on values (quic/stream.py).
 Ranges are plain sets of offsets here, and the sender also remembers every byte
 ever written, every frame it returned and which of those still await a report.
 */
module StreamSpec {
  import opened Common

  datatype Frame = Frame(offset: nat, data: seq<byte>, fin: bool) {
    function End(): nat { offset + |data| }
    function Offsets(): set<int> { Span(offset, End()) }
  }

  // ---- Sender ----

  datatype Sender = Sender(
    written: seq<byte>,    // everything passed to write
    fin: bool,             // end_stream was written
    start: nat,            // bytes released from the front of the buffer
    acked: set<int>,       // acknowledged but not yet released
    pending: set<int>,     // waiting to be sent or sent again
    pendingEof: bool,
    ackedFin: bool,
    bufferIsEmpty: bool,
    highest: nat,          // highest offset ever sent
    finished: bool,
    sent: seq<Frame>,      // every frame returned by get_frame, oldest first
    open: set<int>)        // indices of the frames not reported yet

  const NEW_SENDER := Sender([], false, 0, {}, {}, false, false, true, 0, false, [], {})

  function Write(s: Sender, data: seq<byte>, end: bool): Sender
    requires !s.fin
  {
    s.(written := s.written + data,
       pending := s.pending + Span(|s.written|, |s.written| + |data|),
       bufferIsEmpty := s.bufferIsEmpty && data == [] && !end,
       fin := end,
       pendingEof := s.pendingEof || end)
  }

  function PutInFlight(s: Sender, f: Frame): Sender {
    s.(sent := s.sent + [f], open := s.open + {|s.sent|})
  }

  /** Where a frame starting at start must stop: the end of the run, the size or the credit. */
  ghost function FrameStop(s: Sender, start: int, maxSize: int, maxOffset: Option<int>): int {
    var stop := Min(RunEnd(s.pending, start), start + maxSize);
    if maxOffset.Some? then Min(stop, maxOffset.value) else stop
  }

  ghost function GetFrame(s: Sender, maxSize: int, maxOffset: Option<int>): (Sender, Option<Frame>)
    requires s.pending <= Span(0, |s.written|)
  {
    if s.pending == {} then
      if s.pendingEof then
        var f := Frame(|s.written|, [], true);
        (PutInFlight(s.(pendingEof := false), f), Some(f))
      else
        (s.(bufferIsEmpty := true), None)
    else
      var start := Least(s.pending);
      var stop := FrameStop(s, start, maxSize, maxOffset);
      if stop <= start then (s, None) else
        assert stop - 1 in Span(start, RunEnd(s.pending, start));
        var last := s.fin && stop == |s.written|;
        var f := Frame(start, s.written[start..stop], last);
        var s' := s.(pending := s.pending - Span(start, stop),
                     highest := Max(s.highest, stop),
                     pendingEof := s.pendingEof && !last);
        (PutInFlight(s', f), Some(f))
  }

  ghost function OnDelivery(s: Sender, d: Delivery, k: int): Sender
    requires 0 <= k < |s.sent|
  {
    var f := s.sent[k];
    var s' := s.(open := s.open - {k});
    match d
    case Acked =>
      var acked := s.acked + f.Offsets();
      var start := if f.data == [] then s.start else RunEnd(acked, s.start);
      var ackedFin := s.ackedFin || f.fin;
      s'.(acked := acked - Span(s.start, start), start := start, ackedFin := ackedFin,
          finished := s.finished || (s.fin && start == |s.written| && ackedFin))
    case Lost =>
      s'.(pending := s.pending + f.Offsets(),
          bufferIsEmpty := s.bufferIsEmpty && f.data == [] && !f.fin,
          pendingEof := s.pendingEof || f.fin)
  }

  ghost predicate InFlight(s: Sender, x: int) {
    exists k :: k in s.open && 0 <= k < |s.sent| && x in s.sent[k].Offsets()
  }

  /** Every offset written is in exactly one of: released, acknowledged, pending, one open frame. */
  ghost predicate Conserved(s: Sender) {
    && s.start <= |s.written|
    && (forall k | k in s.open :: 0 <= k < |s.sent|)
    && s.acked <= Span(s.start, |s.written|) && s.pending <= Span(s.start, |s.written|)
    && s.acked !! s.pending
    && (forall k | k in s.open :: s.sent[k].Offsets() <= Span(s.start, |s.written|))
    && (forall k | k in s.open :: s.sent[k].Offsets() !! s.acked && s.sent[k].Offsets() !! s.pending)
    && (forall j, k | j in s.open && k in s.open && j != k :: s.sent[j].Offsets() !! s.sent[k].Offsets())
    && (forall x | s.start <= x < |s.written| :: x in s.acked || x in s.pending || InFlight(s, x))
  }

  /** A frame carries exactly the bytes written at its offset, and FIN only at the very end. */
  ghost predicate CutFrom(f: Frame, written: seq<byte>, fin: bool) {
    && f.End() <= |written| && f.data == written[f.offset..f.End()]
    && (f.fin ==> fin && f.End() == |written|)
  }

  ghost predicate Accurate(s: Sender) {
    && (forall k | 0 <= k < |s.sent| :: CutFrom(s.sent[k], s.written, s.fin))
    && (forall k | 0 <= k < |s.sent| :: s.sent[k].End() <= s.highest)
    && s.highest <= |s.written| && Span(s.highest, |s.written|) <= s.pending
  }

  ghost predicate FinTracked(s: Sender) {
    && (s.fin ==> s.pendingEof || s.ackedFin || exists k :: k in s.open && 0 <= k < |s.sent| && s.sent[k].fin)
    && (s.pendingEof || s.ackedFin ==> s.fin)
    && (s.finished <==> s.fin && s.start == |s.written| && s.ackedFin)
    && (s.bufferIsEmpty ==> s.pending == {} && !s.pendingEof)
    && s.start !in s.acked
  }

  ghost predicate SenderInv(s: Sender) { Conserved(s) && Accurate(s) && FinTracked(s) }

  lemma WriteKeeps(s: Sender, data: seq<byte>, end: bool)
    requires SenderInv(s) && !s.fin
    ensures SenderInv(Write(s, data, end))
  {
    var s' := Write(s, data, end);
    forall x | s'.start <= x < |s'.written|
      ensures x in s'.acked || x in s'.pending || InFlight(s', x)
    {
      if x < |s.written| && InFlight(s, x) {
        var k :| k in s.open && 0 <= k < |s.sent| && x in s.sent[k].Offsets();
        assert s'.sent[k] == s.sent[k];
      }
    }
    forall k | 0 <= k < |s.sent|
      ensures CutFrom(s.sent[k], s'.written, s'.fin)
    {
      assert CutFrom(s.sent[k], s.written, s.fin);
    }
  }

  /** A returned frame is cut from pending bytes and is put in flight. */
  lemma FrameShape(s: Sender, maxSize: int, maxOffset: Option<int>)
    requires SenderInv(s)
    ensures var (s', r) := GetFrame(s, maxSize, maxOffset);
            match r
            case None => s' == s || (s.pending == {} && !s.pendingEof && s' == s.(bufferIsEmpty := true))
            case Some(f) =>
              && CutFrom(f, s.written, s.fin)
              && f.Offsets() <= s.pending
              && s' == PutInFlight(s.(pending := s.pending - f.Offsets(), highest := Max(s.highest, f.End()),
                                      pendingEof := s.pendingEof && !f.fin), f)
              && (maxOffset.Some? && f.data != [] ==> f.End() <= maxOffset.value)
              && (f.data == [] ==> s.pending == {} && f.fin)
  {
    if s.pending != {} {
      var start := Least(s.pending);
      var stop := FrameStop(s, start, maxSize, maxOffset);
      var run := RunEnd(s.pending, start);
      if start < stop {
        assert run - 1 in Span(start, run);
        assert Frame(start, s.written[start..stop], false).End() == stop;
      }
    } else {
      assert s.highest < |s.written| ==> s.highest in Span(s.highest, |s.written|);
      assert s.pending - Frame(|s.written|, [], true).Offsets() == s.pending;
    }
  }

  /**
   A frame starts at the first pending offset and reaches as far as the run of pending bytes, the size and the credit
   allow, with FIN exactly at the end of the stream; FIN comes alone when nothing is pending. There is none only when
   nothing waits, or the size or the credit leaves no room.
   */
  lemma FrameReachesFar(s: Sender, maxSize: int, maxOffset: Option<int>)
    requires SenderInv(s)
    ensures var (s', r) := GetFrame(s, maxSize, maxOffset);
            match r
            case None =>
              if s.pending == {} then !s.pendingEof && s' == s.(bufferIsEmpty := true)
              else s' == s && (maxSize <= 0 || (maxOffset.Some? && maxOffset.value <= Least(s.pending)))
            case Some(f) =>
              if s.pending == {} then s.pendingEof && f == Frame(|s.written|, [], true)
              else
                && f.offset == Least(s.pending) && 0 < |f.data| <= maxSize && f.Offsets() <= s.pending
                && (maxOffset.Some? ==> f.End() <= maxOffset.value)
                && (f.End() !in s.pending || |f.data| == maxSize || maxOffset == Some(f.End()))
                && (f.fin <==> s.fin && f.End() == |s.written|)
  {
    hide FinTracked, Accurate;
    if s.pending != {} {
      var start := Least(s.pending);
      var stop := FrameStop(s, start, maxSize, maxOffset);
      var run := RunEnd(s.pending, start);
      assert run > start;
      if start < stop {
        assert stop - 1 in Span(start, run) && run - 1 in Span(start, run);
        assert Frame(start, s.written[start..stop], false).End() == stop;
      }
    }
  }

  /** get_frame keeps the invariant. */
  lemma GetFrameKeeps(s: Sender, maxSize: int, maxOffset: Option<int>)
    requires SenderInv(s)
    ensures SenderInv(GetFrame(s, maxSize, maxOffset).0)
  {
    var (s', r) := GetFrame(s, maxSize, maxOffset);
    FrameShape(s, maxSize, maxOffset);
    if r.Some? {
      FramePutInFlightKeeps(s, s', r.value);
    }
  }

  lemma FramePutInFlightKeeps(s: Sender, s': Sender, f: Frame)
    requires SenderInv(s) && CutFrom(f, s.written, s.fin) && f.Offsets() <= s.pending
    requires s' == PutInFlight(s.(pending := s.pending - f.Offsets(), highest := Max(s.highest, f.End()),
                                  pendingEof := s.pendingEof && !f.fin), f)
    requires f.data == [] ==> s.pending == {}
    ensures SenderInv(s')
  {
    hide Conserved;
    GetFrameConserves(s, s', f);
    FinPassedOn(s, s', f);
  }

  lemma GetFrameConserves(s: Sender, s': Sender, f: Frame)
    requires Conserved(s) && f.Offsets() <= s.pending
    requires s' == PutInFlight(s.(pending := s.pending - f.Offsets(), highest := s'.highest, pendingEof := s'.pendingEof), f)
    ensures Conserved(s')
  {
    assert |s.sent| !in s.open;
    forall x | s'.start <= x < |s'.written|
      ensures x in s'.acked || x in s'.pending || InFlight(s', x)
    {
      if x in f.Offsets() {
        assert s'.sent[|s.sent|] == f;
      } else if InFlight(s, x) {
        var k :| k in s.open && 0 <= k < |s.sent| && x in s.sent[k].Offsets();
        assert s'.sent[k] == s.sent[k];
      }
    }
  }

  lemma FinPassedOn(s: Sender, s': Sender, f: Frame)
    requires s.fin ==> s.pendingEof || s.ackedFin || exists k :: k in s.open && 0 <= k < |s.sent| && s.sent[k].fin
    requires s'.sent == s.sent + [f] && s'.open == s.open + {|s.sent|} && s'.ackedFin == s.ackedFin
    requires s.pendingEof ==> s'.pendingEof || f.fin
    ensures s.fin ==> s'.pendingEof || s'.ackedFin || exists k :: k in s'.open && 0 <= k < |s'.sent| && s'.sent[k].fin
  {
    if s.fin && !s'.pendingEof && !s'.ackedFin {
      if f.fin {
        assert s'.sent[|s.sent|].fin;
      } else {
        var k :| k in s.open && 0 <= k < |s.sent| && s.sent[k].fin;
        assert s'.sent[k].fin;
      }
    }
  }

  /** The sender's assertion on FIN reports never fails. */
  lemma FinAssertHolds(s: Sender, k: int)
    requires SenderInv(s) && k in s.open
    ensures s.sent[k].fin ==> s.fin && s.sent[k].End() == |s.written|
  {
    assert CutFrom(s.sent[k], s.written, s.fin);
  }

  lemma LossConserves(s: Sender, k: int)
    requires Conserved(s) && k in s.open
    ensures Conserved(OnDelivery(s, Lost, k))
  {
    var s' := OnDelivery(s, Lost, k);
    forall x | s.start <= x < |s.written|
      ensures x in s'.acked || x in s'.pending || InFlight(s', x)
    {
      StillInFlight(s, s', k, x);
    }
  }

  lemma StillInFlight(s: Sender, s': Sender, k: int, x: int)
    requires k in s.open && 0 <= k < |s.sent| && s'.sent == s.sent && s'.open == s.open - {k}
    ensures InFlight(s, x) ==> x in s.sent[k].Offsets() || InFlight(s', x)
  {
    if InFlight(s, x) && x !in s.sent[k].Offsets() {
      var j :| j in s.open && 0 <= j < |s.sent| && x in s.sent[j].Offsets();
      assert j in s'.open;
    }
  }

  /** Acknowledged offsets are released as soon as they touch the released prefix. */
  lemma AckConserves(s: Sender, k: int)
    requires Conserved(s) && k in s.open
    ensures Conserved(OnDelivery(s, Acked, k)) && s.start <= OnDelivery(s, Acked, k).start
  {
    var s' := OnDelivery(s, Acked, k);
    var acked := s.acked + s.sent[k].Offsets();
    var gone := Span(s.start, s'.start);
    assert gone <= acked && acked <= Span(s.start, |s.written|);
    assert s'.start > s.start ==> s'.start - 1 in gone;
    assert s.pending !! gone && s.pending !! s'.acked;
    forall j | j in s'.open
      ensures s.sent[j].Offsets() <= Span(s'.start, |s.written|) && s.sent[j].Offsets() !! s'.acked
    {
      assert s.sent[j].Offsets() !! gone;
    }
    forall x | s'.start <= x < |s'.written|
      ensures x in s'.acked || x in s'.pending || InFlight(s', x)
    {
      StillInFlight(s, s', k, x);
    }
  }

  lemma OnDeliveryKeeps(s: Sender, d: Delivery, k: int)
    requires SenderInv(s) && k in s.open
    ensures SenderInv(OnDelivery(s, d, k))
  {
    var s' := OnDelivery(s, d, k);
    if d.Acked? { AckConserves(s, k); } else { LossConserves(s, k); }
    FinAssertHolds(s, k);
    if s.fin && !s'.pendingEof && !s'.ackedFin {
      var j :| j in s.open && 0 <= j < |s.sent| && s.sent[j].fin;
      assert j in s'.open && s'.sent[j].fin;
    }
  }

  /** Nothing is left to send once the buffer is empty and every frame was acknowledged. */
  lemma EmptyMeansNothingWaits(s: Sender)
    requires SenderInv(s) && s.bufferIsEmpty && s.open == {}
    ensures s.start == |s.written| && (s.fin ==> s.finished)
  {
    assert !InFlight(s, s.start);
  }

  // ---- Receiver ----

  datatype Receiver = Receiver(
    start: nat,             // bytes handed to the application
    store: map<int, byte>,  // received bytes not handed over yet, by offset
    final: Option<nat>,
    highest: nat,
    finished: bool)

  const NEW_RECEIVER := Receiver(0, map[], None, 0, false)

  datatype Event = StreamDataReceived(data: seq<byte>, endStream: bool)

  datatype Outcome = FinalSizeError | Handled(next: Receiver, event: Option<Event>)

  /** The bytes of a frame that lie at or after start, by offset. */
  function Fresh(f: Frame, start: int): map<int, byte> {
    map x | x in Span(Max(f.offset, start), f.End()) :: f.data[x - f.offset]
  }

  /** Store the new bytes, then hand over the longest run of bytes without a hole. */
  function Handle(r: Receiver, f: Frame): Outcome {
    if r.final.Some? && (f.End() > r.final.value || (f.fin && f.End() != r.final.value)) then FinalSizeError
    else
      var final := if f.fin then Some(f.End()) else r.final;
      var store := r.store + Fresh(f, r.start);
      var stop := RunEnd(store.Keys, r.start);
      var data := Front(store, r.start, stop);
      var end := final == Some(stop);
      Handled(
        Receiver(stop, store - Span(r.start, stop), final, Max(r.highest, f.End()), r.finished || end),
        if data != [] || end then Some(StreamDataReceived(data, end)) else None)
  }

  function Front(store: map<int, byte>, start: int, stop: int): (data: seq<byte>)
    requires start <= stop && Span(start, stop) <= store.Keys
    ensures |data| == stop - start
  {
    seq(stop - start, i requires 0 <= i < stop - start => assert start + i in Span(start, stop); store[start + i])
  }
}
