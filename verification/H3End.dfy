/** The end of a request or push stream, coming with its last bytes or after them (h3/connection.py). */
module H3Ends {
  import opened Common
  import opened Buffers
  import opened H3Spec
  import opened H3Chunks

  // ---- Where the bytes of a stream stop ----

  /** Within a frame, started tells whether there is a byte of its payload that has not been handled. */
  datatype Place = Nowhere | InHeader | InTunnel | Within(frameType: nat, started: bool) | Closed(frameType: nat)

  /** Where some bytes stop, given the type and the missing size of the frame they start in. */
  function PlaceOf(left: Option<(nat, nat)>, s: seq<byte>): Place
    decreases 2 * |s| + if left.Some? then 1 else 0
  {
    match left
    case Some((frameType, size)) =>
      if |s| < size then Within(frameType, s != [])
      else if |s| == size then Closed(frameType)
      else PlaceOf(None, s[size..])
    case None =>
      if s == [] then Nowhere
      else
        match FrameHeader(s)
        case None => InHeader
        case Some((frameType, size, rest)) =>
          HeaderShortens(s);
          if frameType == WEBTRANSPORT_STREAM then InTunnel else PlaceOf(Some((frameType, size)), rest)
  }

  function FrameOf(s: Stream): Option<(nat, nat)>
    requires TypeKnown(s)
  {
    if s.frameSize.Some? then Some((s.frameType.value, s.frameSize.value)) else None
  }

  /** How a stream stands after the loop over bytes that stop at p. */
  predicate StandsAt(p: Place, t: Stream) {
    match p
    case Nowhere => false
    case InHeader => t.sessionId.None? && t.frameSize.None? && t.buffer != [] && FrameHeader(t.buffer).None?
    case InTunnel => InWebTransport(t) && t.buffer == []
    case Within(frameType, started) =>
      && t.sessionId.None? && t.frameType == Some(frameType)
      && t.frameSize.Some? && |t.buffer| < t.frameSize.value
      && (t.buffer == [] <==> frameType == DATA || !started)
    case Closed(_) => t.sessionId.None? && t.frameSize.None? && t.frameType.None? && t.buffer == []
  }

  // ---- The end together with the last bytes ----

  /** The loop reports an end that comes with bytes that stop at p. */
  predicate Marks(p: Place) {
    match p
    case InTunnel => true
    case Closed(frameType) => frameType in {DATA, HEADERS}
    case Within(frameType, _) => frameType == DATA
    case _ => false
  }

  /** What comes of an end, compared with what came without it: it is reported and the length is checked, or neither. */
  ghost predicate EndsAs(p: Place, mark: bool, o: Outcome, ended: Outcome) {
    if o.Failed? then ended.Failed?
    else if mark then
      && (ended.Failed? <==> !p.InTunnel? && !LengthMatches(o.stream))
      && (ended.Done? ==> Atoms(ended.events) == Atoms(o.events) + [End])
    else ended.Done? && Atoms(ended.events) == Atoms(o.events)
  }

  lemma FewAtoms()
    ensures Atoms([]) == [] && Bytes([]) == [] && Atoms([DataReceived([], true)]) == [End]
    ensures Atoms([DataReceived([], false)]) == []
  {
    OneEvent(DataReceived([], true));
    OneEvent(DataReceived([], false));
    assert Bytes([]) == [];
  }

  lemma DataEnds(s: Stream, data: seq<byte>)
    requires !s.ended
    ensures EndsAs(Closed(DATA), true, HandleData(s, data, false), HandleData(s.(ended := true), data, true))
  {
    hide Atoms, Bytes;
    FewAtoms();
    OneEvent(DataReceived(data, true));
    OneEvent(DataReceived(data, false));
    assert Bytes(data) + [] == Bytes(data);
  }

  lemma HeadersEnd(c: Context, s: Stream, data: seq<byte>)
    requires !s.ended
    ensures EndsAs(Closed(HEADERS), true, HandleHeaders(c, s, data, false), HandleHeaders(c, s.(ended := true), data, true))
  {
    hide Atoms;
    match c.decode(if s.received == Initial then Section.Message else Trailers, data)
    case Rejected =>
    case Accepted(fields, _) =>
      OneEvent(HeadersReceived(fields, true));
      OneEvent(HeadersReceived(fields, false));
  }

  /** DATA and HEADERS frames report an end that comes with them; no other frame does. */
  lemma HandleEnds(c: Context, s: Stream, frameType: nat, data: seq<byte>)
    requires !s.ended
    ensures EndsAs(Closed(frameType), Marks(Closed(frameType)), HandleFrame(c, s, frameType, data, false),
                   HandleFrame(c, s.(ended := true), frameType, data, true))
  {
    hide Atoms, DecodeVar;
    if frameType == DATA {
      DataEnds(s, data);
    } else if frameType == HEADERS {
      HeadersEnd(c, s, data);
    }
  }

  /** Handling a frame that is not the last one does not depend on the end. */
  lemma HandleAlike(c: Context, s: Stream, frameType: nat, data: seq<byte>)
    ensures HandleFrame(c, s.(ended := true), frameType, data, false) ==
            match HandleFrame(c, s, frameType, data, false) {
              case Failed => Failed
              case Done(t, events) => Done(t.(ended := true), events)
            }
  {
    hide DecodeVar;
  }

  lemma PrependEnds(p: Place, mark: bool, events: seq<Event>, o: Outcome, ended: Outcome)
    requires EndsAs(p, mark, o, ended)
    ensures EndsAs(p, mark, Prepend(events, o), Prepend(events, ended))
  {
    hide Atoms;
    if o.Done? { AtomsAppend(events, o.events); }
    if ended.Done? { AtomsAppend(events, ended.events); }
    if o.Done? && mark {
      assert Atoms(events) + (Atoms(o.events) + [End]) == (Atoms(events) + Atoms(o.events)) + [End];
    }
  }

  /** What the loop makes of some bytes with the end of the stream, compared with what it makes of them without it. */
  ghost predicate LoopShape(p: Place, o: Outcome, ended: Outcome) {
    EndsAs(p, Marks(p), o, ended) && (o.Done? ==> StandsAt(p, o.stream))
  }

  lemma {:induction false} LoopEnds(c: Context, s: Stream)
    requires TypeKnown(s) && !s.ended && s.sessionId.None? && s.buffer != []
    ensures LoopShape(PlaceOf(FrameOf(s), s.buffer), Loop(c, s, false), Loop(c, s.(ended := true), true))
    decreases Measure(s), 1
  {
    hide EndsAs, FrameHeader, DecodeVar;
    if s.frameSize.Some? {
      PayloadEnds(c, s);
    } else if FrameHeader(s.buffer).Some? {
      var (frameType, size, rest) := FrameHeader(s.buffer).value;
      HeaderShortens(s.buffer);
      if frameType == WEBTRANSPORT_STREAM {
        TunnelOpens(c, s);
      } else {
        PayloadEnds(c, s.(frameType := Some(frameType), frameSize := Some(size), buffer := rest));
      }
    } else {
      HeaderWaits(c, s);
    }
  }

  lemma HeaderWaits(c: Context, s: Stream)
    requires TypeKnown(s) && !s.ended && s.sessionId.None? && s.frameSize.None?
    requires s.buffer != [] && FrameHeader(s.buffer).None?
    ensures LoopShape(InHeader, Loop(c, s, false), Loop(c, s.(ended := true), true))
  {
    hide Atoms, DecodeVar;
  }

  lemma TunnelOpens(c: Context, s: Stream)
    requires TypeKnown(s) && !s.ended && s.frameSize.None? && s.buffer != []
    requires FrameHeader(s.buffer).Some? && FrameHeader(s.buffer).value.0 == WEBTRANSPORT_STREAM
    ensures LoopShape(InTunnel, Loop(c, s, false), Loop(c, s.(ended := true), true))
  {
    hide FrameHeader;
    var (_, size, rest) := FrameHeader(s.buffer).value;
    TunnelEnds(size, rest);
    hide Atoms;
    if rest == [] { FewAtoms(); }
  }

  lemma TunnelEnds(session: nat, data: seq<byte>)
    ensures Atoms([WebTransportData(data, session, true)]) == Atoms([WebTransportData(data, session, false)]) + [End]
    ensures data == [] ==> Atoms([WebTransportData(data, session, false)]) == []
  {
    OneEvent(WebTransportData(data, session, true));
    OneEvent(WebTransportData(data, session, false));
    assert TunnelBytes(session, data) + [] == TunnelBytes(session, data);
  }

  lemma {:induction false} PayloadEnds(c: Context, s: Stream)
    requires TypeKnown(s) && !s.ended && s.sessionId.None? && s.frameSize.Some?
    ensures LoopShape(PlaceOf(FrameOf(s), s.buffer), Payload(c, s, false), Payload(c, s.(ended := true), true))
    decreases Measure(s), 0
  {
    hide HandleFrame, Loop, Atoms;
    var size, frameType := s.frameSize.value, s.frameType.value;
    var k := Min(size, |s.buffer|);
    if k == size || frameType == DATA {
      var s1, data := TakePayload(s, k), s.buffer[..k];
      HandleEnds(c, s1, frameType, data);
      HandleAlike(c, s1, frameType, data);
      HandleKeepsFrame(c, s1, frameType, data, false);
      HandleKeepsFrame(c, s1.(ended := true), frameType, data, true);
      var o := HandleFrame(c, s1, frameType, data, false);
      if o.Done? && s1.buffer != [] {
        LoopEnds(c, o.stream);
        hide EndsAs;
        PrependEnds(PlaceOf(None, s1.buffer), Marks(PlaceOf(None, s1.buffer)), o.events, Loop(c, o.stream, false),
                    Loop(c, o.stream.(ended := true), true));
      }
    }
  }

  // ---- The end after the last bytes ----

  /** A lone end is reported to a stream that stands at p. */
  predicate MarksLate(p: Place) {
    match p
    case InTunnel => true
    case Closed(_) => true
    case Within(frameType, started) => frameType != DATA && !started
    case _ => false
  }

  lemma LateEnds(c: Context, p: Place, t: Stream)
    requires TypeKnown(t) && StandsAt(p, t)
    ensures EndsAs(p, MarksLate(p), Done(t, []), Receive(c, t, [], true))
  {
    hide Atoms, HandleFrame, DecodeVar, FrameHeader;
    FewAtoms();
    assert t.buffer + [] == t.buffer && [] + [End] == [End];
    if p.InTunnel? {
      TunnelEnds(t.sessionId.value, []);
    } else if p.Within? && t.buffer != [] {
      assert Receive(c, t, [], true) == Payload(c, t.(ended := true), true);
    }
  }

  // ---- Both compared ----

  /** The same atoms, or both fail. */
  ghost predicate SameEnd(a: Outcome, b: Outcome) {
    (a.Failed? <==> b.Failed?) && (a.Done? ==> Atoms(a.events) == Atoms(b.events))
  }

  /**
   Whether the end of the stream is reported alike with these bytes and after them. In a tunnel, inside a DATA frame
   whose payload is still not complete, and when there is no byte it always is.
   */
  predicate Alike(s: Stream, data: seq<byte>)
    requires TypeKnown(s)
  {
    var bytes := s.buffer + data;
    if InWebTransport(s) || bytes == [] || InsideData(s, bytes) then true
    else
      match PlaceOf(FrameOf(s), bytes)
      case Closed(frameType) => frameType in {DATA, HEADERS}
      case Within(frameType, started) => frameType != DATA && started
      case _ => true
  }

  /** The shortcut for pieces of a DATA frame is taken. */
  predicate InsideData(s: Stream, bytes: seq<byte>) {
    s.frameType == Some(DATA) && s.frameSize.Some? && |bytes| < s.frameSize.value
  }

  /**
   The bytes stop at p: unless they do not end the frame they are in, and no shortcut is taken, both ends are reported
   alike exactly when both are reported or neither.
   */
  lemma EndsCompared(p: Place, first: Outcome, together: Outcome, apart: Outcome)
    requires first.Done? && EndsAs(p, Marks(p), first, together) && EndsAs(p, MarksLate(p), Done(first.stream, []), apart)
    ensures SameEnd(together, Prepend(first.events, apart)) <==> (Marks(p) <==> MarksLate(p))
  {
    hide Atoms;
    FewAtoms();
    if apart.Done? { AtomsAppend(first.events, apart.events); }
    assert Atoms(first.events) + [] == Atoms(first.events);
    assert [] + [End] == [End];
    assert Atoms(first.events) + [End] != Atoms(first.events);
  }

  /**
   The end of a stream comes with some bytes or after them, whatever was received before: exactly when both are
   reported alike. A lone end is never reported inside a DATA frame, where an end together with the first bytes of
   the frame is; it is reported after any whole frame and after a frame header, where an end together with the bytes
   is only reported by DATA and HEADERS frames.
   */
  lemma EndTogetherOrApart(c: Context, s: Stream, data: seq<byte>)
    requires TypeKnown(s) && Resting(s)
    ensures var first, together := Receive(c, s, data, false), Receive(c, s, data, true);
            && (first.Failed? ==> together.Failed?)
            && (first.Done? ==>
                  (SameEnd(together, Prepend(first.events, Receive(c, first.stream, [], true))) <==> Alike(s, data)))
  {
    var bytes := s.buffer + data;
    if InWebTransport(s) || bytes == [] || InsideData(s, bytes) {
      EndsByShortcut(c, s, data);
    } else {
      var at := s.(buffer := bytes);
      LoopEnds(c, at);
      var first, together := Receive(c, s, data, false), Receive(c, s, data, true);
      assert first == Loop(c, at, false) && together == Loop(c, at.(ended := true), true);
      hide Loop, Receive, FrameHeader, EndsAs;
      if first.Done? {
        var p := PlaceOf(FrameOf(s), bytes);
        LateEnds(c, p, first.stream);
        EndsCompared(p, first, together, Receive(c, first.stream, [], true));
      }
    }
  }

  lemma EndsByShortcut(c: Context, s: Stream, data: seq<byte>)
    requires TypeKnown(s) && Resting(s)
    requires InWebTransport(s) || s.buffer + data == [] || InsideData(s, s.buffer + data)
    ensures var first, together := Receive(c, s, data, false), Receive(c, s, data, true);
            && first.Done?
            && SameEnd(together, Prepend(first.events, Receive(c, first.stream, [], true)))
  {
    hide Atoms, FrameHeader, DecodeVar, HandleFrame;
    FewAtoms();
    var bytes := s.buffer + data;
    var first := Receive(c, s, data, false);
    var apart := Receive(c, first.stream, [], true);
    assert first.stream.buffer + [] == [];
    if apart.Done? { AtomsAppend(first.events, apart.events); }
    if InWebTransport(s) {
      TunnelEnds(s.sessionId.value, bytes);
      TunnelEnds(s.sessionId.value, []);
      assert [] + [End] == [End];
    } else if InsideData(s, bytes) {
      assert Atoms(first.events) + [] == Atoms(first.events);
    } else if apart.Done? {
      assert [] + apart.events == apart.events;
    }
  }

  // ---- Whole runs with an end ----

  /** The chunks in turn without the end, then the last one with it. */
  function FeedEnd(c: Context, s: Stream, chunks: seq<seq<byte>>, last: seq<byte>): Outcome
    requires TypeKnown(s)
  {
    match Feed(c, s, chunks)
    case Failed => Failed
    case Done(t, events) => Prepend(events, Receive(c, t, last, true))
  }

  lemma {:induction false} FeedAppend(c: Context, s: Stream, chunks: seq<seq<byte>>, last: seq<byte>)
    requires TypeKnown(s)
    ensures Feed(c, s, chunks + [last]) ==
            match Feed(c, s, chunks) {
              case Failed => Failed
              case Done(t, events) => Prepend(events, Receive(c, t, last, false))
            }
    decreases |chunks|
  {
    hide Receive;
    if chunks == [] {
      assert [] + [last] == [last] && [last][1..] == [];
      var o := Receive(c, s, last, false);
      if o.Done? { assert o.events + [] == o.events && [] + o.events == o.events; }
    } else {
      assert (chunks + [last])[1..] == chunks[1..] + [last];
      var first, rest := Receive(c, s, chunks[0], false), chunks[1..];
      if first.Done? {
        FeedAppend(c, first.stream, rest, last);
        var o := Feed(c, first.stream, rest);
        if o.Done? { PrependTwice(first.events, o.events, Receive(c, o.stream, last, false)); }
      }
    }
  }

  lemma {:induction false} ConcatAppend(chunks: seq<seq<byte>>, last: seq<byte>)
    ensures Concat(chunks + [last]) == Concat(chunks) + last
  {
    if chunks == [] {
      assert [] + [last] == [last] && [last][1..] == [] && last + [] == last && [] + last == last;
    } else {
      assert (chunks + [last])[1..] == chunks[1..] + [last];
      ConcatAppend(chunks[1..], last);
      assert chunks[0] + (Concat(chunks[1..]) + last) == (chunks[0] + Concat(chunks[1..])) + last;
    }
  }

  lemma PrependTwice(a: seq<Event>, b: seq<Event>, o: Outcome)
    ensures Prepend(a, Prepend(b, o)) == Prepend(a + b, o)
  {
    if o.Done? { assert a + (b + o.events) == (a + b) + o.events; }
  }

  lemma FeedRests(c: Context, s: Stream, chunks: seq<seq<byte>>)
    requires TypeKnown(s) && Resting(s)
    ensures Feed(c, s, chunks).Done? ==> Resting(Feed(c, s, chunks).stream)
  {
    if chunks != [] {
      FeedAgrees(c, s, chunks);
      hide Feed, Iterate, Resting;
    }
  }

  /** The same end after the same atoms. */
  lemma SameAfter(before: seq<Event>, first: seq<Event>, all: seq<Event>, together: Outcome, apart: Outcome)
    requires Atoms(all) == Atoms(before + first)
    ensures SameEnd(Prepend(before, together), Prepend(all, apart)) <==> SameEnd(together, Prepend(first, apart))
  {
    hide Atoms;
    AtomsAppend(before, first);
    if together.Done? { AtomsAppend(before, together.events); }
    if apart.Done? {
      AtomsAppend(all, apart.events);
      AtomsAppend(first, apart.events);
    }
    if together.Done? && apart.Done? {
      var a, x, y := Atoms(before), Atoms(together.events), Atoms(first) + Atoms(apart.events);
      assert a + y == (a + Atoms(first)) + Atoms(apart.events);
      assert (a + x)[|a|..] == x && (a + y)[|a|..] == y;
    }
  }

  /**
   However the bytes of a stream are cut, its end may come with the last chunk or alone after all of them. If some
   cutting fails without the end, so does every other with it; otherwise both ends are reported alike if and only if
   Alike holds of the last chunk that came with the end, on the stream as it stood before that chunk.
   */
  lemma EndAnyhow(c: Context, s: Stream, chunks: seq<seq<byte>>, last: seq<byte>, others: seq<seq<byte>>)
    requires TypeKnown(s) && Resting(s) && others != [] && Concat(chunks) + last == Concat(others)
    ensures Feed(c, s, others).Failed? ==> FeedEnd(c, s, chunks, last).Failed?
    ensures Feed(c, s, others).Done? ==>
              && Feed(c, s, chunks).Done?
              && (SameEnd(FeedEnd(c, s, chunks, last), FeedEnd(c, s, others, []))
                  <==> Alike(Feed(c, s, chunks).stream, last))
  {
    FeedAppend(c, s, chunks, last);
    ConcatAppend(chunks, last);
    CutAnyhow(c, s, chunks + [last], others);
    FeedRests(c, s, chunks);
    hide Feed, Receive, Alike, Resting, SameEnd, Atoms;
    var o := Feed(c, s, chunks);
    if o.Done? {
      EndTogetherOrApart(c, o.stream, last);
      var first := Receive(c, o.stream, last, false);
      if first.Done? {
        var all := Feed(c, s, others);
        SameAfter(o.events, first.events, all.events, Receive(c, o.stream, last, true), Receive(c, all.stream, [], true));
      }
    }
  }

  lemma SmallVar(x: byte, rest: seq<byte>)
    requires x < 64
    ensures DecodeVar([x] + rest) == Some((x as nat, rest))
  {
    var s := [x] + rest;
    assert s[0] == x && s[1..1] == [] && s[1..] == rest;
    assert [x % 64] + s[1..1] == [x] && [x][..0] == [];
    assert FromBigEndian([x]) == x as nat;
  }

  /** The header of the frame and one byte of its payload. */
  lemma TwoByteFrame(b: byte)
    ensures FrameHeader([0x00, 0x02, b]) == Some((DATA, 2, [b])) && PlaceOf(None, [0x00, 0x02, b]) == Within(DATA, true)
  {
    var bytes: seq<byte> := [0x00, 0x02, b];
    SmallVar(0x00, [0x02, b]);
    SmallVar(0x02, [b]);
    assert bytes == [0x00] + [0x02, b] && [0x02, b] == [0x02] + [b];
    hide DecodeVar;
    assert FrameHeader(bytes) == Some((DATA, 2, [b]));
    assert PlaceOf(None, bytes) == PlaceOf(Some((DATA, 2)), [b]);
  }

  /** One byte of a DATA frame of two: with the end it is reported as the end of the stream, before the end it is not. */
  lemma TruncatedData(c: Context, s: Stream, b: byte)
    requires BetweenFrames(s) && s.received == AfterHeaders && s.expectedLength.None?
    ensures Resting(s) && !Alike(s, [0x00, 0x02, b])
    ensures var first, together := Receive(c, s, [0x00, 0x02, b], false), Receive(c, s, [0x00, 0x02, b], true);
            && together.Done? && together.events == [DataReceived([b], true)]
            && first.Done? && first.events == [DataReceived([b], false)]
            && Receive(c, first.stream, [], true).Done?
            && Receive(c, first.stream, [], true).events == [DataReceived([], false)]
  {
    hide FrameHeader, HandleHeaders, HandlePushPromise, PlaceOf;
    var bytes: seq<byte> := [0x00, 0x02, b];
    assert s.buffer + bytes == bytes;
    assert Peek([]).None?;
    hide DecodeVar;
    TwoByteFrame(b);
    assert [b][..1] == [b] && [b][1..] == [];
    var inside := s.(buffer := [b], frameType := Some(DATA), frameSize := Some(2));
    assert Receive(c, s, bytes, false) == Payload(c, inside, false);
    assert Receive(c, s, bytes, true) == Payload(c, inside.(ended := true), true);
  }
}
