/** The events of a request stream form one HTTP message (section 4.1 of RFC 9114). */
module H3Shape {
  import opened Common
  import opened Buffers
  import opened H3Spec

  function HeaderCount(log: seq<Event>): nat {
    if log == [] then 0
    else HeaderCount(log[..|log| - 1]) + if log[|log| - 1].HeadersReceived? then 1 else 0
  }

  /** Total length of the data in the log. */
  function DataLength(log: seq<Event>): nat {
    if log == [] then 0
    else DataLength(log[..|log| - 1]) + if log[|log| - 1].DataReceived? then |log[|log| - 1].data| else 0
  }

  /** Data comes after the first field section and before the second. */
  ghost predicate Ordered(log: seq<Event>) {
    forall i :: 0 <= i < |log| && log[i].DataReceived? && log[i].data != [] ==> HeaderCount(log[..i]) == 1
  }

  predicate Ends(e: Event) { (e.DataReceived? || e.HeadersReceived?) && e.ended }

  function Rank(r: HeadersState): nat {
    match r
    case Initial => 0
    case AfterHeaders => 1
    case AfterTrailers => 2
  }

  /** The stream's own bookkeeping agrees with the events reported so far. */
  ghost predicate Shaped(log: seq<Event>, s: Stream) {
    && Ordered(log)
    && HeaderCount(log) == Rank(s.received)
    && DataLength(log) == s.contentLength
    && (s.frameSize.Some? ==> s.frameType.Some?)
  }

  /** A DATA frame is only open between headers and trailers. */
  predicate DataAllowed(s: Stream) {
    s.frameSize.Some? && s.frameType == Some(DATA) ==> s.received == AfterHeaders
  }

  /** An event that ends the message is the last of its batch, and the declared length is met there. */
  ghost predicate EndsWell(events: seq<Event>, s: Stream) {
    forall i :: 0 <= i < |events| && Ends(events[i]) ==> i == |events| - 1 && LengthMatches(s)
  }

  lemma Appended(log: seq<Event>, e: Event)
    ensures HeaderCount(log + [e]) == HeaderCount(log) + if e.HeadersReceived? then 1 else 0
    ensures DataLength(log + [e]) == DataLength(log) + if e.DataReceived? then |e.data| else 0
    ensures Ordered(log) && (e.DataReceived? && e.data != [] ==> HeaderCount(log) == 1) ==> Ordered(log + [e])
  {
    assert (log + [e])[..|log|] == log;
    forall i | 0 <= i < |log|
      ensures (log + [e])[..i] == log[..i]
    {
    }
  }

  /** Only the message fields differ. */
  predicate SameFrame(a: Stream, b: Stream) {
    a.buffer == b.buffer && a.ended == b.ended && a.frameSize == b.frameSize && a.frameType == b.frameType
    && a.sessionId == b.sessionId
  }

  lemma HandleShape(c: Context, log: seq<Event>, s: Stream, frameType: nat, data: seq<byte>, ended: bool)
    requires Shaped(log, s) && HandleFrame(c, s, frameType, data, ended).Done?
    ensures var o := HandleFrame(c, s, frameType, data, ended);
            Shaped(log + o.events, o.stream) && |o.events| <= 1
            && (frameType == DATA ==> o.stream.received == AfterHeaders)
            && SameFrame(o.stream, s)
            && (o.events != [] && Ends(o.events[0]) ==> ended && LengthMatches(o.stream))
  {
    hide DecodeVar, Ordered, HeaderCount, DataLength;
    var o := HandleFrame(c, s, frameType, data, ended);
    assert log + [] == log;
    if frameType == DATA {
      Appended(log, DataReceived(data, ended));
    } else if o.events != [] {
      Appended(log, o.events[0]);
    }
  }

  lemma {:induction false} LoopShape(c: Context, log: seq<Event>, s: Stream, fin: bool)
    requires Shaped(log, s) && DataAllowed(s) && Loop(c, s, fin).Done?
    ensures var o := Loop(c, s, fin);
            Shaped(log + o.events, o.stream) && DataAllowed(o.stream) && EndsWell(o.events, o.stream)
    decreases Measure(s), 1
  {
    hide HandleFrame, FrameHeader, DecodeVar;
    assert log + [] == log;
    if s.buffer == [] {
    } else if s.frameSize.Some? {
      PayloadShape(c, log, s, fin);
    } else if FrameHeader(s.buffer).Some? {
      var (frameType, size, rest) := FrameHeader(s.buffer).value;
      HeaderShortens(s.buffer);
      if frameType == WEBTRANSPORT_STREAM {
        Appended(log, WebTransportData(rest, size, fin));
      } else {
        PayloadShape(c, log, s.(frameType := Some(frameType), frameSize := Some(size), buffer := rest), fin);
      }
    }
  }

  lemma Regroup(a: seq<Event>, b: seq<Event>, c: seq<Event>)
    ensures a + b + c == a + (b + c)
  {
  }

  lemma EndsWellLater(events: seq<Event>, later: seq<Event>, s: Stream)
    requires EndsWell(later, s) && |events| <= 1 && (events != [] ==> !Ends(events[0]))
    ensures EndsWell(events + later, s)
  {
    hide Ends, LengthMatches;
    if events == [] {
      assert events + later == later;
    } else {
      assert forall i | 0 < i <= |later| :: (events + later)[i] == later[i - 1];
    }
  }

  /** A frame that did not use up the buffer, followed by whatever the rest of the buffer gives. */
  lemma {:induction false} RestShape(c: Context, log: seq<Event>, events: seq<Event>, s: Stream, fin: bool)
    requires Shaped(log + events, s) && DataAllowed(s) && Loop(c, s, fin).Done?
    requires |events| <= 1 && (events != [] ==> !Ends(events[0]))
    ensures var o := Prepend(events, Loop(c, s, fin));
            Shaped(log + o.events, o.stream) && DataAllowed(o.stream) && EndsWell(o.events, o.stream)
    decreases Measure(s), 2
  {
    assert TypeKnown(s);
    hide Loop, Shaped, DataAllowed, EndsWell, Ends;
    LoopShape(c, log + events, s, fin);
    var rest := Loop(c, s, fin);
    EndsWellLater(events, rest.events, rest.stream);
    Regroup(log, events, rest.events);
  }

  lemma {:induction false} PayloadShape(c: Context, log: seq<Event>, s: Stream, fin: bool)
    requires Shaped(log, s) && s.frameSize.Some? && Payload(c, s, fin).Done?
    ensures var o := Payload(c, s, fin);
            Shaped(log + o.events, o.stream) && DataAllowed(o.stream) && EndsWell(o.events, o.stream)
    decreases Measure(s), 0
  {
    hide HandleFrame, Ordered, HeaderCount, DataLength, Loop;
    var size, frameType := s.frameSize.value, s.frameType.value;
    var k := Min(size, |s.buffer|);
    if frameType == DATA || k == size {
      var s1 := TakePayload(s, k);
      var ended := s.ended && s1.buffer == [];
      HandleShape(c, log, s1, frameType, s.buffer[..k], ended);
      var o := HandleFrame(c, s1, frameType, s.buffer[..k], ended);
      if o.stream.buffer != [] {
        RestShape(c, log, o.events, o.stream, fin);
      }
    } else {
      assert log + [] == log;
    }
  }

  lemma ReceiveShape(c: Context, log: seq<Event>, s: Stream, data: seq<byte>, fin: bool)
    requires Shaped(log, s) && DataAllowed(s) && Receive(c, s, data, fin).Done?
    ensures var o := Receive(c, s, data, fin);
            Shaped(log + o.events, o.stream) && DataAllowed(o.stream) && EndsWell(o.events, o.stream)
  {
    hide Loop, Ordered, HeaderCount, DataLength;
    var s1 := s.(buffer := s.buffer + data, ended := s.ended || fin);
    var o := Receive(c, s, data, fin);
    if InWebTransport(s1)
       || (s1.frameType == Some(DATA) && s1.frameSize.Some? && |s1.buffer| < s1.frameSize.value)
       || (fin && s1.buffer == []) {
      Appended(log, o.events[0]);
    } else {
      LoopShape(c, log, s1, fin);
    }
  }

  datatype Input = Input(data: seq<byte>, fin: bool)

  /** A whole run: what is received in turn, until an error. */
  function Play(c: Context, s: Stream, inputs: seq<Input>): (o: Outcome)
    requires TypeKnown(s)
    ensures o.Done? ==> TypeKnown(o.stream)
    decreases |inputs|
  {
    if inputs == [] then Done(s, [])
    else
      match Play(c, s, inputs[..|inputs| - 1])
      case Failed => Failed
      case Done(s1, events) => Prepend(events, Receive(c, s1, inputs[|inputs| - 1].data, inputs[|inputs| - 1].fin))
  }

  /** The events of the last call. */
  function LastBatch(c: Context, inputs: seq<Input>): seq<Event>
    requires inputs != []
  {
    var last, before := inputs[|inputs| - 1], Play(c, NEW_STREAM, inputs[..|inputs| - 1]);
    if before.Failed? || Receive(c, before.stream, last.data, last.fin).Failed? then []
    else Receive(c, before.stream, last.data, last.fin).events
  }

  /**
   Over every run of a fresh stream that has not failed: data lies between the first and the second field
   section, there are at most two of them, the counted length is that of the data reported, and an event that
   ends the message is the last of its call and comes when the data adds up to the declared content-length.
   */
  lemma {:induction false} MessageShape(c: Context, inputs: seq<Input>)
    requires Play(c, NEW_STREAM, inputs).Done?
    ensures var o := Play(c, NEW_STREAM, inputs);
            && Ordered(o.events)
            && HeaderCount(o.events) == Rank(o.stream.received) <= 2
            && DataLength(o.events) == o.stream.contentLength
            && DataAllowed(o.stream)
            && (inputs != [] ==> EndsWell(LastBatch(c, inputs), o.stream))
    decreases |inputs|
  {
    hide Receive, Ordered, HeaderCount, DataLength, EndsWell;
    if inputs == [] {
      assert Ordered([]) && HeaderCount([]) == 0 && DataLength([]) == 0 by { EmptyLog(); }
    } else {
      var last := inputs[|inputs| - 1];
      MessageShape(c, inputs[..|inputs| - 1]);
      var before := Play(c, NEW_STREAM, inputs[..|inputs| - 1]);
      ReceiveShape(c, before.events, before.stream, last.data, last.fin);
    }
  }

  lemma EmptyLog()
    ensures Ordered([]) && HeaderCount([]) == 0 && DataLength([]) == 0
  {
  }
}
