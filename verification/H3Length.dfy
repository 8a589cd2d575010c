/** The declared content-length of a message is the one that its data is checked against (h3/connection.py). */
module H3Lengths {
  import opened Common
  import opened Buffers
  import opened H3Spec
  import opened H3Chunks
  import opened H3Ends
  import opened H3Shape

  /** The payload of the first HEADERS frame that is complete in these bytes, which start inside a frame or between frames. */
  function FirstSection(left: Option<(nat, nat)>, s: seq<byte>): Option<seq<byte>>
    decreases 2 * |s| + if left.Some? then 1 else 0
  {
    match left
    case Some((frameType, size)) =>
      if |s| < size then None
      else if frameType == 0x1 then Some(s[..size])
      else FirstSection(None, s[size..])
    case None =>
      match FrameHeader(s)
      case None => None
      case Some((frameType, size, rest)) =>
        HeaderShortens(s);
        if frameType == 0x41 then None else FirstSection(Some((frameType, size)), rest)
  }

  /** The content-length that the first field section of a stream declares, judging by the bytes received. */
  function DeclaredBy(c: Context, section: Option<seq<byte>>): Option<nat> {
    if section.None? then None
    else
      match c.decode(Section.Message, section.value)
      case Rejected => None
      case Accepted(_, length) => length
  }

  function Declared(c: Context, bytes: seq<byte>): Option<nat> { DeclaredBy(c, FirstSection(None, bytes)) }

  function Missing(s: Stream): Option<(nat, nat)>
    requires TypeKnown(s)
  {
    if s.frameSize.Some? then Some((s.frameType.value, s.frameSize.value)) else None
  }

  /** A stream that has seen no field section has no length. */
  predicate Undeclared(s: Stream) { s.received == Initial ==> s.expectedLength.None? }

  // ---- Over the smallest steps ----

  /** What is left to declare: the first section still to come, or what was declared already. */
  function ToDeclare(c: Context, s: Stream): Option<nat>
    requires TypeKnown(s)
  {
    if s.received != Initial || InWebTransport(s) then s.expectedLength else DeclaredBy(c, FirstSection(Missing(s), s.buffer))
  }

  lemma StepDeclares(c: Context, s: Stream)
    requires TypeKnown(s) && Undeclared(s) && MicroStep(c, s).Go?
    ensures var next := MicroStep(c, s).next; Undeclared(next) && ToDeclare(c, next) == ToDeclare(c, s)
  {
    hide FrameHeader, DecodeVar;
    if !InWebTransport(s) && s.frameSize.Some? && s.frameType != Some(DATA) {
      WholeDeclares(c, s);
    }
  }

  /** A frame that is complete in the buffer. */
  lemma WholeDeclares(c: Context, s: Stream)
    requires TypeKnown(s) && Undeclared(s) && MicroStep(c, s).Go?
    requires !InWebTransport(s) && s.frameSize.Some? && s.frameType != Some(DATA)
    ensures var next := MicroStep(c, s).next; Undeclared(next) && ToDeclare(c, next) == ToDeclare(c, s)
  {
    hide FrameHeader, DecodeVar, MicroData;
  }

  lemma StuckDeclares(c: Context, s: Stream)
    requires TypeKnown(s) && Undeclared(s) && MicroStep(c, s).Stuck?
    ensures ToDeclare(c, s) == s.expectedLength
  {
    hide FrameHeader, DecodeVar;
  }

  lemma {:induction false} IterateDeclares(c: Context, s: Stream)
    requires TypeKnown(s) && Undeclared(s) && Iterate(c, s).Reached?
    ensures Iterate(c, s).stream.expectedLength == ToDeclare(c, s)
    decreases Measure(s)
  {
    hide MicroStep, ToDeclare;
    match MicroStep(c, s)
    case Stuck => StuckDeclares(c, s);
    case Wrong =>
    case Go(next, _) =>
      StepDeclares(c, s);
      IterateDeclares(c, next);
  }

  // ---- With the end of the stream ----

  /** The end changes what is reported, not what is kept. */
  lemma HandleUnended(c: Context, s: Stream, frameType: nat, data: seq<byte>, ended: bool)
    requires HandleFrame(c, s, frameType, data, ended).Done?
    ensures var u := HandleFrame(c, s.(ended := false), frameType, data, false);
            u.Done? && HandleFrame(c, s, frameType, data, ended).stream == u.stream.(ended := s.ended)
  {
    hide DecodeVar;
  }

  lemma {:induction false} LoopUnended(c: Context, s: Stream, fin: bool)
    requires TypeKnown(s) && Loop(c, s, fin).Done?
    ensures var u := Loop(c, s.(ended := false), false); u.Done? && Loop(c, s, fin).stream == u.stream.(ended := s.ended)
    decreases Measure(s), 1
  {
    hide FrameHeader, DecodeVar, Payload;
    if s.buffer != [] {
      if s.frameSize.Some? {
        PayloadUnended(c, s, fin);
      } else if FrameHeader(s.buffer).Some? {
        var (frameType, size, rest) := FrameHeader(s.buffer).value;
        HeaderShortens(s.buffer);
        if frameType != WEBTRANSPORT_STREAM {
          PayloadUnended(c, s.(frameType := Some(frameType), frameSize := Some(size), buffer := rest), fin);
        }
      }
    }
  }

  lemma {:induction false} PayloadUnended(c: Context, s: Stream, fin: bool)
    requires TypeKnown(s) && s.frameSize.Some? && Payload(c, s, fin).Done?
    ensures var u := Payload(c, s.(ended := false), false); u.Done? && Payload(c, s, fin).stream == u.stream.(ended := s.ended)
    decreases Measure(s), 0
  {
    hide HandleFrame, Loop;
    var size, frameType := s.frameSize.value, s.frameType.value;
    var k := Min(size, |s.buffer|);
    if frameType == DATA || k == size {
      var s1, data := TakePayload(s, k), s.buffer[..k];
      var ended := s.ended && s1.buffer == [];
      HandleUnended(c, s1, frameType, data, ended);
      HandleKeepsFrame(c, s1, frameType, data, ended);
      HandleKeepsFrame(c, s1.(ended := false), frameType, data, false);
      var o := HandleFrame(c, s1, frameType, data, ended);
      if s1.buffer != [] { LoopUnended(c, o.stream, fin); }
    }
  }

  lemma ReceiveUnended(c: Context, s: Stream, data: seq<byte>, fin: bool)
    requires TypeKnown(s) && Receive(c, s, data, fin).Done?
    ensures var u := Receive(c, s.(ended := false), data, false);
            u.Done? && Receive(c, s, data, fin).stream == u.stream.(ended := s.ended || fin)
  {
    hide FrameHeader, DecodeVar, HandleFrame;
    var at := s.(buffer := s.buffer + data, ended := s.ended || fin);
    if !InWebTransport(at) && !(at.frameType == Some(DATA) && at.frameSize.Some? && |at.buffer| < at.frameSize.value)
       && !(fin && at.buffer == []) {
      hide Loop;
      LoopUnended(c, at, fin);
    }
  }

  // ---- Over whole runs ----

  function DataOf(inputs: seq<Input>): seq<seq<byte>> {
    if inputs == [] then [] else DataOf(inputs[..|inputs| - 1]) + [inputs[|inputs| - 1].data]
  }

  /** Everything received in a run. */
  function AllBytes(inputs: seq<Input>): seq<byte> { Concat(DataOf(inputs)) }

  /** A run with ends in it leaves the stream as the run without them does, but for the flag. */
  lemma {:induction false} PlayUnended(c: Context, inputs: seq<Input>)
    requires Play(c, NEW_STREAM, inputs).Done?
    ensures var o, u := Play(c, NEW_STREAM, inputs), Feed(c, NEW_STREAM, DataOf(inputs));
            u.Done? && !u.stream.ended && o.stream == u.stream.(ended := o.stream.ended)
    decreases |inputs|
  {
    hide Receive;
    if inputs != [] {
      var before, last := inputs[..|inputs| - 1], inputs[|inputs| - 1];
      PlayUnended(c, before);
      var s := Play(c, NEW_STREAM, before).stream;
      ReceiveUnended(c, s, last.data, last.fin);
      FeedAppend(c, NEW_STREAM, DataOf(before), last.data);
      NotEnded(c, s.(ended := false), last.data);
    }
  }

  lemma NotEnded(c: Context, s: Stream, data: seq<byte>)
    requires TypeKnown(s) && !s.ended && Receive(c, s, data, false).Done?
    ensures !Receive(c, s, data, false).stream.ended
  {
    hide FrameHeader, DecodeVar, HandleFrame;
    var at := s.(buffer := s.buffer + data);
    if !InWebTransport(at) && !(at.frameType == Some(DATA) && at.frameSize.Some? && |at.buffer| < at.frameSize.value) {
      hide Loop;
      StillNotEnded(c, at);
    }
  }

  lemma {:induction false} StillNotEnded(c: Context, s: Stream)
    requires TypeKnown(s) && !s.ended && Loop(c, s, false).Done?
    ensures !Loop(c, s, false).stream.ended
    decreases Measure(s)
  {
    hide FrameHeader, DecodeVar, HandleFrame;
    if s.buffer != [] && (s.frameSize.Some? || FrameHeader(s.buffer).Some?) {
      if s.frameSize.None? { HeaderShortens(s.buffer); }
      var header := FrameHeader(s.buffer);
      var at := if s.frameSize.Some? then s
                else s.(frameType := Some(header.value.0), frameSize := Some(header.value.1), buffer := header.value.2);
      if s.frameSize.Some? || header.value.0 != WEBTRANSPORT_STREAM {
        var k := Min(at.frameSize.value, |at.buffer|);
        if at.frameType == Some(DATA) || k == at.frameSize.value {
          var s1, data := TakePayload(at, k), at.buffer[..k];
          HandleKeepsFrame(c, s1, at.frameType.value, data, false);
          var o := HandleFrame(c, s1, at.frameType.value, data, false);
          if o.Done? && s1.buffer != [] { StillNotEnded(c, o.stream); }
        }
      }
    }
  }

  /**
   Over every run of a fresh stream that has not failed, with ends anywhere: the length kept is the one that the first
   field section in the bytes received declares when it is decoded as that of a message, and nothing later changes it.
   */
  lemma DeclaredIsKept(c: Context, inputs: seq<Input>)
    requires Play(c, NEW_STREAM, inputs).Done?
    ensures Play(c, NEW_STREAM, inputs).stream.expectedLength == Declared(c, AllBytes(inputs))
  {
    hide Receive, Feed, Iterate, Play;
    PlayUnended(c, inputs);
    if inputs == [] {
      assert FrameHeader([]).None?;
      assert Play(c, NEW_STREAM, []) == Done(NEW_STREAM, []) by { PlayNothing(c); }
    } else {
      assert DecodeVar([]).None?;
      FeedAgrees(c, NEW_STREAM, DataOf(inputs));
      var start := Extend(Normal(NEW_STREAM), AllBytes(inputs));
      assert start.buffer == AllBytes(inputs);
      IterateDeclares(c, start);
    }
  }

  lemma PlayNothing(c: Context)
    ensures Play(c, NEW_STREAM, []) == Done(NEW_STREAM, [])
  {
  }

  /**
   So an event that ends the message is only reported when the data reported adds up to the length that the first
   field section declares, and it is the last event of its call.
   */
  lemma MessageMeetsLength(c: Context, inputs: seq<Input>)
    requires inputs != [] && Play(c, NEW_STREAM, inputs).Done?
    ensures var declared := Declared(c, AllBytes(inputs));
            forall i :: 0 <= i < |LastBatch(c, inputs)| && Ends(LastBatch(c, inputs)[i]) ==>
              i == |LastBatch(c, inputs)| - 1
              && (declared.Some? ==> DataLength(Play(c, NEW_STREAM, inputs).events) == declared.value)
  {
    hide Receive, Play, Declared, AllBytes, LastBatch, DataLength;
    DeclaredIsKept(c, inputs);
    MessageShape(c, inputs);
  }

  /** The call with these bytes and the end checks the length: it reports the end, and not for a tunnel. */
  predicate Checks(s: Stream, data: seq<byte>)
    requires TypeKnown(s)
  {
    var bytes := s.buffer + data;
    if InWebTransport(s) || InsideData(s, bytes) then false
    else if bytes == [] then true
    else
      match PlaceOf(FrameOf(s), bytes)
      case Closed(frameType) => frameType in {0x0, 0x1}
      case Within(frameType, _) => frameType == 0x0
      case _ => false
  }

  lemma ChecksExactly(c: Context, s: Stream, data: seq<byte>)
    requires TypeKnown(s) && !s.ended && (s.sessionId.Some? ==> InWebTransport(s)) && Receive(c, s, data, false).Done?
    ensures Receive(c, s, data, true).Failed? <==> Checks(s, data) && !LengthMatches(Receive(c, s, data, false).stream)
  {
    var bytes := s.buffer + data;
    if !InWebTransport(s) && bytes != [] && !InsideData(s, bytes) {
      var at := s.(buffer := bytes);
      LoopEnds(c, at);
      assert Receive(c, s, data, false) == Loop(c, at, false) && Receive(c, s, data, true) == Loop(c, at.(ended := true), true);
      hide Loop, Receive, FrameHeader, Atoms;
    } else {
      hide FrameHeader, HandleFrame, DecodeVar;
    }
  }

  /**
   A message with another length than its first field section declares is refused exactly when its end comes with
   bytes that make the call check it: if the run goes through without the end, the same run with the end at its last
   bytes fails if and only if these are such bytes and the data does not add up to the length declared.
   */
  lemma WrongLengthRefused(c: Context, inputs: seq<Input>, data: seq<byte>)
    requires forall x | x in inputs :: !x.fin
    requires Play(c, NEW_STREAM, inputs + [Input(data, false)]).Done?
    ensures Play(c, NEW_STREAM, inputs).Done?
    ensures var declared := Declared(c, AllBytes(inputs + [Input(data, false)]));
            Play(c, NEW_STREAM, inputs + [Input(data, true)]).Failed? <==>
              && Checks(Play(c, NEW_STREAM, inputs).stream, data)
              && declared.Some? && declared.value != DataLength(Play(c, NEW_STREAM, inputs + [Input(data, false)]).events)
  {
    var plain, ended := inputs + [Input(data, false)], inputs + [Input(data, true)];
    assert plain[..|plain| - 1] == inputs == ended[..|ended| - 1];
    DeclaredIsKept(c, plain);
    MessageShape(c, plain);
    hide Receive, Declared, AllBytes, DataLength, Checks, LastBatch, HeaderCount;
    var s := Play(c, NEW_STREAM, inputs).stream;
    PlayedRests(c, inputs);
    ChecksExactly(c, s, data);
  }

  lemma PlayedRests(c: Context, inputs: seq<Input>)
    requires (forall x | x in inputs :: !x.fin) && Play(c, NEW_STREAM, inputs).Done?
    ensures var s := Play(c, NEW_STREAM, inputs).stream; !s.ended && (s.sessionId.Some? ==> InWebTransport(s))
  {
    hide Receive, Feed, Play, Iterate;
    NeverEnded(c, inputs);
    PlayUnended(c, inputs);
    if inputs == [] {
      PlayNothing(c);
    } else {
      assert DecodeVar([]).None?;
      FeedAgrees(c, NEW_STREAM, DataOf(inputs));
    }
  }

  lemma {:induction false} NeverEnded(c: Context, inputs: seq<Input>)
    requires (forall x | x in inputs :: !x.fin) && Play(c, NEW_STREAM, inputs).Done?
    ensures !Play(c, NEW_STREAM, inputs).stream.ended
    decreases |inputs|
  {
    hide Receive;
    if inputs != [] {
      NeverEnded(c, inputs[..|inputs| - 1]);
      NotEnded(c, Play(c, NEW_STREAM, inputs[..|inputs| - 1]).stream, inputs[|inputs| - 1].data);
    }
  }

  /** A message that declares ten bytes and ends without any is refused. */
  lemma ShortMessageRefused(c: Context, f: Frame, fields: Fields)
    requires Encodable(f) && f.frameType == HEADERS && c.decode(Section.Message, f.payload) == Accepted(fields, Some(10))
    ensures Receive(c, NEW_STREAM, FrameBytes(f), true).Failed?
    ensures Receive(c, NEW_STREAM, FrameBytes(f), false).Done?
  {
    hide FrameBytes, Receive;
    WholeFrame(c, NEW_STREAM, f, true);
    WholeFrame(c, NEW_STREAM, f, false);
  }
}
