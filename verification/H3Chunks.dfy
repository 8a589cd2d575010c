/** The HTTP/3 parser gives the same result however the bytes are cut into chunks. */
module H3Chunks {
  import opened Common
  import opened Buffers
  import opened H3Spec

  // ---- Events, independent of how DATA was cut ----

  datatype Atom =
    | Byte(b: byte)
    | Section(fields: Fields)
    | Promised(promise: nat, fields: Fields)
    | Tunnelled(session: nat, b: byte)
    | End

  function Bytes(data: seq<byte>): seq<Atom> {
    seq(|data|, i requires 0 <= i < |data| => Byte(data[i]))
  }

  function TunnelBytes(session: nat, data: seq<byte>): seq<Atom> {
    seq(|data|, i requires 0 <= i < |data| => Tunnelled(session, data[i]))
  }

  function Ending(ended: bool): seq<Atom> { if ended then [End] else [] }

  function AtomsOf(e: Event): seq<Atom> {
    match e
    case DataReceived(data, ended) => Bytes(data) + Ending(ended)
    case HeadersReceived(fields, ended) => [Section(fields)] + Ending(ended)
    case PushPromiseReceived(promise, fields) => [Promised(promise, fields)]
    case WebTransportData(data, session, ended) => TunnelBytes(session, data) + Ending(ended)
  }

  function Atoms(events: seq<Event>): seq<Atom> {
    if events == [] then [] else AtomsOf(events[0]) + Atoms(events[1..])
  }

  lemma {:induction false} AtomsAppend(a: seq<Event>, b: seq<Event>)
    ensures Atoms(a + b) == Atoms(a) + Atoms(b)
  {
    if a == [] {
      assert a + b == b;
    } else {
      assert (a + b)[1..] == a[1..] + b;
      AtomsAppend(a[1..], b);
    }
  }

  lemma OneEvent(e: Event)
    ensures Atoms([e]) == AtomsOf(e) && Atoms([]) == []
  {
    assert [e][1..] == [];
  }

  // ---- A parser that takes the smallest possible steps ----

  datatype Micro = Stuck | Wrong | Go(next: Stream, atoms: seq<Atom>)

  datatype Trace = Broken | Reached(stream: Stream, atoms: seq<Atom>)

  function Complete(s: Stream): Stream { s.(frameSize := None, frameType := None) }

  function MicroStep(c: Context, s: Stream): (m: Micro)
    requires TypeKnown(s)
    ensures m.Go? ==> TypeKnown(m.next) && Measure(m.next) < Measure(s)
  {
    if InWebTransport(s) then
      if s.buffer == [] then Stuck else Go(s.(buffer := s.buffer[1..]), [Tunnelled(s.sessionId.value, s.buffer[0])])
    else if s.frameSize.None? then
      match FrameHeader(s.buffer)
      case None => Stuck
      case Some((frameType, size, rest)) =>
        HeaderShortens(s.buffer);
        if frameType == WEBTRANSPORT_STREAM then
          Go(s.(frameType := Some(frameType), sessionId := Some(size), buffer := rest), [])
        else if frameType == DATA && s.received != AfterHeaders then Wrong
        else Go(s.(frameType := Some(frameType), frameSize := Some(size), buffer := rest), [])
    else if s.frameType == Some(DATA) then MicroData(s)
    else if |s.buffer| < s.frameSize.value then Stuck
    else
      match HandleFrame(c, TakePayload(s, s.frameSize.value), s.frameType.value, s.buffer[..s.frameSize.value], false)
      case Failed => Wrong
      case Done(s1, events) => Go(s1, Atoms(events))
  }

  /** One byte of a DATA payload. */
  function MicroData(s: Stream): (m: Micro)
    requires TypeKnown(s) && s.frameSize.Some?
    ensures m.Go? ==> TypeKnown(m.next) && Measure(m.next) < Measure(s)
  {
    if s.frameSize.value == 0 then Go(Complete(s), [])
    else if s.buffer == [] then Stuck
    else Go(AfterData(s, 1), [Byte(s.buffer[0])])
  }

  function Prefixed(atoms: seq<Atom>, t: Trace): Trace {
    if t.Broken? then Broken else Reached(t.stream, atoms + t.atoms)
  }

  function Iterate(c: Context, s: Stream): (t: Trace)
    requires TypeKnown(s)
    ensures t.Reached? ==> TypeKnown(t.stream)
    decreases Measure(s)
  {
    match MicroStep(c, s)
    case Stuck => Reached(s, [])
    case Wrong => Broken
    case Go(next, atoms) => Prefixed(atoms, Iterate(c, next))
  }

  // ---- More bytes do not change what the earlier ones meant ----

  function Extend(s: Stream, more: seq<byte>): Stream { s.(buffer := s.buffer + more) }

  lemma DecodeExtends(s: seq<byte>, more: seq<byte>)
    requires DecodeVar(s).Some?
    ensures DecodeVar(s + more) == Some((DecodeVar(s).value.0, DecodeVar(s).value.1 + more))
  {
    var n := VarLength(s[0]);
    assert (s + more)[1..n] == s[1..n] && (s + more)[n..] == s[n..] + more;
  }

  lemma HeaderExtends(s: seq<byte>, more: seq<byte>)
    requires FrameHeader(s).Some?
    ensures var (frameType, size, rest) := FrameHeader(s).value;
            FrameHeader(s + more) == Some((frameType, size, rest + more))
  {
    hide DecodeVar;
    DecodeExtends(s, more);
    DecodeExtends(DecodeVar(s).value.1, more);
  }

  /** Handling a frame neither reads nor changes the buffer. */
  lemma HandleIgnoresBuffer(c: Context, s: Stream, frameType: nat, data: seq<byte>, ended: bool, buffer: seq<byte>)
    ensures HandleFrame(c, s.(buffer := buffer), frameType, data, ended) ==
            match HandleFrame(c, s, frameType, data, ended) {
              case Failed => Failed
              case Done(t, events) => Done(t.(buffer := buffer), events)
            }
  {
  }

  lemma HandleKeepsFrame(c: Context, s: Stream, frameType: nat, data: seq<byte>, ended: bool)
    ensures match HandleFrame(c, s, frameType, data, ended) {
              case Failed => true
              case Done(t, _) => t.buffer == s.buffer && t.ended == s.ended && t.frameSize == s.frameSize
                                 && t.frameType == s.frameType && t.sessionId == s.sessionId
            }
  {
  }

  lemma MicroExtends(c: Context, s: Stream, more: seq<byte>)
    requires TypeKnown(s)
    ensures MicroStep(c, s).Wrong? ==> MicroStep(c, Extend(s, more)).Wrong?
    ensures MicroStep(c, s).Go? ==>
              MicroStep(c, Extend(s, more)) == Go(Extend(MicroStep(c, s).next, more), MicroStep(c, s).atoms)
  {
    hide FrameHeader, HandleFrame;
    if InWebTransport(s) {
      if s.buffer != [] { assert (s.buffer + more)[1..] == s.buffer[1..] + more; }
    } else if s.frameSize.None? {
      if FrameHeader(s.buffer).Some? { HeaderExtends(s.buffer, more); }
    } else if s.frameType == Some(DATA) {
      if s.buffer != [] { assert (s.buffer + more)[1..] == s.buffer[1..] + more; }
    } else {
      var n := s.frameSize.value;
      if n <= |s.buffer| {
        assert (s.buffer + more)[n..] == s.buffer[n..] + more && (s.buffer + more)[..n] == s.buffer[..n];
        HandleIgnoresBuffer(c, TakePayload(s, n), s.frameType.value, s.buffer[..n], false, s.buffer[n..] + more);
        HandleKeepsFrame(c, TakePayload(s, n), s.frameType.value, s.buffer[..n], false);
      }
    }
  }

  function Continue(c: Context, t: Trace, more: seq<byte>): Trace
    requires t.Reached? ==> TypeKnown(t.stream)
  {
    if t.Broken? then Broken else Prefixed(t.atoms, Iterate(c, Extend(t.stream, more)))
  }

  lemma {:induction false} IterateExtends(c: Context, s: Stream, more: seq<byte>)
    requires TypeKnown(s)
    ensures Iterate(c, Extend(s, more)) == Continue(c, Iterate(c, s), more)
    decreases Measure(s)
  {
    hide MicroStep;
    MicroExtends(c, s, more);
    match MicroStep(c, s)
    case Stuck =>
      assert Prefixed([], Iterate(c, Extend(s, more))) == Iterate(c, Extend(s, more)) by {
        var t := Iterate(c, Extend(s, more));
        if t.Reached? { assert [] + t.atoms == t.atoms; }
      }
    case Wrong =>
    case Go(next, atoms) =>
      IterateExtends(c, next, more);
      PrefixedTwice(atoms, Iterate(c, next), c, more);
  }

  lemma PrefixedTwice(atoms: seq<Atom>, t: Trace, c: Context, more: seq<byte>)
    requires t.Reached? ==> TypeKnown(t.stream)
    ensures Prefixed(atoms, Continue(c, t, more)) == Continue(c, Prefixed(atoms, t), more)
  {
    hide Iterate;
    if t.Reached? {
      var rest := Iterate(c, Extend(t.stream, more));
      if rest.Reached? { assert atoms + (t.atoms + rest.atoms) == (atoms + t.atoms) + rest.atoms; }
    }
  }

  // ---- The real loop takes the same steps, several at a time ----

  /** Forgets a frame type that will be read again with its size. */
  function Normal(s: Stream): Stream {
    if s.frameSize.None? && s.sessionId.None? then s.(frameType := None) else s
  }

  /** How a stream stands between two calls, before its end. */
  predicate Resting(s: Stream) {
    && !s.ended
    && (s.sessionId.Some? ==> InWebTransport(s) && s.frameSize.None?)
    && (s.frameSize.Some? ==> s.frameSize.value > 0 && InFrame(s))
    && (s.frameSize.None? && s.sessionId.None? ==> s.frameType == Peek(s.buffer))
  }

  /** Inside a frame; DATA frames are only open between headers and trailers. */
  predicate InFrame(s: Stream) {
    s.frameSize.Some? && s.frameType.Some? && (s.frameType == Some(DATA) ==> s.received == AfterHeaders)
  }

  /** The frame type at the front of the buffer, once there are enough bytes to read it. */
  function Peek(s: seq<byte>): Option<nat> {
    match DecodeVar(s)
    case None => None
    case Some((frameType, _)) => Some(frameType)
  }

  /** Between frames the type field holds at most the type at the front of the buffer. */
  predicate TypePeeked(s: Stream) { s.frameType.Some? ==> s.frameType == Peek(s.buffer) }

  ghost predicate Agree(o: Outcome, t: Trace) {
    if o.Failed? then t.Broken? else t == Reached(Normal(o.stream), Atoms(o.events)) && Resting(o.stream)
  }

  lemma {:induction false} DataBytes(c: Context, s: Stream, k: nat)
    requires InFrame(s) && s.frameType == Some(DATA) && s.sessionId.None? && k <= |s.buffer| && k <= s.frameSize.value
    requires s.frameSize.value > 0
    ensures Iterate(c, s) == Prefixed(Bytes(s.buffer[..k]), Iterate(c, AfterData(s, k)))
    decreases k
  {
    hide Iterate;
    if k == 0 {
      assert s.buffer[0..] == s.buffer;
      NoPrefix(Iterate(c, s));
    } else {
      var next, first := AfterData(s, 1), [Byte(s.buffer[0])];
      OneByte(c, s);
      if k == 1 {
        assert Bytes(s.buffer[..1]) == first;
      } else {
        DataBytes(c, next, k - 1);
        assert next.buffer[k - 1..] == s.buffer[k..];
        assert AfterData(next, k - 1) == AfterData(s, k);
        hide AfterData;
        TwoPrefixes(first, Bytes(next.buffer[..k - 1]), Iterate(c, AfterData(s, k)));
        assert Bytes(s.buffer[..k]) == first + Bytes(next.buffer[..k - 1]);
      }
    }
  }

  lemma OneByte(c: Context, s: Stream)
    requires InFrame(s) && s.frameType == Some(DATA) && s.sessionId.None? && s.frameSize.value > 0 && s.buffer != []
    ensures Iterate(c, s) == Prefixed([Byte(s.buffer[0])], Iterate(c, AfterData(s, 1)))
  {
    hide AfterData, FrameHeader, HandleFrame;
  }

  /** The stream after k bytes of DATA payload. */
  function AfterData(s: Stream, k: nat): (r: Stream)
    requires s.frameSize.Some? && k <= |s.buffer| && k <= s.frameSize.value
    ensures TypeKnown(s) ==> TypeKnown(r)
  {
    TakePayload(s, k).(contentLength := s.contentLength + k)
  }

  lemma NoPrefix(t: Trace)
    ensures Prefixed([], t) == t && Prefixed(Bytes([]), t) == t
  {
    if t.Reached? { assert [] + t.atoms == t.atoms; }
    assert Bytes([]) == [];
  }

  lemma TwoPrefixes(a: seq<Atom>, b: seq<Atom>, t: Trace)
    ensures Prefixed(a, Prefixed(b, t)) == Prefixed(a + b, t)
  {
    if t.Reached? { assert a + (b + t.atoms) == (a + b) + t.atoms; }
  }

  lemma {:induction false} TunnelAgrees(c: Context, s: Stream)
    requires InWebTransport(s)
    ensures Iterate(c, s) == Reached(s.(buffer := []), TunnelBytes(s.sessionId.value, s.buffer))
    decreases |s.buffer|
  {
    if s.buffer == [] {
      assert TunnelBytes(s.sessionId.value, []) == [];
    } else {
      TunnelAgrees(c, s.(buffer := s.buffer[1..]));
      assert TunnelBytes(s.sessionId.value, s.buffer) ==
             [Tunnelled(s.sessionId.value, s.buffer[0])] + TunnelBytes(s.sessionId.value, s.buffer[1..]);
    }
  }

  lemma {:induction false} LoopAgrees(c: Context, s: Stream)
    requires TypeKnown(s) && !s.ended && s.sessionId.None?
    requires if s.frameSize.Some? then s.frameSize.value > 0 && InFrame(s) else TypePeeked(s)
    ensures Agree(Loop(c, s, false), Iterate(c, Normal(s)))
    decreases Measure(s), 2
  {
    assert DecodeVar([]).None? && FrameHeader([]).None?;
    hide HandleFrame, DecodeVar, Payload;
    if s.buffer == [] {
    } else if s.frameSize.Some? {
      PayloadAgrees(c, s);
    } else if FrameHeader(s.buffer).Some? {
      HeaderAgrees(c, s);
    }
  }

  lemma {:induction false} HeaderAgrees(c: Context, s: Stream)
    requires TypeKnown(s) && !s.ended && s.sessionId.None? && s.frameSize.None?
    requires FrameHeader(s.buffer).Some?
    ensures Agree(Loop(c, s, false), Iterate(c, Normal(s)))
    decreases Measure(s), 0
  {
    hide HandleHeaders, HandlePushPromise, DecodeVar, FrameHeader;
    var (frameType, size, rest) := FrameHeader(s.buffer).value;
    HeaderShortens(s.buffer);
    if frameType == WEBTRANSPORT_STREAM {
      var w := s.(frameType := Some(frameType), sessionId := Some(size), buffer := rest);
      TunnelAgrees(c, w);
      NoPrefix(Iterate(c, w));
      OneEvent(WebTransportData(rest, size, false));
      assert TunnelBytes(size, rest) + [] == TunnelBytes(size, rest);
    } else {
      var s1 := s.(frameType := Some(frameType), frameSize := Some(size), buffer := rest);
      if frameType == DATA && s.received != AfterHeaders {
      } else {
        PayloadAgrees(c, s1);
        NoPrefix(Iterate(c, s1));
      }
    }
  }

  /** What follows a finished frame. */
  function Rest(c: Context, s: Stream, events: seq<Event>): Outcome
    requires TypeKnown(s)
  {
    if s.buffer == [] then Done(s, events) else Prepend(events, Loop(c, s, false))
  }

  lemma {:induction false} RestAgrees(c: Context, s: Stream, events: seq<Event>)
    requires !s.ended && s.sessionId.None? && s.frameSize.None? && s.frameType.None?
    ensures Agree(Rest(c, s, events), Prefixed(Atoms(events), Iterate(c, s)))
    decreases Measure(s), 3
  {
    hide HandleFrame, DecodeVar;
    LoopAgrees(c, s);
    if s.buffer == [] {
      OneEvent(DataReceived([], false));
      assert Atoms(events) + [] == Atoms(events);
    } else if Loop(c, s, false).Done? {
      AtomsAppend(events, Loop(c, s, false).events);
    }
  }

  lemma {:induction false} PayloadAgrees(c: Context, s: Stream)
    requires TypeKnown(s) && !s.ended && s.sessionId.None? && InFrame(s)
    ensures Agree(Payload(c, s, false), Iterate(c, s))
    decreases Measure(s), 1
  {
    hide DecodeVar;
    if s.frameType == Some(DATA) {
      DataAgrees(c, s);
    } else if s.frameSize.value <= |s.buffer| {
      var s1 := TakePayload(s, s.frameSize.value);
      var o := HandleFrame(c, s1, s.frameType.value, s.buffer[..s.frameSize.value], false);
      HandleKeepsFrame(c, s1, s.frameType.value, s.buffer[..s.frameSize.value], false);
      hide HandleFrame;
      if o.Done? {
        RestAgrees(c, o.stream, o.events);
      }
    }
  }

  lemma {:induction false} DataAgrees(c: Context, s: Stream)
    requires TypeKnown(s) && !s.ended && s.sessionId.None? && InFrame(s) && s.frameType == Some(DATA)
    ensures Agree(Payload(c, s, false), Iterate(c, s))
    decreases Measure(s), 0
  {
    hide DecodeVar, HandleHeaders, HandlePushPromise, Iterate;
    var size := s.frameSize.value;
    var k := Min(size, |s.buffer|);
    var data := s.buffer[..k];
    var s2 := AfterData(s, k);
    var events := if data != [] then [DataReceived(data, false)] else [];
    OneEvent(DataReceived(data, false));
    assert Bytes(data) + [] == Bytes(data);
    assert Atoms(events) == Bytes(data);
    if size > 0 { DataBytes(c, s, k); } else { NoData(c, s); }
    if k == size {
      RestAgrees(c, s2, events);
      hide Loop;
      assert Payload(c, s, false) == Rest(c, s2, events);
    } else {
      Starved(c, s2);
      assert Atoms(events) + [] == Atoms(events);
    }
  }

  lemma NoData(c: Context, s: Stream)
    requires InFrame(s) && s.frameType == Some(DATA) && s.sessionId.None? && s.frameSize.value == 0
    ensures Iterate(c, s) == Prefixed(Bytes(s.buffer[..0]), Iterate(c, AfterData(s, 0)))
  {
    assert s.buffer[0..] == s.buffer && s.buffer[..0] == [];
    NoPrefix(Iterate(c, Complete(s)));
  }

  lemma Starved(c: Context, s: Stream)
    requires InFrame(s) && s.frameType == Some(DATA) && s.sessionId.None? && s.frameSize.value > 0 && s.buffer == []
    ensures Iterate(c, s) == Reached(s, [])
  {
  }

  lemma ReceiveAgrees(c: Context, s: Stream, data: seq<byte>)
    requires TypeKnown(s) && Resting(s)
    ensures Agree(Receive(c, s, data, false), Iterate(c, Extend(Normal(s), data)))
  {
    var s1 := Extend(s, data);
    assert s1 == s.(buffer := s.buffer + data, ended := s.ended || false);
    if InWebTransport(s1) {
      TunnelAgrees(c, s1);
      OneEvent(WebTransportData(s1.buffer, s1.sessionId.value, false));
      assert TunnelBytes(s1.sessionId.value, s1.buffer) + [] == TunnelBytes(s1.sessionId.value, s1.buffer);
    } else if s1.frameType == Some(DATA) && s1.frameSize.Some? && |s1.buffer| < s1.frameSize.value {
      ShortcutAgrees(c, s1);
    } else {
      if s1.frameSize.None? && DecodeVar(s.buffer).Some? { DecodeExtends(s.buffer, data); }
      LoopAgrees(c, s1);
    }
  }

  lemma ShortcutAgrees(c: Context, s: Stream)
    requires TypeKnown(s) && Resting(s) && s.frameType == Some(DATA) && s.frameSize.Some? && |s.buffer| < s.frameSize.value
    ensures Iterate(c, s) == Reached(AfterData(s, |s.buffer|), Atoms([DataReceived(s.buffer, false)]))
  {
    var n := |s.buffer|;
    DataBytes(c, s, n);
    OneEvent(DataReceived(s.buffer, false));
    assert s.buffer[..n] == s.buffer;
    assert Iterate(c, AfterData(s, n)) == Reached(AfterData(s, n), []);
    assert Bytes(s.buffer) + [] == Bytes(s.buffer);
  }

  // ---- Whole runs ----

  function Concat(chunks: seq<seq<byte>>): seq<byte> {
    if chunks == [] then [] else chunks[0] + Concat(chunks[1..])
  }

  /** Receives the chunks in turn; fails as soon as one of them does. */
  function Feed(c: Context, s: Stream, chunks: seq<seq<byte>>): (o: Outcome)
    requires TypeKnown(s)
    ensures o.Done? ==> TypeKnown(o.stream)
    decreases |chunks|
  {
    if chunks == [] then Done(s, [])
    else
      match Receive(c, s, chunks[0], false)
      case Failed => Failed
      case Done(s1, events) => Prepend(events, Feed(c, s1, chunks[1..]))
  }

  lemma {:induction false} FeedAgrees(c: Context, s: Stream, chunks: seq<seq<byte>>)
    requires TypeKnown(s) && Resting(s) && chunks != []
    ensures Agree(Feed(c, s, chunks), Iterate(c, Extend(Normal(s), Concat(chunks))))
    decreases |chunks|
  {
    hide Iterate, Receive, Resting;
    var first, more := chunks[0], Concat(chunks[1..]);
    ReceiveAgrees(c, s, first);
    var o := Receive(c, s, first, false);
    var start := Extend(Normal(s), first);
    IterateExtends(c, start, more);
    assert Extend(start, more) == Extend(Normal(s), first + more) by {
      assert (Normal(s).buffer + first) + more == Normal(s).buffer + (first + more);
    }
    if o.Done? {
      if chunks[1..] == [] {
        assert more == [] && o.events + [] == o.events;
        assert first + more == first;
      } else {
        FeedAgrees(c, o.stream, chunks[1..]);
        var rest := Feed(c, o.stream, chunks[1..]);
        if rest.Done? { AtomsAppend(o.events, rest.events); }
      }
    }
  }

  /**
   Without the end of the stream, only the bytes matter, not how they are cut: every chunking fails or none
   does, and otherwise the same fields, data bytes and promises come out in the same order and the stream is
   left in the same state.
   */
  lemma CutAnyhow(c: Context, s: Stream, xs: seq<seq<byte>>, ys: seq<seq<byte>>)
    requires TypeKnown(s) && Resting(s) && xs != [] && ys != [] && Concat(xs) == Concat(ys)
    ensures Feed(c, s, xs).Failed? <==> Feed(c, s, ys).Failed?
    ensures Feed(c, s, xs).Done? ==>
              Feed(c, s, xs).stream == Feed(c, s, ys).stream
              && Atoms(Feed(c, s, xs).events) == Atoms(Feed(c, s, ys).events)
              && Resting(Feed(c, s, xs).stream)
  {
    FeedAgrees(c, s, xs);
    FeedAgrees(c, s, ys);
    hide Feed, Iterate, Atoms, Peek;
  }

  // ---- Frames made by encode_frame ----

  datatype Frame = Frame(frameType: nat, payload: seq<byte>)

  predicate Encodable(f: Frame) { f.frameType <= UINT_VAR_MAX && |f.payload| <= UINT_VAR_MAX }

  function FrameBytes(f: Frame): seq<byte>
    requires Encodable(f)
  {
    EncodeVar(f.frameType) + EncodeVar(|f.payload|) + f.payload
  }

  function FramesBytes(frames: seq<Frame>): seq<byte>
    requires forall f | f in frames :: Encodable(f)
  {
    if frames == [] then [] else FrameBytes(frames[0]) + FramesBytes(frames[1..])
  }

  /** The frames handled one after the other, each as a whole. */
  function Deliver(c: Context, s: Stream, frames: seq<Frame>): Outcome
    decreases |frames|
  {
    if frames == [] then Done(s, [])
    else
      match HandleFrame(c, s, frames[0].frameType, frames[0].payload, false)
      case Failed => Failed
      case Done(s1, events) => Prepend(events, Deliver(c, s1, frames[1..]))
  }

  /** No frame has been started and nothing is buffered. */
  predicate BetweenFrames(s: Stream) {
    s.buffer == [] && !s.ended && s.frameSize.None? && s.frameType.None? && s.sessionId.None?
  }

  lemma HeaderReadsBack(f: Frame, rest: seq<byte>)
    requires Encodable(f)
    ensures FrameHeader(FrameBytes(f) + rest) == Some((f.frameType, |f.payload|, f.payload + rest))
  {
    hide EncodeVar, DecodeVar;
    VarRoundTrip(f.frameType, EncodeVar(|f.payload|) + (f.payload + rest));
    VarRoundTrip(|f.payload|, f.payload + rest);
    assert FrameBytes(f) + rest == EncodeVar(f.frameType) + (EncodeVar(|f.payload|) + (f.payload + rest));
  }

  /** What is left after one frame's bytes, whether or not the frame was allowed. */
  function AfterFrame(c: Context, s: Stream, f: Frame, rest: seq<byte>): (t: Trace)
    requires BetweenFrames(s)
  {
    match HandleFrame(c, s, f.frameType, f.payload, false)
    case Failed => Broken
    case Done(s1, events) =>
      HandleIgnoresBuffer(c, s, f.frameType, f.payload, false, rest);
      Prefixed(Atoms(events), Iterate(c, s1.(buffer := rest)))
  }

  /** The stream once the header of a frame has been read. */
  function Inside(s: Stream, f: Frame, rest: seq<byte>): Stream {
    s.(frameType := Some(f.frameType), frameSize := Some(|f.payload|), buffer := f.payload + rest)
  }

  /** A DATA frame where it is not allowed is an error as soon as its header is there. */
  lemma FrameOpens(c: Context, s: Stream, f: Frame, rest: seq<byte>)
    requires BetweenFrames(s) && Encodable(f) && f.frameType != WEBTRANSPORT_STREAM
    ensures Iterate(c, s.(buffer := FrameBytes(f) + rest)) ==
            if f.frameType == DATA && s.received != AfterHeaders then Broken else Iterate(c, Inside(s, f, rest))
  {
    hide FrameBytes, FrameHeader, HandleFrame;
    HeaderReadsBack(f, rest);
    NoPrefix(Iterate(c, Inside(s, f, rest)));
  }

  lemma DataFrame(c: Context, s: Stream, f: Frame, rest: seq<byte>)
    requires BetweenFrames(s) && f.frameType == DATA && s.received == AfterHeaders
    ensures Iterate(c, Inside(s, f, rest)) == AfterFrame(c, s, f, rest)
  {
    hide Iterate, HandleHeaders, HandlePushPromise;
    var inside, n := Inside(s, f, rest), |f.payload|;
    assert inside.buffer[..n] == f.payload && inside.buffer[n..] == rest;
    if n > 0 { DataBytes(c, inside, n); } else { NoData(c, inside); }
    OneEvent(DataReceived(f.payload, false));
    assert Bytes(f.payload) + [] == Bytes(f.payload);
  }

  lemma FrameStep(c: Context, s: Stream, f: Frame, rest: seq<byte>)
    requires BetweenFrames(s) && Encodable(f) && f.frameType != WEBTRANSPORT_STREAM
    ensures Iterate(c, s.(buffer := FrameBytes(f) + rest)) == AfterFrame(c, s, f, rest)
  {
    hide FrameBytes, FrameHeader, HandleHeaders, HandlePushPromise;
    FrameOpens(c, s, f, rest);
    if f.frameType != DATA {
      var inside, n := Inside(s, f, rest), |f.payload|;
      assert inside.buffer[..n] == f.payload && inside.buffer[n..] == rest;
      HandleIgnoresBuffer(c, s, f.frameType, f.payload, false, rest);
      assert TakePayload(inside, n) == s.(buffer := rest);
    } else if s.received == AfterHeaders {
      hide Iterate, AfterFrame, Prefixed;
      DataFrame(c, s, f, rest);
    }
  }

  lemma {:induction false} FramesAgree(c: Context, s: Stream, frames: seq<Frame>)
    requires BetweenFrames(s) && forall f | f in frames :: Encodable(f) && f.frameType != WEBTRANSPORT_STREAM
    ensures Agree(Deliver(c, s, frames), Iterate(c, s.(buffer := FramesBytes(frames))))
    ensures Deliver(c, s, frames).Done? ==> BetweenFrames(Deliver(c, s, frames).stream)
    decreases |frames|
  {
    hide FrameBytes, HandleFrame;
    if frames == [] {
      assert DecodeVar([]).None?;
    } else {
      var f, rest := frames[0], FramesBytes(frames[1..]);
      FrameStep(c, s, f, rest);
      HandleKeepsFrame(c, s, f.frameType, f.payload, false);
      hide Iterate;
      var o := HandleFrame(c, s, f.frameType, f.payload, false);
      if o.Done? {
        FramesAgree(c, o.stream, frames[1..]);
        var d := Deliver(c, o.stream, frames[1..]);
        if d.Done? { AtomsAppend(o.events, d.events); }
      }
    }
  }

  /**
   The parser undoes encode_frame: however the bytes of some frames are cut into chunks, exactly those frames
   are handled, in order, and the stream ends up between frames.
   */
  lemma FramesReadBack(c: Context, s: Stream, frames: seq<Frame>, chunks: seq<seq<byte>>)
    requires BetweenFrames(s) && forall f | f in frames :: Encodable(f) && f.frameType != WEBTRANSPORT_STREAM
    requires chunks != [] && Concat(chunks) == FramesBytes(frames)
    ensures Feed(c, s, chunks).Failed? <==> Deliver(c, s, frames).Failed?
    ensures Feed(c, s, chunks).Done? ==>
              Feed(c, s, chunks).stream == Deliver(c, s, frames).stream
              && Atoms(Feed(c, s, chunks).events) == Atoms(Deliver(c, s, frames).events)
              && BetweenFrames(Feed(c, s, chunks).stream)
  {
    assert Peek([]).None?;
    FeedAgrees(c, s, chunks);
    FramesAgree(c, s, frames);
    assert Extend(Normal(s), Concat(chunks)) == s.(buffer := FramesBytes(frames)) by {
      assert [] + Concat(chunks) == Concat(chunks);
    }
    hide Feed, Iterate, Atoms, Peek, Deliver;
  }

  /** A single frame arriving whole on a stream between frames is handled at once. */
  lemma WholeFrame(c: Context, s: Stream, f: Frame, fin: bool)
    requires BetweenFrames(s) && Encodable(f) && f.frameType != WEBTRANSPORT_STREAM
    ensures Receive(c, s, FrameBytes(f), fin) == HandleFrame(c, s.(ended := fin), f.frameType, f.payload, fin)
    ensures Receive(c, s, FrameBytes(f), fin).Done? ==>
              var t := Receive(c, s, FrameBytes(f), fin).stream; BetweenFrames(t.(ended := false)) && t.ended == fin
  {
    hide FrameBytes, FrameHeader, HandleHeaders, HandlePushPromise;
    HeaderReadsBack(f, []);
    assert FrameBytes(f) + [] == FrameBytes(f) && [] + FrameBytes(f) == FrameBytes(f) && f.payload + [] == f.payload;
    HeaderShortens(FrameBytes(f));
    var n := |f.payload|;
    assert f.payload[n..] == [] && f.payload[..n] == f.payload;
    var s0 := s.(ended := fin);
    var s2 := s0.(frameType := Some(f.frameType), frameSize := Some(n), buffer := f.payload);
    assert TakePayload(s2, n) == s0;
    HandleKeepsFrame(c, s0, f.frameType, f.payload, fin);
    assert Receive(c, s, FrameBytes(f), fin) == Payload(c, s2, fin);
  }
}
