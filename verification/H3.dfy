/** A request or push stream of an HTTP/3 connection (h3/connection.py). */
module H3 {
  import opened Common
  import opened Buffers
  import Spec = H3Spec
  import Chunks = H3Chunks

  method EncodeFrame(frameType: nat, frameData: seq<byte>) returns (r: seq<byte>)
    requires frameType <= UINT_VAR_MAX && |frameData| <= UINT_VAR_MAX
    ensures r == Chunks.FrameBytes(Chunks.Frame(frameType, frameData))
  {
    var buf := new Buffer(|frameData| + 16);
    PushSmall(buf, frameType);
    PushSmall(buf, |frameData|);
    var ok := buf.PushBytes(frameData);
    EmptyFirst(EncodeVar(frameType), EncodeVar(|frameData|), frameData);
    hide EncodeVar;
    r := buf.base[..buf.pos];
  }

  lemma EmptyFirst(a: seq<byte>, b: seq<byte>, c: seq<byte>)
    ensures [] + a + b + c == a + b + c
  {
  }

  /** A varint needs at most eight bytes. */
  method PushSmall(buf: Buffer, v: nat)
    requires buf.Valid() && v <= UINT_VAR_MAX && |buf.Rest()| >= 8
    modifies buf`pos, buf.base
    ensures buf.Valid() && buf.Data() == old(buf.Data()) + EncodeVar(v) && |buf.Rest()| >= |old(buf.Rest())| - 8
  {
    VarRoundTrip(v, []);
    assert v % TWO_TO_64 == v && SizeVar(v) <= 8;
    hide EncodeVar, SizeVar, DecodeVar;
    var ok := buf.PushUintVar(v);
  }

  lemma Unprefixed(o: Spec.Outcome)
    ensures Spec.Prepend([], o) == o
    ensures o.Done? ==> Spec.Prepend(o.events, Spec.Done(o.stream, [])) == o
  {
    if o.Done? { assert [] + o.events == o.events && o.events + [] == o.events; }
  }

  lemma PrependIs(a: seq<Spec.Event>, o: Spec.Outcome)
    ensures Spec.Prepend(a, o) == if o.Failed? then Spec.Failed else Spec.Done(o.stream, a + o.events)
  {
  }

  lemma Prefixes(a: seq<Spec.Event>, b: seq<Spec.Event>, o: Spec.Outcome)
    ensures Spec.Prepend(a, Spec.Prepend(b, o)) == Spec.Prepend(a + b, o)
  {
    if o.Done? { assert a + (b + o.events) == a + b + o.events; }
  }

  /** A header of type WEBTRANSPORT_STREAM takes everything that follows it. */
  lemma Tunnel(c: Spec.Context, s: Spec.Stream, session: nat, rest: seq<byte>, fin: bool)
    requires s.frameSize.None? && Spec.FrameHeader(s.buffer) == Some((Spec.WEBTRANSPORT_STREAM, session, rest))
    ensures Spec.Loop(c, s, fin) ==
            Spec.Done(s.(frameType := Some(Spec.WEBTRANSPORT_STREAM), sessionId := Some(session), buffer := []),
                      if rest != [] || fin then [Spec.WebTransportData(rest, session, fin)] else [])
  {
    Spec.HeaderShortens(s.buffer);
  }

  /** A frame whose header has been read goes on where it was. */
  lemma OpenFrame(c: Spec.Context, s: Spec.Stream, fin: bool)
    requires Spec.TypeKnown(s)
    ensures s.buffer != [] && s.frameSize.Some? ==> Spec.Loop(c, s, fin) == Spec.Payload(c, s, fin)
    ensures s.buffer == [] ==> Spec.Loop(c, s, fin) == Spec.Done(s, [])
  {
  }

  datatype HeaderStep = Missing | Tunnelled | Begun

  /** How a round of the loop ends: by going on, by a break, by an early return or by an exception. */
  datatype Round = More | Stop | Returned | Error

  lemma PayloadIs(c: Spec.Context, s: Spec.Stream, k: nat, fin: bool)
    requires Spec.TypeKnown(s) && s.frameSize.Some? && k == Min(s.frameSize.value, |s.buffer|)
    requires s.frameType == Some(Spec.DATA) || k == s.frameSize.value
    ensures var s1 := Spec.TakePayload(s, k);
            var o := Spec.HandleFrame(c, s1, s.frameType.value, s.buffer[..k], s1.ended && s1.buffer == []);
            && (o.Done? ==> Spec.TypeKnown(o.stream) && Spec.Measure(o.stream) <= Spec.Measure(s)
                            && (s.buffer != [] || k == s.frameSize.value ==> Spec.Measure(o.stream) < Spec.Measure(s)))
            && Spec.Payload(c, s, fin) ==
                 if o.Failed? then Spec.Failed else Spec.Prepend(o.events, Spec.Loop(c, o.stream, fin))
  {
    hide Spec.HandleFrame;
    var s1 := Spec.TakePayload(s, k);
    var o := Spec.HandleFrame(c, s1, s.frameType.value, s.buffer[..k], s1.ended && s1.buffer == []);
    Chunks.HandleKeepsFrame(c, s1, s.frameType.value, s.buffer[..k], s1.ended && s1.buffer == []);
    if o.Done? { Unprefixed(o); }
  }

  class H3Stream {
    var buffer: seq<byte>
    var ended: bool
    var frameSize: Option<nat>
    var frameType: Option<nat>
    var headersRecvState: Spec.HeadersState
    var sessionId: Option<nat>
    var expectedContentLength: Option<nat>
    var contentLength: nat

    ghost function State(): Spec.Stream
      reads this
    {
      Spec.Stream(buffer, ended, frameSize, frameType, headersRecvState, sessionId, expectedContentLength, contentLength)
    }

    /** The state as it would be if the first consumed bytes were already dropped. */
    ghost function View(consumed: nat): (v: Spec.Stream)
      requires consumed <= |buffer|
      reads this
      ensures |v.buffer| == |buffer| - consumed && (Spec.TypeKnown(State()) <==> Spec.TypeKnown(v))
    {
      State().(buffer := buffer[consumed..])
    }

    constructor ()
      ensures State() == Spec.NEW_STREAM
    {
      buffer, ended, frameSize, frameType := [], false, None, None;
      headersRecvState, sessionId, expectedContentLength, contentLength := Spec.Initial, None, None, 0;
    }

    method CheckContentLength() returns (ok: bool)
      ensures ok <==> Spec.LengthMatches(State())
    {
      ok := expectedContentLength.None? || contentLength == expectedContentLength.value;
    }

    method HandleFrame(c: Spec.Context, kind: nat, frameData: seq<byte>, streamEnded: bool)
      returns (ok: bool, events: seq<Spec.Event>)
      modifies this`headersRecvState, this`expectedContentLength, this`contentLength
      ensures ok <==> Spec.HandleFrame(c, old(State()), kind, frameData, streamEnded).Done?
      ensures ok ==> Spec.HandleFrame(c, old(State()), kind, frameData, streamEnded) == Spec.Done(State(), events)
    {
      events := [];
      if kind == Spec.DATA {
        if headersRecvState != Spec.AfterHeaders { return false, []; }
        contentLength := contentLength + |frameData|;
        if streamEnded {
          ok := CheckContentLength();
          if !ok { return; }
        }
        if streamEnded || frameData != [] {
          events := [Spec.DataReceived(frameData, streamEnded)];
        }
      } else if kind == Spec.HEADERS {
        if headersRecvState == Spec.AfterTrailers { return false, []; }
        var section := c.decode(if headersRecvState == Spec.Initial then Spec.Message else Spec.Trailers, frameData);
        if section.Rejected? { return false, []; }
        if headersRecvState == Spec.Initial && section.contentLength.Some? {
          expectedContentLength := section.contentLength;
        }
        if streamEnded {
          ok := CheckContentLength();
          if !ok { return; }
        }
        headersRecvState := if headersRecvState == Spec.Initial then Spec.AfterHeaders else Spec.AfterTrailers;
        events := [Spec.HeadersReceived(section.fields, streamEnded)];
      } else if kind == Spec.PUSH_PROMISE && c.pushId.None? {
        if !c.isClient { return false, []; }
        var promise := DecodeVar(frameData);
        if promise.None? { return false, []; }
        var section := c.decode(Spec.Promise, promise.value.1);
        if section.Rejected? { return false, []; }
        events := [Spec.PushPromiseReceived(promise.value.0, section.fields)];
      } else if kind in Spec.MISPLACED {
        return false, [];
      }
      ok := true;
    }

    /** Pulls the type and the size of the next frame; a type without a size is kept. */
    method FetchHeader(buf: Buffer) returns (found: bool)
      requires buf.Valid() && frameSize.None?
      modifies this`frameType, this`frameSize, buf`pos
      ensures buf.Valid()
      ensures found <==> Spec.FrameHeader(old(buf.Rest())).Some?
      ensures found ==> frameType.Some? && frameSize.Some? && buf.pos > old(buf.pos) + 1
      ensures found ==> Spec.FrameHeader(old(buf.Rest())) == Some((frameType.value, frameSize.value, buf.Rest()))
      ensures !found ==> frameSize.None?
      ensures !found && DecodeVar(old(buf.Rest())).None? ==> frameType == old(frameType)
      ensures !found && DecodeVar(old(buf.Rest())).Some? ==> frameType == Some(DecodeVar(old(buf.Rest())).value.0)
    {
      hide DecodeVar;
      var kind := buf.PullUintVar();
      if kind.None? { return false; }
      frameType := kind;
      frameSize := buf.PullUintVar();
      found := frameSize.Some?;
    }

    /** Takes the available part of the current payload off the buffer. */
    method PullChunk(buf: Buffer, start: nat, chunkSize: nat) returns (frameData: seq<byte>, consumed: nat)
      requires buf.Valid() && buf.pos == start <= |buffer| && buf.base[..] == buffer
      requires frameSize.Some? && chunkSize == Min(frameSize.value, |buffer| - start)
      modifies this`frameSize, this`frameType, buf`pos
      ensures buf.Valid() && start <= buf.pos == consumed <= |buffer|
      ensures frameData == old(View(start)).buffer[..chunkSize]
      ensures View(consumed) == Spec.TakePayload(old(View(start)), chunkSize)
    {
      assert buf.Rest() == View(start).buffer;
      var pulled := buf.PullBytes(chunkSize);
      frameData, consumed := pulled.value, buf.pos;
      frameSize := Some(frameSize.value - chunkSize);
      if frameSize.value == 0 {
        frameSize := None;
        frameType := None;
      }
    }

    /** HandleFrame, whatever part of the buffer has been consumed. */
    method HandleConsumed(c: Spec.Context, kind: nat, frameData: seq<byte>, last: bool, ghost consumed: nat)
      returns (ok: bool, events: seq<Spec.Event>)
      requires consumed <= |buffer|
      modifies this`headersRecvState, this`expectedContentLength, this`contentLength
      ensures ok <==> Spec.HandleFrame(c, old(View(consumed)), kind, frameData, last).Done?
      ensures ok ==> Spec.HandleFrame(c, old(View(consumed)), kind, frameData, last) == Spec.Done(View(consumed), events)
    {
      hide Spec.HandleFrame;
      Chunks.HandleIgnoresBuffer(c, State(), kind, frameData, last, buffer[consumed..]);
      ok, events := HandleFrame(c, kind, frameData, last);
    }

    /** Handles what the buffer holds of the current frame; nothing happens to an unfinished frame other than DATA. */
    method TakeFrame(c: Spec.Context, buf: Buffer, start: nat, ghost streamEnded: bool)
      returns (taken: bool, ok: bool, consumed: nat, events: seq<Spec.Event>)
      requires buf.Valid() && buf.pos == start <= |buffer| && buf.base[..] == buffer
      requires Spec.TypeKnown(State()) && frameSize.Some?
      modifies this`frameSize, this`frameType, this`headersRecvState, this`expectedContentLength, this`contentLength, buf`pos
      ensures buf.Valid() && start <= buf.pos == consumed <= |buffer|
      ensures Spec.TypeKnown(State())
      ensures !taken ==> old(View(start)) == View(consumed)
      ensures !taken ==> Spec.Payload(c, View(consumed), streamEnded) == Spec.Done(View(consumed), [])
      ensures taken && !ok ==> Spec.Payload(c, old(View(start)), streamEnded).Failed?
      ensures taken && ok && (old(buffer[start..]) != [] || frameSize.None?) ==>
                Spec.Measure(View(consumed)) < Spec.Measure(old(View(start)))
      ensures taken && ok ==> Spec.Measure(View(consumed)) <= Spec.Measure(old(View(start)))
      ensures taken && ok ==> Spec.Payload(c, old(View(start)), streamEnded) ==
                              Spec.Prepend(events, Spec.Loop(c, View(consumed), streamEnded))
    {
      hide Spec.HandleFrame;
      ghost var was := View(start);
      consumed, events := start, [];
      var chunkSize := Min(frameSize.value, buf.base.Length - consumed);
      if frameType.value != Spec.DATA && chunkSize < frameSize.value { return false, true, consumed, events; }
      PayloadIs(c, was, chunkSize, streamEnded);
      var kind, frameData := frameType.value, [];
      frameData, consumed := PullChunk(buf, start, chunkSize);
      ghost var s1 := View(consumed);
      var last := ended && buf.pos == buf.base.Length;
      assert last == (s1.ended && s1.buffer == []);
      Chunks.HandleKeepsFrame(c, s1, kind, frameData, last);
      hide Spec.Payload, Spec.Loop, Spec.TakePayload;
      ok, events := HandleConsumed(c, kind, frameData, last, consumed);
      taken := true;
    }

    /** Reads a frame header; a WebTransport header takes the rest of the buffer with it. */
    method BeginFrame(c: Spec.Context, buf: Buffer, start: nat, streamEnded: bool)
      returns (step: HeaderStep, consumed: nat, events: seq<Spec.Event>)
      requires buf.Valid() && buf.pos == start < |buffer| && buf.base[..] == buffer && frameSize.None?
      modifies this`frameSize, this`frameType, this`sessionId, this`buffer, buf`pos
      ensures buf.Valid() && Spec.TypeKnown(State())
      ensures step.Missing? ==> consumed == start && buffer == old(buffer)
      ensures step.Missing? ==> Spec.Loop(c, old(View(start)), streamEnded) == Spec.Done(View(start), [])
      ensures step.Tunnelled? ==> Spec.Loop(c, old(View(start)), streamEnded) == Spec.Done(State(), events)
      ensures step.Begun? ==> start + 2 <= consumed == buf.pos <= |buffer| && buffer == old(buffer) && frameSize.Some?
      ensures step.Begun? ==> Spec.Loop(c, old(View(start)), streamEnded) == Spec.Payload(c, View(consumed), streamEnded)
    {
      hide DecodeVar, Spec.FrameHeader, Spec.Payload;
      ghost var was := View(start);
      consumed, events := start, [];
      assert buf.Rest() == was.buffer;
      var found := FetchHeader(buf);
      if !found { return Missing, start, []; }
      consumed := buf.pos;
      var frameData := buffer[consumed..];
      assert buf.Rest() == frameData;
      if frameType.value != Spec.WEBTRANSPORT_STREAM { return Begun, consumed, []; }
      Tunnel(c, was, frameSize.value, frameData, streamEnded);
      sessionId := frameSize;
      frameSize := None;
      buffer := [];
      if frameData != [] || streamEnded {
        events := [Spec.WebTransportData(frameData, sessionId.value, streamEnded)];
      }
      step := Tunnelled;
    }

    /** One round of the parsing loop. */
    method ParseOne(c: Spec.Context, buf: Buffer, start: nat, streamEnded: bool)
      returns (round: Round, consumed: nat, events: seq<Spec.Event>)
      requires buf.Valid() && buf.pos == start < |buffer| && buf.base[..] == buffer && Spec.TypeKnown(State())
      modifies this, buf`pos
      ensures buf.Valid() && Spec.TypeKnown(State())
      ensures round == Returned ==> Spec.Loop(c, old(View(start)), streamEnded) == Spec.Done(State(), events)
      ensures round != Returned ==> consumed <= |buffer| && buffer == old(buffer)
      ensures round == Stop ==> Spec.Loop(c, old(View(start)), streamEnded) == Spec.Done(View(consumed), events)
      ensures round == Error ==> Spec.Loop(c, old(View(start)), streamEnded).Failed?
      ensures round == More ==> buf.pos == consumed && Spec.Measure(View(consumed)) < Spec.Measure(old(View(start)))
      ensures round == More ==> Spec.Loop(c, old(View(start)), streamEnded) ==
                                Spec.Prepend(events, Spec.Loop(c, View(consumed), streamEnded))
    {
      OpenFrame(c, View(start), streamEnded);
      hide Spec.Loop, Spec.Payload;
      consumed := start;
      if frameSize.None? {
        var step;
        step, consumed, events := BeginFrame(c, buf, start, streamEnded);
        if step.Missing? { return Stop, consumed, []; }
        if step.Tunnelled? { return Returned, consumed, events; }
      }
      var taken, done;
      taken, done, consumed, events := TakeFrame(c, buf, consumed, streamEnded);
      round := if !taken then Stop else if done then More else Error;
      if !taken { events := []; }
    }

    method Parse(c: Spec.Context, streamEnded: bool) returns (ok: bool, events: seq<Spec.Event>)
      requires Spec.TypeKnown(State())
      modifies this
      ensures ok <==> Spec.Loop(c, old(State()), streamEnded).Done?
      ensures ok ==> Spec.Loop(c, old(State()), streamEnded) == Spec.Done(State(), events)
    {
      assert buffer[0..] == buffer;
      ghost var view := View(0);
      assert view == State();
      hide Spec.Loop, Spec.Prepend, Spec.TypeKnown, View, State;
      ghost var meaning := Spec.Loop(c, view, streamEnded);
      var buf := new Buffer.Over(buffer);
      var consumed: nat, round := 0, More;
      events := [];
      assert buf.base[..] == buffer;
      Unprefixed(meaning);
      while round == More && buf.pos < buf.base.Length
        invariant buf.Valid() && fresh(buf) && fresh(buf.base)
        invariant consumed <= |buffer| && buf.base[..] == buffer && Spec.TypeKnown(view) && view == View(consumed)
        invariant round == More || round == Stop
        invariant round == More ==> buf.pos == consumed && Spec.Prepend(events, Spec.Loop(c, view, streamEnded)) == meaning
        invariant round == Stop ==> Spec.Done(view, events) == meaning
        decreases round == More, Spec.Measure(view)
      {
        ghost var before, head := view, events;
        var more;
        round, consumed, more := ParseOne(c, buf, consumed, streamEnded);
        PrependIs(head, Spec.Loop(c, before, streamEnded));
        if round == Error { return false, []; }
        events := events + more;
        if round == Returned { return true, events; }
        view := View(consumed);
        if round == More { Prefixes(head, more, Spec.Loop(c, view, streamEnded)); }
      }
      if round == More {
        OpenFrame(c, view, streamEnded);
        Unprefixed(Spec.Done(view, events));
      }
      DropConsumed(consumed);
      ok := true;
    }

    method DropConsumed(consumed: nat)
      requires consumed <= |buffer|
      modifies this`buffer
      ensures State() == old(View(consumed))
    {
      buffer := buffer[consumed..];
    }

    method Receive(c: Spec.Context, data: seq<byte>, streamEnded: bool) returns (ok: bool, events: seq<Spec.Event>)
      requires Spec.TypeKnown(State())
      modifies this
      ensures ok <==> Spec.Receive(c, old(State()), data, streamEnded).Done?
      ensures ok ==> Spec.Receive(c, old(State()), data, streamEnded) == Spec.Done(State(), events)
    {
      hide Spec.Loop;
      buffer := buffer + data;
      if streamEnded {
        ended := true;
      }
      if frameType == Some(Spec.WEBTRANSPORT_STREAM) && sessionId.Some? {
        events := [Spec.WebTransportData(buffer, sessionId.value, streamEnded)];
        buffer := [];
        return true, events;
      }
      if frameType == Some(Spec.DATA) && frameSize.Some? && |buffer| < frameSize.value {
        contentLength := contentLength + |buffer|;
        events := [Spec.DataReceived(buffer, false)];
        frameSize := Some(frameSize.value - |buffer|);
        buffer := [];
        return true, events;
      }
      if streamEnded && buffer == [] {
        ok := CheckContentLength();
        events := [Spec.DataReceived([], true)];
        return;
      }
      ok, events := Parse(c, streamEnded);
    }
  }
}
