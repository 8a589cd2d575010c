/** What an HTTP/3 request or push stream makes of received bytes (h3/connection.py), on values. */
module H3Spec {
  import opened Common
  import opened Buffers

  const DATA := 0x0
  const HEADERS := 0x1
  const PUSH_PROMISE := 0x5
  const WEBTRANSPORT_STREAM := 0x41
  const MISPLACED: set<nat> := {0x2, 0x3, 0x4, 0x5, 0x7, 0xD, 0xE}

  type Fields = seq<(seq<byte>, seq<byte>)>

  datatype HeadersState = Initial | AfterHeaders | AfterTrailers

  /** Which validation a decoded field section goes through. */
  datatype Section = Message | Trailers | Promise

  /** A field section after QPACK decoding and validation. */
  datatype Decoded = Rejected | Accepted(fields: Fields, contentLength: Option<nat>)

  /** What does not change while a stream is read; QPACK and field validation are a parameter. */
  datatype Context = Context(isClient: bool, pushId: Option<nat>, decode: (Section, seq<byte>) -> Decoded)

  datatype Stream = Stream(
    buffer: seq<byte>,
    ended: bool,
    frameSize: Option<nat>,
    frameType: Option<nat>,
    received: HeadersState,
    sessionId: Option<nat>,
    expectedLength: Option<nat>,
    contentLength: nat)

  datatype Event =
    | DataReceived(data: seq<byte>, ended: bool)
    | HeadersReceived(fields: Fields, ended: bool)
    | PushPromiseReceived(promise: nat, fields: Fields)
    | WebTransportData(data: seq<byte>, session: nat, ended: bool)

  /** Failed stands for an exception, after which the connection is closed and no event is reported. */
  datatype Outcome = Failed | Done(stream: Stream, events: seq<Event>)

  const NEW_STREAM := Stream([], false, None, None, Initial, None, None, 0)

  predicate TypeKnown(s: Stream) { s.frameSize.Some? ==> s.frameType.Some? }

  predicate LengthMatches(s: Stream) { s.expectedLength.Some? ==> s.contentLength == s.expectedLength.value }

  predicate InWebTransport(s: Stream) { s.frameType == Some(WEBTRANSPORT_STREAM) && s.sessionId.Some? }

  function HandleData(s: Stream, data: seq<byte>, ended: bool): Outcome {
    var s1 := s.(contentLength := s.contentLength + |data|);
    if s.received != AfterHeaders || (ended && !LengthMatches(s1)) then Failed
    else Done(s1, if ended || data != [] then [DataReceived(data, ended)] else [])
  }

  function HandleHeaders(c: Context, s: Stream, data: seq<byte>, ended: bool): Outcome {
    if s.received == AfterTrailers then Failed
    else
      match c.decode(if s.received == Initial then Message else Trailers, data)
      case Rejected => Failed
      case Accepted(fields, length) =>
        var s1 := if s.received == Initial && length.Some? then s.(expectedLength := length) else s;
        if ended && !LengthMatches(s1) then Failed
        else
          Done(s1.(received := if s.received == Initial then AfterHeaders else AfterTrailers),
               [HeadersReceived(fields, ended)])
  }

  function HandlePushPromise(c: Context, s: Stream, data: seq<byte>): Outcome {
    match DecodeVar(data)
    case None => Failed
    case Some((promise, rest)) =>
      match c.decode(Promise, rest)
      case Rejected => Failed
      case Accepted(fields, _) =>
        if c.isClient then Done(s, [PushPromiseReceived(promise, fields)]) else Failed
  }

  /** One complete frame, or a piece of a DATA frame. */
  function HandleFrame(c: Context, s: Stream, frameType: nat, data: seq<byte>, ended: bool): Outcome {
    if frameType == DATA then HandleData(s, data, ended)
    else if frameType == HEADERS then HandleHeaders(c, s, data, ended)
    else if frameType == PUSH_PROMISE && c.pushId.None? then HandlePushPromise(c, s, data)
    else if frameType in MISPLACED then Failed
    else Done(s, [])
  }

  /** Type, size and the bytes after them. */
  function FrameHeader(s: seq<byte>): Option<(nat, nat, seq<byte>)> {
    match DecodeVar(s)
    case None => None
    case Some((frameType, rest)) =>
      match DecodeVar(rest)
      case None => None
      case Some((size, payload)) => Some((frameType, size, payload))
  }

  function Measure(s: Stream): nat { 2 * |s.buffer| + if s.frameSize.Some? then 1 else 0 }

  /** Takes k bytes of the current frame's payload off the buffer. */
  function TakePayload(s: Stream, k: nat): (r: Stream)
    requires s.frameSize.Some? && k <= |s.buffer| && k <= s.frameSize.value
    ensures TypeKnown(s) ==> TypeKnown(r)
  {
    if k == s.frameSize.value then s.(buffer := s.buffer[k..], frameSize := None, frameType := None)
    else s.(buffer := s.buffer[k..], frameSize := Some(s.frameSize.value - k))
  }

  function Prepend(events: seq<Event>, o: Outcome): Outcome {
    if o.Failed? then Failed else Done(o.stream, events + o.events)
  }

  /** The parsing loop over the buffer. */
  function Loop(c: Context, s: Stream, fin: bool): (o: Outcome)
    requires TypeKnown(s)
    ensures o.Done? ==> TypeKnown(o.stream)
    decreases Measure(s), 1
  {
    if s.buffer == [] then Done(s, [])
    else if s.frameSize.Some? then Payload(c, s, fin)
    else
      match FrameHeader(s.buffer)
      case None =>
        if DecodeVar(s.buffer).Some? then Done(s.(frameType := Some(DecodeVar(s.buffer).value.0)), [])
        else Done(s, [])
      case Some((frameType, size, rest)) =>
        HeaderShortens(s.buffer);
        if frameType == WEBTRANSPORT_STREAM then
          Done(s.(frameType := Some(frameType), sessionId := Some(size), buffer := []),
               if rest != [] || fin then [WebTransportData(rest, size, fin)] else [])
        else
          Payload(c, s.(frameType := Some(frameType), frameSize := Some(size), buffer := rest), fin)
  }

  function Payload(c: Context, s: Stream, fin: bool): (o: Outcome)
    requires TypeKnown(s) && s.frameSize.Some?
    ensures o.Done? ==> TypeKnown(o.stream)
    decreases Measure(s), 0
  {
    var size, frameType := s.frameSize.value, s.frameType.value;
    var k := Min(size, |s.buffer|);
    if frameType != DATA && k < size then Done(s, [])
    else
      var s1 := TakePayload(s, k);
      match HandleFrame(c, s1, frameType, s.buffer[..k], s.ended && s1.buffer == [])
      case Failed => Failed
      case Done(s2, events) =>
        if s2.buffer == [] then Done(s2, events) else Prepend(events, Loop(c, s2, fin))
  }

  lemma HeaderShortens(s: seq<byte>)
    ensures FrameHeader(s).Some? ==> |FrameHeader(s).value.2| + 2 <= |s|
  {
  }

  /** Receiving data, with or without the end of the stream. */
  function Receive(c: Context, was: Stream, data: seq<byte>, fin: bool): (o: Outcome)
    requires TypeKnown(was)
    ensures o.Done? ==> TypeKnown(o.stream)
  {
    var s := was.(buffer := was.buffer + data, ended := was.ended || fin);
    if InWebTransport(s) then
      Done(s.(buffer := []), [WebTransportData(s.buffer, s.sessionId.value, fin)])
    else if s.frameType == Some(DATA) && s.frameSize.Some? && |s.buffer| < s.frameSize.value then
      Done(s.(contentLength := s.contentLength + |s.buffer|, frameSize := Some(s.frameSize.value - |s.buffer|), buffer := []),
           [DataReceived(s.buffer, false)])
    else if fin && s.buffer == [] then
      if LengthMatches(s) then Done(s, [DataReceived([], true)]) else Failed
    else
      Loop(c, s, fin)
  }
}
