/** The flow-control handlers of a connection, on its streams and limits (quic/connection.py). */
module FlowEndpoints {
  import opened Common
  import opened RangeSets
  import opened StreamSpec
  import opened Buffers
  import StreamFrames
  import Streams
  import FlowControl
  import StreamRuns

  /** A limit this side announces to its peer. */
  class Limit {
    var sent: nat
    var used: nat
    var value: nat

    constructor (value: nat)
      ensures this.value == sent == value && used == 0
    {
      sent, used, this.value := value, 0, value;
    }

    ghost function State(): FlowControl.Limit reads this { FlowControl.Limit(value, sent, used) }
  }

  class QuicStream {
    const sender: Streams.StreamSender
    const receiver: Streams.StreamReceiver
    var maxStreamDataLocal: nat
    var maxStreamDataLocalSent: nat
    var maxStreamDataRemote: nat

    constructor (local: nat, remote: nat)
      ensures sender.Valid() && receiver.Valid() && sender.State() == NEW_SENDER && receiver.State() == NEW_RECEIVER
      ensures fresh(sender) && fresh(sender.pending) && fresh(sender.acked) && fresh(receiver) && fresh(receiver.ranges)
      ensures maxStreamDataLocal == maxStreamDataLocalSent == local && maxStreamDataRemote == remote
    {
      sender := new Streams.StreamSender();
      receiver := new Streams.StreamReceiver();
      maxStreamDataLocal, maxStreamDataLocalSent, maxStreamDataRemote := local, local, remote;
    }

    /** The limit this side announces for the stream. */
    ghost function LocalLimit(): FlowControl.Limit
      reads this, receiver
    {
      FlowControl.Limit(maxStreamDataLocal, maxStreamDataLocalSent, receiver.highestOffset)
    }
  }

  datatype FrameResult = FlowControlError | FinalSizeRaised | Accepted(event: Option<Event>)

  /** What a STREAM frame does to the receiver of its stream and to the credit used. */
  function Received(r: Receiver, local: nat, limit: FlowControl.Limit, f: Frame): (Receiver, nat, FrameResult) {
    var newly := Max(0, f.End() - r.highest);
    if f.End() > local || limit.used + newly > limit.value then (r, limit.used, FlowControlError)
    else
      match Handle(r, f)
      case FinalSizeError => (r, limit.used, FinalSizeRaised)
      case Handled(next, event) => (next, limit.used + newly, Accepted(event))
  }

  /** Only the end of the stream waits to be sent. */
  ghost predicate FinAlone(s: Sender) { s.pending == {} && s.pendingEof }

  /** A frame is returned although not even its header fits exactly when it is a FIN on its own. */
  lemma DroppedExactly(s: Sender, maxSize: int, maxOffset: Option<int>)
    requires SenderInv(s)
    ensures var (s', frame) := GetFrame(s, maxSize, maxOffset);
            && (frame.Some? && maxSize < 0 <==> FinAlone(s) && maxSize < 0)
            && (FinAlone(s) ==> s'.highest == s.highest)
  {
    hide Conserved, FinTracked;
    assert s.highest < |s.written| ==> s.highest in Span(s.highest, |s.written|);
  }

  /** Where the next frame starts. */
  ghost function NextOffset(s: Sender): (offset: int) { if s.pending == {} then |s.written| else Least(s.pending) }

  /** Nothing is sent for the first time but right after what was sent before. */
  lemma NextWithinSent(s: Sender)
    requires SenderInv(s)
    ensures 0 <= NextOffset(s) <= s.highest && s.pending <= Span(0, |s.written|)
  {
    assert s.highest < |s.written| ==> s.highest in Span(s.highest, |s.written|);
    assert s.pending != {} ==> Least(s.pending) in s.pending && Least(s.pending) in Span(s.start, |s.written|);
    hide FinTracked;
  }

  /** Where a frame starts and how much data it carries. */
  lemma FrameSize(s: Sender, maxSize: int, maxOffset: Option<int>)
    requires SenderInv(s)
    ensures var frame := GetFrame(s, maxSize, maxOffset).1;
            frame.Some? ==>
              && frame.value.offset == NextOffset(s)
              && if s.pending == {} then FinAlone(s) && frame.value.data == [] else 0 < |frame.value.data| <= maxSize
  {
    hide FinTracked, Accurate;
    if s.pending != {} {
      var start := Least(s.pending);
      var stop := FrameStop(s, start, maxSize, maxOffset);
      if start < stop { assert stop - 1 in Span(start, RunEnd(s.pending, start)); }
    }
  }

  /** The header of a frame is as long as the room set aside for it, and header and data keep to the space granted. */
  lemma FrameKeepsToSpace(s: Sender, id: nat, space: int, maxOffset: Option<int>)
    requires SenderInv(s) && id <= UINT_VAR_MAX && s.highest <= UINT_VAR_MAX
    ensures 0 <= NextOffset(s) <= UINT_VAR_MAX
    ensures var overhead := StreamFrames.Overhead(id, NextOffset(s));
            var frame := GetFrame(s, space - overhead, maxOffset).1;
            frame.Some? ==>
              && frame.value.offset == NextOffset(s) && StreamFrames.Encodable(id, frame.value)
              && |StreamFrames.StreamBytes(id, frame.value)| == overhead + |frame.value.data|
              && (|StreamFrames.StreamBytes(id, frame.value)| <= space <==> !(FinAlone(s) && space < overhead))
  {
    hide SenderInv, GetFrame, NextOffset, StreamFrames.StreamBytes, StreamFrames.Overhead;
    NextWithinSent(s);
    var overhead := StreamFrames.Overhead(id, NextOffset(s));
    FrameSize(s, space - overhead, maxOffset);
    var frame := GetFrame(s, space - overhead, maxOffset).1;
    if frame.Some? { StreamFrames.HeaderFills(id, frame.value); }
  }

  class FlowEndpoint {
    var remoteMaxData: nat
    var remoteMaxDataUsed: int
    const localMaxData: Limit

    constructor (remote: nat, local: nat)
      ensures remoteMaxData == remote && remoteMaxDataUsed == 0 && fresh(localMaxData)
      ensures localMaxData.State() == FlowControl.Limit(local, local, 0)
    {
      remoteMaxData, remoteMaxDataUsed := remote, 0;
      localMaxData := new Limit(local);
    }

    // ---- Sending ----

    method HandleMaxData(maxData: nat)
      modifies this`remoteMaxData
      ensures remoteMaxData == Max(old(remoteMaxData), maxData)
    {
      if maxData > remoteMaxData {
        remoteMaxData := maxData;
      }
    }

    method HandleMaxStreamData(stream: QuicStream, maxStreamData: nat)
      modifies stream`maxStreamDataRemote
      ensures stream.maxStreamDataRemote == Max(old(stream.maxStreamDataRemote), maxStreamData)
    {
      if maxStreamData > stream.maxStreamDataRemote {
        stream.maxStreamDataRemote := maxStreamData;
      }
    }

    /**
     A STREAM frame within both credits and the space of the packet; the connection credit it uses is counted. The
     frame is taken from the sender before its header is found to fit: stopped tells that it does not, and then the
     frame goes nowhere.
     */
    method WriteStreamFrame(stream: QuicStream, streamId: nat, flightSpace: int, bufferSpace: int, buf: Buffer)
      returns (frame: Option<Frame>, stopped: bool)
      requires stream.sender.Valid() && SenderInv(stream.sender.State()) && flightSpace <= bufferSpace
      requires streamId <= UINT_VAR_MAX && stream.sender.State().highest <= UINT_VAR_MAX
      requires buf.Valid() && bufferSpace <= |buf.Rest()|
      modifies this`remoteMaxDataUsed, stream.sender, stream.sender.pending, buf`pos, buf.base
      ensures stream.sender.Valid() && buf.Valid()
      ensures 0 <= NextOffset(old(stream.sender.State())) <= UINT_VAR_MAX
      ensures var s := old(stream.sender.State());
              var credit := Min(s.highest + remoteMaxData - old(remoteMaxDataUsed), stream.maxStreamDataRemote);
              var overhead := StreamFrames.Overhead(streamId, NextOffset(s));
              && (stream.sender.State(), frame) == GetFrame(s, flightSpace - overhead, Some(credit))
              && remoteMaxDataUsed == old(remoteMaxDataUsed) + stream.sender.State().highest - s.highest
              && (stopped <==> FinAlone(s) && flightSpace < overhead)
              && (frame.None? || stopped ==> buf.Data() == old(buf.Data()) && buf.Rest() == old(buf.Rest()))
              && (frame.Some? && !stopped ==>
                    && StreamFrames.Encodable(streamId, frame.value)
                    && |StreamFrames.StreamBytes(streamId, frame.value)| <= flightSpace
                    && Wrote(old(buf.Data()), old(buf.Rest()), buf.Data(), buf.Rest(),
                             StreamFrames.StreamBytes(streamId, frame.value)))
    {
      hide SenderInv, GetFrame, Canonical, Elements, StreamFrames.StreamBytes, StreamFrames.Overhead, Wrote;
      ghost var s := stream.sender.State();
      NextWithinSent(s);
      var next := stream.sender.NextOffset();
      var overhead := StreamFrames.Overhead(streamId, next);
      var maxOffset := Min(stream.sender.highestOffset + remoteMaxData - remoteMaxDataUsed, stream.maxStreamDataRemote);
      var previous := stream.sender.highestOffset;
      FrameKeepsToSpace(s, streamId, flightSpace, Some(maxOffset));
      DroppedExactly(s, flightSpace - overhead, Some(maxOffset));
      frame := stream.sender.GetFrame(flightSpace - overhead, Some(maxOffset));
      stopped := frame.Some? && (bufferSpace < overhead || flightSpace < overhead);
      if stopped { return; }
      if frame.Some? {
        var written := StreamFrames.PushStreamFrame(buf, streamId, frame.value);
        assert written;
      }
      remoteMaxDataUsed := remoteMaxDataUsed + (stream.sender.highestOffset - previous);
    }

    // ---- Receiving ----

    /** Both limits are checked before the frame is processed. */
    method HandleStreamFrame(stream: QuicStream, frame: Frame) returns (r: FrameResult)
      requires stream.receiver.Valid()
      modifies localMaxData`used, stream.receiver, stream.receiver.ranges
      ensures stream.receiver.Valid()
      ensures (stream.receiver.State(), localMaxData.used, r) ==
              Received(old(stream.receiver.State()), stream.maxStreamDataLocal, old(localMaxData.State()), frame)
    {
      var end := frame.offset + |frame.data|;
      if end > stream.maxStreamDataLocal { return FlowControlError; }
      var newly := Max(0, end - stream.receiver.highestOffset);
      if localMaxData.used + newly > localMaxData.value { return FlowControlError; }
      var event := stream.receiver.HandleFrame(frame);
      if event.Raised? { return FinalSizeRaised; }
      localMaxData.used := localMaxData.used + newly;
      r := Accepted(event.event);
    }

    /** MAX_DATA, if the limit was raised or its last frame was lost; fits tells whether there is room for it. */
    method WriteConnectionLimit(fits: bool) returns (announced: Option<nat>, stopped: bool)
      modifies localMaxData`value, localMaxData`sent
      ensures (localMaxData.State(), announced) == Written(old(localMaxData.State()), fits)
      ensures stopped <==> localMaxData.value != old(localMaxData.sent) && !fits
      ensures localMaxData.value ==
              if old(localMaxData.used) * 2 > old(localMaxData.value) then 2 * old(localMaxData.value) else old(localMaxData.value)
      ensures announced == if fits && localMaxData.value != old(localMaxData.sent) then Some(localMaxData.value) else None
    {
      if localMaxData.used * 2 > localMaxData.value {
        localMaxData.value := localMaxData.value * 2;
      }
      announced, stopped := None, false;
      if localMaxData.value != localMaxData.sent {
        if !fits { return None, true; }
        localMaxData.sent := localMaxData.value;
        announced := Some(localMaxData.value);
      }
    }

    /** MAX_STREAM_DATA, likewise. */
    method WriteStreamLimit(stream: QuicStream, fits: bool) returns (announced: Option<nat>, stopped: bool)
      modifies stream`maxStreamDataLocal, stream`maxStreamDataLocalSent
      ensures (stream.LocalLimit(), announced) == Written(old(stream.LocalLimit()), fits)
      ensures stopped <==> stream.maxStreamDataLocal != old(stream.maxStreamDataLocalSent) && !fits
      ensures stream.maxStreamDataLocal ==
              if stream.receiver.highestOffset * 2 > old(stream.maxStreamDataLocal) then 2 * old(stream.maxStreamDataLocal)
              else old(stream.maxStreamDataLocal)
      ensures announced == if fits && stream.maxStreamDataLocal != old(stream.maxStreamDataLocalSent)
                           then Some(stream.maxStreamDataLocal) else None
    {
      if stream.maxStreamDataLocal != 0 && stream.receiver.highestOffset * 2 > stream.maxStreamDataLocal {
        stream.maxStreamDataLocal := stream.maxStreamDataLocal * 2;
      }
      announced, stopped := None, false;
      if stream.maxStreamDataLocalSent != stream.maxStreamDataLocal {
        if !fits { return None, true; }
        stream.maxStreamDataLocalSent := stream.maxStreamDataLocal;
        announced := Some(stream.maxStreamDataLocal);
      }
    }

    method OnConnectionLimitDelivery(delivery: Delivery)
      modifies localMaxData`sent
      ensures localMaxData.State() == Told(old(localMaxData.State()), delivery)
    {
      if delivery != Acked {
        localMaxData.sent := 0;
      }
    }

    method OnStreamLimitDelivery(stream: QuicStream, delivery: Delivery)
      modifies stream`maxStreamDataLocalSent
      ensures stream.LocalLimit() == Told(old(stream.LocalLimit()), delivery)
    {
      if delivery != Acked {
        stream.maxStreamDataLocalSent := 0;
      }
    }
  }

  // ---- Announcing a limit ----

  /** Doubles the limit if it is due, and announces it if it is not the one sent last and there is room. */
  function Written(l: FlowControl.Limit, fits: bool): (FlowControl.Limit, Option<nat>) {
    var raised := l.(value := FlowControl.Raised(l.value, l.used));
    if raised.value == l.sent then (raised, None)
    else if fits then (raised.(sent := raised.value), Some(raised.value)) else (raised, None)
  }

  /** A report on the frame that announced a limit. */
  function Told(l: FlowControl.Limit, d: Delivery): FlowControl.Limit {
    if d == Acked then l else l.(sent := 0)
  }

  /** What happens to a limit: data arrives, or an announcement is attempted, with or without room for it. */
  datatype LimitEvent = More(used: nat) | Attempt(fits: bool)

  /** The values announced. */
  function Announced(l: FlowControl.Limit, events: seq<LimitEvent>): seq<nat>
    decreases |events|
  {
    if events == [] then []
    else
      match events[0]
      case More(used) => Announced(l.(used := l.used + used), events[1..])
      case Attempt(fits) =>
        var (next, value) := Written(l, fits);
        (if value.Some? then [value.value] else []) + Announced(next, events[1..])
  }

  /** A limit whose announcement was lost is announced again, at least as high, as soon as there is room, and not before. */
  lemma {:induction false} LostIsAnnouncedAgain(l: FlowControl.Limit, events: seq<LimitEvent>)
    requires l.value > 0
    ensures var again := Announced(Told(l, Lost), events);
            && (again != [] <==> exists i :: 0 <= i < |events| && events[i] == Attempt(true))
            && (again != [] ==> again[0] >= l.value)
    decreases |events|
  {
    if events != [] {
      match events[0] {
        case More(used) => LostIsAnnouncedAgain(l.(used := l.used + used), events[1..]);
        case Attempt(fits) => LostIsAnnouncedAgain(l.(value := FlowControl.Raised(l.value, l.used)), events[1..]);
      }
      assert forall i | 0 < i < |events| :: events[i] == events[1..][i - 1];
    }
  }

  /** One that was acknowledged is announced only once it has been raised. */
  lemma {:induction false} AckedIsNotRepeated(l: FlowControl.Limit, attempts: seq<LimitEvent>)
    requires l.sent == l.value && l.used * 2 <= l.value && forall a | a in attempts :: a.Attempt?
    ensures Announced(Told(l, Acked), attempts) == []
    decreases |attempts|
  {
    if attempts != [] {
      assert attempts[0].Attempt?;
      AckedIsNotRepeated(l, attempts[1..]);
    }
  }

  // ---- The handlers are the steps of the two-endpoint model ----

  /** The objects of the sending side stand for its part of the connection. */
  ghost predicate SendingSide(c: FlowControl.Connection, i: nat, e: FlowEndpoint, stream: QuicStream)
    reads e, stream, stream.sender, stream.sender.acked, stream.sender.pending
  {
    && i < |c.streams|
    && stream.sender.State() == c.streams[i].sys.snd
    && stream.maxStreamDataRemote == c.streams[i].credit
    && e.remoteMaxData == c.remoteMax && e.remoteMaxDataUsed == c.remoteUsed
  }

  ghost predicate ReceivingSide(c: FlowControl.Connection, i: nat, e: FlowEndpoint, stream: QuicStream)
    reads e, e.localMaxData, stream, stream.receiver, stream.receiver.ranges
  {
    && i < |c.streams|
    && stream.receiver.Valid() && stream.receiver.State() == c.streams[i].sys.rcv
    && stream.LocalLimit() == FlowControl.Limit(c.streams[i].local, c.streams[i].localSent, c.streams[i].sys.rcv.highest)
    && e.localMaxData.State() == c.local
  }

  /** Writing a STREAM frame is the sending step. */
  method SendStep(e: FlowEndpoint, stream: QuicStream, streamId: nat, flightSpace: int, bufferSpace: int, buf: Buffer,
                  ghost c: FlowControl.Connection, ghost i: nat)
    returns (frame: Option<Frame>, stopped: bool)
    requires FlowControl.Inv(c) && stream.sender.Valid() && SendingSide(c, i, e, stream) && flightSpace <= bufferSpace
    requires streamId <= UINT_VAR_MAX && c.streams[i].sys.snd.highest <= UINT_VAR_MAX
    requires buf.Valid() && bufferSpace <= |buf.Rest()|
    modifies e`remoteMaxDataUsed, stream.sender, stream.sender.pending, buf`pos, buf.base
    ensures stream.sender.Valid() && 0 <= NextOffset(c.streams[i].sys.snd) <= UINT_VAR_MAX
    ensures var overhead := StreamFrames.Overhead(streamId, NextOffset(c.streams[i].sys.snd));
            SendingSide(FlowControl.Step(c, FlowControl.SendFrame(i, flightSpace - overhead)), i, e, stream)
  {
    hide FlowControl.Inv, FlowControl.Step, SenderInv, GetFrame, FinAlone, Canonical, Elements, StreamFrames.StreamBytes,
         StreamFrames.Overhead, NextOffset;
    SenderHolds(c, i);
    NextWithinSent(c.streams[i].sys.snd);
    ghost var overhead := StreamFrames.Overhead(streamId, NextOffset(c.streams[i].sys.snd));
    frame, stopped := e.WriteStreamFrame(stream, streamId, flightSpace, bufferSpace, buf);
    SendingIsHandled(c, i, flightSpace - overhead, stream.sender.State(), e.remoteMaxDataUsed, frame);
  }

  lemma SenderHolds(c: FlowControl.Connection, i: nat)
    requires FlowControl.Inv(c) && i < |c.streams|
    ensures SenderInv(c.streams[i].sys.snd)
  {
    assert FlowControl.StreamInv(c.streams[i]);
    hide SenderInv;
  }

  /** Handling a STREAM frame that an honest sender put in flight is the receiving step, and never an error. */
  method ReceiveStep(e: FlowEndpoint, stream: QuicStream, frame: Frame, ghost c: FlowControl.Connection, ghost i: nat, ghost k: nat)
    returns (r: FrameResult)
    requires FlowControl.Inv(c) && ReceivingSide(c, i, e, stream) && !c.streams[i].discarded
    requires k < |c.streams[i].sys.snd.sent| && frame == c.streams[i].sys.snd.sent[k]
    modifies e.localMaxData`used, stream.receiver, stream.receiver.ranges
    ensures r.Accepted?
    ensures ReceivingSide(FlowControl.Step(c, FlowControl.FrameArrives(i, k)), i, e, stream)
  {
    ReceivingIsHandled(c, i, k);
    hide FlowControl.Inv, FlowControl.Step, Handle;
    r := e.HandleStreamFrame(stream, frame);
  }

  /** Announcing a limit is the step that raises it, and puts it among the offers when there is room. */
  method LimitStep(e: FlowEndpoint, stream: QuicStream, fits: bool, ghost c: FlowControl.Connection, ghost i: nat)
    returns (announced: Option<nat>, stopped: bool)
    requires FlowControl.Inv(c) && ReceivingSide(c, i, e, stream)
    modifies e.localMaxData`value, e.localMaxData`sent
    ensures var next := FlowControl.Step(c, if stopped then FlowControl.MaxDataDelayed else FlowControl.WriteMaxData);
            && ReceivingSide(next, i, e, stream)
            && next.offers == if announced.Some? then c.offers + {announced.value} else c.offers
  {
    announced, stopped := e.WriteConnectionLimit(fits);
  }

  method StreamLimitStep(e: FlowEndpoint, stream: QuicStream, fits: bool, ghost c: FlowControl.Connection, ghost i: nat)
    returns (announced: Option<nat>, stopped: bool)
    requires FlowControl.Inv(c) && ReceivingSide(c, i, e, stream)
    modifies stream`maxStreamDataLocal, stream`maxStreamDataLocalSent
    ensures var a := if stopped then FlowControl.MaxStreamDataDelayed(i) else FlowControl.WriteMaxStreamData(i);
            var next := FlowControl.Step(c, a);
            && ReceivingSide(next, i, e, stream)
            && next.streams[i].offers ==
               if announced.Some? then c.streams[i].offers + {announced.value} else c.streams[i].offers
  {
    announced, stopped := e.WriteStreamLimit(stream, fits);
  }

  /** So are the arrival of an offer and a report on one. */
  method OfferStep(e: FlowEndpoint, stream: QuicStream, v: nat, ofStream: bool, ghost c: FlowControl.Connection, ghost i: nat)
    requires FlowControl.Inv(c) && SendingSide(c, i, e, stream) && v in if ofStream then c.streams[i].offers else c.offers
    modifies e`remoteMaxData, stream`maxStreamDataRemote
    ensures var a := if ofStream then FlowControl.MaxStreamDataArrives(i, v) else FlowControl.MaxDataArrives(v);
            SendingSide(FlowControl.Step(c, a), i, e, stream)
  {
    hide FlowControl.Inv, Canonical, Elements;
    if ofStream {
      e.HandleMaxStreamData(stream, v);
    } else {
      e.HandleMaxData(v);
    }
  }

  method LostOfferStep(e: FlowEndpoint, stream: QuicStream, ofStream: bool, ghost c: FlowControl.Connection, ghost i: nat)
    requires FlowControl.Inv(c) && ReceivingSide(c, i, e, stream)
    modifies e.localMaxData`sent, stream`maxStreamDataLocalSent
    ensures ReceivingSide(FlowControl.Step(c, if ofStream then FlowControl.MaxStreamDataLost(i) else FlowControl.MaxDataLost), i, e, stream)
  {
    if ofStream {
      e.OnStreamLimitDelivery(stream, Lost);
    } else {
      e.OnConnectionLimitDelivery(Lost);
    }
  }

  lemma SendingIsHandled(c: FlowControl.Connection, i: nat, maxSize: int, now: Sender, used: int, frame: Option<Frame>)
    requires FlowControl.Inv(c) && i < |c.streams| && SenderInv(c.streams[i].sys.snd)
    requires var was := c.streams[i].sys.snd;
             && (now, frame) == GetFrame(was, maxSize, Some(Min(was.highest + c.remoteMax - c.remoteUsed, c.streams[i].credit)))
             && used == c.remoteUsed + now.highest - was.highest
    ensures var next := FlowControl.Step(c, FlowControl.SendFrame(i, maxSize));
            && |next.streams| == |c.streams|
            && next.streams[i].sys.snd == now && next.streams[i].credit == c.streams[i].credit
            && next.remoteUsed == used && next.remoteMax == c.remoteMax
  {
    hide GetFrame, Conserved, Accurate, FinTracked;
    assert FlowControl.StreamInv(c.streams[i]);
    hide FlowControl.Inv, FlowControl.StreamInv, StreamRuns.Inv, SenderInv;
  }

  lemma ReceivingIsHandled(c: FlowControl.Connection, i: nat, k: nat)
    requires FlowControl.Inv(c) && i < |c.streams| && k < |c.streams[i].sys.snd.sent| && !c.streams[i].discarded
    ensures var s, now := c.streams[i], FlowControl.Step(c, FlowControl.FrameArrives(i, k));
            var (rcv, used, result) := Received(s.sys.rcv, s.local, c.local, s.sys.snd.sent[k]);
            && result.Accepted? && |now.streams| == |c.streams|
            && now.streams[i].sys.rcv == rcv && now.local == c.local.(used := used)
            && now.streams[i].local == s.local && now.streams[i].localSent == s.localSent
  {
    var s := c.streams[i];
    assert FlowControl.StreamInv(s);
    FlowControl.RoomForFrame(c, i, k);
    ArrivalAccepted(s.sys, k);
    hide FlowControl.Inv, FlowControl.StreamInv, StreamRuns.Inv, StreamRuns.Step, Handle;
  }

  /** No frame an honest sender put in flight raises FinalSizeError. */
  lemma ArrivalAccepted(y: StreamRuns.System, k: nat)
    requires StreamRuns.Inv(y) && k < |y.snd.sent|
    ensures Handle(y.rcv, y.snd.sent[k]).Handled?
    ensures StreamRuns.Step(y, StreamRuns.Arrive(k)).rcv == Handle(y.rcv, y.snd.sent[k]).next
    ensures !StreamRuns.Step(y, StreamRuns.Arrive(k)).failed && !y.failed
  {
    StreamRuns.StepKeeps(y, StreamRuns.Arrive(k));
    hide SenderInv, Handle;
  }
}
