/**
 Connection and stream credit between two honest endpoints (quic/connection.py), in one
 direction: the left endpoint sends stream data, the right endpoint receives it and raises
 limits. Streams are numbered in the order they are opened; STREAM frames, MAX_DATA and
 MAX_STREAM_DATA may be lost, duplicated and reordered. A limit that is raised when there
 is no room for its frame is announced later.
 */
module FlowControl {
  import opened Common
  import opened StreamSpec
  import StreamRuns

  datatype Stream = Stream(
    sys: StreamRuns.System,  // sender, receiver and the frames between them
    credit: nat,             // sender side: max_stream_data_remote
    local: nat,              // receiver side: max_stream_data_local
    localSent: nat,          // receiver side: max_stream_data_local_sent
    offers: set<nat>,        // MAX_STREAM_DATA values ever sent for this stream
    discarded: bool)         // receiver side: finished and forgotten

  datatype Limit = Limit(value: nat, sent: nat, used: nat)

  datatype Connection = Connection(
    streams: seq<Stream>,
    remoteMax: nat,     // sender side: _remote_max_data
    remoteUsed: int,    // sender side: _remote_max_data_used
    local: Limit,       // receiver side: _local_max_data
    offers: set<nat>,   // MAX_DATA values ever sent
    violated: bool)     // a FLOW_CONTROL_ERROR or FINAL_SIZE_ERROR was raised

  function Init(maxData: nat): Connection {
    Connection([], maxData, 0, Limit(maxData, maxData, 0), {}, false)
  }

  datatype Action =
    | Open(maxStreamData: nat)
    | AppWrite(i: nat, data: seq<byte>, end: bool)
    | SendFrame(i: nat, maxSize: int)
    | FrameArrives(i: nat, k: nat)
    | Report(i: nat, k: nat, d: Delivery)
    | WriteMaxData
    | WriteMaxStreamData(i: nat)
    | MaxDataDelayed
    | MaxStreamDataDelayed(i: nat)
    | MaxDataLost
    | MaxStreamDataLost(i: nat)
    | MaxDataArrives(v: nat)
    | MaxStreamDataArrives(i: nat, v: nat)
    | Discard(i: nat)

  predicate Enabled(c: Connection, a: Action) {
    match a
    case Open(_) => true
    case AppWrite(i, _, _) => i < |c.streams| && !c.streams[i].sys.snd.fin
    case SendFrame(i, _) => i < |c.streams|
    case FrameArrives(i, k) => i < |c.streams| && k < |c.streams[i].sys.snd.sent|
    case Report(i, k, _) => i < |c.streams| && k in c.streams[i].sys.snd.open
    case WriteMaxData => true
    case WriteMaxStreamData(i) => i < |c.streams|
    case MaxDataDelayed => true
    case MaxStreamDataDelayed(i) => i < |c.streams|
    case MaxDataLost => true
    case MaxStreamDataLost(i) => i < |c.streams|
    case MaxDataArrives(v) => v in c.offers
    case MaxStreamDataArrives(i, v) => i < |c.streams| && v in c.streams[i].offers
    case Discard(i) => i < |c.streams| && c.streams[i].sys.rcv.finished
  }

  /** Double a limit once more than half of it is used. */
  function Raised(value: nat, used: nat): nat { if used * 2 > value then value * 2 else value }

  /** The highest offset a STREAM frame may reach. */
  function MaxOffset(c: Connection, s: Stream): int {
    Min(s.sys.snd.highest + c.remoteMax - c.remoteUsed, s.credit)
  }

  ghost function Step(c: Connection, a: Action): Connection
    requires Inv(c) && Enabled(c, a)
  {
    match a
    case Open(max) => c.(streams := c.streams + [Stream(StreamRuns.NEW_SYSTEM, max, max, max, {}, false)])
    case AppWrite(i, data, end) => OnStream(c, i, StreamRuns.DoWrite(data, end))
    case SendFrame(i, maxSize) => Sending(c, i, maxSize)
    case FrameArrives(i, k) => Receiving(c, i, k)
    case Report(i, k, d) => OnStream(c, i, StreamRuns.Report(k, d))
    case WriteMaxData =>
      var value := Raised(c.local.value, c.local.used);
      c.(local := c.local.(value := value, sent := value),
         offers := if value != c.local.sent then c.offers + {value} else c.offers)
    case WriteMaxStreamData(i) =>
      var s := c.streams[i];
      var value := Raised(s.local, s.sys.rcv.highest);
      Put(c, i, s.(local := value, localSent := value,
                   offers := if value != s.localSent then s.offers + {value} else s.offers))
    case MaxDataDelayed => c.(local := c.local.(value := Raised(c.local.value, c.local.used)))
    case MaxStreamDataDelayed(i) =>
      var s := c.streams[i];
      Put(c, i, s.(local := Raised(s.local, s.sys.rcv.highest)))
    case MaxDataLost => c.(local := c.local.(sent := 0))
    case MaxStreamDataLost(i) => Put(c, i, c.streams[i].(localSent := 0))
    case MaxDataArrives(v) => c.(remoteMax := Max(c.remoteMax, v))
    case MaxStreamDataArrives(i, v) => Put(c, i, c.streams[i].(credit := Max(c.streams[i].credit, v)))
    case Discard(i) => Put(c, i, c.streams[i].(discarded := true))
  }

  function Put(c: Connection, i: nat, s: Stream): Connection
    requires i < |c.streams|
  {
    c.(streams := c.streams[i := s])
  }

  ghost function OnStream(c: Connection, i: nat, a: StreamRuns.Action): Connection
    requires i < |c.streams| && StreamRuns.Inv(c.streams[i].sys) && StreamRuns.Enabled(c.streams[i].sys, a)
  {
    Put(c, i, c.streams[i].(sys := StreamRuns.Step(c.streams[i].sys, a)))
  }

  ghost function Sending(c: Connection, i: nat, maxSize: int): Connection
    requires i < |c.streams| && StreamRuns.Inv(c.streams[i].sys)
  {
    var s := c.streams[i];
    var c' := OnStream(c, i, StreamRuns.Send(maxSize, Some(MaxOffset(c, s))));
    c'.(remoteUsed := c.remoteUsed + c'.streams[i].sys.snd.highest - s.sys.snd.highest)
  }

  /** Both limits are checked before the frame is processed; a discarded stream ignores it. */
  ghost function Receiving(c: Connection, i: nat, k: nat): Connection
    requires i < |c.streams| && k < |c.streams[i].sys.snd.sent| && StreamRuns.Inv(c.streams[i].sys)
  {
    var s := c.streams[i];
    var end := s.sys.snd.sent[k].End();
    var newly := Max(0, end - s.sys.rcv.highest);
    if s.discarded then c
    else if end > s.local || c.local.used + newly > c.local.value then c.(violated := true)
    else
      var c' := OnStream(c, i, StreamRuns.Arrive(k));
      c'.(local := c.local.(used := c.local.used + newly), violated := c.violated || c'.streams[i].sys.failed)
  }

  function TotalSent(ss: seq<Stream>): nat {
    if ss == [] then 0 else ss[0].sys.snd.highest + TotalSent(ss[1..])
  }

  function TotalReceived(ss: seq<Stream>): nat {
    if ss == [] then 0 else ss[0].sys.rcv.highest + TotalReceived(ss[1..])
  }

  ghost predicate StreamInv(s: Stream) {
    && StreamRuns.Inv(s.sys)
    && s.sys.snd.highest <= s.credit <= s.local
    && (forall v | v in s.offers :: v <= s.local)
  }

  ghost predicate Inv(c: Connection) {
    && (forall i | 0 <= i < |c.streams| :: StreamInv(c.streams[i]))
    && TotalReceived(c.streams) == c.local.used
    && TotalSent(c.streams) == c.remoteUsed <= c.remoteMax <= c.local.value
    && (forall v | v in c.offers :: v <= c.local.value)
    && !c.violated
  }

  lemma {:induction false} TotalsAfter(ss: seq<Stream>, i: nat, s: Stream)
    requires i < |ss|
    ensures TotalSent(ss[i := s]) == TotalSent(ss) - ss[i].sys.snd.highest + s.sys.snd.highest
    ensures TotalReceived(ss[i := s]) == TotalReceived(ss) - ss[i].sys.rcv.highest + s.sys.rcv.highest
  {
    if i == 0 {
      assert ss[i := s][1..] == ss[1..];
    } else {
      assert ss[i := s][1..] == ss[1..][i - 1 := s];
      TotalsAfter(ss[1..], i - 1, s);
    }
  }

  lemma {:induction false} TotalsAppend(ss: seq<Stream>, s: Stream)
    ensures TotalSent(ss + [s]) == TotalSent(ss) + s.sys.snd.highest
    ensures TotalReceived(ss + [s]) == TotalReceived(ss) + s.sys.rcv.highest
  {
    if ss == [] {
      assert ss + [s] == [s];
    } else {
      assert (ss + [s])[1..] == ss[1..] + [s];
      TotalsAppend(ss[1..], s);
    }
  }

  /** No receiver has seen beyond what its sender sent, so neither have all of them together. */
  lemma {:induction false} ReceivedWithinSent(ss: seq<Stream>)
    requires forall i | 0 <= i < |ss| :: ss[i].sys.rcv.highest <= ss[i].sys.snd.highest
    ensures TotalReceived(ss) <= TotalSent(ss)
  {
    if ss != [] {
      ReceivedWithinSent(ss[1..]);
    }
  }

  lemma PutKeeps(c: Connection, i: nat, s: Stream, c': Connection)
    requires Inv(c) && i < |c.streams| && StreamInv(s)
    requires c'.streams == c.streams[i := s] && !c'.violated && c'.offers == c.offers
    requires c'.remoteMax == c.remoteMax && c'.local.value == c.local.value
    requires c'.remoteUsed == c.remoteUsed + s.sys.snd.highest - c.streams[i].sys.snd.highest <= c.remoteMax
    requires c'.local.used == c.local.used + s.sys.rcv.highest - c.streams[i].sys.rcv.highest
    ensures Inv(c')
  {
    hide StreamInv;
    TotalsAfter(c.streams, i, s);
  }

  /** New data fits both credits, and a frame without data reveals nothing new. */
  lemma SendingKeeps(c: Connection, i: nat, maxSize: int)
    requires Inv(c) && i < |c.streams|
    ensures Inv(Sending(c, i, maxSize))
  {
    var s := c.streams[i];
    assert StreamInv(s);
    var offset := Some(MaxOffset(c, s));
    var c' := Sending(c, i, maxSize);
    StreamRuns.StepKeeps(s.sys, StreamRuns.Send(maxSize, offset));
    SentWithin(s.sys.snd, maxSize, offset.value);
    hide Inv, StreamRuns.Inv, SenderInv;
    assert StreamInv(c'.streams[i]);
    PutKeeps(c, i, c'.streams[i], c');
  }

  lemma SentWithin(s: Sender, maxSize: int, maxOffset: int)
    requires SenderInv(s)
    ensures s.highest <= GetFrame(s, maxSize, Some(maxOffset)).0.highest <= Max(s.highest, maxOffset)
  {
    FrameShape(s, maxSize, Some(maxOffset));
    assert s.highest < |s.written| ==> s.highest in Span(s.highest, |s.written|);
  }

  lemma RoomForFrame(c: Connection, i: nat, k: nat)
    requires Inv(c) && i < |c.streams| && k < |c.streams[i].sys.snd.sent|
    ensures var s := c.streams[i];
            var end := s.sys.snd.sent[k].End();
            end <= s.local && c.local.used + Max(0, end - s.sys.rcv.highest) <= c.local.value
  {
    var s := c.streams[i];
    var end := s.sys.snd.sent[k].End();
    assert StreamInv(s);
    var t := s.(sys := s.sys.(rcv := s.sys.rcv.(highest := Max(s.sys.rcv.highest, end))));
    var ss := c.streams[i := t];
    forall j | 0 <= j < |ss|
      ensures ss[j].sys.rcv.highest <= ss[j].sys.snd.highest
    {
      assert StreamInv(c.streams[j]);
    }
    TotalsAfter(c.streams, i, t);
    ReceivedWithinSent(ss);
  }

  /** Neither limit check ever fires on a frame an honest sender put in flight. */
  lemma ReceivingKeeps(c: Connection, i: nat, k: nat)
    requires Inv(c) && i < |c.streams| && k < |c.streams[i].sys.snd.sent|
    ensures Inv(Receiving(c, i, k))
  {
    var s := c.streams[i];
    assert StreamInv(s);
    RoomForFrame(c, i, k);
    StreamRuns.StepKeeps(s.sys, StreamRuns.Arrive(k));
    if !s.discarded {
      var c' := Receiving(c, i, k);
      hide Inv, StreamRuns.Inv, SenderInv;
      assert StreamInv(c'.streams[i]);
      PutKeeps(c, i, c'.streams[i], c');
    }
  }

  lemma OnStreamKeeps(c: Connection, i: nat, a: StreamRuns.Action)
    requires Inv(c) && i < |c.streams| && StreamRuns.Enabled(c.streams[i].sys, a) && (a.DoWrite? || a.Report?)
    ensures Inv(OnStream(c, i, a))
  {
    var s := c.streams[i];
    assert StreamInv(s);
    StreamRuns.StepKeeps(s.sys, a);
    var c' := OnStream(c, i, a);
    hide Inv, StreamRuns.Inv, SenderInv;
    PutKeeps(c, i, c'.streams[i], c');
  }

  lemma OpenKeeps(c: Connection, s: Stream)
    requires Inv(c) && s.sys == StreamRuns.NEW_SYSTEM && s.credit == s.local && s.offers == {}
    ensures Inv(c.(streams := c.streams + [s]))
  {
    TotalsAppend(c.streams, s);
    StreamRuns.StartHolds();
  }

  lemma LimitStepKeeps(c: Connection, a: Action)
    requires Inv(c) && Enabled(c, a)
    requires a.WriteMaxData? || a.WriteMaxStreamData? || a.MaxDataDelayed? || a.MaxStreamDataDelayed? || a.MaxDataLost? || a.MaxStreamDataLost?
             || a.MaxDataArrives? || a.MaxStreamDataArrives? || a.Discard?
    ensures Inv(Step(c, a))
  {
    hide StreamRuns.Inv;
    if a.WriteMaxStreamData? || a.MaxStreamDataDelayed? || a.MaxStreamDataLost? || a.MaxStreamDataArrives? || a.Discard? {
      assert StreamInv(c.streams[a.i]);
      PutKeeps(c, a.i, Step(c, a).streams[a.i], Step(c, a));
    }
  }

  lemma StepKeeps(c: Connection, a: Action)
    requires Inv(c) && Enabled(c, a)
    ensures Inv(Step(c, a))
  {
    hide Inv;
    match a
    case Open(max) => OpenKeeps(c, Stream(StreamRuns.NEW_SYSTEM, max, max, max, {}, false));
    case AppWrite(i, data, end) => OnStreamKeeps(c, i, StreamRuns.DoWrite(data, end));
    case SendFrame(i, maxSize) => SendingKeeps(c, i, maxSize);
    case FrameArrives(i, k) => ReceivingKeeps(c, i, k);
    case Report(i, k, d) => OnStreamKeeps(c, i, StreamRuns.Report(k, d));
    case _ => LimitStepKeeps(c, a);
  }

  // ---- Runs ----

  ghost predicate Legal(maxData: nat, acts: seq<Action>)
    decreases |acts|, 0
  {
    acts == [] || (Legal(maxData, acts[..|acts| - 1]) &&
                   Enabled(Run(maxData, acts[..|acts| - 1]), acts[|acts| - 1]))
  }

  ghost function Run(maxData: nat, acts: seq<Action>): (c: Connection)
    requires Legal(maxData, acts)
    ensures Inv(c)
    decreases |acts|, 1
  {
    if acts == [] then Init(maxData) else
      StepKeeps(Run(maxData, acts[..|acts| - 1]), acts[|acts| - 1]);
      Step(Run(maxData, acts[..|acts| - 1]), acts[|acts| - 1])
  }

  /**
   In every run: what the receiver counts is what its streams saw, what the sender counts is
   what its streams sent, credit is never exceeded on either level, and no check ever fires.
   */
  lemma CreditIsRespected(maxData: nat, acts: seq<Action>)
    requires Legal(maxData, acts)
    ensures var c := Run(maxData, acts);
            && !c.violated
            && TotalReceived(c.streams) == c.local.used <= c.remoteUsed == TotalSent(c.streams)
            && c.remoteUsed <= c.remoteMax <= c.local.value
            && (forall i | 0 <= i < |c.streams| :: var s := c.streams[i];
                  s.sys.rcv.highest <= s.sys.snd.highest <= s.credit <= s.local)
  {
    var c := Run(maxData, acts);
    forall i | 0 <= i < |c.streams|
      ensures c.streams[i].sys.rcv.highest <= c.streams[i].sys.snd.highest
    {
      assert StreamInv(c.streams[i]);
    }
    ReceivedWithinSent(c.streams);
  }
}
