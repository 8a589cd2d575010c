/** Limits are raised, so a transfer can always go on (quic/connection.py). */
module FlowProgress {
  import opened Common
  import opened StreamSpec
  import S = StreamRuns
  import opened FlowControl

  // ---- What more holds in every run ----

  /** Everything up to the highest offset sent was in some frame. */
  ghost predicate Covered(s: Sender) {
    forall x | 0 <= x < s.highest :: WasSent(s, x)
  }

  ghost predicate WasSent(s: Sender, x: int) { exists k :: 0 <= k < |s.sent| && x in s.sent[k].Offsets() }

  ghost predicate StreamMore(s: Stream) {
    && Covered(s.sys.snd) && s.localSent <= s.local
    && (s.localSent in s.offers || s.localSent <= s.credit)
    && (s.discarded ==> s.sys.rcv.finished)
  }

  ghost predicate More(c: Connection) {
    && (forall i | 0 <= i < |c.streams| :: StreamMore(c.streams[i]))
    && c.local.sent <= c.local.value && (c.local.sent in c.offers || c.local.sent <= c.remoteMax)
  }

  lemma WriteCovers(s: Sender, data: seq<byte>, end: bool)
    requires !s.fin && Covered(s)
    ensures Covered(Write(s, data, end))
  {
    forall x | 0 <= x < s.highest
      ensures WasSent(Write(s, data, end), x)
    {
      assert WasSent(s, x);
    }
  }

  lemma FrameCovers(s: Sender, maxSize: int, maxOffset: Option<int>)
    requires SenderInv(s) && Covered(s)
    ensures Covered(GetFrame(s, maxSize, maxOffset).0)
  {
    FrameShape(s, maxSize, maxOffset);
    StartsWithin(s, maxSize, maxOffset);
    var (t, frame) := GetFrame(s, maxSize, maxOffset);
    hide SenderInv, GetFrame, CutFrom;
    forall x | 0 <= x < t.highest
      ensures WasSent(t, x)
    {
      if x < s.highest {
        assert WasSent(s, x);
        var k :| 0 <= k < |s.sent| && x in s.sent[k].Offsets();
        assert t.sent[k] == s.sent[k];
      } else {
        assert x in t.sent[|s.sent|].Offsets();
      }
    }
  }

  /** A frame starts at or below the highest offset sent. */
  lemma StartsWithin(s: Sender, maxSize: int, maxOffset: Option<int>)
    requires SenderInv(s)
    ensures var frame := GetFrame(s, maxSize, maxOffset).1; frame.Some? ==> frame.value.offset <= s.highest
  {
    hide FinTracked;
    assert s.highest < |s.written| ==> s.highest in Span(s.highest, |s.written|);
    assert s.pending != {} ==> Least(s.pending) in Span(s.start, |s.written|);
  }

  lemma ReportCovers(s: Sender, d: Delivery, k: nat)
    requires k < |s.sent| && Covered(s)
    ensures Covered(OnDelivery(s, d, k))
  {
    forall x | 0 <= x < s.highest
      ensures WasSent(OnDelivery(s, d, k), x)
    {
      assert WasSent(s, x);
    }
  }

  lemma SystemCovers(y: S.System, a: S.Action)
    requires S.Inv(y) && S.Enabled(y, a) && Covered(y.snd)
    ensures Covered(S.Step(y, a).snd)
    ensures y.rcv.finished ==> S.Step(y, a).rcv.finished
  {
    hide Covered, S.Faithful, S.Ending, S.Trusting, S.Announced, GetFrame;
    match a
    case DoWrite(data, end) => WriteCovers(y.snd, data, end);
    case Send(maxSize, maxOffset) => FrameCovers(y.snd, maxSize, maxOffset);
    case Arrive(k) => hide Front, Fresh;
    case Report(k, d) => ReportIndex(y.snd, k); ReportCovers(y.snd, d, k);
  }

  lemma ReportIndex(s: Sender, k: nat)
    requires SenderInv(s) && k in s.open
    ensures k < |s.sent|
  {
  }

  lemma StreamStepMore(c: Connection, d: Connection, i: nat, a: S.Action)
    requires More(c) && i < |c.streams| && S.Inv(c.streams[i].sys) && S.Enabled(c.streams[i].sys, a)
    requires |d.streams| == |c.streams| && d.streams == c.streams[i := d.streams[i]]
    requires d.streams[i] == c.streams[i].(sys := S.Step(c.streams[i].sys, a))
    requires d.local.sent == c.local.sent && d.local.value == c.local.value && d.offers == c.offers && d.remoteMax == c.remoteMax
    ensures More(d)
  {
    SystemCovers(c.streams[i].sys, a);
    hide S.Inv, S.Step, S.Enabled, Covered;
  }

  /** Only the streams and limits that an action is about change. */
  lemma StepMore(c: Connection, a: Action)
    requires Inv(c) && More(c) && Enabled(c, a)
    ensures More(Step(c, a))
  {
    hide S.Inv, S.Step, Covered, More, StreamInv;
    match a
    case AppWrite(i, data, end) => InvOf(c, i); StreamStepMore(c, Step(c, a), i, S.DoWrite(data, end));
    case SendFrame(i, maxSize) =>
      InvOf(c, i);
      StreamStepMore(c, Step(c, a), i, S.Send(maxSize, Some(MaxOffset(c, c.streams[i]))));
    case FrameArrives(i, k) =>
      InvOf(c, i);
      RoomForFrame(c, i, k);
      if !c.streams[i].discarded { StreamStepMore(c, Step(c, a), i, S.Arrive(k)); }
    case Report(i, k, d) => InvOf(c, i); StreamStepMore(c, Step(c, a), i, S.Report(k, d));
    case _ => LimitMore(c, a);
  }

  lemma LimitMore(c: Connection, a: Action)
    requires Inv(c) && More(c) && Enabled(c, a) && !a.AppWrite? && !a.SendFrame? && !a.FrameArrives? && !a.Report?
    ensures More(Step(c, a))
  {
    hide S.Inv, S.Step, Covered, Inv;
    assert Covered(NEW_SENDER) by { NothingToCover(); }
  }

  lemma NothingToCover()
    ensures Covered(NEW_SENDER)
  {
  }

  lemma {:induction false} RunMore(maxData: nat, acts: seq<Action>)
    requires Legal(maxData, acts)
    ensures More(Run(maxData, acts))
    decreases |acts|
  {
    hide Step, More;
    if acts != [] {
      RunMore(maxData, acts[..|acts| - 1]);
      StepMore(Run(maxData, acts[..|acts| - 1]), acts[|acts| - 1]);
    } else {
      assert More(Init(maxData)) by { InitMore(maxData); }
    }
  }

  lemma InitMore(maxData: nat)
    ensures More(Init(maxData))
  {
  }

  // ---- Going on from a run ----

  lemma Append(maxData: nat, acts: seq<Action>, a: Action)
    requires Legal(maxData, acts) && Enabled(Run(maxData, acts), a)
    ensures Legal(maxData, acts + [a]) && Run(maxData, acts + [a]) == Step(Run(maxData, acts), a) && acts <= acts + [a]
  {
    hide Step, Enabled;
    assert (acts + [a])[..|acts|] == acts;
  }

  /** Nothing but the receivers has moved, and those only forward. */
  ghost predicate OnlyReceived(c: Connection, d: Connection) {
    && |d.streams| == |c.streams| && d.remoteMax == c.remoteMax && d.remoteUsed == c.remoteUsed && d.local.value == c.local.value
    && forall i | 0 <= i < |c.streams| ::
         && d.streams[i].sys.snd == c.streams[i].sys.snd && d.streams[i].credit == c.streams[i].credit
         && d.streams[i].local == c.streams[i].local && c.streams[i].sys.out <= d.streams[i].sys.out
         && c.streams[i].sys.rcv.highest <= d.streams[i].sys.rcv.highest
  }

  lemma OnlyReceivedTwice(c: Connection, d: Connection, e: Connection)
    requires OnlyReceived(c, d) && OnlyReceived(d, e)
    ensures OnlyReceived(c, e)
  {
    forall i | 0 <= i < |c.streams|
      ensures c.streams[i].sys.out <= e.streams[i].sys.out
    {
      assert c.streams[i].sys.out <= d.streams[i].sys.out <= e.streams[i].sys.out;
    }
  }

  /** A frame of a stream that is not discarded arrives without an error. */
  lemma ArrivalGoesOn(c: Connection, i: nat, k: nat)
    requires Inv(c) && i < |c.streams| && k < |c.streams[i].sys.snd.sent| && !c.streams[i].discarded
    ensures var d := Step(c, FrameArrives(i, k));
            && OnlyReceived(c, d) && d.streams[i].sys == S.Step(c.streams[i].sys, S.Arrive(k))
            && d.streams[i].sys.rcv.highest == Max(c.streams[i].sys.rcv.highest, c.streams[i].sys.snd.sent[k].End())
  {
    hide S.Inv, S.Step, StreamInv, OnlyReceived;
    RoomForFrame(c, i, k);
    assert S.Inv(c.streams[i].sys) by { InvOf(c, i); }
    ArrivalIs(c.streams[i].sys, k);
    hide Inv;
    ReceivedOn(c, Step(c, FrameArrives(i, k)), i);
  }

  lemma InvOf(c: Connection, i: nat)
    requires Inv(c) && i < |c.streams|
    ensures S.Inv(c.streams[i].sys)
  {
    assert StreamInv(c.streams[i]);
    hide S.Inv;
  }

  lemma ReceivedOn(c: Connection, d: Connection, i: nat)
    requires i < |c.streams| == |d.streams| && d.streams == c.streams[i := d.streams[i]]
    requires d.streams[i] == c.streams[i].(sys := d.streams[i].sys)
    requires d.remoteMax == c.remoteMax && d.remoteUsed == c.remoteUsed && d.local.value == c.local.value
    requires d.streams[i].sys.snd == c.streams[i].sys.snd && c.streams[i].sys.out <= d.streams[i].sys.out
    requires c.streams[i].sys.rcv.highest <= d.streams[i].sys.rcv.highest
    ensures OnlyReceived(c, d)
  {
  }

  lemma ArrivalIs(y: S.System, k: nat)
    requires S.Inv(y) && k < |y.snd.sent|
    ensures var z := S.Step(y, S.Arrive(k));
            && !z.failed && z.snd == y.snd && y.out <= z.out && z.heard == y.heard + {k}
            && z.rcv.highest == Max(y.rcv.highest, y.snd.sent[k].End())
  {
    S.ArrivalEnding(y, k);
    hide S.Faithful, S.Trusting, S.Announced, SenderInv, Front, Fresh;
  }

  /** Every frame of one stream has arrived at last. */
  lemma SettleStream(maxData: nat, acts: seq<Action>, i: nat) returns (more: seq<Action>)
    requires Legal(maxData, acts) && i < |Run(maxData, acts).streams|
    ensures acts <= more && Legal(maxData, more)
    ensures OnlyReceived(Run(maxData, acts), Run(maxData, more))
    ensures var y := Run(maxData, more).streams[i].sys; y.rcv.highest == y.snd.highest
  {
    hide Run, Legal, Step;
    var c := Run(maxData, acts);
    RunMore(maxData, acts);
    var s := c.streams[i];
    assert StreamInv(s) && StreamMore(s);
    WithinSent(s.sys);
    more := acts;
    if s.sys.rcv.highest < s.sys.snd.highest {
      NotDiscarded(s);
      assert WasSent(s.sys.snd, s.sys.snd.highest - 1);
      var k :| 0 <= k < |s.sys.snd.sent| && s.sys.snd.highest - 1 in s.sys.snd.sent[k].Offsets();
      assert s.sys.snd.sent[k].End() <= s.sys.snd.highest by { assert SenderInv(s.sys.snd); }
      ArrivalGoesOn(c, i, k);
      Append(maxData, acts, FrameArrives(i, k));
      more := acts + [FrameArrives(i, k)];
    }
  }

  lemma WithinSent(y: S.System)
    requires S.Inv(y)
    ensures y.rcv.highest <= y.snd.highest
    ensures y.rcv.finished ==> y.rcv.highest == y.snd.highest && y.out == y.snd.written
    ensures |y.out| <= y.snd.highest && y.out == y.snd.written[..|y.out|] && |y.out| <= |y.snd.written|
  {
    hide S.Trusting, S.Announced, Conserved, FinTracked;
    assert y.rcv.start > y.snd.highest ==> S.Received(y, y.snd.highest);
    if y.rcv.finished { assert y.rcv.start <= y.rcv.highest by { StartWithin(y); } }
  }

  lemma StartWithin(y: S.System)
    requires S.Inv(y)
    ensures y.rcv.start <= y.rcv.highest
  {
    hide S.Trusting, S.Announced, SenderInv;
    assert y.rcv.start > y.rcv.highest ==> S.Received(y, y.rcv.highest);
  }

  lemma NotDiscarded(s: Stream)
    requires StreamInv(s) && StreamMore(s) && (s.sys.rcv.highest < s.sys.snd.highest || |s.sys.out| < |s.sys.snd.written|)
    ensures !s.discarded
  {
    WithinSent(s.sys);
    hide S.Inv, Covered;
  }

  ghost predicate Settled(c: Connection, n: nat) {
    n <= |c.streams| && forall j | 0 <= j < n :: c.streams[j].sys.rcv.highest == c.streams[j].sys.snd.highest
  }

  lemma StillSettled(c: Connection, d: Connection, n: nat)
    requires Inv(d) && OnlyReceived(c, d) && Settled(c, n)
    ensures Settled(d, n)
  {
    forall j | 0 <= j < n
      ensures d.streams[j].sys.rcv.highest == d.streams[j].sys.snd.highest
    {
      assert StreamInv(d.streams[j]);
      hide StreamInv;
      WithinSent(d.streams[j].sys);
    }
  }

  lemma SameCount(c: Connection, d: Connection)
    requires OnlyReceived(c, d)
    ensures |c.streams| == |d.streams|
  {
  }

  /** Every frame of the first n streams has arrived at last. */
  lemma {:induction false} SettleSome(maxData: nat, acts: seq<Action>, n: nat) returns (more: seq<Action>)
    requires Legal(maxData, acts) && n <= |Run(maxData, acts).streams|
    ensures acts <= more && Legal(maxData, more)
    ensures OnlyReceived(Run(maxData, acts), Run(maxData, more)) && Settled(Run(maxData, more), n)
    decreases n
  {
    hide Run, Legal, OnlyReceived, StreamInv, Inv;
    if n == 0 {
      more := acts;
      NoChange(Run(maxData, acts));
    } else {
      var first := SettleSome(maxData, acts, n - 1);
      SameCount(Run(maxData, acts), Run(maxData, first));
      more := SettleStream(maxData, first, n - 1);
      SameCount(Run(maxData, first), Run(maxData, more));
      OnlyReceivedTwice(Run(maxData, acts), Run(maxData, first), Run(maxData, more));
      StillSettled(Run(maxData, first), Run(maxData, more), n - 1);
      assert acts <= first <= more;
    }
  }

  lemma NoChange(c: Connection)
    ensures OnlyReceived(c, c)
  {
  }

  /** Once everything has arrived, the receiver has used exactly what the sender has. */
  lemma {:induction false} SettledTotals(ss: seq<Stream>)
    requires forall j | 0 <= j < |ss| :: ss[j].sys.rcv.highest == ss[j].sys.snd.highest
    ensures TotalReceived(ss) == TotalSent(ss)
  {
    if ss != [] { SettledTotals(ss[1..]); }
  }

  // ---- Raising limits ----

  /** Only limits have moved, and only up. */
  ghost predicate OnlyRaised(c: Connection, d: Connection) {
    && |d.streams| == |c.streams| && d.remoteUsed == c.remoteUsed && d.remoteMax >= c.remoteMax && d.local.value >= c.local.value
    && forall i | 0 <= i < |c.streams| ::
         && d.streams[i].sys == c.streams[i].sys && d.streams[i].credit >= c.streams[i].credit
         && d.streams[i].local >= c.streams[i].local
  }

  /** A connection limit is raised past what was used, and the news arrives. */
  lemma RaiseConnection(maxData: nat, acts: seq<Action>) returns (more: seq<Action>)
    requires Legal(maxData, acts) && Run(maxData, acts).local.value > 0
    requires Settled(Run(maxData, acts), |Run(maxData, acts).streams|)
    ensures acts <= more && Legal(maxData, more) && OnlyRaised(Run(maxData, acts), Run(maxData, more))
    ensures Run(maxData, more).remoteMax > Run(maxData, more).remoteUsed
  {
    hide Run, Legal, StreamInv;
    var c := Run(maxData, acts);
    RunMore(maxData, acts);
    SettledTotals(c.streams);
    more := acts;
    if c.remoteMax == c.remoteUsed {
      Append(maxData, acts, WriteMaxData);
      more := acts + [WriteMaxData];
      var value := Raised(c.local.value, c.local.used);
      assert value in Run(maxData, more).offers;
      Append(maxData, more, MaxDataArrives(value));
      more := more + [MaxDataArrives(value)];
      assert acts <= more;
    }
  }

  /** A stream limit is raised past the highest offset sent, and the news arrives. */
  lemma RaiseStream(maxData: nat, acts: seq<Action>, i: nat) returns (more: seq<Action>)
    requires Legal(maxData, acts) && i < |Run(maxData, acts).streams| && Run(maxData, acts).streams[i].local > 0
    requires Settled(Run(maxData, acts), |Run(maxData, acts).streams|)
    ensures acts <= more && Legal(maxData, more) && OnlyRaised(Run(maxData, acts), Run(maxData, more))
    ensures var s := Run(maxData, more).streams[i]; s.credit > s.sys.snd.highest
  {
    hide Run, Legal, S.Inv, Covered;
    var c := Run(maxData, acts);
    RunMore(maxData, acts);
    assert StreamInv(c.streams[i]) && StreamMore(c.streams[i]);
    more := acts;
    if c.streams[i].credit == c.streams[i].sys.snd.highest {
      Append(maxData, acts, WriteMaxStreamData(i));
      more := acts + [WriteMaxStreamData(i)];
      var value := Raised(c.streams[i].local, c.streams[i].sys.rcv.highest);
      assert value in Run(maxData, more).streams[i].offers;
      Append(maxData, more, MaxStreamDataArrives(i, value));
      more := more + [MaxStreamDataArrives(i, value)];
      assert acts <= more;
    }
  }

  // ---- Sending what is new ----

  /** Bytes to be sent again come before new ones. */
  ghost function Resent(s: Sender): set<int> { set x | x in s.pending && x < s.highest }

  /** With credit and without a limit on the size, a frame is sent: it takes bytes to be resent, or reaches further. */
  lemma SendsOne(s: Sender, maxSize: int, maxOffset: int)
    requires SenderInv(s) && s.highest < |s.written| && maxOffset > s.highest && maxSize > |s.written|
    ensures var t := GetFrame(s, maxSize, Some(maxOffset)).0;
            && t.written == s.written
            && (t.highest > s.highest || (t.highest == s.highest && Resent(t) < Resent(s)))
  {
    assert s.highest in Span(s.highest, |s.written|);
    var start := Least(s.pending);
    assert start in Span(s.start, |s.written|);
    FrameShape(s, maxSize, Some(maxOffset));
    var (t, frame) := GetFrame(s, maxSize, Some(maxOffset));
    assert RunEnd(s.pending, start) > start by { assert start in s.pending; RunGoesOn(s.pending, start); }
    hide SenderInv, RunEnd;
    assert frame.Some? && frame.value.offset == start;
    assert start in frame.value.Offsets();
    if t.highest == s.highest {
      assert start < s.highest;
      assert start in Resent(s) && start !in Resent(t);
    }
  }

  /**
   Nothing is held back by a sender with bytes pending, given room for so many bytes, so much left on the connection
   and the credit of the stream: no frame is sent exactly when the first byte is beyond the credit of the stream, or new
   with none left on the connection; and a frame that stops before the end of the run of pending bytes fills the room
   or uses up one of the two.
   */
  ghost predicate SentAsFar(s: Sender, t: Sender, maxSize: int, left: int, credit: int)
    requires s.pending != {}
  {
    var first := Least(s.pending);
    && (t == s <==> first == credit || (first == s.highest && left == 0))
    && (t != s ==>
          && |t.sent| == |s.sent| + 1
          && var f := t.sent[|s.sent|];
             && f.offset == first && f.data != []
             && (f.End() !in s.pending || |f.data| == maxSize || f.End() == credit
                 || (f.End() == t.highest && t.highest - s.highest == left)))
  }

  /** One send takes as much as the room and both limits allow. */
  lemma SendsAllItMay(c: Connection, i: nat, maxSize: int)
    requires Inv(c) && i < |c.streams| && c.streams[i].sys.snd.pending != {} && maxSize > 0
    ensures var d := Step(c, SendFrame(i, maxSize));
            && i < |d.streams| && d.remoteMax == c.remoteMax
            && d.remoteUsed - c.remoteUsed == d.streams[i].sys.snd.highest - c.streams[i].sys.snd.highest
            && SentAsFar(c.streams[i].sys.snd, d.streams[i].sys.snd, maxSize, c.remoteMax - c.remoteUsed, c.streams[i].credit)
  {
    hide Step, Inv, SentAsFar, SenderInv, GetFrame;
    SendIsTaken(c, i, maxSize);
    SendsAsFar(c.streams[i].sys.snd, maxSize, c.remoteMax - c.remoteUsed, c.streams[i].credit);
  }

  lemma SendsAsFar(s: Sender, maxSize: int, left: nat, credit: int)
    requires SenderInv(s) && s.pending != {} && maxSize > 0 && s.highest <= credit
    ensures SentAsFar(s, GetFrame(s, maxSize, Some(Min(s.highest + left, credit))).0, maxSize, left, credit)
  {
    var limit := Some(Min(s.highest + left, credit));
    FrameReachesFar(s, maxSize, limit);
    FrameShape(s, maxSize, limit);
    LeastWithin(s);
    hide SenderInv, GetFrame, CutFrom;
  }

  lemma LeastWithin(s: Sender)
    requires SenderInv(s) && s.pending != {}
    ensures Least(s.pending) <= s.highest
  {
    assert s.highest < |s.written| ==> s.highest in Span(s.highest, |s.written|);
    assert Least(s.pending) in Span(s.start, |s.written|);
  }

  lemma SendIsTaken(c: Connection, i: nat, maxSize: int)
    requires Inv(c) && i < |c.streams|
    ensures var s, d := c.streams[i], Step(c, SendFrame(i, maxSize));
            && SenderInv(s.sys.snd) && s.sys.snd.highest <= s.credit && c.remoteUsed <= c.remoteMax == d.remoteMax
            && |d.streams| == |c.streams|
            && d.streams[i].sys.snd == GetFrame(s.sys.snd, maxSize, Some(MaxOffset(c, s))).0
            && d.remoteUsed - c.remoteUsed == d.streams[i].sys.snd.highest - s.sys.snd.highest
  {
    assert StreamInv(c.streams[i]);
    hide S.Faithful, S.Ending, S.Trusting, S.Announced, SenderInv, GetFrame;
  }

  lemma RunGoesOn(pending: set<int>, start: int)
    requires start in pending
    ensures RunEnd(pending, start) > start
  {
  }

  /** Nothing but one sender has moved. */
  ghost predicate OnlySent(c: Connection, d: Connection, i: nat) {
    && |d.streams| == |c.streams| && i < |c.streams| && d.remoteMax == c.remoteMax && d.local.value == c.local.value
    && d.remoteUsed - c.remoteUsed == d.streams[i].sys.snd.highest - c.streams[i].sys.snd.highest
    && d.streams[i].sys.snd.written == c.streams[i].sys.snd.written && d.streams[i].sys.out == c.streams[i].sys.out
    && d.streams[i].credit == c.streams[i].credit && d.streams[i].local == c.streams[i].local
    && d.streams[i].sys.snd.highest >= c.streams[i].sys.snd.highest
    && forall j | 0 <= j < |c.streams| :: d.streams[j].local == c.streams[j].local
  }

  /** Sending until something new has gone out. */
  lemma {:induction false} SendNew(maxData: nat, acts: seq<Action>, i: nat) returns (more: seq<Action>)
    requires Legal(maxData, acts) && i < |Run(maxData, acts).streams|
    requires var c := Run(maxData, acts);
             var s := c.streams[i];
             c.remoteMax > c.remoteUsed && s.credit > s.sys.snd.highest && s.sys.snd.highest < |s.sys.snd.written|
    ensures acts <= more && Legal(maxData, more) && OnlySent(Run(maxData, acts), Run(maxData, more), i)
    ensures Run(maxData, more).streams[i].sys.snd.highest > Run(maxData, acts).streams[i].sys.snd.highest
    decreases Resent(Run(maxData, acts).streams[i].sys.snd)
  {
    hide Run, Legal;
    var c := Run(maxData, acts);
    var s := c.streams[i];
    var a := SendFrame(i, |s.sys.snd.written| + 1);
    Append(maxData, acts, a);
    more := acts + [a];
    var d := Run(maxData, more);
    SendIs(c, i, a.maxSize);
    hide Step, Inv;
    if d.streams[i].sys.snd.highest == s.sys.snd.highest {
      var longer := SendNew(maxData, more, i);
      assert acts <= more <= longer;
      OnlySentTwice(c, d, Run(maxData, longer), i);
      more := longer;
    }
  }

  lemma OnlySentTwice(c: Connection, d: Connection, e: Connection, i: nat)
    requires OnlySent(c, d, i) && OnlySent(d, e, i)
    ensures OnlySent(c, e, i)
  {
  }

  lemma SendIs(c: Connection, i: nat, maxSize: int)
    requires Inv(c) && i < |c.streams|
    requires var s := c.streams[i];
             && c.remoteMax > c.remoteUsed && s.credit > s.sys.snd.highest && s.sys.snd.highest < |s.sys.snd.written|
             && maxSize > |s.sys.snd.written|
    ensures var d := Step(c, SendFrame(i, maxSize));
            && OnlySent(c, d, i)
            && (d.streams[i].sys.snd.highest > c.streams[i].sys.snd.highest
                || (d.streams[i].sys.snd.highest == c.streams[i].sys.snd.highest
                    && Resent(d.streams[i].sys.snd) < Resent(c.streams[i].sys.snd)))
  {
    var s := c.streams[i];
    assert StreamInv(s);
    SendsOne(s.sys.snd, maxSize, MaxOffset(c, s));
    hide StreamInv, S.Faithful, S.Ending, S.Trusting, S.Announced, SenderInv, GetFrame, Resent;
  }

  // ---- Delivering ----

  /** The next byte arrives, if it was ever sent. */
  lemma NextArrives(maxData: nat, acts: seq<Action>, i: nat) returns (more: seq<Action>)
    requires Legal(maxData, acts) && i < |Run(maxData, acts).streams|
    requires var y := Run(maxData, acts).streams[i].sys; |y.out| < y.snd.highest
    ensures acts <= more && Legal(maxData, more) && OnlyReceived(Run(maxData, acts), Run(maxData, more))
    ensures |Run(maxData, more).streams[i].sys.out| > |Run(maxData, acts).streams[i].sys.out|
  {
    hide Run, Legal, Step;
    var c := Run(maxData, acts);
    RunMore(maxData, acts);
    var s := c.streams[i];
    assert StreamInv(s) && StreamMore(s);
    assert |s.sys.out| < |s.sys.snd.written| by { assert SenderInv(s.sys.snd); }
    NotDiscarded(s);
    assert WasSent(s.sys.snd, |s.sys.out|);
    var k :| 0 <= k < |s.sys.snd.sent| && |s.sys.out| in s.sys.snd.sent[k].Offsets();
    ArrivalGoesOn(c, i, k);
    Append(maxData, acts, FrameArrives(i, k));
    more := acts + [FrameArrives(i, k)];
    HandsOver(s.sys, k);
  }

  lemma HandsOver(y: S.System, k: nat)
    requires S.Inv(y) && k < |y.snd.sent| && |y.out| in y.snd.sent[k].Offsets()
    ensures |S.Step(y, S.Arrive(k)).out| > |y.out|
  {
    S.StepKeeps(y, S.Arrive(k));
    ArrivalIs(y, k);
    var z := S.Step(y, S.Arrive(k));
    assert S.Heard(z, |y.out|) by { assert k in z.heard; }
    hide SenderInv, S.Trusting, S.Announced, S.Ending, S.Step, S.Heard;
    assert S.Received(z, |y.out|);
  }

  /** Limits have not shrunk, nothing was written on stream i, and its output has not shrunk. */
  ghost predicate Toward(c: Connection, d: Connection, i: nat) {
    && |d.streams| == |c.streams| && i < |c.streams| && d.local.value >= c.local.value && d.streams[i].local >= c.streams[i].local
    && d.streams[i].sys.snd.written == c.streams[i].sys.snd.written && |d.streams[i].sys.out| >= |c.streams[i].sys.out|
  }

  lemma StepsToward(c: Connection, d: Connection, i: nat)
    requires i < |c.streams| && (OnlyReceived(c, d) || OnlyRaised(c, d) || OnlySent(c, d, i))
    ensures Toward(c, d, i)
  {
  }

  lemma TowardTwice(c: Connection, d: Connection, e: Connection, i: nat)
    requires Toward(c, d, i) && Toward(d, e, i)
    ensures Toward(c, e, i)
  {
  }

  /** When all bytes sent were handed over and more were written, the limits are raised and the next bytes go out. */
  lemma SendNext(maxData: nat, acts: seq<Action>, i: nat) returns (more: seq<Action>)
    requires Legal(maxData, acts) && i < |Run(maxData, acts).streams|
    requires var c := Run(maxData, acts);
             c.local.value > 0 && c.streams[i].local > 0 && c.streams[i].sys.snd.highest < |c.streams[i].sys.snd.written|
    ensures acts <= more && Legal(maxData, more) && Toward(Run(maxData, acts), Run(maxData, more), i)
    ensures Run(maxData, more).streams[i].sys.snd.highest > Run(maxData, acts).streams[i].sys.snd.highest
  {
    hide Run, Legal, Inv, OnlyRaised, OnlySent, Settled;
    var c := Run(maxData, acts);
    var m1 := SettleSome(maxData, acts, |c.streams|);
    var c1 := Run(maxData, m1);
    StepsToward(c, c1, i);
    SameSender(c, c1, i);
    hide OnlyReceived;
    var m2 := RaiseConnection(maxData, m1);
    var c2 := Run(maxData, m2);
    StepsToward(c1, c2, i);
    RaisedKeeps(c1, c2, i);
    var m3 := RaiseStream(maxData, m2, i);
    var c3 := Run(maxData, m3);
    StepsToward(c2, c3, i);
    RaisedKeeps(c2, c3, i);
    more := SendNew(maxData, m3, i);
    StepsToward(c3, Run(maxData, more), i);
    TowardTwice(c, c1, c2, i);
    TowardTwice(c, c2, c3, i);
    TowardTwice(c, c3, Run(maxData, more), i);
    assert acts <= m1 <= m2 <= m3 <= more;
  }

  lemma SameSender(c: Connection, d: Connection, i: nat)
    requires OnlyReceived(c, d) && i < |c.streams|
    ensures d.streams[i].sys.snd == c.streams[i].sys.snd
  {
  }

  /** Raising keeps everything settled, and room stays room. */
  lemma RaisedKeeps(c: Connection, d: Connection, i: nat)
    requires OnlyRaised(c, d) && i < |c.streams|
    ensures d.streams[i].sys == c.streams[i].sys && (Settled(c, |c.streams|) ==> Settled(d, |d.streams|))
    ensures c.remoteMax > c.remoteUsed ==> d.remoteMax > d.remoteUsed
  {
  }

  /** Some byte more is handed over. */
  lemma Grow(maxData: nat, acts: seq<Action>, i: nat) returns (more: seq<Action>)
    requires Legal(maxData, acts) && i < |Run(maxData, acts).streams|
    requires var c := Run(maxData, acts);
             c.local.value > 0 && c.streams[i].local > 0 && |c.streams[i].sys.out| < |c.streams[i].sys.snd.written|
    ensures acts <= more && Legal(maxData, more) && Toward(Run(maxData, acts), Run(maxData, more), i)
    ensures |Run(maxData, more).streams[i].sys.out| > |Run(maxData, acts).streams[i].sys.out|
  {
    hide Run, Legal, Toward, OnlyReceived;
    var c := Run(maxData, acts);
    assert StreamInv(c.streams[i]);
    WithinSent(c.streams[i].sys);
    hide Inv, StreamInv;
    var before := acts;
    if c.streams[i].sys.snd.highest == |c.streams[i].sys.out| {
      before := SendNext(maxData, acts, i);
    } else {
      NoChange(c);
      StepsToward(c, c, i);
    }
    TowardSize(c, Run(maxData, before), i);
    if |Run(maxData, before).streams[i].sys.out| > |c.streams[i].sys.out| {
      more := before;
    } else {
      more := NextArrives(maxData, before, i);
      StepsToward(Run(maxData, before), Run(maxData, more), i);
      TowardTwice(c, Run(maxData, before), Run(maxData, more), i);
      assert acts <= before <= more;
    }
  }

  lemma TowardSize(c: Connection, d: Connection, i: nat)
    requires Toward(c, d, i)
    ensures |d.streams| == |c.streams| && i < |c.streams| && d.local.value >= c.local.value && d.streams[i].local >= c.streams[i].local
    ensures d.streams[i].sys.snd.written == c.streams[i].sys.snd.written && |d.streams[i].sys.out| >= |c.streams[i].sys.out|
  {
  }

  /** Everything written is handed over in the end. */
  lemma {:induction false} DeliverAll(maxData: nat, acts: seq<Action>, i: nat) returns (more: seq<Action>)
    requires Legal(maxData, acts) && i < |Run(maxData, acts).streams|
    requires Run(maxData, acts).local.value > 0 && Run(maxData, acts).streams[i].local > 0
    ensures acts <= more && Legal(maxData, more) && Toward(Run(maxData, acts), Run(maxData, more), i)
    ensures i < |Run(maxData, more).streams| && Run(maxData, more).streams[i].sys.out == Run(maxData, acts).streams[i].sys.snd.written
    decreases |Run(maxData, acts).streams[i].sys.snd.written| - |Run(maxData, acts).streams[i].sys.out|
  {
    hide Run, Legal, Toward;
    var c := Run(maxData, acts);
    assert StreamInv(c.streams[i]);
    WithinSent(c.streams[i].sys);
    hide Inv, StreamInv, OnlyReceived;
    if |c.streams[i].sys.out| == |c.streams[i].sys.snd.written| {
      more := acts;
      NoChange(c);
      StepsToward(c, c, i);
    } else {
      var next := Grow(maxData, acts, i);
      TowardSize(c, Run(maxData, next), i);
      more := DeliverAll(maxData, next, i);
      TowardTwice(c, Run(maxData, next), Run(maxData, more), i);
      TowardSize(c, Run(maxData, more), i);
      assert acts <= next <= more;
    }
  }

  // ---- What an attempt to announce does ----

  /** In plain arithmetic: a limit doubles exactly when more than half of it is used, and else stays. */
  lemma AttemptDoubles(c: Connection, i: nat)
    requires Inv(c) && i < |c.streams|
    ensures var d := Step(c, WriteMaxData);
            && (d.local.value == 2 * c.local.value <==> 2 * c.local.used > c.local.value || c.local.value == 0)
            && (2 * c.local.used <= c.local.value ==> d.local.value == c.local.value)
            && d.local.sent == d.local.value && (d.local.value != c.local.sent ==> d.local.value in d.offers)
    ensures var s, t := c.streams[i], Step(c, WriteMaxStreamData(i)).streams[i];
            && (t.local == 2 * s.local <==> 2 * s.sys.rcv.highest > s.local || s.local == 0)
            && (2 * s.sys.rcv.highest <= s.local ==> t.local == s.local)
            && t.localSent == t.local && (t.local != s.localSent ==> t.local in t.offers)
    ensures Step(c, MaxDataDelayed).local.value == Step(c, WriteMaxData).local.value
    ensures Step(c, MaxStreamDataDelayed(i)).streams[i].local == Step(c, WriteMaxStreamData(i)).streams[i].local
  {
    hide Inv;
  }

  // ---- How far a transfer can go ----

  /** In some continuation stream i has handed over everything written so far and then this. */
  ghost predicate CanDeliver(maxData: nat, acts: seq<Action>, i: nat, data: seq<byte>)
    requires Legal(maxData, acts) && i < |Run(maxData, acts).streams|
  {
    exists more :: acts <= more && Legal(maxData, more) && Delivered(Run(maxData, more), i, Run(maxData, acts).streams[i].sys.snd.written + data)
  }

  ghost predicate Delivered(c: Connection, i: nat, data: seq<byte>) { i < |c.streams| && c.streams[i].sys.out == data }

  lemma Deliverable(maxData: nat, acts: seq<Action>, i: nat, data: seq<byte>)
    requires Legal(maxData, acts) && i < |Run(maxData, acts).streams|
    requires Run(maxData, acts).local.value > 0 && Run(maxData, acts).streams[i].local > 0
    requires Run(maxData, acts).streams[i].sys.snd.fin ==> data == []
    ensures CanDeliver(maxData, acts, i, data)
  {
    hide Run, Legal, Toward;
    var c := Run(maxData, acts);
    var before := acts;
    if data != [] {
      Append(maxData, acts, AppWrite(i, data, false));
      before := acts + [AppWrite(i, data, false)];
      WriteIs(c, i, data);
    } else {
      assert c.streams[i].sys.snd.written + [] == c.streams[i].sys.snd.written;
    }
    hide Step, Inv;
    var more := DeliverAll(maxData, before, i);
    assert acts <= before <= more;
    assert Delivered(Run(maxData, more), i, c.streams[i].sys.snd.written + data);
  }

  lemma WriteIs(c: Connection, i: nat, data: seq<byte>)
    requires Inv(c) && i < |c.streams| && !c.streams[i].sys.snd.fin
    ensures var d := Step(c, AppWrite(i, data, false));
            && |d.streams| == |c.streams| && d.local == c.local && d.streams[i].local == c.streams[i].local
            && d.streams[i].sys.snd.written == c.streams[i].sys.snd.written + data
  {
    assert StreamInv(c.streams[i]);
    hide S.Faithful, S.Ending, S.Trusting, S.Announced, SenderInv;
  }

  /** No data will ever pass a limit of zero. */
  ghost predicate Shut(c: Connection, i: nat) { i < |c.streams| && (c.local.value == 0 || c.streams[i].local == 0) }

  lemma ShutStep(c: Connection, i: nat, a: Action)
    requires Inv(c) && Shut(c, i) && Enabled(c, a)
    ensures Shut(Step(c, a), i)
  {
    ShutMeansNothing(c, i);
    hide Inv, S.Inv, S.Step, Sending, Receiving, OnStream;
    match a
    case AppWrite(j, data, end) => StreamStepLimits(c, a, j);
    case SendFrame(j, _) => StreamStepLimits(c, a, j);
    case FrameArrives(j, _) => StreamStepLimits(c, a, j);
    case Report(j, _, _) => StreamStepLimits(c, a, j);
    case _ =>
  }

  /** What happens on a stream does not move a limit. */
  lemma StreamStepLimits(c: Connection, a: Action, j: nat)
    requires Inv(c) && Enabled(c, a) && (a.AppWrite? || a.SendFrame? || a.FrameArrives? || a.Report?) && j == a.i
    ensures var d := Step(c, a);
            && |d.streams| == |c.streams| && d.local.value == c.local.value
            && forall i | 0 <= i < |c.streams| :: d.streams[i].local == c.streams[i].local
  {
    assert StreamInv(c.streams[j]);
    hide Inv, StreamInv, S.Inv, S.Step;
  }

  lemma ShutMeansNothing(c: Connection, i: nat)
    requires Inv(c) && Shut(c, i)
    ensures c.streams[i].sys.out == [] && c.streams[i].sys.rcv.highest == 0 && (c.local.value == 0 ==> c.local.used == 0)
  {
    assert StreamInv(c.streams[i]);
    WithinSent(c.streams[i].sys);
    PartOfTotal(c.streams, i);
    forall j | 0 <= j < |c.streams|
      ensures c.streams[j].sys.rcv.highest <= c.streams[j].sys.snd.highest
    {
      assert StreamInv(c.streams[j]);
      WithinSent(c.streams[j].sys);
    }
    ReceivedWithinSent(c.streams);
    hide StreamInv, S.Inv;
  }

  lemma {:induction false} PartOfTotal(ss: seq<Stream>, i: nat)
    requires i < |ss|
    ensures ss[i].sys.snd.highest <= TotalSent(ss)
  {
    if i > 0 { PartOfTotal(ss[1..], i - 1); }
  }

  lemma {:induction false} ShutForGood(maxData: nat, acts: seq<Action>, more: seq<Action>, i: nat)
    requires Legal(maxData, acts) && Legal(maxData, more) && acts <= more && Shut(Run(maxData, acts), i)
    ensures Shut(Run(maxData, more), i)
    decreases |more|
  {
    hide Step, Shut, Inv;
    if more != acts {
      var before := more[..|more| - 1];
      assert acts <= before;
      ShutForGood(maxData, acts, before, i);
      ShutStep(Run(maxData, before), i, more[|more| - 1]);
    } else {
      assert more == acts;
    }
  }

  /**
   From every reachable state, whatever was lost, reordered or delayed before: on a stream that is still open for
   writing, everything written so far and then any further data can be handed over in some continuation, if and only
   if both limits are positive. A limit of zero is never raised.
   */
  lemma TransferGoesOn(maxData: nat, acts: seq<Action>, i: nat)
    requires Legal(maxData, acts) && i < |Run(maxData, acts).streams| && !Run(maxData, acts).streams[i].sys.snd.fin
    ensures (forall data :: CanDeliver(maxData, acts, i, data)) <==>
            Run(maxData, acts).local.value > 0 && Run(maxData, acts).streams[i].local > 0
  {
    hide Run, Legal, Inv, StreamInv;
    var c := Run(maxData, acts);
    if c.local.value > 0 && c.streams[i].local > 0 {
      forall data
        ensures CanDeliver(maxData, acts, i, data)
      {
        Deliverable(maxData, acts, i, data);
      }
    } else {
      NothingPasses(maxData, acts, i);
      assert !CanDeliver(maxData, acts, i, [0]);
    }
  }

  lemma NothingPasses(maxData: nat, acts: seq<Action>, i: nat)
    requires Legal(maxData, acts) && i < |Run(maxData, acts).streams| && Shut(Run(maxData, acts), i)
    ensures !CanDeliver(maxData, acts, i, [0])
  {
    hide Run, Legal, Shut, Inv;
    forall more | acts <= more && Legal(maxData, more)
      ensures !Delivered(Run(maxData, more), i, Run(maxData, acts).streams[i].sys.snd.written + [0])
    {
      ShutForGood(maxData, acts, more, i);
      ShutMeansNothing(Run(maxData, more), i);
    }
  }
}
