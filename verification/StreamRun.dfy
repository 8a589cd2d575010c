/**
 A stream sender and its receiver joined by a network that loses, duplicates and
 reorders frames. Loss is a frame that never arrives; a frame may arrive any number
 of times and in any order; each frame is reported to the sender at most once.
 */
module StreamRuns {
  import opened Common
  import opened StreamSpec

  datatype System = System(
    snd: Sender,
    rcv: Receiver,
    out: seq<byte>,    // everything the receiver handed to the application
    events: seq<Event>,  // the events it was handed over in
    heard: set<int>,   // indices of the frames that arrived at least once
    honest: bool,      // so far only frames that arrived were reported as acknowledged
    failed: bool)      // the receiver raised FinalSizeError

  const NEW_SYSTEM := System(NEW_SENDER, NEW_RECEIVER, [], [], {}, true, false)

  datatype Action =
    | DoWrite(data: seq<byte>, end: bool)
    | Send(maxSize: int, maxOffset: Option<int>)
    | Arrive(k: nat)
    | Report(k: nat, d: Delivery)

  predicate Enabled(y: System, a: Action) {
    match a
    case DoWrite(_, _) => !y.snd.fin
    case Send(_, _) => true
    case Arrive(k) => k < |y.snd.sent|
    case Report(k, _) => k in y.snd.open
  }

  ghost function Step(y: System, a: Action): System
    requires Inv(y) && Enabled(y, a)
  {
    match a
    case DoWrite(data, end) => y.(snd := Write(y.snd, data, end))
    case Send(maxSize, maxOffset) => y.(snd := GetFrame(y.snd, maxSize, maxOffset).0)
    case Arrive(k) => Arrival(y, k)
    case Report(k, d) => y.(snd := OnDelivery(y.snd, d, k), honest := y.honest && (d.Acked? ==> k in y.heard))
  }

  ghost function Arrival(y: System, k: nat): System
    requires k < |y.snd.sent|
  {
    match Handle(y.rcv, y.snd.sent[k])
    case FinalSizeError => y.(failed := true)
    case Handled(next, event) =>
      y.(rcv := next, heard := y.heard + {k}, out := y.out + (if event.Some? then event.value.data else []),
         events := y.events + if event.Some? then [event.value] else [])
  }

  ghost predicate Heard(y: System, x: int) {
    exists k :: k in y.heard && 0 <= k < |y.snd.sent| && x in y.snd.sent[k].Offsets()
  }

  /** The plain specification of a receiver: the set of offsets that ever arrived. */
  ghost predicate Received(y: System, x: int) { 0 <= x < y.rcv.start || x in y.rcv.store }

  ghost predicate Faithful(y: System) {
    && y.rcv.start <= |y.snd.written| && y.out == y.snd.written[..y.rcv.start]
    && y.rcv.start !in y.rcv.store
    && (forall x | x in y.rcv.store :: y.rcv.start <= x < |y.snd.written| && y.rcv.store[x] == y.snd.written[x])
    && (forall x :: Received(y, x) <==> Heard(y, x))
    && (forall k | k in y.heard :: 0 <= k < |y.snd.sent|)
  }

  ghost predicate Ending(y: System) {
    && (y.rcv.final.Some? ==> y.snd.fin && y.rcv.final.value == |y.snd.written|)
    && (y.rcv.final.Some? <==> exists k :: k in y.heard && 0 <= k < |y.snd.sent| && y.snd.sent[k].fin)
    && (y.rcv.finished <==> y.rcv.final == Some(y.rcv.start))
    && y.rcv.highest <= y.snd.highest && (forall k | k in y.heard && 0 <= k < |y.snd.sent| :: y.snd.sent[k].End() <= y.rcv.highest)
    && !y.failed
  }

  ghost predicate Trusting(y: System) {
    y.honest ==>
      && (forall x | 0 <= x < y.snd.start || x in y.snd.acked :: Received(y, x))
      && (y.snd.ackedFin ==> y.rcv.final.Some?)
  }

  /** The data of some events, joined. */
  function Said(events: seq<Event>): seq<byte> {
    if events == [] then [] else Said(events[..|events| - 1]) + events[|events| - 1].data
  }

  /** The application was told of the end by the last event, if the receiver is finished, and else by none. */
  ghost predicate Announced(y: System) {
    && y.out == Said(y.events)
    && (y.rcv.finished ==> y.events != [] && y.events[|y.events| - 1].endStream)
    && (forall i | 0 <= i < |y.events| && y.events[i].endStream :: y.rcv.finished && Said(y.events[..i + 1]) == y.out)
    && (forall e | e in y.events :: e.data != [] || e.endStream)
  }

  ghost predicate Inv(y: System) { SenderInv(y.snd) && Faithful(y) && Ending(y) && Trusting(y) && Announced(y) }

  /** Sender steps that only append frames and bytes leave the receiver's view as it was. */
  lemma SenderGrows(y: System, z: System)
    requires Faithful(y) && Ending(y)
    requires z == y.(snd := z.snd, honest := z.honest)
    requires y.snd.written <= z.snd.written && y.snd.sent <= z.snd.sent && y.snd.highest <= z.snd.highest
    requires y.snd.fin ==> z.snd.fin && z.snd.written == y.snd.written
    ensures Faithful(z) && Ending(z)
    ensures forall x :: Received(z, x) <==> Received(y, x)
  {
    forall x
      ensures Heard(z, x) <==> Heard(y, x)
    {
      if Heard(z, x) {
        var k :| k in z.heard && 0 <= k < |z.snd.sent| && x in z.snd.sent[k].Offsets();
        assert k in y.heard;
      }
      if Heard(y, x) {
        var k :| k in y.heard && 0 <= k < |y.snd.sent| && x in y.snd.sent[k].Offsets();
        assert k in z.heard && x in z.snd.sent[k].Offsets();
      }
    }
    if exists k :: k in y.heard && 0 <= k < |y.snd.sent| && y.snd.sent[k].fin {
      var k :| k in y.heard && 0 <= k < |y.snd.sent| && y.snd.sent[k].fin;
      assert z.snd.sent[k].fin;
    }
  }

  lemma HeardGrows(y: System, k: nat, z: System)
    requires k < |y.snd.sent| && z.snd == y.snd && z.heard == y.heard + {k}
    ensures forall x :: Heard(z, x) <==> Heard(y, x) || x in y.snd.sent[k].Offsets()
  {
    forall x
      ensures Heard(z, x) <==> Heard(y, x) || x in y.snd.sent[k].Offsets()
    {
      if Heard(y, x) {
        var j :| j in y.heard && 0 <= j < |y.snd.sent| && x in y.snd.sent[j].Offsets();
        assert j in z.heard;
      }
      if x in y.snd.sent[k].Offsets() {
        assert k in z.heard;
      }
    }
  }

  /** The receiver hands over exactly the longest prefix of the offsets that arrived. */
  lemma ArrivalFaithful(y: System, k: nat)
    requires SenderInv(y.snd) && Faithful(y) && k < |y.snd.sent| && Handle(y.rcv, y.snd.sent[k]).Handled?
    ensures Faithful(Arrival(y, k))
  {
    var z := Arrival(y, k);
    var f := y.snd.sent[k];
    HeardGrows(y, k, z);
    assert CutFrom(f, y.snd.written, y.snd.fin);
    hide SenderInv, Heard;
    var store := y.rcv.store + Fresh(f, y.rcv.start);
    StoredBytes(y, f, store);
    FrontIsWritten(store, y.rcv.start, z.rcv.start, y.snd.written);
    hide Fresh, Front;
    TakeMore(y.snd.written, y.rcv.start, z.rcv.start);
    var gone := Span(y.rcv.start, z.rcv.start);
    forall x
      ensures Received(z, x) <==> Heard(z, x)
    {
      assert x in gone ==> x in store;
      assert Received(z, x) <==> 0 <= x < y.rcv.start || x in store;
    }
  }

  lemma TakeMore(s: seq<byte>, a: nat, b: nat)
    requires a <= b <= |s|
    ensures s[..a] + s[a..b] == s[..b] && (a == b ==> s[..a] + [] == s[..b])
  {
  }

  lemma FrontIsWritten(store: map<int, byte>, start: nat, stop: nat, written: seq<byte>)
    requires forall x | x in store :: start <= x < |written| && store[x] == written[x]
    requires start <= stop && Span(start, stop) <= store.Keys
    ensures start <= |written| ==> stop <= |written| && Front(store, start, stop) == written[start..stop]
  {
    assert start < stop ==> stop - 1 in Span(start, stop);
    var front := Front(store, start, stop);
    forall i | 0 <= i < |front|
      ensures start + i < |written| && front[i] == written[start + i]
    {
      assert start + i in Span(start, stop);
    }
  }

  lemma StoredBytes(y: System, f: Frame, store: map<int, byte>)
    requires Faithful(y) && CutFrom(f, y.snd.written, y.snd.fin)
    requires store == y.rcv.store + Fresh(f, y.rcv.start)
    ensures forall x | x in store :: y.rcv.start <= x < |y.snd.written| && store[x] == y.snd.written[x]
    ensures forall x | 0 <= x :: x < y.rcv.start || x in store <==> Received(y, x) || x in f.Offsets()
  {
    hide Heard;
  }

  lemma ArrivalEnding(y: System, k: nat)
    requires Inv(y) && k < |y.snd.sent|
    ensures Handle(y.rcv, y.snd.sent[k]).Handled? && Ending(Arrival(y, k))
  {
    var f := y.snd.sent[k];
    assert CutFrom(f, y.snd.written, y.snd.fin);
    var z := Arrival(y, k);
    assert k in z.heard;
    if exists j :: j in y.heard && 0 <= j < |y.snd.sent| && y.snd.sent[j].fin {
      var j :| j in y.heard && 0 <= j < |y.snd.sent| && y.snd.sent[j].fin;
      assert j in z.heard;
    }
  }

  lemma ArrivalTrusting(y: System, k: nat)
    requires Inv(y) && k < |y.snd.sent|
    requires Handle(y.rcv, y.snd.sent[k]).Handled? && Faithful(Arrival(y, k))
    ensures Trusting(Arrival(y, k))
  {
    var z := Arrival(y, k);
    HeardGrows(y, k, z);
    forall x | Received(y, x)
      ensures Received(z, x)
    {
      assert Heard(y, x) && Heard(z, x);
    }
  }

  lemma ArrivalAnnounced(y: System, k: nat)
    requires Inv(y) && k < |y.snd.sent|
    requires Handle(y.rcv, y.snd.sent[k]).Handled? && Faithful(Arrival(y, k)) && Ending(Arrival(y, k))
    ensures Announced(Arrival(y, k))
  {
    hide SenderInv, Trusting, Heard, Fresh;
    var z := Arrival(y, k);
    var event := Handle(y.rcv, y.snd.sent[k]).event;
    if event.Some? {
      var e := event.value;
      assert z.events[..|y.events|] == y.events;
      assert z.events[..|z.events|] == z.events;
      forall i | 0 <= i < |z.events| && z.events[i].endStream
        ensures z.rcv.finished && Said(z.events[..i + 1]) == z.out
      {
        if i < |y.events| {
          assert z.events[..i + 1] == y.events[..i + 1];
          assert y.out + e.data == z.out && |y.out| == |y.snd.written| && e.data == [];
        }
      }
    } else {
      assert z.events == y.events && z.out == y.out;
    }
  }

  lemma WriteStepKeeps(y: System, data: seq<byte>, end: bool)
    requires Inv(y) && !y.snd.fin
    ensures Inv(Step(y, DoWrite(data, end)))
  {
    hide SenderInv, Faithful, Ending, Announced, Trusting;
    var z := Step(y, DoWrite(data, end));
    WriteKeeps(y.snd, data, end);
    SenderGrows(y, z);
    StillTrusting(y, z);
  }

  /** The sender has acknowledged nothing more, and the receiver is as it was. */
  lemma StillTrusting(y: System, z: System)
    requires Trusting(y) && Announced(y) && z.honest == y.honest
    requires z == y.(snd := z.snd) && forall x :: Received(z, x) <==> Received(y, x)
    requires z.snd.start == y.snd.start && z.snd.acked == y.snd.acked && z.snd.ackedFin == y.snd.ackedFin
    ensures Trusting(z) && Announced(z)
  {
    hide Received;
  }

  lemma SendStepKeeps(y: System, maxSize: int, maxOffset: Option<int>)
    requires Inv(y)
    ensures Inv(Step(y, Send(maxSize, maxOffset)))
  {
    hide SenderInv, Faithful, Ending, Announced, Trusting;
    var z := Step(y, Send(maxSize, maxOffset));
    GetFrameKeeps(y.snd, maxSize, maxOffset);
    FrameShape(y.snd, maxSize, maxOffset);
    hide GetFrame;
    SenderGrows(y, z);
    StillTrusting(y, z);
  }

  lemma ReportStepKeeps(y: System, k: nat, d: Delivery)
    requires Inv(y) && k in y.snd.open
    ensures Inv(Step(y, Report(k, d)))
  {
    var z := Step(y, Report(k, d));
    OnDeliveryKeeps(y.snd, d, k);
    SenderGrows(y, z);
    ReportTrusting(y, k, d);
    assert Announced(z);
  }

  /** An honest acknowledgement only ever covers what the receiver has. */
  lemma ReportTrusting(y: System, k: nat, d: Delivery)
    requires Inv(y) && k in y.snd.open
    ensures Trusting(Step(y, Report(k, d)))
  {
    var z := Step(y, Report(k, d));
    if z.honest {
      forall x | 0 <= x < z.snd.start || x in z.snd.acked
        ensures Received(z, x)
      {
        assert d.Acked? && y.snd.start <= x < z.snd.start ==> x in Span(y.snd.start, z.snd.start);
        if d.Acked? && x in y.snd.sent[k].Offsets() {
          assert Heard(y, x);
        }
        assert Received(y, x);
      }
      assert d.Acked? && y.snd.sent[k].fin ==> k in y.heard && y.rcv.final.Some?;
    }
  }

  lemma ArriveStepKeeps(y: System, k: nat)
    requires Inv(y) && k < |y.snd.sent|
    ensures Inv(Step(y, Arrive(k)))
  {
    ArrivalEnding(y, k);
    ArrivalFaithful(y, k);
    ArrivalTrusting(y, k);
    ArrivalAnnounced(y, k);
  }

  lemma StepKeeps(y: System, a: Action)
    requires Inv(y) && Enabled(y, a)
    ensures Inv(Step(y, a))
  {
    hide Inv, Step;
    match a
    case DoWrite(data, end) => WriteStepKeeps(y, data, end);
    case Send(maxSize, maxOffset) => SendStepKeeps(y, maxSize, maxOffset);
    case Arrive(k) => ArriveStepKeeps(y, k);
    case Report(k, d) => ReportStepKeeps(y, k, d);
  }

  // ---- Runs ----

  ghost predicate Legal(acts: seq<Action>)
    decreases |acts|, 0
  {
    acts == [] || (Legal(acts[..|acts| - 1]) && Enabled(Run(acts[..|acts| - 1]), acts[|acts| - 1]))
  }

  /** The system after a sequence of actions; every reachable system satisfies the invariant. */
  ghost function Run(acts: seq<Action>): (y: System)
    requires Legal(acts)
    ensures Inv(y)
    decreases |acts|, 1
  {
    if acts == [] then StartHolds(); NEW_SYSTEM else
      StepKeeps(Run(acts[..|acts| - 1]), acts[|acts| - 1]);
      Step(Run(acts[..|acts| - 1]), acts[|acts| - 1])
  }

  lemma StartHolds()
    ensures Inv(NEW_SYSTEM)
  {
  }

  /**
   Whatever the network does and whatever is reported: the output is exactly the longest
   prefix of the input whose offsets all arrived, no final-size error is raised, and the
   receiver is finished exactly when a FIN arrived and every byte was handed over.
   */
  lemma DeliveryIsExact(acts: seq<Action>)
    requires Legal(acts)
    ensures var y := Run(acts);
            && y.out <= y.snd.written && !y.failed
            && (forall x :: 0 <= x < |y.out| ==> Heard(y, x)) && !Heard(y, |y.out|)
            && (y.rcv.finished <==>
                y.out == y.snd.written && exists k :: k in y.heard && 0 <= k < |y.snd.sent| && y.snd.sent[k].fin)
  {
    var y := Run(acts);
    assert !Received(y, |y.out|);
    forall x | 0 <= x < |y.out|
      ensures Heard(y, x)
    {
      assert Received(y, x);
    }
  }

  /** All bytes written were handed over, and a FIN arrived. */
  ghost predicate Complete(y: System) {
    y.out == y.snd.written && exists k :: k in y.heard && 0 <= k < |y.snd.sent| && y.snd.sent[k].fin
  }

  /**
   The application is told of the end of the stream exactly when it is complete: in every run the events handed over
   carry exactly the output, one of them carries the end if and only if everything written was handed over and a FIN
   arrived, and then the last one does and nothing was handed over after the first that did.
   */
  lemma EndIsAnnounced(acts: seq<Action>)
    requires Legal(acts)
    ensures var y := Run(acts);
            && Said(y.events) == y.out
            && ((exists e :: e in y.events && e.endStream) <==> Complete(y))
            && (Complete(y) ==> y.events != [] && y.events[|y.events| - 1].endStream)
            && (forall i | 0 <= i < |y.events| && y.events[i].endStream :: Said(y.events[..i + 1]) == y.snd.written)
            && (forall e | e in y.events :: e.data != [] || e.endStream)
  {
    DeliveryIsExact(acts);
    var y := Run(acts);
    hide SenderInv, Faithful, Ending, Trusting, Run, Legal, Heard;
    assert Announced(y);
    if exists e :: e in y.events && e.endStream {
      var e :| e in y.events && e.endStream;
      var i :| 0 <= i < |y.events| && y.events[i] == e;
    }
  }

  /** A sender that was idle is so after a step exactly when nothing waits to be sent: no bytes and no FIN. */
  lemma IdleExactly(y: System, a: Action)
    requires Inv(y) && Enabled(y, a) && y.snd.bufferIsEmpty
    ensures var z := Step(y, a); z.snd.bufferIsEmpty <==> z.snd.pending == {} && !z.snd.pendingEof
  {
    assert forall k | k in y.snd.open :: 0 <= k < |y.snd.sent|;
    assert y.snd.pending == {} && !y.snd.pendingEof;
    hide SenderInv, Faithful, Ending, Trusting, Announced, Handle, GetFrame, OnDelivery, StreamSpec.Write;
    match a
    case DoWrite(data, end) => IdleWrites(y.snd, data, end);
    case Send(maxSize, maxOffset) => IdleSends(y.snd, maxSize, maxOffset);
    case Arrive(_) =>
    case Report(k, d) => IdleHears(y.snd, d, k);
  }

  ghost predicate Idle(s: Sender) { s.pending == {} && !s.pendingEof }

  lemma IdleWrites(s: Sender, data: seq<byte>, end: bool)
    requires s.bufferIsEmpty && Idle(s) && !s.fin
    ensures Write(s, data, end).bufferIsEmpty <==> Idle(Write(s, data, end))
  {
    assert data != [] ==> |s.written| in Span(|s.written|, |s.written| + |data|);
  }

  lemma IdleSends(s: Sender, maxSize: int, maxOffset: Option<int>)
    requires s.bufferIsEmpty && Idle(s)
    ensures var t := GetFrame(s, maxSize, maxOffset).0; t.bufferIsEmpty && Idle(t)
  {
  }

  lemma IdleHears(s: Sender, d: Delivery, k: nat)
    requires s.bufferIsEmpty && Idle(s) && k < |s.sent|
    ensures var t := OnDelivery(s, d, k); t.bufferIsEmpty <==> Idle(t)
  {
    hide RunEnd;
    assert s.sent[k].data != [] ==> s.sent[k].offset in s.sent[k].Offsets();
  }

  /** With honest acknowledgements a finished sender means a complete, finished receiver. */
  lemma FinishedMeansDelivered(acts: seq<Action>)
    requires Legal(acts) && Run(acts).honest && Run(acts).snd.finished
    ensures Run(acts).rcv.finished && Run(acts).out == Run(acts).snd.written
  {
    var y := Run(acts);
    hide Run, Legal;
    FinishedIsDelivered(y);
  }

  lemma FinishedIsDelivered(y: System)
    requires Inv(y) && y.honest && y.snd.finished
    ensures y.rcv.finished && y.out == y.snd.written
  {
    hide Conserved, Accurate, Heard;
    assert !Received(y, y.rcv.start);
  }

  /** When nothing waits to be sent and no report is due, honest acknowledgements mean full delivery. */
  lemma QuietMeansDelivered(acts: seq<Action>)
    requires Legal(acts) && Run(acts).honest && Run(acts).snd.bufferIsEmpty && Run(acts).snd.open == {}
    ensures Run(acts).out == Run(acts).snd.written
    ensures Run(acts).snd.fin ==> Run(acts).snd.finished && Run(acts).rcv.finished
  {
    var y := Run(acts);
    EmptyMeansNothingWaits(y.snd);
    assert !Received(y, y.rcv.start);
  }
}
