/** Which frames make a message, and what is reported of them (h3/connection.py; section 4.1 of RFC 9114). */
module H3Grammar {
  import opened Common
  import opened Buffers
  import opened H3Spec
  import opened H3Chunks

  /** How many field sections come before frame i. */
  function Sections(frames: seq<Frame>, i: nat): nat
    requires i <= |frames|
  {
    if i == 0 then 0 else Sections(frames, i - 1) + if frames[i - 1].frameType == 0x1 then 1 else 0
  }

  /** A field section of its kind decodes. */
  predicate Decodes(c: Context, section: Section, payload: seq<byte>) { c.decode(section, payload).Accepted? }

  /** Frame i may stand where it does. */
  predicate Placed(c: Context, frames: seq<Frame>, i: nat)
    requires i < |frames|
  {
    var kind, payload, before := frames[i].frameType, frames[i].payload, Sections(frames, i);
    if kind == 0x0 then before == 1
    else if kind == 0x1 then before < 2 && Decodes(c, if before == 0 then Section.Message else Trailers, payload)
    else if kind == 0x5 then c.isClient && c.pushId.None? && DecodeVar(payload).Some? && Decodes(c, Promise, DecodeVar(payload).value.1)
    else kind !in {0x2, 0x3, 0x4, 0x7, 0xD, 0xE}
  }

  /** What is reported of frame i. */
  function Reported(c: Context, frames: seq<Frame>, i: nat): seq<Event>
    requires i < |frames| && Placed(c, frames, i)
  {
    var kind, payload, before := frames[i].frameType, frames[i].payload, Sections(frames, i);
    if kind == 0x0 then (if payload == [] then [] else [DataReceived(payload, false)])
    else if kind == 0x1 then [HeadersReceived(c.decode(if before == 0 then Section.Message else Trailers, payload).fields, false)]
    else if kind == 0x5 then
      [PushPromiseReceived(DecodeVar(payload).value.0, c.decode(Promise, DecodeVar(payload).value.1).fields)]
    else []
  }

  function AllReported(c: Context, frames: seq<Frame>, n: nat): seq<Event>
    requires n <= |frames| && forall i | 0 <= i < n :: Placed(c, frames, i)
  {
    if n == 0 then [] else AllReported(c, frames, n - 1) + Reported(c, frames, n - 1)
  }

  function After(n: nat): HeadersState
  {
    if n == 0 then Initial else if n == 1 then AfterHeaders else AfterTrailers
  }

  lemma PlacedExactly(c: Context, frames: seq<Frame>, i: nat, s: Stream)
    requires i < |frames| && Sections(frames, i) <= 2 && s.received == After(Sections(frames, i))
    ensures var o := HandleFrame(c, s, frames[i].frameType, frames[i].payload, false);
            && (o.Done? <==> Placed(c, frames, i))
            && (o.Done? ==> o.events == Reported(c, frames, i) && o.stream.received == After(Sections(frames, i + 1)))
            && (o.Done? ==> Sections(frames, i + 1) <= 2)
  {
    hide DecodeVar;
  }

  /** The first n frames handled one after the other. */
  function Prefix(c: Context, s: Stream, frames: seq<Frame>, n: nat): Outcome
    requires n <= |frames|
  {
    if n == 0 then Done(s, [])
    else
      match Prefix(c, s, frames, n - 1)
      case Failed => Failed
      case Done(t, events) => Prepend(events, HandleFrame(c, t, frames[n - 1].frameType, frames[n - 1].payload, false))
  }

  lemma {:induction false} PrefixExactly(c: Context, s: Stream, frames: seq<Frame>, n: nat)
    requires n <= |frames| && s.received == Initial
    ensures var o := Prefix(c, s, frames, n);
            && (o.Done? <==> forall i | 0 <= i < n :: Placed(c, frames, i))
            && (o.Done? ==> o.events == AllReported(c, frames, n) && o.stream.received == After(Sections(frames, n))
                            && Sections(frames, n) <= 2)
  {
    hide HandleFrame, Placed, Reported;
    if n > 0 {
      PrefixExactly(c, s, frames, n - 1);
      var o := Prefix(c, s, frames, n - 1);
      if o.Done? { PlacedExactly(c, frames, n - 1, o.stream); }
    }
  }

  lemma {:induction false} DeliverSteps(c: Context, s: Stream, frames: seq<Frame>, n: nat)
    requires n <= |frames|
    ensures Deliver(c, s, frames) ==
            match Prefix(c, s, frames, n) {
              case Failed => Failed
              case Done(t, events) => Prepend(events, Deliver(c, t, frames[n..]))
            }
    decreases n
  {
    hide HandleFrame;
    if n == 0 {
      assert frames[0..] == frames;
      var o := Deliver(c, s, frames);
      if o.Done? { assert [] + o.events == o.events; }
    } else {
      DeliverSteps(c, s, frames, n - 1);
      var before := Prefix(c, s, frames, n - 1);
      if before.Done? {
        var rest := frames[n - 1..];
        assert rest[1..] == frames[n..] && rest[0] == frames[n - 1];
        var o := HandleFrame(c, before.stream, rest[0].frameType, rest[0].payload, false);
        if o.Done? && Deliver(c, o.stream, frames[n..]).Done? {
          var later := Deliver(c, o.stream, frames[n..]).events;
          assert before.events + (o.events + later) == (before.events + o.events) + later;
        }
      }
    }
  }

  /**
   However the bytes of some frames are cut, a fresh stream accepts them if and only if every frame may stand where it
   does: DATA between the first and the second HEADERS, at most two HEADERS whose sections decode as message and as
   trailers, PUSH_PROMISE only towards a client on a stream that is not itself pushed, and none of the frame types
   that belong to other streams. What is reported then is exactly what these frames stand for, in order.
   */
  lemma AcceptedExactly(c: Context, frames: seq<Frame>, chunks: seq<seq<byte>>)
    requires forall f | f in frames :: Encodable(f) && f.frameType != WEBTRANSPORT_STREAM
    requires chunks != [] && Concat(chunks) == FramesBytes(frames)
    ensures var o := Feed(c, NEW_STREAM, chunks);
            && (o.Done? <==> forall i | 0 <= i < |frames| :: Placed(c, frames, i))
            && (o.Done? ==> Atoms(o.events) == Atoms(AllReported(c, frames, |frames|)))
  {
    FramesReadBack(c, NEW_STREAM, frames, chunks);
    DeliverSteps(c, NEW_STREAM, frames, |frames|);
    PrefixExactly(c, NEW_STREAM, frames, |frames|);
    hide Feed, Prefix, HandleFrame, Placed, Atoms;
    assert frames[|frames|..] == [];
    var o := Prefix(c, NEW_STREAM, frames, |frames|);
    if o.Done? { assert o.events + [] == o.events; }
  }
}
