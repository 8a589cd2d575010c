/** What the packets of a builder say once a receiver has undone their protection (quic/packet_builder.py, quic/crypto.py). */
module BuilderContents {
  import opened Common
  import opened Buffers
  import opened Headers
  import opened BuilderSpec
  import opened Coalescing
  import opened BuilderRuns
  import PacketNumbers

  // ---- What was written, packet by packet ----

  /** A packet as its writers see it: its type, its keys and the frames with their types and bodies. */
  datatype Written = Written(kind: PacketType, crypto: Crypto, frames: seq<(nat, seq<byte>)>)

  /** The packets ended so far, those without frames left out, and the one being written. */
  datatype Journal = Journal(closed: seq<Written>, open: Option<Written>)

  function FrameBytes(frames: seq<(nat, seq<byte>)>): seq<byte>
    requires forall f | f in frames :: f.0 <= UINT_VAR_MAX
  {
    if frames == [] then []
    else
      var n := |frames| - 1;
      FrameBytes(frames[..n]) + (EncodeVar(frames[n].0) + frames[n].1)
  }

  function Close(j: Journal): Journal {
    Journal(if j.open.Some? && j.open.value.frames != [] then j.closed + [j.open.value] else j.closed, None)
  }

  /** What an action adds to the journal, if the builder went along with it. */
  function Note(j: Journal, a: Action, r: Result): Journal {
    match a
    case Begin(kind, crypto) =>
      if r.Ok? then Close(j).(open := Some(Written(kind, crypto, []))) else Close(j)
    case Frame(frameType, _, body) =>
      if r.Ok? && j.open.Some? then j.(open := Some(j.open.value.(frames := j.open.value.frames + [(frameType, body)]))) else j
  }

  function JournalOf(cfg: Config, b: Builder, j: Journal, actions: seq<Action>): Journal
    requires WellFormed(cfg, b)
    decreases |actions|
  {
    if actions == [] then j
    else
      var r := Step(cfg, b, actions[0]);
      if r.Broken? then j else JournalOf(cfg, After(r), Note(j, actions[0], r), actions[1..])
  }

  // ---- What a packet has to say ----

  /** The plain header ends with the low 16 bits of the number and says so; a short one carries spin bit and key phase. */
  predicate HeaderShows(cfg: Config, w: Written, number: nat, header: seq<byte>)
    requires |cfg.token| <= UINT_VAR_MAX
  {
    && |header| >= 3 && |header| == NumberOffset(cfg, w.kind) + 2
    && header[|header| - 2] as int * 0x100 + header[|header| - 1] as int == number % 0x1_0000
    && header[0] % 4 == 1
    && (w.kind != OneRtt ==> header[0] / 0x40 == 3 && header[0] / 4 % 4 == 0)
    && (w.kind == OneRtt ==>
          && header[0] / 0x40 == 1 && header[0] / 0x20 % 2 == (if cfg.spinBit then 1 else 0)
          && header[0] / 8 % 4 == 0 && header[0] / 4 % 2 == w.crypto.keyPhase % 2)
  }

  predicate WellTyped(w: Written) { forall f | f in w.frames :: f.0 <= UINT_VAR_MAX }

  /** The frame types that ask for an acknowledgement, that count as in flight, and that of CRYPTO frames. */
  predicate Eliciting(w: Written) { exists f :: f in w.frames && f.0 !in {0x00, 0x02, 0x03, 0x1C, 0x1D} }

  predicate Flying(w: Written) { exists f :: f in w.frames && f.0 !in {0x02, 0x03, 0x1C, 0x1D} }

  predicate Handshaking(w: Written) { exists f :: f in w.frames && f.0 == 0x06 }

  /** A finished packet protects a header with its number, and the frames written and some padding. */
  ghost predicate Says(cfg: Config, w: Written, number: nat, p: Piece)
    requires |cfg.token| <= UINT_VAR_MAX
  {
    && WellTyped(w) && p.sent.kind == w.kind && p.sent.number == number
    && p.sent.ackEliciting == Eliciting(w) && p.sent.isCrypto == Handshaking(w)
    && exists header: seq<byte>, pad: nat ::
         && HeaderShows(cfg, w, number, header)
         && p.bytes == w.crypto.protect(header, FrameBytes(w.frames) + Zeros(pad), number)
         && p.sent.inFlight == (Flying(w) || pad > 0)
  }

  function AllPieces(shipped: seq<Shipped>): seq<Piece> {
    if shipped == [] then [] else AllPieces(shipped[..|shipped| - 1]) + shipped[|shipped| - 1].pieces
  }

  function PiecesOf(b: Builder): seq<Piece> { AllPieces(b.shipped) + b.pieces }

  ghost predicate OpenSays(o: Open, w: Written) {
    && WellTyped(w) && o.kind == w.kind && o.crypto == w.crypto && o.payload == FrameBytes(w.frames)
    && o.ackEliciting == Eliciting(w) && o.inFlight == Flying(w) && o.isCrypto == Handshaking(w)
  }

  /** The packets of the builder say what the journal holds, in order and numbered one after the other. */
  ghost predicate Recorded(cfg: Config, first: nat, b: Builder, j: Journal)
    requires |cfg.token| <= UINT_VAR_MAX
  {
    && |PiecesOf(b)| == |j.closed| && b.number == first + |j.closed|
    && (forall i :: 0 <= i < |j.closed| ==> Says(cfg, j.closed[i], first + i, PiecesOf(b)[i]))
    && (b.open.Some? <==> j.open.Some?) && (b.open.Some? ==> OpenSays(b.open.value, j.open.value))
    && (b.init ==> b.front == []) && (b.front == [] ==> b.pieces == []) && (b.open.Some? ==> Protects(b.open.value.crypto) && !b.init)
  }

  // ---- Proof ----

  /** The last two bytes and the first one of a header as it is written. */
  lemma HeaderSays(cfg: Config, kind: PacketType, crypto: Crypto, length: nat, number: nat, frames: seq<(nat, seq<byte>)>)
    requires Sendable(kind) && |cfg.token| <= UINT_VAR_MAX
    ensures HeaderShows(cfg, Written(kind, crypto, frames), number, HeaderBytes(cfg, kind, crypto, length, number))
  {
    hide HeaderBytes, HeaderSize, HeaderShows;
    HeaderFills(cfg, kind, crypto, length, number);
    TwoBytes(number);
    LowBits(number);
    if kind == OneRtt {
      ShortHeaderParts(cfg, crypto, length, number);
      ShortSays(cfg, crypto, number, frames, HeaderBytes(cfg, kind, crypto, length, number));
    } else {
      HeaderParts(cfg, kind, crypto, length, number);
      LongSays(cfg, kind, crypto, number, frames, HeaderBytes(cfg, kind, crypto, length, number), Middle(cfg, kind, length));
    }
  }

  lemma ShortHeaderParts(cfg: Config, crypto: Crypto, length: nat, number: nat)
    requires |cfg.token| <= UINT_VAR_MAX
    ensures HeaderBytes(cfg, OneRtt, crypto, length, number) ==
            [0x41 + (if cfg.spinBit then 0x20 else 0) + 4 * (crypto.keyPhase % 2)] + cfg.peerCid + BigEndian(number, 2)
  {
    LengthByte(0x41 + (if cfg.spinBit then 0x20 else 0) + 4 * (crypto.keyPhase % 2));
    hide BigEndian;
  }

  lemma ShortSays(cfg: Config, crypto: Crypto, number: nat, frames: seq<(nat, seq<byte>)>, header: seq<byte>)
    requires |cfg.token| <= UINT_VAR_MAX && |header| == HeaderSize(cfg, OneRtt)
    requires number / 256 % 256 * 0x100 + number % 256 == number % 0x1_0000
    requires header == [0x41 + (if cfg.spinBit then 0x20 else 0) + 4 * (crypto.keyPhase % 2)] + cfg.peerCid
                       + [number / 256 % 256, number % 256]
    ensures HeaderShows(cfg, Written(OneRtt, crypto, frames), number, header)
  {
  }

  lemma LongSays(cfg: Config, kind: PacketType, crypto: Crypto, number: nat, frames: seq<(nat, seq<byte>)>, header: seq<byte>,
                 middle: seq<byte>)
    requires |cfg.token| <= UINT_VAR_MAX && |header| == HeaderSize(cfg, kind) && Sendable(kind) && kind != OneRtt
    requires number / 256 % 256 * 0x100 + number % 256 == number % 0x1_0000
    requires header == [LongFirstByte(cfg.version, kind, 1)] + (middle + [number / 256 % 256, number % 256])
    ensures HeaderShows(cfg, Written(kind, crypto, frames), number, header)
  {
    hide HeaderSize, LongFirstByte, TypeOfBits;
    FirstOfLong(LongFirstByte(cfg.version, kind, 1));
  }

  lemma FirstOfLong(first: byte)
    requires first / 128 == 1 && first / 64 % 2 == 1 && first % 16 == 1
    ensures first / 0x40 == 3 && first / 4 % 4 == 0 && first % 4 == 1
  {
  }

  lemma LowBits(number: nat)
    ensures number / 256 % 256 * 0x100 + number % 256 == number % 0x1_0000
  {
    RemainderUnique(number, 0x1_0000, number / 256 / 256, number / 256 % 256 * 256 + number % 256);
  }

  lemma NoFramesNoBytes(frames: seq<(nat, seq<byte>)>)
    requires forall f | f in frames :: f.0 <= UINT_VAR_MAX
    ensures FrameBytes(frames) == [] <==> frames == []
  {
    hide EncodeVar, DecodeVar;
    if frames != [] { VarRoundTrip(frames[|frames| - 1].0, []); }
  }

  lemma PiecesAfterFlush(b: Builder)
    requires b.open.None? && (b.front == [] ==> b.pieces == [])
    ensures PiecesOf(Flush(b)) == PiecesOf(b) && Flush(b).front == [] && Flush(b).pieces == []
    ensures Flush(b).number == b.number && Flush(b).open.None?
  {
    var f := Flush(b);
    if b.front != [] {
      assert f.shipped[..|b.shipped|] == b.shipped;
      assert AllPieces(f.shipped) == AllPieces(b.shipped) + b.pieces;
      assert AllPieces(f.shipped) + [] == AllPieces(f.shipped);
    }
  }

  lemma FlushRecorded(cfg: Config, first: nat, b: Builder, j: Journal)
    requires |cfg.token| <= UINT_VAR_MAX && Recorded(cfg, first, b, j) && b.open.None?
    ensures Recorded(cfg, first, Flush(b), j)
  {
    PiecesAfterFlush(b);
    hide Says, Flush, PiecesOf;
  }

  lemma SealSays(cfg: Config, b: Builder, w: Written)
    requires WellFormed(cfg, b) && b.open.Some? && OpenSays(b.open.value, w)
    ensures Says(cfg, w, b.number, Seal(cfg, b))
  {
    hide InnerPadding, HeaderBytes, Eliciting, Flying, Handshaking, FrameBytes;
    var o, pad := b.open.value, InnerPadding(cfg, b);
    var payload := o.payload + Zeros(pad);
    var length := |payload| + PACKET_NUMBER_SEND_SIZE + AEAD_TAG_SIZE;
    HeaderSays(cfg, o.kind, o.crypto, length, b.number, w.frames);
    var header := HeaderBytes(cfg, o.kind, o.crypto, length, b.number);
    hide HeaderShows;
    assert HeaderShows(cfg, w, b.number, header) by { SameHeader(cfg, Written(o.kind, o.crypto, w.frames), w, b.number, header); }
    var padding: nat := Max(0, pad);
    assert Zeros(padding) == Zeros(pad);
    assert Seal(cfg, b).bytes == w.crypto.protect(header, FrameBytes(w.frames) + Zeros(padding), b.number);
    assert Seal(cfg, b).sent.inFlight == (Flying(w) || padding > 0);
  }

  lemma SameHeader(cfg: Config, w: Written, x: Written, number: nat, header: seq<byte>)
    requires |cfg.token| <= UINT_VAR_MAX && w == x && HeaderShows(cfg, w, number, header)
    ensures HeaderShows(cfg, x, number, header)
  {
  }

  lemma AppendRecorded(cfg: Config, first: nat, b: Builder, j: Journal, p: Piece)
    requires |cfg.token| <= UINT_VAR_MAX && Recorded(cfg, first, b, j) && b.open.Some? && p.bytes != [] && !b.init
    requires j.open.value.frames != [] && Says(cfg, j.open.value, b.number, p)
    ensures Recorded(cfg, first, Append(cfg, b, p), Close(j))
  {
    hide Says, OpenSays, Protects, Padded;
    var a := Append(cfg, b, p);
    assert PiecesOf(a) == PiecesOf(b) + [p];
  }

  lemma EndRecorded(cfg: Config, first: nat, b: Builder, j: Journal)
    requires WellFormed(cfg, b) && Recorded(cfg, first, b, j) && b.open.Some? && EndPacket(cfg, b).Ok?
    ensures Recorded(cfg, first, EndPacket(cfg, b).b, Close(j)) && EndPacket(cfg, b).b.open.None?
  {
    var w := j.open.value;
    NoFramesNoBytes(w.frames);
    if w.frames != [] {
      SealSays(cfg, b, w);
      BytesThere(cfg, b);
      var p := Seal(cfg, b);
      hide Says, OpenSays, Protects, Seal, FrameBytes, Flush, Recorded, HeaderSize, InnerPadding;
      AppendRecorded(cfg, first, b, j, p);
      if p.sent.kind == OneRtt { FlushRecorded(cfg, first, Append(cfg, b, p), Close(j)); }
    } else {
      hide Says, Protects, FrameBytes;
      assert PiecesOf(b.(open := None)) == PiecesOf(b);
    }
  }

  lemma BytesThere(cfg: Config, b: Builder)
    requires WellFormed(cfg, b) && b.open.Some? && Protects(b.open.value.crypto)
    ensures Seal(cfg, b).bytes != [] && Seal(cfg, b).sent.kind == b.open.value.kind
  {
    var o := b.open.value;
    var payload := o.payload + Zeros(InnerPadding(cfg, b));
    HeaderFills(cfg, o.kind, o.crypto, |payload| + PACKET_NUMBER_SEND_SIZE + AEAD_TAG_SIZE, b.number);
    hide HeaderBytes, InnerPadding, HeaderSize;
    assert |o.crypto.protect(HeaderBytes(cfg, o.kind, o.crypto, |payload| + PACKET_NUMBER_SEND_SIZE + AEAD_TAG_SIZE, b.number),
                             payload, b.number)| > 0;
  }

  /** A frame is added at the end of the payload. */
  lemma FrameRecorded(frameType: nat, body: seq<byte>, o: Open, w: Written)
    requires OpenSays(o, w) && frameType <= UINT_VAR_MAX
    ensures OpenSays(Open(o.kind, o.crypto, o.inFlight || frameType !in NON_IN_FLIGHT, o.ackEliciting || frameType !in NON_ACK_ELICITING,
                          o.isCrypto || frameType == CRYPTO_FRAME, o.payload + EncodeVar(frameType) + body),
                     w.(frames := w.frames + [(frameType, body)]))
  {
    hide EncodeVar, Eliciting, Flying, Handshaking;
    var more := w.frames + [(frameType, body)];
    FlagsGrow(w, frameType, body);
    assert forall f | f in more :: f in w.frames || f == (frameType, body);
    assert more[..|w.frames|] == w.frames;
    assert o.payload + (EncodeVar(frameType) + body) == o.payload + EncodeVar(frameType) + body;
  }

  lemma FlagsGrow(w: Written, frameType: nat, body: seq<byte>)
    ensures var more := w.(frames := w.frames + [(frameType, body)]);
            && Eliciting(more) == (Eliciting(w) || frameType !in NON_ACK_ELICITING)
            && Flying(more) == (Flying(w) || frameType !in NON_IN_FLIGHT)
            && Handshaking(more) == (Handshaking(w) || frameType == CRYPTO_FRAME)
  {
    var more := w.frames + [(frameType, body)];
    assert (frameType, body) in more;
    assert forall f | f in w.frames :: f in more;
    assert forall f | f in more :: f in w.frames || f == (frameType, body);
  }

  lemma StartRecorded(cfg: Config, first: nat, b: Builder, j: Journal, kind: PacketType, crypto: Crypto)
    requires WellFormed(cfg, b) && Recorded(cfg, first, b, j) && Sendable(kind) && Protects(crypto)
    requires !StartPacket(cfg, b, kind, crypto).Broken?
    ensures var r := StartPacket(cfg, b, kind, crypto); Recorded(cfg, first, After(r), Note(j, Begin(kind, crypto), r))
  {
    hide EndPacket, Flush, Protects, HeaderSize, Says, PiecesOf;
    if b.open.Some? { EndRecorded(cfg, first, b, j); }
    var e, closed := Ended(cfg, b).b, Close(j);
    FlushRecorded(cfg, first, e, closed);
    FlushOpens(e);
    var f := FlushIfFull(e);
    BeginRecorded(cfg, first, f, closed);
    var g := BeginDatagram(cfg, f);
    OpenRecorded(cfg, first, g, closed, kind, crypto);
  }

  lemma FlushOpens(b: Builder)
    requires b.open.None?
    ensures Flush(b).open.None?
  {
  }

  lemma BeginRecorded(cfg: Config, first: nat, b: Builder, j: Journal)
    requires |cfg.token| <= UINT_VAR_MAX && Recorded(cfg, first, b, j) && b.open.None?
    ensures Recorded(cfg, first, BeginDatagram(cfg, b), j) && !BeginDatagram(cfg, b).init && BeginDatagram(cfg, b).open.None?
  {
    hide Says;
    assert PiecesOf(BeginDatagram(cfg, b)) == PiecesOf(b);
  }

  lemma OpenRecorded(cfg: Config, first: nat, b: Builder, j: Journal, kind: PacketType, crypto: Crypto)
    requires |cfg.token| <= UINT_VAR_MAX && Recorded(cfg, first, b, j) && !b.init && b.open.None? && Protects(crypto)
    ensures Recorded(cfg, first, b.(open := Some(Open(kind, crypto, false, false, false, []))),
                     j.(open := Some(Written(kind, crypto, []))))
  {
    hide Says, Protects;
    assert PiecesOf(b.(open := Some(Open(kind, crypto, false, false, false, [])))) == PiecesOf(b);
  }

  lemma StepRecorded(cfg: Config, first: nat, b: Builder, j: Journal, a: Action)
    requires WellFormed(cfg, b) && Recorded(cfg, first, b, j) && Legal(a) && !Step(cfg, b, a).Broken?
    ensures var r := Step(cfg, b, a); Recorded(cfg, first, After(r), Note(j, a, r))
  {
    match a
    case Begin(kind, crypto) =>
      hide StartPacket, Protects, Recorded;
      StartRecorded(cfg, first, b, j, kind, crypto);
    case Frame(frameType, capacity, body) =>
      hide Recorded, OpenSays;
      FrameStepRecorded(cfg, first, b, j, frameType, capacity, body);
  }

  lemma FrameStepRecorded(cfg: Config, first: nat, b: Builder, j: Journal, frameType: nat, capacity: int, body: seq<byte>)
    requires WellFormed(cfg, b) && Recorded(cfg, first, b, j) && !Step(cfg, b, Frame(frameType, capacity, body)).Broken?
    ensures var r := Step(cfg, b, Frame(frameType, capacity, body));
            Recorded(cfg, first, After(r), Note(j, Frame(frameType, capacity, body), r))
  {
    hide Protects, Says, HeaderSize, EncodeVar, OpenSays, PiecesOf;
    FrameRecorded(frameType, body, b.open.value, j.open.value);
    SamePieces(b, After(Step(cfg, b, Frame(frameType, capacity, body))));
  }

  lemma SamePieces(a: Builder, b: Builder)
    requires a.shipped == b.shipped && a.pieces == b.pieces
    ensures PiecesOf(a) == PiecesOf(b)
  {
  }

  lemma {:induction false} RunRecorded(cfg: Config, first: nat, b: Builder, j: Journal, actions: seq<Action>)
    requires WellFormed(cfg, b) && Recorded(cfg, first, b, j) && (forall a | a in actions :: Legal(a))
    requires !Run(cfg, b, actions).Broken?
    ensures Recorded(cfg, first, After(Run(cfg, b, actions)), JournalOf(cfg, b, j, actions))
    decreases |actions|
  {
    hide Step, Recorded, Legal, Note;
    if actions != [] {
      StepRecorded(cfg, first, b, j, actions[0]);
      RunRecorded(cfg, first, After(Step(cfg, b, actions[0])), Note(j, actions[0], Step(cfg, b, actions[0])), actions[1..]);
    }
  }

  /** What the writers put into the packets of a whole run. */
  function WrittenIn(cfg: Config, first: nat, actions: seq<Action>): seq<Written>
    requires |cfg.token| <= UINT_VAR_MAX
  {
    Close(JournalOf(cfg, NewBuilder(cfg, first), Journal([], None), actions)).closed
  }

  /**
   Over every run: the packets handed over are, one by one, in order and numbered one after the other, what the
   writers wrote: every frame accepted, in its packet, in order, under the keys of that packet, behind a header that
   shows the number; they elicit acknowledgements, count as in flight and count as CRYPTO packets as their frames do.
   */
  lemma PacketsSayWhatWasWritten(cfg: Config, first: nat, actions: seq<Action>)
    requires |cfg.token| <= UINT_VAR_MAX && forall a | a in actions :: Legal(a)
    requires !Run(cfg, NewBuilder(cfg, first), actions).Broken?
    requires Finish(cfg, After(Run(cfg, NewBuilder(cfg, first), actions))).Ok?
    ensures var b := Finish(cfg, After(Run(cfg, NewBuilder(cfg, first), actions))).b;
            var written := WrittenIn(cfg, first, actions);
            && |AllPieces(b.shipped)| == |written|
            && forall i :: 0 <= i < |written| ==> Says(cfg, written[i], first + i, AllPieces(b.shipped)[i])
  {
    hide Run, JournalOf, Legal, Says, EndPacket, Flush;
    var b0, j0 := NewBuilder(cfg, first), Journal([], None);
    assert PiecesOf(b0) == [];
    RunRecorded(cfg, first, b0, j0, actions);
    var b, j := After(Run(cfg, b0, actions)), JournalOf(cfg, b0, j0, actions);
    if b.open.Some? { EndRecorded(cfg, first, b, j); }
    var e := Ended(cfg, b).b;
    FlushRecorded(cfg, first, e, Close(j));
    PiecesAfterFlush(e);
    assert AllPieces(Flush(e).shipped) + [] == AllPieces(Flush(e).shipped);
  }

  // ---- The receiver ----

  /** How a receiver undoes protection: first the header of a packet whose number starts at some offset, then the payload. */
  datatype Opener = Opener(
    header: (PacketType, seq<byte>, nat) -> seq<byte>,
    payload: (PacketType, seq<byte>, nat, int) -> Option<seq<byte>>)

  /** Packets of this type that were protected with these keys can be opened, given their number. */
  ghost predicate Opens(o: Opener, kind: PacketType, crypto: Crypto) {
    forall header: seq<byte>, payload: seq<byte>, number: nat | |header| >= 3 ::
      var p := crypto.protect(header, payload, number);
      && o.header(kind, p, |header| - 2) == header
      && o.payload(kind, p, |header| - 2, number) == Some(payload)
  }

  /** The number read from a packet: as many bytes as the first byte says, completed from the expected number. */
  function ReadNumber(o: Opener, kind: PacketType, bytes: seq<byte>, offset: nat, expected: nat): int {
    var header := o.header(kind, bytes, offset);
    if header == [] then -1
    else
      var size := header[0] as int % 4 + 1;
      if |header| != offset + size then -1
      else PacketNumbers.DecodePacketNumber(FromBigEndian(header[offset..]), 8 * size, expected)
  }

  lemma SixteenBits(number: nat, expected: nat)
    requires number < PacketNumbers.NUMBER_LIMIT && expected <= PacketNumbers.NUMBER_LIMIT
    ensures PacketNumbers.DecodePacketNumber(number % 0x1_0000, 16, expected) == number <==>
            PacketNumbers.Recoverable(number, 0x1_0000, expected)
  {
    assert PacketNumbers.Window(16) == 0x1_0000 by { assert PacketNumbers.Window(8) == 256; }
    PacketNumbers.RecoveredExactly(number, 16, expected);
  }

  /** A receiver reads a packet: its number, and what it carries. */
  lemma ReadsOne(cfg: Config, o: Opener, w: Written, number: nat, p: Piece, expected: nat)
    requires |cfg.token| <= UINT_VAR_MAX && Says(cfg, w, number, p) && Opens(o, w.kind, w.crypto)
    requires number < PacketNumbers.NUMBER_LIMIT && expected <= PacketNumbers.NUMBER_LIMIT
    ensures var offset := NumberOffset(cfg, w.kind);
            && (ReadNumber(o, w.kind, p.bytes, offset, expected) == number <==>
                PacketNumbers.Recoverable(number, 0x1_0000, expected))
            && exists pad: nat :: o.payload(w.kind, p.bytes, offset, number) == Some(FrameBytes(w.frames) + Zeros(pad))
  {
    hide HeaderSize, FrameBytes, Zeros, Eliciting, Flying, Handshaking, PacketNumbers.Recoverable, PacketNumbers.DecodePacketNumber;
    var header: seq<byte>, pad: nat :| HeaderShows(cfg, w, number, header)
      && p.bytes == w.crypto.protect(header, FrameBytes(w.frames) + Zeros(pad), number);
    var offset := |header| - 2;
    assert o.header(w.kind, p.bytes, offset) == header;
    assert header[offset..] == [header[offset], header[offset + 1]];
    FromBigEndianTwo(header[offset], header[offset + 1]);
    SixteenBits(number, expected);
  }

  /** The numbers a receiver reads from packets as they come, each completed from those before. */
  function ReadAll(cfg: Config, o: Opener, pieces: seq<Piece>): (numbers: seq<int>)
    requires |cfg.token| <= UINT_VAR_MAX
    ensures |numbers| == |pieces|
  {
    if pieces == [] then []
    else
      var n := |pieces| - 1;
      var before, p := ReadAll(cfg, o, pieces[..n]), pieces[n];
      before + [ReadNumber(o, p.sent.kind, p.bytes, NumberOffset(cfg, p.sent.kind), PacketNumbers.Expected(before))]
  }

  /** Packets of a run, as they arrive. */
  ghost predicate Arrivals(cfg: Config, o: Opener, pieces: seq<Piece>, numbers: seq<nat>)
    requires |cfg.token| <= UINT_VAR_MAX
  {
    |pieces| == |numbers| && forall i :: 0 <= i < |pieces| ==> Readable(cfg, o, numbers[i], pieces[i])
  }

  /** A packet with this number, protected with keys that the receiver has. */
  ghost predicate Readable(cfg: Config, o: Opener, number: nat, p: Piece)
    requires |cfg.token| <= UINT_VAR_MAX
  {
    exists w :: Says(cfg, w, number, p) && Opens(o, w.kind, w.crypto)
  }

  /**
   Whatever packets of a run arrive, in whatever order and however often: a receiver that can undo their protection
   recovers the number of each from its bytes, as long as each arrives within half a window of the one expected.
   */
  lemma {:induction false} EveryNumberIsRead(cfg: Config, o: Opener, pieces: seq<Piece>, numbers: seq<nat>)
    requires |cfg.token| <= UINT_VAR_MAX && Arrivals(cfg, o, pieces, numbers) && PacketNumbers.Timely(numbers)
    ensures ReadAll(cfg, o, pieces) == numbers
    decreases |pieces|
  {
    hide ReadNumber, PacketNumbers.Timely, PacketNumbers.Expected, Readable, NumberOffset, Arrivals;
    if pieces == [] {
      NoArrivals(cfg, o, numbers);
    } else {
      var n := |pieces| - 1;
      ArrivalsPrefix(cfg, o, pieces, numbers);
      PacketNumbers.TimelyPrefix(numbers);
      EveryNumberIsRead(cfg, o, pieces[..n], numbers[..n]);
      LastIsRead(cfg, o, numbers, pieces[n]);
      assert numbers == numbers[..n] + [numbers[n]];
    }
  }

  lemma ArrivalsPrefix(cfg: Config, o: Opener, pieces: seq<Piece>, numbers: seq<nat>)
    requires |cfg.token| <= UINT_VAR_MAX && Arrivals(cfg, o, pieces, numbers) && pieces != []
    ensures |pieces| == |numbers| && Readable(cfg, o, numbers[|numbers| - 1], pieces[|pieces| - 1])
    ensures Arrivals(cfg, o, pieces[..|pieces| - 1], numbers[..|numbers| - 1])
  {
    hide Readable;
  }

  lemma NoArrivals(cfg: Config, o: Opener, numbers: seq<nat>)
    requires |cfg.token| <= UINT_VAR_MAX && Arrivals(cfg, o, [], numbers)
    ensures numbers == []
  {
    hide Readable;
  }

  lemma LastIsRead(cfg: Config, o: Opener, numbers: seq<nat>, p: Piece)
    requires |cfg.token| <= UINT_VAR_MAX && numbers != [] && PacketNumbers.Timely(numbers)
    requires Readable(cfg, o, numbers[|numbers| - 1], p)
    ensures var n := |numbers| - 1;
            ReadNumber(o, p.sent.kind, p.bytes, NumberOffset(cfg, p.sent.kind), PacketNumbers.Expected(numbers[..n])) == numbers[n]
  {
    hide Says, Opens, ReadNumber, HeaderSize;
    var n := |numbers| - 1;
    var w :| Says(cfg, w, numbers[n], p) && Opens(o, w.kind, w.crypto);
    PacketNumbers.ExpectedFollowsLargest(numbers[..n]);
    assert PacketNumbers.Largest(numbers[..n]) < PacketNumbers.NUMBER_LIMIT by {
      if n > 0 { assert PacketNumbers.Largest(numbers[..n]) in numbers[..n]; }
    }
    assert p.sent.kind == w.kind by { SaysKind(cfg, w, numbers[n], p); }
    ReadsOne(cfg, o, w, numbers[n], p, PacketNumbers.Expected(numbers[..n]));
  }

  lemma SaysKind(cfg: Config, w: Written, number: nat, p: Piece)
    requires |cfg.token| <= UINT_VAR_MAX && Says(cfg, w, number, p)
    ensures p.sent.kind == w.kind
  {
  }

  /** Some packets of a run, by their place in it, as they arrive. */
  function Picked(all: seq<Piece>, arrivals: seq<nat>): (pieces: seq<Piece>)
    requires forall i :: 0 <= i < |arrivals| ==> arrivals[i] < |all|
    ensures |pieces| == |arrivals| && forall i :: 0 <= i < |arrivals| ==> pieces[i] == all[arrivals[i]]
  {
    seq(|arrivals|, i requires 0 <= i < |arrivals| => all[arrivals[i]])
  }

  function Numbered(first: nat, arrivals: seq<nat>): (numbers: seq<nat>)
    ensures |numbers| == |arrivals| && forall i :: 0 <= i < |arrivals| ==> numbers[i] == first + arrivals[i]
  {
    seq(|arrivals|, i requires 0 <= i < |arrivals| => first + arrivals[i])
  }

  /**
   Together: of every run, whichever of its packets arrive, in whatever order and however often, a receiver that can
   undo their protection reads the right number from each, as long as each arrives within half a window of the one
   expected then.
   */
  lemma EveryPacketIsRead(cfg: Config, first: nat, actions: seq<Action>, o: Opener, arrivals: seq<nat>)
    requires |cfg.token| <= UINT_VAR_MAX && forall a | a in actions :: Legal(a)
    requires !Run(cfg, NewBuilder(cfg, first), actions).Broken?
    requires Finish(cfg, After(Run(cfg, NewBuilder(cfg, first), actions))).Ok?
    requires forall w | w in WrittenIn(cfg, first, actions) :: Opens(o, w.kind, w.crypto)
    requires var all := AllPieces(Finish(cfg, After(Run(cfg, NewBuilder(cfg, first), actions))).b.shipped);
             forall i :: 0 <= i < |arrivals| ==> arrivals[i] < |all|
    requires PacketNumbers.Timely(Numbered(first, arrivals))
    ensures var all := AllPieces(Finish(cfg, After(Run(cfg, NewBuilder(cfg, first), actions))).b.shipped);
            ReadAll(cfg, o, Picked(all, arrivals)) == Numbered(first, arrivals)
  {
    hide Run, Finish, WrittenIn, Says, Opens, Legal, PacketNumbers.Timely, ReadAll, AllPieces, Picked, Numbered;
    PacketsSayWhatWasWritten(cfg, first, actions);
    var written := WrittenIn(cfg, first, actions);
    var all := AllPieces(Finish(cfg, After(Run(cfg, NewBuilder(cfg, first), actions))).b.shipped);
    var pieces, numbers := Picked(all, arrivals), Numbered(first, arrivals);
    forall i | 0 <= i < |pieces|
      ensures Readable(cfg, o, numbers[i], pieces[i])
    {
      assert written[arrivals[i]] in written;
    }
    EveryNumberIsRead(cfg, o, pieces, numbers);
  }
}
