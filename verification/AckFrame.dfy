/** ACK frames: a set of packet numbers written as gaps and lengths (quic/packet.py). */
module AckFrames {
  import opened Common
  import opened Buffers
  import opened RangeSets

  /** A non-empty set of packet numbers below 2^62. */
  ghost predicate Encodable(rs: seq<Range>) {
    Canonical(rs) && rs != [] && rs[0].start >= 0 && rs[|rs| - 1].stop <= UINT_VAR_MAX + 1
  }

  /** The gap before each lower range and the length of that range, highest first. */
  ghost function EncodeGaps(rs: seq<Range>): seq<byte>
    requires Encodable(rs)
  {
    var n := |rs| - 1;
    if n == 0 then []
    else
      EncodeVar(rs[n].start - rs[n - 1].stop - 1) + EncodeVar(rs[n - 1].stop - rs[n - 1].start - 1) + EncodeGaps(rs[..n])
  }

  ghost function EncodeAck(rs: seq<Range>, delay: nat): seq<byte>
    requires Encodable(rs) && delay <= UINT_VAR_MAX && |rs| <= UINT_VAR_MAX
  {
    var top := rs[|rs| - 1];
    EncodeVar(top.stop - 1) + EncodeVar(delay) + EncodeVar(|rs| - 1) + EncodeVar(top.stop - 1 - top.start) + EncodeGaps(rs)
  }

  /** Adds count more ranges below end to the set acc; also gives the bytes left over. */
  function DecodeRanges(count: nat, end: int, acc: set<int>, s: seq<byte>): Option<(set<int>, seq<byte>)> {
    if count == 0 then Some((acc, s))
    else
      match DecodeVar(s)
      case None => None
      case Some((gap, s1)) =>
        match DecodeVar(s1)
        case None => None
        case Some((length, s2)) =>
          var top := end - (gap + 2);
          DecodeRanges(count - 1, top - length, acc + Span(top - length, top + 1), s2)
  }

  /** The set, the delay and the bytes left over. */
  function DecodeAck(s: seq<byte>): Option<(set<int>, nat, seq<byte>)> {
    match DecodeVar(s)
    case None => None
    case Some((end, s1)) =>
      match DecodeVar(s1)
      case None => None
      case Some((delay, s2)) =>
        match DecodeVar(s2)
        case None => None
        case Some((count, s3)) =>
          match DecodeVar(s3)
          case None => None
          case Some((length, s4)) =>
            match DecodeRanges(count, end - length, Span(end - length, end + 1), s4)
            case None => None
            case Some((numbers, s5)) => Some((numbers, delay, s5))
  }

  lemma LastGap(rs: seq<Range>, sent: seq<byte>)
    requires Encodable(rs)
    ensures rs[..1] == [rs[0]] && Encodable(rs[..1]) && sent + EncodeGaps(rs[..1]) == sent
  {
  }

  lemma GapsStep(rs: seq<Range>, i: nat)
    requires Encodable(rs) && i + 1 < |rs|
    ensures Encodable(rs[..i + 1]) && Encodable(rs[..i + 2]) && rs[i].start < rs[i].stop < rs[i + 1].start
    ensures 0 <= rs[i].start && rs[i + 1].start <= UINT_VAR_MAX
    ensures EncodeGaps(rs[..i + 2]) == EncodeVar(rs[i + 1].start - rs[i].stop - 1)
                                       + EncodeVar(rs[i].stop - rs[i].start - 1) + EncodeGaps(rs[..i + 1])
  {
    hide EncodeVar;
    PrefixEncodable(rs, i + 1);
    PrefixEncodable(rs, i + 2);
    hide Encodable;
    assert rs[..i + 2][..i + 1] == rs[..i + 1];
  }

  lemma PrefixEncodable(rs: seq<Range>, n: nat)
    requires Encodable(rs) && 0 < n <= |rs|
    ensures Encodable(rs[..n])
  {
  }

  lemma TopAndRest(rs: seq<Range>)
    requires rs != []
    ensures Span(rs[|rs| - 1].start, rs[|rs| - 1].stop) + Elements(rs[..|rs| - 1]) == Elements(rs)
  {
    var n := |rs| - 1;
    assert rs == rs[..n] + [rs[n]];
    ElementsAppend(rs[..n], [rs[n]]);
    FewElements(rs[n]);
  }

  lemma DecodesStep(gap: nat, length: nat, tail: seq<byte>, count: nat, end: int, acc: set<int>)
    requires gap <= UINT_VAR_MAX && length <= UINT_VAR_MAX
    ensures var top := end - (gap + 2);
            DecodeRanges(count + 1, end, acc, EncodeVar(gap) + (EncodeVar(length) + tail)) ==
            DecodeRanges(count, top - length, acc + Span(top - length, top + 1), tail)
  {
    hide DecodeVar, EncodeVar;
    VarRoundTrip(gap, EncodeVar(length) + tail);
    VarRoundTrip(length, tail);
  }

  lemma {:induction false} GapsRoundTrip(rs: seq<Range>, acc: set<int>, rest: seq<byte>)
    requires Encodable(rs)
    ensures DecodeRanges(|rs| - 1, rs[|rs| - 1].start, acc, EncodeGaps(rs) + rest) ==
            Some((acc + Elements(rs[..|rs| - 1]), rest))
  {
    hide DecodeVar, EncodeVar, Elements;
    var n := |rs| - 1;
    if n == 0 {
      assert rs[..1] == rs;
      LastGap(rs, []);
      assert EncodeGaps(rs) + rest == rest;
      FewElements(rs[0]);
      assert acc + Elements([]) == acc;
    } else {
      hide EncodeGaps, Encodable, DecodeRanges;
      var r := rs[n - 1];
      var gap, length := rs[n].start - r.stop - 1, r.stop - r.start - 1;
      var tail := EncodeGaps(rs[..n]) + rest;
      assert rs[..n + 1] == rs;
      GapsStep(rs, n - 1);
      assert EncodeGaps(rs) + rest == EncodeVar(gap) + (EncodeVar(length) + tail);
      DecodesStep(gap, length, tail, n - 1, rs[n].start, acc);
      var here := acc + Span(r.start, r.stop);
      GapsRoundTrip(rs[..n], here, rest);
      assert rs[..n][..n - 1] == rs[..n - 1];
      TopAndRest(rs[..n]);
      assert here + Elements(rs[..n - 1]) == acc + Elements(rs[..n]);
    }
  }

  lemma {:induction false} FitsNumbers(rs: seq<Range>)
    requires Canonical(rs) && rs != []
    ensures rs[|rs| - 1].stop - rs[0].start >= 2 * |rs| - 1
  {
    if |rs| > 1 {
      FitsNumbers(rs[..|rs| - 1]);
    }
  }

  lemma Regrouped(rs: seq<Range>, delay: nat, rest: seq<byte>)
    requires Encodable(rs) && delay <= UINT_VAR_MAX && |rs| <= UINT_VAR_MAX
    ensures var top := rs[|rs| - 1];
            EncodeAck(rs, delay) + rest ==
            EncodeVar(top.stop - 1) + (EncodeVar(delay) + (EncodeVar(|rs| - 1)
            + (EncodeVar(top.stop - 1 - top.start) + (EncodeGaps(rs) + rest))))
  {
    hide EncodeVar, EncodeGaps;
  }

  /** pull_ack_frame undoes push_ack_frame: same set, same range list, same delay, nothing else consumed. */
  lemma AckRoundTrip(rs: seq<Range>, delay: nat, rest: seq<byte>)
    requires Encodable(rs) && delay <= UINT_VAR_MAX
    ensures |rs| <= UINT_VAR_MAX && DecodeAck(EncodeAck(rs, delay) + rest) == Some((Elements(rs), delay, rest))
    ensures forall other | Canonical(other) && Elements(other) == Elements(rs) :: other == rs
  {
    hide DecodeVar, EncodeVar, DecodeRanges, EncodeGaps, Elements;
    FitsNumbers(rs);
    Regrouped(rs, delay, rest);
    var n := |rs| - 1;
    var top := rs[n];
    var s4 := EncodeGaps(rs) + rest;
    var s3 := EncodeVar(top.stop - 1 - top.start) + s4;
    var s2 := EncodeVar(n) + s3;
    var s1 := EncodeVar(delay) + s2;
    VarRoundTrip(top.stop - 1, s1);
    VarRoundTrip(delay, s2);
    VarRoundTrip(n, s3);
    VarRoundTrip(top.stop - 1 - top.start, s4);
    GapsRoundTrip(rs, Span(top.start, top.stop), rest);
    TopAndRest(rs);
    forall other | Canonical(other) && Elements(other) == Elements(rs)
      ensures other == rs
    {
      CanonicalUnique(other, rs);
    }
  }

  /** Writes v if there is room and no earlier write has failed; sent collects what should be written. */
  method PushNext(buf: Buffer, v: int, before: bool, ghost start: seq<byte>, ghost room: nat, ghost sent: seq<byte>)
    returns (ok: bool)
    requires buf.Valid() && 0 <= v <= UINT_VAR_MAX
    requires before <==> |sent| <= room
    requires before ==> buf.Data() == start + sent && |buf.Rest()| == room - |sent|
    modifies buf`pos, buf.base
    ensures buf.Valid()
    ensures ok <==> |sent + EncodeVar(v)| <= room
    ensures ok ==> buf.Data() == start + (sent + EncodeVar(v)) && |buf.Rest()| == room - |sent + EncodeVar(v)|
  {
    hide EncodeVar, BigEndian, FromBigEndian;
    ok := before;
    VarRoundTrip(v, []);
    if ok {
      ok := buf.PushUintVar(v);
      assert ok ==> start + sent + EncodeVar(v) == start + (sent + EncodeVar(v));
    }
  }

  /** The exception of the first write that does not fit ends the call, as ok == false. */
  method PushAckFrame(buf: Buffer, rangeset: RangeSet, delay: nat) returns (ok: bool, ranges: nat)
    requires buf.Valid() && Encodable(rangeset.ranges) && delay <= UINT_VAR_MAX
    modifies buf`pos, buf.base
    ensures buf.Valid() && |rangeset.ranges| <= UINT_VAR_MAX
    ensures ok <==> |EncodeAck(rangeset.ranges, delay)| <= |old(buf.Rest())|
    ensures ok ==> buf.Data() == old(buf.Data()) + EncodeAck(rangeset.ranges, delay) && ranges == |rangeset.ranges|
  {
    hide EncodeVar, BigEndian, Elements, EncodeGaps;
    ghost var rs, begin, room := rangeset.ranges, buf.Data(), |buf.Rest()|;
    FitsNumbers(rs);
    ranges := |rangeset.ranges|;
    var index := ranges - 1;
    var r := rangeset.ranges[index];
    assert rs[..ranges] == rs;
    ghost var sent: seq<byte> := [];
    ok := PushNext(buf, r.stop - 1, true, begin, room, sent);
    sent := sent + EncodeVar(r.stop - 1);
    ok := PushNext(buf, delay, ok, begin, room, sent);
    sent := sent + EncodeVar(delay);
    ok := PushNext(buf, index, ok, begin, room, sent);
    sent := sent + EncodeVar(index);
    ok := PushNext(buf, r.stop - 1 - r.start, ok, begin, room, sent);
    sent := sent + EncodeVar(r.stop - 1 - r.start);
    assert sent + EncodeGaps(rs) == EncodeAck(rs, delay);
    ok := PushGaps(buf, rangeset, ok, begin, room, sent);
  }

  /** The loop over the ranges below the top one. */
  method PushGaps(buf: Buffer, rangeset: RangeSet, before: bool, ghost begin: seq<byte>, ghost room: nat, ghost head: seq<byte>)
    returns (ok: bool)
    requires buf.Valid() && Encodable(rangeset.ranges)
    requires before <==> |head| <= room
    requires before ==> buf.Data() == begin + head && |buf.Rest()| == room - |head|
    modifies buf`pos, buf.base
    ensures buf.Valid()
    ensures ok <==> |head + EncodeGaps(rangeset.ranges)| <= room
    ensures ok ==> buf.Data() == begin + (head + EncodeGaps(rangeset.ranges))
  {
    hide EncodeVar, Elements, EncodeGaps;
    ghost var rs, sent := rangeset.ranges, head;
    var index := |rangeset.ranges| - 1;
    var start := rangeset.ranges[index].start;
    assert rs[..index + 1] == rs;
    ok := before;
    while index > 0
      invariant buf.Valid() && 0 <= index < |rs| && start == rs[index].start
      invariant Encodable(rs[..index + 1]) && sent + EncodeGaps(rs[..index + 1]) == head + EncodeGaps(rs)
      invariant ok <==> |sent| <= room
      invariant ok ==> buf.Data() == begin + sent && |buf.Rest()| == room - |sent|
    {
      hide Encodable;
      index := index - 1;
      var r := rangeset.ranges[index];
      GapsStep(rs, index);
      ghost var was := sent;
      ok := PushNext(buf, start - r.stop - 1, ok, begin, room, sent);
      sent := sent + EncodeVar(start - r.stop - 1);
      ok := PushNext(buf, r.stop - r.start - 1, ok, begin, room, sent);
      sent := sent + EncodeVar(r.stop - r.start - 1);
      Reassociate(was, EncodeVar(start - r.stop - 1), EncodeVar(r.stop - r.start - 1), EncodeGaps(rs[..index + 1]));
      start := r.start;
    }
    LastGap(rs, sent);
  }

  lemma Reassociate(a: seq<byte>, b: seq<byte>, c: seq<byte>, d: seq<byte>)
    ensures a + b + c + d == a + (b + c + d)
  {
  }

  method PullAckFrame(buf: Buffer) returns (r: Option<(RangeSet, nat)>)
    requires buf.Valid()
    modifies buf`pos
    ensures buf.Valid()
    ensures r.Some? <==> DecodeAck(old(buf.Rest())).Some?
    ensures r.Some? ==> fresh(r.value.0) && r.value.0.Valid()
    ensures r.Some? ==> DecodeAck(old(buf.Rest())) == Some((r.value.0.Contents(), r.value.1, buf.Rest()))
  {
    hide DecodeVar, Elements, Canonical, DecodeRanges;
    var rangeset := new RangeSet();
    var largest := buf.PullUintVar();
    if largest.None? { return None; }
    var delay := buf.PullUintVar();
    if delay.None? { return None; }
    var count := buf.PullUintVar();
    if count.None? { return None; }
    var length := buf.PullUintVar();
    if length.None? { return None; }
    var end: int := largest.value;
    rangeset.Add(end - length.value, end + 1);
    assert rangeset.Contents() == Span(end - length.value, end + 1);
    var ok := PullRanges(buf, rangeset, count.value, end - length.value);
    if !ok { return None; }
    r := Some((rangeset, delay.value));
  }

  /** The loop over the ranges below the first one. */
  method PullRanges(buf: Buffer, rangeset: RangeSet, count: nat, from: int) returns (ok: bool)
    requires buf.Valid() && rangeset.Valid()
    modifies buf`pos, rangeset
    ensures buf.Valid() && rangeset.Valid()
    ensures ok <==> DecodeRanges(count, from, old(rangeset.Contents()), old(buf.Rest())).Some?
    ensures ok ==> DecodeRanges(count, from, old(rangeset.Contents()), old(buf.Rest())) ==
                   Some((rangeset.Contents(), buf.Rest()))
  {
    hide DecodeVar, Elements, Canonical;
    var end := from;
    for i := 0 to count
      invariant buf.Valid() && rangeset.Valid()
      invariant DecodeRanges(count - i, end, rangeset.Contents(), buf.Rest()) ==
                DecodeRanges(count, from, old(rangeset.Contents()), old(buf.Rest()))
    {
      var gap := buf.PullUintVar();
      if gap.None? { return false; }
      var length := buf.PullUintVar();
      if length.None? { return false; }
      end := end - (gap.value + 2);
      rangeset.Add(end - length.value, end + 1);
      end := end - length.value;
    }
    ok := true;
  }
}
