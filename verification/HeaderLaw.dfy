/** Exactly which headers are accepted, and Retry and version negotiation packets as written and read (quic/packet.py). */
module HeaderLaws {
  import opened Common
  import opened Buffers
  import opened Headers
  import Coalescing

  // ---- Which headers are accepted ----

  /** A short header is accepted exactly with its fixed bit and a whole connection ID of the length the host uses. */
  lemma ShortExactly(s: seq<byte>, cidLength: nat)
    requires s != [] && s[0] < 0x80
    ensures PullHeader(s, cidLength) ==
            if s[0] >= 0x40 && |s| > cidLength then
              Some((Header(None, OneRtt, |s|, s[1..1 + cidLength], [], [], [], []), s[1 + cidLength..]))
            else None
  {
    if |s| > cidLength {
      assert s[1..][..cidLength] == s[1..1 + cidLength] && s[1..][cidLength..] == s[1 + cidLength..];
    }
  }

  /** After the version two connection IDs of at most 20 bytes, each after its length. */
  predicate Addressed(s: seq<byte>) {
    && |s| > 5 && s[5] <= 20 && |s| > 6 + s[5] as int && s[6 + s[5]] <= 20 && |s| >= 7 + s[5] as int + s[6 + s[5]] as int
  }

  function AfterAddress(s: seq<byte>): nat
    requires Addressed(s)
  {
    7 + s[5] as int + s[6 + s[5]] as int
  }

  /** The four types in the order of version 1; those of version 2 are shifted by one. */
  function TypeNumber(s: seq<byte>): nat
    requires |s| > 4
  {
    (s[0] / 0x10 % 4 + if s[1..5] == [0x6B, 0x33, 0x43, 0xCF] then 3 else 0) % 4
  }

  /** A length and at least as many bytes after it. */
  predicate Counted(s: seq<byte>) { DecodeVar(s).Some? && DecodeVar(s).value.0 <= |DecodeVar(s).value.1| }

  /** The token of an INITIAL, and what comes after it. */
  function Token(s: seq<byte>): seq<byte>
    requires Counted(s)
  {
    DecodeVar(s).value.1[..DecodeVar(s).value.0]
  }

  function AfterToken(s: seq<byte>): seq<byte>
    requires Counted(s)
  {
    DecodeVar(s).value.1[DecodeVar(s).value.0..]
  }

  /** What comes after the connection IDs can be read. */
  predicate Continues(s: seq<byte>)
    requires Addressed(s)
  {
    var rest := s[AfterAddress(s)..];
    if s[1..5] == [0, 0, 0, 0] then |rest| % 4 == 0
    else
      s[0] >= 0xC0 &&
      if TypeNumber(s) == 3 then |rest| >= 16
      else if TypeNumber(s) == 0 then
        Counted(rest) && Counted(AfterToken(rest))
      else Counted(rest)
  }

  lemma AddressExactly(s: seq<byte>)
    requires |s| >= 5
    ensures Addressed(s) <==> PullCid(s[5..]).Some? && PullCid(PullCid(s[5..]).value.1).Some?
    ensures Addressed(s) ==>
              PullCid(s[5..]) == Some((s[6..6 + s[5]], s[6 + s[5]..]))
              && PullCid(s[6 + s[5]..]) == Some((s[7 + s[5]..AfterAddress(s)], s[AfterAddress(s)..]))
  {
    if |s| > 5 && s[5] <= 20 && |s| >= 6 + s[5] as int {
      var d := s[5] as int;
      assert s[5..][1..] == s[6..] && s[6..][..d] == s[6..6 + d] && s[6..][d..] == s[6 + d..];
      if |s| > 6 + d {
        assert s[6 + d..][1..] == s[7 + d..];
        if Addressed(s) {
          var e := s[6 + d] as int;
          assert s[7 + d..][..e] == s[7 + d..7 + d + e] && s[7 + d..][e..] == s[7 + d + e..];
        }
      }
    }
  }

  lemma Digits(b: seq<byte>)
    requires |b| == 4
    ensures FromBigEndian(b) == b[0] as int * 0x100_0000 + b[1] as int * 0x1_0000 + b[2] as int * 0x100 + b[3] as int
  {
    var none: seq<byte> := [];
    assert b[..3][..2] == b[..2] && b[..2][..1] == b[..1] && b[..1][..0] == none;
    assert FromBigEndian(b[..1]) == b[0] as int && FromBigEndian(b[..2]) == FromBigEndian(b[..1]) * 256 + b[1] as int;
    assert FromBigEndian(b[..3]) == FromBigEndian(b[..2]) * 256 + b[2] as int;
  }

  lemma SpecialVersions(b: seq<byte>)
    requires |b| == 4
    ensures FromBigEndian(b) == NEGOTIATION <==> b == [0, 0, 0, 0]
    ensures FromBigEndian(b) == VERSION_2 <==> b == [0x6B, 0x33, 0x43, 0xCF]
  {
    Digits(b);
  }

  lemma {:induction false} VersionsExactly(s: seq<byte>)
    ensures PullVersions(s).Some? <==> |s| % 4 == 0
    ensures PullVersions(s).Some? ==>
              && |PullVersions(s).value| == |s| / 4
              && forall i | 0 <= i < |s| / 4 :: PullVersions(s).value[i] == FromBigEndian(s[4 * i..4 * i + 4])
    decreases |s|
  {
    hide FromBigEndian;
    if |s| >= 4 {
      VersionsExactly(s[4..]);
      assert s[0..4] == s[..4];
      forall i | 0 < i < |s| / 4
        ensures s[4..][4 * (i - 1)..4 * (i - 1) + 4] == s[4 * i..4 * i + 4]
      {
      }
    }
  }

  /** Token, tag, length and the bytes after them, by type. */
  lemma TailExactly(kind: PacketType, rest: seq<byte>)
    requires kind in {Initial, ZeroRtt, HandshakePacket, Retry}
    ensures var t := PullLongTail(kind, rest);
            var fits := t.Some? && t.value.2 <= |t.value.3|;
            if kind == Retry then
              fits == (|rest| >= 16) && (fits ==> t.value == (rest[..|rest| - 16], rest[|rest| - 16..], 0, []))
            else if kind == Initial then
              && fits == (Counted(rest) && Counted(AfterToken(rest)))
              && (fits ==> t.value.0 == Token(rest) && t.value.1 == [] && Some((t.value.2, t.value.3)) == DecodeVar(AfterToken(rest)))
            else
              fits == Counted(rest) && (fits ==> t.value.0 == t.value.1 == [] && Some((t.value.2, t.value.3)) == DecodeVar(rest))
  {
    hide DecodeVar;
  }

  function KindOf(s: seq<byte>): PacketType
    requires |s| > 4
  {
    if s[1..5] == [0, 0, 0, 0] then VersionNegotiation
    else if TypeNumber(s) == 0 then Initial
    else if TypeNumber(s) == 1 then ZeroRtt
    else if TypeNumber(s) == 2 then HandshakePacket
    else Retry
  }

  /**
   A long header is accepted exactly when its connection IDs are whole and at most 20 bytes long and what follows them
   is, by type: versions of four bytes each, at least an integrity tag, or a length that the datagram can hold after
   the token of an INITIAL. The fixed bit has to be set unless the version is 0. Version, type and connection IDs are
   those written, and so are the versions, token, tag and length.
   */
  lemma LongExactly(s: seq<byte>, cidLength: nat)
    requires s != [] && s[0] >= 0x80
    ensures PullHeader(s, cidLength).Some? <==> Addressed(s) && Continues(s)
    ensures PullHeader(s, cidLength).Some? ==>
              var (h, after) := PullHeader(s, cidLength).value;
              && h.version == Some(FromBigEndian(s[1..5])) && h.kind == KindOf(s)
              && h.destination == s[6..6 + s[5]] && h.source == s[7 + s[5]..AfterAddress(s)]
              && (h.kind in {VersionNegotiation, Retry} ==> h.packetLength == |s| && after == [])
              && var rest := s[AfterAddress(s)..];
                 && (h.kind == VersionNegotiation ==>
                       |h.supported| == |rest| / 4
                       && forall i | 0 <= i < |rest| / 4 :: h.supported[i] == FromBigEndian(rest[4 * i..4 * i + 4]))
                 && (h.kind == Retry ==> h.token == rest[..|rest| - 16] && h.integrityTag == rest[|rest| - 16..])
                 && (h.kind == Initial ==> h.token == Token(rest))
                 && (h.kind in {Initial, ZeroRtt, HandshakePacket} ==>
                       Some((h.packetLength - |s| + |after|, after)) == DecodeVar(if h.kind == Initial then AfterToken(rest) else rest))
  {
    hide DecodeVar, FromBigEndian, PullVersions, PullLongTail, PullCid;
    if |s| >= 5 {
      AddressExactly(s);
      SpecialVersions(s[1..5]);
      if Addressed(s) {
        var rest := s[AfterAddress(s)..];
        VersionsExactly(rest);
        TailExactly(TypeOfBits(FromBigEndian(s[1..5]), s[0] / 16 % 4), rest);
      }
    }
  }
}
