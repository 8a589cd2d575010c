/** Retry and version negotiation packets, as written and as read (quic/packet.py). */
module HeaderWriters {
  import opened Common
  import opened Buffers
  import opened Headers
  import opened HeaderLaws

  /** Version, destination and source, the connection IDs after their lengths. */
  function Address(version: nat, destination: seq<byte>, source: seq<byte>): seq<byte> {
    BigEndian(version, 4) + CidBytes(destination) + CidBytes(source)
  }

  function CidBytes(cid: seq<byte>): seq<byte> { BigEndian(|cid|, 1) + cid }

  /** A Retry packet without its integrity tag. */
  function RetryFront(version: nat, unused: nat, destination: seq<byte>, source: seq<byte>, token: seq<byte>): seq<byte>
    requires unused < 16
  {
    [LongFirstByte(version, Retry, unused)] + Address(version, destination, source) + token
  }

  /** What the tag is computed over: the packet after the connection ID that it answers. */
  function Pseudo(original: seq<byte>, front: seq<byte>): seq<byte> { CidBytes(original) + front }

  function VersionBytes(versions: seq<nat>): seq<byte> {
    if versions == [] then [] else VersionBytes(versions[..|versions| - 1]) + BigEndian(versions[|versions| - 1], 4)
  }

  /** get_retry_integrity_tag; the AEAD under the key of the version is a parameter. */
  method RetryTag(front: seq<byte>, original: seq<byte>, version: nat, seal: (nat, seq<byte>) -> seq<byte>)
    returns (tag: seq<byte>)
    ensures tag == seal(version, Pseudo(original, front))
  {
    hide BigEndian, CidBytes;
    var buf := new Buffer(1 + |original| + |front|);
    PushCid(buf, original);
    var ok := buf.PushBytes(front);
    var eof := buf.Eof();
    assert eof;
    Nothing(CidBytes(original));
    tag := seal(version, buf.base[..buf.pos]);
  }

  lemma Nothing(a: seq<byte>)
    ensures [] + a == a
  {
  }

  method PushCid(buf: Buffer, cid: seq<byte>)
    requires buf.Valid() && |buf.Rest()| >= 1 + |cid|
    modifies buf`pos, buf.base
    ensures buf.Valid() && buf.Data() == old(buf.Data()) + CidBytes(cid) && |buf.Rest()| == |old(buf.Rest())| - 1 - |cid|
  {
    hide BigEndian;
    ghost var d := buf.Data();
    var ok := buf.PushUint(|cid|, 1);
    ok := buf.PushBytes(cid);
    Regrouped(d, BigEndian(|cid|, 1), cid);
  }

  lemma Regrouped(a: seq<byte>, b: seq<byte>, c: seq<byte>)
    ensures a + b + c == a + (b + c)
  {
  }

  method PushAddress(buf: Buffer, version: nat, destination: seq<byte>, source: seq<byte>)
    requires buf.Valid() && |buf.Rest()| >= 6 + |destination| + |source|
    modifies buf`pos, buf.base
    ensures buf.Valid() && buf.Data() == old(buf.Data()) + Address(version, destination, source)
    ensures |buf.Rest()| == |old(buf.Rest())| - 6 - |destination| - |source|
  {
    hide BigEndian, CidBytes;
    ghost var d := buf.Data();
    var ok := buf.PushUint(version, 4);
    PushCid(buf, destination);
    PushCid(buf, source);
    Regrouped(d, BigEndian(version, 4), CidBytes(destination));
    Regrouped(d, BigEndian(version, 4) + CidBytes(destination), CidBytes(source));
  }

  /** encode_quic_retry: the buffer is exactly as large as the packet. */
  method EncodeRetry(version: nat, source: seq<byte>, destination: seq<byte>, original: seq<byte>, token: seq<byte>, unused: nat,
                     seal: (nat, seq<byte>) -> seq<byte>)
    returns (packet: seq<byte>)
    requires unused < 16 && forall v, p :: |seal(v, p)| == 16
    ensures var front := RetryFront(version, unused, destination, source, token);
            packet == front + seal(version, Pseudo(original, front))
  {
    ghost var front := RetryFront(version, unused, destination, source, token);
    var buf := new Buffer(7 + |destination| + |source| + |token| + INTEGRITY_TAG_SIZE);
    var first := LongFirstByte(version, Retry, unused);
    var ok := buf.PushBytes([first]);
    PushAddress(buf, version, destination, source);
    ok := buf.PushBytes(token);
    hide BigEndian;
    assert buf.base[..buf.pos] == front by { assert [] + [first] == [first]; }
    var tag := RetryTag(buf.base[..buf.pos], original, version, seal);
    ok := buf.PushBytes(tag);
    var eof := buf.Eof();
    assert eof;
    packet := buf.base[..buf.pos];
  }

  /** encode_quic_version_negotiation: the low bits of the first byte are random. */
  method EncodeNegotiation(first: byte, source: seq<byte>, destination: seq<byte>, versions: seq<nat>) returns (packet: seq<byte>)
    requires first >= 0x80
    ensures packet == [first] + Address(0, destination, source) + VersionBytes(versions)
  {
    hide BigEndian, Address;
    var buf := new Buffer(7 + |destination| + |source| + 4 * |versions|);
    var ok := buf.PushBytes([first]);
    Nothing([first]);
    PushAddress(buf, NEGOTIATION, destination, source);
    ghost var front := buf.Data();
    NoVersions(front, versions);
    for i := 0 to |versions|
      invariant buf.Valid() && buf.Data() == front + VersionBytes(versions[..i])
      invariant |buf.Rest()| == 4 * (|versions| - i)
    {
      ok := buf.PushUint(versions[i], 4);
      OneVersion(front, versions, i);
    }
    assert versions[..|versions|] == versions;
    packet := buf.base[..buf.pos];
  }

  lemma NoVersions(front: seq<byte>, versions: seq<nat>)
    ensures front + VersionBytes(versions[..0]) == front
  {
  }

  lemma OneVersion(front: seq<byte>, versions: seq<nat>, i: nat)
    requires i < |versions|
    ensures front + VersionBytes(versions[..i]) + BigEndian(versions[i], 4) == front + VersionBytes(versions[..i + 1])
  {
    assert versions[..i + 1][..i] == versions[..i];
  }

  // ---- Reading them ----

  /** The pieces of a long header, where the reader looks for them. */
  lemma AddressAt(first: byte, version: nat, destination: seq<byte>, source: seq<byte>, tail: seq<byte>)
    requires |destination| < 0x100 && |source| < 0x100 && version < 0x1_0000_0000
    ensures var s := [first] + Address(version, destination, source) + tail;
            && |s| == 7 + |destination| + |source| + |tail| && s[0] == first && s[1..5] == BigEndian(version, 4)
            && FromBigEndian(s[1..5]) == version
            && s[5] as int == |destination| && s[6..6 + |destination|] == destination
            && s[6 + |destination|] as int == |source| && s[7 + |destination|..7 + |destination| + |source|] == source
            && s[7 + |destination| + |source|..] == tail
            && (Addressed(s) <==> |destination| <= 20 && |source| <= 20)
  {
    var d, e := BigEndian(|destination|, 1), BigEndian(|source|, 1);
    OneByte(|destination|);
    OneByte(|source|);
    Powers();
    ReadsBack(version, 4, []);
    hide BigEndian, FromBigEndian;
    var s := [first] + Address(version, destination, source) + tail;
    assert s == [first] + BigEndian(version, 4) + d + destination + e + source + tail;
  }

  lemma OneByte(v: nat)
    requires v < 0x100
    ensures BigEndian(v, 1) == [v]
  {
    assert BigEndian(v / 256, 0) == [];
  }

  /**
   A Retry packet reads back with everything in it if and only if its connection IDs have at most 20 bytes.
   */
  lemma RetryReadsBack(version: nat, unused: nat, destination: seq<byte>, source: seq<byte>, token: seq<byte>, tag: seq<byte>,
                       cidLength: nat)
    requires unused < 16 && 0 < version < 0x1_0000_0000 && |destination| < 0x100 && |source| < 0x100 && |tag| == 16
    ensures var s := RetryFront(version, unused, destination, source, token) + tag;
            PullHeader(s, cidLength) ==
            if |destination| <= 20 && |source| <= 20 then
              Some((Header(Some(version), Retry, |s|, destination, source, token, tag, []), []))
            else None
  {
    var first := LongFirstByte(version, Retry, unused);
    var s := [first] + Address(version, destination, source) + (token + tag);
    assert RetryFront(version, unused, destination, source, token) + tag == s;
    AddressAt(first, version, destination, source, token + tag);
    SpecialVersions(s[1..5]);
    LongExactly(s, cidLength);
    RetryFirst(version, unused);
    hide Address, PullHeader, LongFirstByte, FromBigEndian, Token, AfterToken, Counted;
  }

  lemma RetryFirst(version: nat, unused: nat)
    requires unused < 16
    ensures var first := LongFirstByte(version, Retry, unused);
            first >= 0xC0 && (first / 0x10 % 4 + if version == VERSION_2 then 3 else 0) % 4 == 3
  {
  }

  /**
   A Retry packet carries a tag that the client which used the original connection ID finds to be right: over what it
   read up to the last 16 bytes, it computes the tag that it read.
   */
  lemma RetryVerifies(version: nat, unused: nat, destination: seq<byte>, source: seq<byte>, token: seq<byte>, original: seq<byte>,
                      seal: (nat, seq<byte>) -> seq<byte>, cidLength: nat)
    requires unused < 16 && 0 < version < 0x1_0000_0000 && |destination| <= 20 && |source| <= 20
    requires forall v, p :: |seal(v, p)| == 16
    ensures var front := RetryFront(version, unused, destination, source, token);
            var s := front + seal(version, Pseudo(original, front));
            && PullHeader(s, cidLength).Some?
            && PullHeader(s, cidLength).value.0.integrityTag == seal(version, Pseudo(original, s[..|s| - 16]))
  {
    var front := RetryFront(version, unused, destination, source, token);
    RetryReadsBack(version, unused, destination, source, token, seal(version, Pseudo(original, front)), cidLength);
    hide RetryFront, PullHeader, Pseudo;
    assert (front + seal(version, Pseudo(original, front)))[..|front|] == front;
  }

  lemma {:induction false} VersionBytesAt(versions: seq<nat>)
    requires forall v | v in versions :: v < 0x1_0000_0000
    ensures |VersionBytes(versions)| == 4 * |versions|
    ensures forall i | 0 <= i < |versions| :: FromBigEndian(VersionBytes(versions)[4 * i..4 * i + 4]) == versions[i]
  {
    if versions != [] {
      var n := |versions| - 1;
      assert versions[n] in versions && forall v | v in versions[..n] :: v in versions;
      VersionBytesAt(versions[..n]);
      Powers();
      ReadsBack(versions[n], 4, []);
      hide FromBigEndian, BigEndian;
      var all := VersionBytes(versions);
      forall i | 0 <= i < |versions|
        ensures FromBigEndian(all[4 * i..4 * i + 4]) == versions[i]
      {
        assert i < n ==> all[4 * i..4 * i + 4] == VersionBytes(versions[..n])[4 * i..4 * i + 4];
        assert i == n ==> all[4 * i..4 * i + 4] == BigEndian(versions[n], 4);
      }
    }
  }

  /** A version negotiation packet reads back, whatever the low seven bits of its first byte are. */
  lemma NegotiationReadsBack(first: byte, destination: seq<byte>, source: seq<byte>, versions: seq<nat>, cidLength: nat)
    requires first >= 0x80 && |destination| < 0x100 && |source| < 0x100 && forall v | v in versions :: v < 0x1_0000_0000
    ensures var s := [first] + Address(0, destination, source) + VersionBytes(versions);
            PullHeader(s, cidLength) ==
            if |destination| <= 20 && |source| <= 20 then
              Some((Header(Some(0), VersionNegotiation, |s|, destination, source, [], [], versions), []))
            else None
  {
    hide VersionBytes, Address, PullHeader, Continues, KindOf, FromBigEndian, BigEndian;
    var tail := VersionBytes(versions);
    var s := [first] + Address(0, destination, source) + tail;
    AddressAt(first, 0, destination, source, tail);
    SpecialVersions(s[1..5]);
    if Addressed(s) {
      VersionsAt(s, versions, cidLength);
      OnlyVersions(s, cidLength);
    }
    LongExactly(s, cidLength);
  }

  /** Where the versions are all that is left. */
  lemma VersionsAt(s: seq<byte>, versions: seq<nat>, cidLength: nat)
    requires s != [] && s[0] >= 0x80 && Addressed(s) && s[1..5] == [0, 0, 0, 0] && s[AfterAddress(s)..] == VersionBytes(versions)
    requires forall v | v in versions :: v < 0x1_0000_0000
    ensures var r := PullHeader(s, cidLength);
            r.Some? && r.value.0.kind == VersionNegotiation && r.value.0.supported == versions
  {
    hide VersionBytes, PullHeader, FromBigEndian, Counted, Token, AfterToken;
    LongExactly(s, cidLength);
    VersionBytesAt(versions);
    var h := PullHeader(s, cidLength).value.0;
    forall i | 0 <= i < |versions|
      ensures h.supported[i] == versions[i]
    {
      assert FromBigEndian(VersionBytes(versions)[4 * i..4 * i + 4]) == versions[i];
    }
  }

  /** A version negotiation packet has neither token nor tag. */
  lemma OnlyVersions(s: seq<byte>, cidLength: nat)
    requires s != [] && s[0] >= 0x80
    ensures var r := PullHeader(s, cidLength);
            r.Some? && r.value.0.kind == VersionNegotiation ==> r.value.0.token == r.value.0.integrityTag == []
    ensures var r := PullHeader(s, cidLength);
            r.Some? && r.value.0.kind != VersionNegotiation ==> r.value.0.supported == []
  {
    hide PullCid, PullVersions, PullLongTail, FromBigEndian;
  }
}
