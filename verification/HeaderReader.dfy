/** Reading headers with a moving cursor (quic/packet.py) and walking over a datagram (quic/connection.py). */
module HeaderReaders {
  import opened Common
  import opened Buffers
  import opened Headers

  lemma OneByteValue(b: byte)
    ensures FromBigEndian([b]) == b
  {
    assert [b][..0] == [] && FromBigEndian([]) == 0;
  }

  method PullUint8(buf: Buffer) returns (r: Option<byte>)
    requires buf.Valid()
    modifies buf`pos
    ensures buf.Valid() && (r.Some? <==> old(buf.Rest()) != [])
    ensures r.Some? ==> r.value == old(buf.Rest())[0] && buf.Rest() == old(buf.Rest())[1..] && buf.pos == old(buf.pos) + 1
    ensures r.None? ==> buf.pos == old(buf.pos)
  {
    ghost var s := buf.Rest();
    var v := buf.PullUint(1);
    if v.None? { return None; }
    assert s[..1] == [s[0]];
    OneByteValue(s[0]);
    r := Some(v.value);
  }

  /** A connection ID of at most 20 bytes. */
  method PullConnectionId(buf: Buffer) returns (r: Option<seq<byte>>)
    requires buf.Valid()
    modifies buf`pos
    ensures buf.Valid() && (r.Some? <==> PullCid(old(buf.Rest())).Some?)
    ensures r.Some? ==> PullCid(old(buf.Rest())) == Some((r.value, buf.Rest())) && buf.pos >= old(buf.pos)
  {
    var length := PullUint8(buf);
    if length.None? || length.value > CONNECTION_ID_MAX_SIZE { return None; }
    r := buf.PullBytes(length.value);
  }

  function After(versions: seq<nat>, rest: Option<seq<nat>>): Option<seq<nat>> {
    match rest
    case None => None
    case Some(more) => Some(versions + more)
  }

  lemma Before(a: seq<nat>, b: seq<nat>, rest: Option<seq<nat>>)
    ensures After(a, After(b, rest)) == After(a + b, rest) && After([], rest) == rest
  {
    if rest.Some? {
      assert a + (b + rest.value) == a + b + rest.value;
      assert [] + rest.value == rest.value;
    }
  }

  /** The versions of a version negotiation packet, up to the end of the datagram. */
  method PullSupportedVersions(buf: Buffer) returns (r: Option<seq<nat>>)
    requires buf.Valid()
    modifies buf`pos
    ensures buf.Valid() && r == PullVersions(old(buf.Rest())) && (r.Some? ==> buf.Rest() == [] && buf.pos >= old(buf.pos))
  {
    var versions: seq<nat> := [];
    ghost var all := PullVersions(buf.Rest());
    Before([], [], all);
    while buf.pos < buf.base.Length
      invariant buf.Valid() && buf.pos >= old(buf.pos)
      invariant all == After(versions, PullVersions(buf.Rest()))
      decreases buf.base.Length - buf.pos
    {
      ghost var s := buf.Rest();
      var v := buf.PullUint(4);
      if v.None? { return None; }
      Before(versions, [v.value], PullVersions(buf.Rest()));
      versions := versions + [v.value];
    }
    assert buf.Rest() == [] && versions + [] == versions;
    r := Some(versions);
  }

  /** Token, integrity tag and rest length, by packet type. */
  method PullLongFields(buf: Buffer, kind: PacketType) returns (r: Option<(seq<byte>, seq<byte>, nat)>)
    requires buf.Valid() && kind in {Initial, ZeroRtt, HandshakePacket, Retry}
    modifies buf`pos
    ensures buf.Valid() && (r.Some? <==> PullLongTail(kind, old(buf.Rest())).Some?)
    ensures r.Some? ==> PullLongTail(kind, old(buf.Rest())) == Some((r.value.0, r.value.1, r.value.2, buf.Rest()))
    ensures r.Some? ==> buf.pos >= old(buf.pos)
  {
    hide DecodeVar;
    if kind == Retry {
      var token := buf.PullBytes(buf.base.Length - buf.pos - INTEGRITY_TAG_SIZE);
      if token.None? { return None; }
      ghost var rest := buf.Rest();
      assert rest[..INTEGRITY_TAG_SIZE] == rest;
      var tag := buf.PullBytes(INTEGRITY_TAG_SIZE);
      assert buf.Rest() == [];
      return Some((token.value, tag.value, 0));
    }
    var token: seq<byte> := [];
    if kind == Initial {
      var tokenLength := buf.PullUintVar();
      if tokenLength.None? { return None; }
      var t := buf.PullBytes(tokenLength.value);
      if t.None? { return None; }
      token := t.value;
    }
    var length := buf.PullUintVar();
    if length.None? { return None; }
    r := Some((token, [], length.value));
  }

  method PullLongHeader(buf: Buffer, first: byte, start: nat, ghost s: seq<byte>) returns (r: Option<Header>)
    requires buf.Valid() && s != [] && s[0] == first && buf.Rest() == s[1..] && start + |s| == buf.base.Length
    modifies buf`pos
    ensures buf.Valid() && (r.Some? <==> PullLong(s).Some?)
    ensures r.Some? ==> PullLong(s) == Some((r.value, buf.Rest()))
  {
    hide PullCid, PullLongTail, PullVersions, FromBigEndian, DecodeVar;
    var version := buf.PullUint(4);
    if version.None? { return None; }
    assert s[1..][..4] == s[1..5] && s[1..][4..] == s[5..];
    var destination := PullConnectionId(buf);
    if destination.None? { return None; }
    var source := PullConnectionId(buf);
    if source.None? { return None; }
    if version.value == NEGOTIATION {
      var versions := PullSupportedVersions(buf);
      if versions.None? { return None; }
      return Some(Header(Some(version.value), VersionNegotiation, buf.pos - start, destination.value, source.value, [], [], versions.value));
    }
    if !FixedBit(first) { return None; }
    var kind := TypeOfBits(version.value, first / 16 % 4);
    var fields := PullLongFields(buf, kind);
    if fields.None? { return None; }
    var (token, tag, length) := fields.value;
    if buf.pos + length > buf.base.Length { return None; }
    r := Some(Header(Some(version.value), kind, buf.pos + length - start, destination.value, source.value, token, tag, []));
  }

  /** pull_quic_header, with a ValueError or BufferReadError as None. */
  method PullQuicHeader(buf: Buffer, hostCidLength: nat) returns (r: Option<Header>)
    requires buf.Valid()
    modifies buf`pos
    ensures buf.Valid() && (r.Some? <==> PullHeader(old(buf.Rest()), hostCidLength).Some?)
    ensures r.Some? ==> PullHeader(old(buf.Rest()), hostCidLength) == Some((r.value, buf.Rest()))
  {
    hide PullLong;
    ghost var s := buf.Rest();
    var start := buf.pos;
    var first := PullUint8(buf);
    if first.None? { return None; }
    if IsLong(first.value) {
      r := PullLongHeader(buf, first.value, start, s);
    } else {
      if !FixedBit(first.value) { return None; }
      var destination := buf.PullBytes(hostCidLength);
      if destination.None? { return None; }
      r := Some(Header(None, OneRtt, buf.base.Length - start, destination.value, [], [], [], []));
    }
  }

  /** One round of the walk: the packet at the cursor, which moves to its end; None for an unreadable header. */
  method NextPacket(buf: Buffer, data: seq<byte>, hostCidLength: nat) returns (packet: Option<Packet>)
    requires buf.Valid() && buf.base[..] == data && buf.pos < buf.base.Length
    modifies buf`pos
    ensures buf.Valid()
    ensures packet.None? ==> Split(data[old(buf.pos)..], hostCidLength) == []
    ensures packet.Some? ==> old(buf.pos) < buf.pos
    ensures packet.Some? && Alone(packet.value.header) ==> Split(data[old(buf.pos)..], hostCidLength) == [packet.value]
    ensures packet.Some? && !Alone(packet.value.header) ==>
              Split(data[old(buf.pos)..], hostCidLength) == [packet.value] + Split(data[buf.pos..], hostCidLength)
  {
    hide PullHeader, FromBigEndian;
    ghost var s := buf.Rest();
    var start := buf.pos;
    assert s == data[start..];
    var header := PullQuicHeader(buf, hostCidLength);
    if header.None? { return None; }
    HeaderMeasure(s, hostCidLength);
    var offset := buf.pos - start;
    var end := start + header.value.packetLength;
    assert s[..header.value.packetLength] == data[start..end] && s[header.value.packetLength..] == data[end..];
    packet := Some(Packet(header.value, offset, data[start..end]));
    var sought := buf.Seek(end);
  }

  predicate Alone(header: Header) { header.kind in {VersionNegotiation, Retry} }

  /** The loop of receive_datagram: cuts the datagram at the packet lengths its headers give. */
  method SplitDatagram(data: seq<byte>, hostCidLength: nat) returns (packets: seq<Packet>)
    ensures packets == Split(data, hostCidLength)
  {
    packets := [];
    var buf := new Buffer.Over(data);
    ghost var all := Split(data, hostCidLength);
    assert buf.base[..] == data && data[0..] == data && [] + all == all;
    assert Split([], hostCidLength) == [] by { EmptyHeader(hostCidLength); }
    hide Split;
    while buf.pos < buf.base.Length
      invariant buf.Valid() && fresh(buf) && fresh(buf.base) && buf.base[..] == data
      invariant packets + Split(data[buf.pos..], hostCidLength) == all
      decreases buf.base.Length - buf.pos
    {
      ghost var before, rest := packets, Split(data[buf.pos..], hostCidLength);
      var packet := NextPacket(buf, data, hostCidLength);
      if packet.None? {
        assert before + [] == before;
        return;
      }
      packets := packets + [packet.value];
      if packet.value.header.kind in {VersionNegotiation, Retry} { return; }
      Regroup(before, [packet.value], Split(data[buf.pos..], hostCidLength));
    }
    assert data[buf.pos..] == [] && packets + [] == packets;
  }

  lemma Regroup(a: seq<Packet>, b: seq<Packet>, c: seq<Packet>)
    ensures a + (b + c) == a + b + c
  {
  }

  lemma EmptyHeader(cidLength: nat)
    ensures PullHeader([], cidLength).None?
  {
  }
}
