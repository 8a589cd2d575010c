/** Writing a ClientHello: every length is filled in after its block has been written (tls.py). */
module TlsWriter {
  import opened Common
  import opened Buffers
  import opened TlsCodec
  import opened TlsHello

  // ---- Blocks ----

  /** The first half of push_block: leaves room for the length. */
  method BeginBlock(buf: Buffer, capacity: nat) returns (ok: bool, start: nat)
    requires buf.Valid()
    modifies buf`pos
    ensures buf.Valid() && (ok <==> capacity <= |old(buf.Rest())|)
    ensures ok ==> start == buf.pos == |old(buf.Data())| + capacity
    ensures ok ==> buf.Data() == old(buf.Data()) + old(buf.Rest())[..capacity] && buf.Rest() == old(buf.Rest())[capacity..]
  {
    start := buf.pos + capacity;
    ok := buf.Seek(start);
    if ok {
      assert buf.base[..start] == buf.base[..start - capacity] + buf.base[start - capacity..][..capacity];
    }
  }

  /** The second half: goes back, writes the length, and returns to the end of the block. */
  method EndBlock(buf: Buffer, capacity: nat, start: nat, ghost d0: seq<byte>, ghost r0: seq<byte>, ghost body: seq<byte>)
    returns (ok: bool)
    requires buf.Valid() && start == |d0| + capacity && capacity <= |r0|
    requires Wrote(d0 + r0[..capacity], r0[capacity..], buf.Data(), buf.Rest(), body)
    modifies buf`pos, buf.base
    ensures buf.Valid() && (ok <==> FitsBlock(capacity, body))
    ensures ok ==> Wrote(d0, r0, buf.Data(), buf.Rest(), Block(capacity, body))
  {
    var end := buf.pos;
    var length := end - start;
    assert |buf.Data()| == end;
    if length >= Pow256(capacity) { return false; }
    ghost var all := buf.base[..];
    ghost var r1 := buf.Rest();
    var sought := buf.Seek(start - capacity);
    assert buf.Data() == d0 && buf.Rest() == all[start - capacity..] by {
      assert all[..end][..start - capacity] == all[..start - capacity];
    }
    var pushed := buf.PushBytes(BigEndian(length, capacity));
    ghost var after := buf.Rest();
    assert after == all[start..] == body + r1 by { Tail(all, start, end, body, d0 + r0[..capacity]); }
    sought := buf.Seek(end);
    Resume(buf.base[..], start, end, d0 + BigEndian(length, capacity), body, r1);
    assert Block(capacity, body) == BigEndian(length, capacity) + body;
    ok := true;
  }

  lemma Tail(all: seq<byte>, start: nat, end: nat, body: seq<byte>, before: seq<byte>)
    requires start <= end <= |all| && all[..end] == before + body && |before| == start
    ensures all[start..] == body + all[end..]
  {
    assert all == all[..end] + all[end..];
  }

  lemma Resume(all: seq<byte>, start: nat, end: nat, before: seq<byte>, body: seq<byte>, rest: seq<byte>)
    requires start <= end <= |all| && all[..start] == before && all[start..] == body + rest && |body| == end - start
    ensures all[..end] == before + body && all[end..] == rest
  {
    assert all == all[..start] + all[start..];
  }

  // ---- Items ----

  lemma {:induction false} ItemsSplit<T>(encode: T -> seq<byte>, values: seq<T>, i: nat)
    requires i < |values|
    ensures EncodeItems(encode, values[..i + 1]) == EncodeItems(encode, values[..i]) + encode(values[i])
    ensures |EncodeItems(encode, values)| >= |EncodeItems(encode, values[..i + 1])|
    decreases i
  {
    if i == 0 {
      assert values[..1][1..] == [] && values[..0] == [];
      assert EncodeItems(encode, values[..1]) == encode(values[0]) + [] && [] + encode(values[0]) == encode(values[0]) + [];
    } else {
      assert values[..i + 1][1..] == values[1..][..i] && values[..i][1..] == values[1..][..i - 1];
      ItemsSplit(encode, values[1..], i - 1);
      Associates(encode(values[0]), EncodeItems(encode, values[1..][..i - 1]), encode(values[i]));
    }
  }

  lemma Associates(a: seq<byte>, b: seq<byte>, c: seq<byte>)
    ensures a + (b + c) == a + b + c
  {
  }

  lemma AllItems<T>(encode: T -> seq<byte>, values: seq<T>)
    ensures EncodeItems(encode, values[..|values|]) == EncodeItems(encode, values) && EncodeItems(encode, values[..0]) == []
  {
    assert values[..|values|] == values && values[..0] == [];
  }

  method PushOpaque(buf: Buffer, capacity: nat, value: seq<byte>) returns (ok: bool)
    requires buf.Valid()
    modifies buf`pos, buf.base
    ensures buf.Valid()
    ensures ok <==> FitsBlock(capacity, value) && capacity + |value| <= |old(buf.Rest())|
    ensures ok ==> Wrote(old(buf.Data()), old(buf.Rest()), buf.Data(), buf.Rest(), Block(capacity, value))
  {
    ghost var d0, r0 := buf.Data(), buf.Rest();
    var start;
    ok, start := BeginBlock(buf, capacity);
    if !ok { return; }
    ok := buf.PushBytes(value);
    if !ok { return; }
    ok := EndBlock(buf, capacity, start, d0, r0, value);
  }

  /** push_list of fixed-width integers; the high bytes of a value that is too wide are lost. */
  method PushUints(buf: Buffer, capacity: nat, width: nat, values: seq<nat>) returns (ok: bool)
    requires buf.Valid() && width in {1, 2, 4, 8}
    modifies buf`pos, buf.base
    ensures buf.Valid()
    ensures ok <==> FitsBlock(capacity, Uints(width, values)) && capacity + |Uints(width, values)| <= |old(buf.Rest())|
    ensures ok ==> Wrote(old(buf.Data()), old(buf.Rest()), buf.Data(), buf.Rest(), Block(capacity, Uints(width, values)))
  {
    hide EncodeItems, BigEndian;
    ghost var d0, r0 := buf.Data(), buf.Rest();
    var start;
    ok, start := BeginBlock(buf, capacity);
    if !ok { return; }
    ghost var d1, r1 := buf.Data(), buf.Rest();
    AllItems(EncodeUint(width), values);
    for i := 0 to |values|
      invariant buf.Valid()
      invariant Wrote(d1, r1, buf.Data(), buf.Rest(), EncodeItems(EncodeUint(width), values[..i]))
    {
      ghost var d2, r2 := buf.Data(), buf.Rest();
      ItemsSplit(EncodeUint(width), values, i);
      ok := buf.PushUint(values[i], width);
      if !ok { return; }
      WroteTwice(d1, r1, d2, r2, buf.Data(), buf.Rest(), EncodeItems(EncodeUint(width), values[..i]), BigEndian(values[i], width));
    }
    ok := EndBlock(buf, capacity, start, d0, r0, Uints(width, values));
  }

  predicate FitsOpaques(values: seq<seq<byte>>) { forall v | v in values :: FitsBlock(1, v) }

  /** push_list of opaque values with one-byte lengths: protocol names and binders. */
  method PushOpaques(buf: Buffer, values: seq<seq<byte>>) returns (ok: bool)
    requires buf.Valid()
    modifies buf`pos, buf.base
    ensures buf.Valid()
    ensures var body := EncodeItems(EncodeOpaque(1), values);
            && (ok <==> FitsOpaques(values) && FitsBlock(2, body) && 2 + |body| <= |old(buf.Rest())|)
            && (ok ==> Wrote(old(buf.Data()), old(buf.Rest()), buf.Data(), buf.Rest(), Block(2, body)))
  {
    hide EncodeItems, BigEndian;
    ghost var d0, r0 := buf.Data(), buf.Rest();
    var start;
    ok, start := BeginBlock(buf, 2);
    if !ok { return; }
    ghost var d1, r1 := buf.Data(), buf.Rest();
    AllItems(EncodeOpaque(1), values);
    for i := 0 to |values|
      invariant buf.Valid() && FitsOpaques(values[..i])
      invariant Wrote(d1, r1, buf.Data(), buf.Rest(), EncodeItems(EncodeOpaque(1), values[..i]))
    {
      ghost var d2, r2 := buf.Data(), buf.Rest();
      ItemsSplit(EncodeOpaque(1), values, i);
      assert values[i] in values;
      ok := PushOpaque(buf, 1, values[i]);
      if !ok { return; }
      WroteTwice(d1, r1, d2, r2, buf.Data(), buf.Rest(), EncodeItems(EncodeOpaque(1), values[..i]), Block(1, values[i]));
    }
    ok := EndBlock(buf, 2, start, d0, r0, EncodeItems(EncodeOpaque(1), values));
  }

  method PushKeyShare(buf: Buffer, k: KeyShare) returns (ok: bool)
    requires buf.Valid()
    modifies buf`pos, buf.base
    ensures buf.Valid()
    ensures ok <==> FitsBlock(2, k.data) && |ENCODE_KEY_SHARE(k)| <= |old(buf.Rest())|
    ensures ok ==> Wrote(old(buf.Data()), old(buf.Rest()), buf.Data(), buf.Rest(), ENCODE_KEY_SHARE(k))
  {
    hide BigEndian;
    ghost var d0, r0 := buf.Data(), buf.Rest();
    ok := buf.PushUint(k.group, 2);
    if !ok { return; }
    ghost var d1, r1 := buf.Data(), buf.Rest();
    ok := PushOpaque(buf, 2, k.data);
    if !ok { return; }
    WroteTwice(d0, r0, d1, r1, buf.Data(), buf.Rest(), BigEndian(k.group, 2), Block(2, k.data));
  }

  method PushIdentity(buf: Buffer, p: PskIdentity) returns (ok: bool)
    requires buf.Valid()
    modifies buf`pos, buf.base
    ensures buf.Valid()
    ensures ok <==> FitsBlock(2, p.identity) && |ENCODE_IDENTITY(p)| <= |old(buf.Rest())|
    ensures ok ==> Wrote(old(buf.Data()), old(buf.Rest()), buf.Data(), buf.Rest(), ENCODE_IDENTITY(p))
  {
    hide BigEndian;
    ghost var d0, r0 := buf.Data(), buf.Rest();
    ok := PushOpaque(buf, 2, p.identity);
    if !ok { return; }
    ghost var d1, r1 := buf.Data(), buf.Rest();
    ok := buf.PushUint(p.obfuscatedAge, 4);
    if !ok { return; }
    WroteTwice(d0, r0, d1, r1, buf.Data(), buf.Rest(), Block(2, p.identity), BigEndian(p.obfuscatedAge, 4));
  }

  predicate FitsKeyShares(shares: seq<KeyShare>) { forall k | k in shares :: FitsBlock(2, k.data) }

  predicate FitsIdentities(identities: seq<PskIdentity>) { forall p | p in identities :: FitsBlock(2, p.identity) }

  method PushKeyShares(buf: Buffer, shares: seq<KeyShare>) returns (ok: bool)
    requires buf.Valid()
    modifies buf`pos, buf.base
    ensures buf.Valid()
    ensures var body := EncodeItems(ENCODE_KEY_SHARE, shares);
            && (ok <==> FitsKeyShares(shares) && FitsBlock(2, body) && 2 + |body| <= |old(buf.Rest())|)
            && (ok ==> Wrote(old(buf.Data()), old(buf.Rest()), buf.Data(), buf.Rest(), Block(2, body)))
  {
    hide EncodeItems, BigEndian;
    ghost var d0, r0 := buf.Data(), buf.Rest();
    var start;
    ok, start := BeginBlock(buf, 2);
    if !ok { return; }
    ghost var d1, r1 := buf.Data(), buf.Rest();
    AllItems(ENCODE_KEY_SHARE, shares);
    for i := 0 to |shares|
      invariant buf.Valid() && FitsKeyShares(shares[..i])
      invariant Wrote(d1, r1, buf.Data(), buf.Rest(), EncodeItems(ENCODE_KEY_SHARE, shares[..i]))
    {
      ghost var d2, r2 := buf.Data(), buf.Rest();
      ItemsSplit(ENCODE_KEY_SHARE, shares, i);
      assert shares[i] in shares;
      ok := PushKeyShare(buf, shares[i]);
      if !ok { return; }
      WroteTwice(d1, r1, d2, r2, buf.Data(), buf.Rest(), EncodeItems(ENCODE_KEY_SHARE, shares[..i]), ENCODE_KEY_SHARE(shares[i]));
    }
    ok := EndBlock(buf, 2, start, d0, r0, EncodeItems(ENCODE_KEY_SHARE, shares));
  }

  method PushIdentities(buf: Buffer, identities: seq<PskIdentity>) returns (ok: bool)
    requires buf.Valid()
    modifies buf`pos, buf.base
    ensures buf.Valid()
    ensures var body := EncodeItems(ENCODE_IDENTITY, identities);
            && (ok <==> FitsIdentities(identities) && FitsBlock(2, body) && 2 + |body| <= |old(buf.Rest())|)
            && (ok ==> Wrote(old(buf.Data()), old(buf.Rest()), buf.Data(), buf.Rest(), Block(2, body)))
  {
    hide EncodeItems, BigEndian;
    ghost var d0, r0 := buf.Data(), buf.Rest();
    var start;
    ok, start := BeginBlock(buf, 2);
    if !ok { return; }
    ghost var d1, r1 := buf.Data(), buf.Rest();
    AllItems(ENCODE_IDENTITY, identities);
    for i := 0 to |identities|
      invariant buf.Valid() && FitsIdentities(identities[..i])
      invariant Wrote(d1, r1, buf.Data(), buf.Rest(), EncodeItems(ENCODE_IDENTITY, identities[..i]))
    {
      ghost var d2, r2 := buf.Data(), buf.Rest();
      ItemsSplit(ENCODE_IDENTITY, identities, i);
      assert identities[i] in identities;
      ok := PushIdentity(buf, identities[i]);
      if !ok { return; }
      WroteTwice(d1, r1, d2, r2, buf.Data(), buf.Rest(), EncodeItems(ENCODE_IDENTITY, identities[..i]), ENCODE_IDENTITY(identities[i]));
    }
    ok := EndBlock(buf, 2, start, d0, r0, EncodeItems(ENCODE_IDENTITY, identities));
  }

  // ---- Extensions ----

  /** push_server_name: a block in a block; the name must be ASCII. */
  method PushServerName(buf: Buffer, name: seq<byte>) returns (ok: bool)
    requires buf.Valid()
    modifies buf`pos, buf.base
    ensures buf.Valid()
    ensures var body := [0] + Block(2, name);
            && (ok <==> Ascii(name) && FitsBlock(2, name) && FitsBlock(2, body) && 2 + |body| <= |old(buf.Rest())|)
            && (ok ==> Wrote(old(buf.Data()), old(buf.Rest()), buf.Data(), buf.Rest(), Block(2, body)))
  {
    hide BigEndian;
    ghost var d0, r0 := buf.Data(), buf.Rest();
    var start;
    ok, start := BeginBlock(buf, 2);
    if !ok { return; }
    ghost var d1, r1 := buf.Data(), buf.Rest();
    ok := buf.PushBytes([0]);
    if !ok { return; }
    ghost var d2, r2 := buf.Data(), buf.Rest();
    if !Ascii(name) { return false; }
    ok := PushOpaque(buf, 2, name);
    if !ok { return; }
    WroteTwice(d1, r1, d2, r2, buf.Data(), buf.Rest(), [0], Block(2, name));
    ok := EndBlock(buf, 2, start, d0, r0, [0] + Block(2, name));
  }

  method PushPsks(buf: Buffer, p: OfferedPsks) returns (ok: bool)
    requires buf.Valid()
    modifies buf`pos, buf.base
    ensures buf.Valid()
    ensures ok <==> WritablePsks(p) && |PskBytes(p)| <= |old(buf.Rest())|
    ensures ok ==> Wrote(old(buf.Data()), old(buf.Rest()), buf.Data(), buf.Rest(), PskBytes(p))
  {
    hide BigEndian, EncodeItems;
    ghost var d0, r0 := buf.Data(), buf.Rest();
    ok := PushIdentities(buf, p.identities);
    if !ok { return; }
    ghost var d1, r1 := buf.Data(), buf.Rest();
    ok := PushOpaques(buf, p.binders);
    if !ok { return; }
    WroteTwice(d0, r0, d1, r1, buf.Data(), buf.Rest(), Block(2, EncodeItems(ENCODE_IDENTITY, p.identities)),
               Block(2, EncodeItems(EncodeOpaque(1), p.binders)));
  }

  predicate WritablePsks(p: OfferedPsks) {
    && FitsIdentities(p.identities) && FitsBlock(2, EncodeItems(ENCODE_IDENTITY, p.identities))
    && FitsOpaques(p.binders) && FitsBlock(2, EncodeItems(EncodeOpaque(1), p.binders))
  }

  /** The lengths inside an extension fit where they are written, and names are ASCII. */
  predicate WritableBody(f: Field) {
    match f
    case KeyShares(shares) => FitsKeyShares(shares) && FitsBlock(2, EncodeItems(ENCODE_KEY_SHARE, shares))
    case Versions(versions) => FitsBlock(1, Uints(2, versions))
    case Algorithms(algorithms) => FitsBlock(2, Uints(2, algorithms))
    case Groups(groups) => FitsBlock(2, Uints(2, groups))
    case Modes(modes) => FitsBlock(1, Uints(1, modes))
    case ServerName(name) => Ascii(name) && FitsBlock(2, name) && FitsBlock(2, [0] + Block(2, name))
    case Alpn(protocols) =>
      (forall p | p in protocols :: Ascii(p)) && FitsOpaques(protocols) && FitsBlock(2, EncodeItems(EncodeOpaque(1), protocols))
    case Other(_) => true
    case Early => true
    case Psks(psks) => WritablePsks(psks)
  }

  method PushBody(buf: Buffer, f: Field) returns (ok: bool)
    requires buf.Valid()
    modifies buf`pos, buf.base
    ensures buf.Valid()
    ensures ok <==> WritableBody(f) && |FieldExtension(f).data| <= |old(buf.Rest())|
    ensures ok ==> Wrote(old(buf.Data()), old(buf.Rest()), buf.Data(), buf.Rest(), FieldExtension(f).data)
  {
    hide BigEndian, EncodeItems, Uints, PskBytes, WritablePsks;
    WroteNothing(buf.Data(), buf.Rest());
    match f
    case KeyShares(shares) => ok := PushKeyShares(buf, shares);
    case Versions(versions) => ok := PushUints(buf, 1, 2, versions);
    case Algorithms(algorithms) => ok := PushUints(buf, 2, 2, algorithms);
    case Groups(groups) => ok := PushUints(buf, 2, 2, groups);
    case Modes(modes) => ok := PushUints(buf, 1, 1, modes);
    case ServerName(name) => ok := PushServerName(buf, name);
    case Alpn(protocols) =>
      if exists p | p in protocols :: !Ascii(p) { return false; }
      ok := PushOpaques(buf, protocols);
    case Other(extension) => ok := buf.PushBytes(extension.data);
    case Early => ok := true;
    case Psks(psks) => ok := PushPsks(buf, psks);
  }

  predicate Writable(f: Field) { WritableBody(f) && FitsBlock(2, FieldExtension(f).data) }

  /** push_extension around the body of one extension. */
  method PushExtension(buf: Buffer, f: Field) returns (ok: bool)
    requires buf.Valid()
    modifies buf`pos, buf.base
    ensures buf.Valid()
    ensures ok <==> Writable(f) && |EncodeExtension(FieldExtension(f))| <= |old(buf.Rest())|
    ensures ok ==> Wrote(old(buf.Data()), old(buf.Rest()), buf.Data(), buf.Rest(), EncodeExtension(FieldExtension(f)))
  {
    hide BigEndian, FieldExtension, WritableBody;
    ghost var d0, r0 := buf.Data(), buf.Rest();
    ok := buf.PushUint(Kind(f), 2);
    if !ok { return; }
    ghost var d1, r1 := buf.Data(), buf.Rest();
    var start;
    ok, start := BeginBlock(buf, 2);
    if !ok { return; }
    ok := PushBody(buf, f);
    if !ok { return; }
    ok := EndBlock(buf, 2, start, d1, r1, FieldExtension(f).data);
    if !ok { return; }
    WroteTwice(d0, r0, d1, r1, buf.Data(), buf.Rest(), BigEndian(Kind(f), 2), Block(2, FieldExtension(f).data));
  }

  function Kind(f: Field): (k: nat)
    ensures k == FieldExtension(f).kind
  {
    match f
    case KeyShares(_) => KEY_SHARE
    case Versions(_) => SUPPORTED_VERSIONS
    case Algorithms(_) => SIGNATURE_ALGORITHMS
    case Groups(_) => SUPPORTED_GROUPS
    case Modes(_) => PSK_KEY_EXCHANGE_MODES
    case ServerName(_) => SERVER_NAME
    case Alpn(_) => ALPN
    case Other(extension) => extension.kind
    case Early => EARLY_DATA
    case Psks(_) => PRE_SHARED_KEY
  }

  // ---- The whole message ----

  /** These extensions can be written into so much room. */
  predicate Room(fields: seq<Field>, room: nat) {
    (forall f | f in fields :: Writable(f)) && |EncodeFields(fields)| <= room
  }

  lemma {:induction false} FieldsAppend(a: seq<Field>, b: seq<Field>)
    ensures EncodeFields(a + b) == EncodeFields(a) + EncodeFields(b)
    decreases |a|
  {
    hide EncodeExtension, FieldExtension;
    if a == [] {
      assert [] + b == b;
    } else {
      assert (a + b)[1..] == a[1..] + b;
      FieldsAppend(a[1..], b);
      Associates(EncodeExtension(FieldExtension(a[0])), EncodeFields(a[1..]), EncodeFields(b));
    }
  }

  lemma PrefixHasRoom(all: seq<Field>, prefix: seq<Field>, room: nat)
    requires prefix <= all && Room(all, room)
    ensures Room(prefix, room)
  {
    hide Writable, EncodeFields;
    assert all == prefix + all[|prefix|..];
    FieldsAppend(prefix, all[|prefix|..]);
  }

  lemma OneField(f: Field)
    ensures EncodeFields([f]) == EncodeExtension(FieldExtension(f)) && EncodeFields([]) == []
  {
    assert [f][1..] == [];
    assert EncodeFields([f]) == EncodeExtension(FieldExtension(f)) + [];
  }

  /** Writes an extension if it is present, after those in done. */
  method PushNext(buf: Buffer, present: bool, f: Field, ghost d0: seq<byte>, ghost r0: seq<byte>, ghost done: seq<Field>)
    returns (ok: bool)
    requires buf.Valid() && Room(done, |r0|) && Wrote(d0, r0, buf.Data(), buf.Rest(), EncodeFields(done))
    modifies buf`pos, buf.base
    ensures buf.Valid() && (ok <==> Room(done + Optional(present, f), |r0|))
    ensures ok ==> Wrote(d0, r0, buf.Data(), buf.Rest(), EncodeFields(done + Optional(present, f)))
  {
    hide Writable, EncodeFields, EncodeExtension, FieldExtension;
    ok := true;
    if present {
      ghost var d1, r1 := buf.Data(), buf.Rest();
      ok := PushExtension(buf, f);
      FieldsAppend(done, [f]);
      OneField(f);
      if ok {
        WroteTwice(d0, r0, d1, r1, buf.Data(), buf.Rest(), EncodeFields(done), EncodeExtension(FieldExtension(f)));
      } else {
        assert f in done + [f];
      }
    } else {
      assert done + [] == done;
    }
  }

  method PushOthers(buf: Buffer, extensions: seq<Extension>, ghost d0: seq<byte>, ghost r0: seq<byte>, ghost done: seq<Field>)
    returns (ok: bool)
    requires buf.Valid() && Room(done, |r0|) && Wrote(d0, r0, buf.Data(), buf.Rest(), EncodeFields(done))
    modifies buf`pos, buf.base
    ensures buf.Valid() && (ok <==> Room(done + OtherFields(extensions), |r0|))
    ensures ok ==> Wrote(d0, r0, buf.Data(), buf.Rest(), EncodeFields(done + OtherFields(extensions)))
  {
    hide Room, EncodeFields, Wrote;
    ghost var all := done + OtherFields(extensions);
    assert extensions[..0] == [] && OtherFields([]) == [] && done + [] == done;
    for i := 0 to |extensions|
      invariant buf.Valid() && Room(done + OtherFields(extensions[..i]), |r0|)
      invariant Wrote(d0, r0, buf.Data(), buf.Rest(), EncodeFields(done + OtherFields(extensions[..i])))
    {
      OthersSplit(extensions, i);
      AfterDone(done, OtherFields(extensions[..i]), Other(extensions[i]), OtherFields(extensions));
      ok := PushNext(buf, true, Other(extensions[i]), d0, r0, done + OtherFields(extensions[..i]));
      if !ok {
        if Room(all, |r0|) { PrefixHasRoom(all, done + OtherFields(extensions[..i + 1]), |r0|); }
        return;
      }
    }
    assert extensions[..|extensions|] == extensions;
    ok := true;
  }

  lemma {:induction false} OthersSplit(extensions: seq<Extension>, i: nat)
    requires i < |extensions|
    ensures OtherFields(extensions[..i + 1]) == OtherFields(extensions[..i]) + [Other(extensions[i])]
    ensures OtherFields(extensions[..i + 1]) <= OtherFields(extensions)
    decreases i
  {
    if i == 0 {
      assert extensions[..1][1..] == [] && extensions[..0] == [];
    } else {
      assert extensions[..i + 1][1..] == extensions[1..][..i] && extensions[..i][1..] == extensions[1..][..i - 1];
      OthersSplit(extensions[1..], i - 1);
    }
  }

  lemma AfterDone(done: seq<Field>, a: seq<Field>, f: Field, all: seq<Field>)
    requires a + [f] <= all
    ensures done + (a + [f]) == done + a + Optional(true, f) && done + (a + [f]) <= done + all
  {
  }

  /** The extensions in the order of push_client_hello. */
  method PushFields(buf: Buffer, h: ClientHello) returns (ok: bool)
    requires buf.Valid() && Complete(h)
    modifies buf`pos, buf.base
    ensures buf.Valid() && (ok <==> Room(Fields(h), |old(buf.Rest())|))
    ensures ok ==> Wrote(old(buf.Data()), old(buf.Rest()), buf.Data(), buf.Rest(), EncodeFields(Fields(h)))
  {
    ghost var d0, r0 := buf.Data(), buf.Rest();
    ghost var n := |r0|;
    ghost var all, done: seq<Field> := Fields(h), [];
    WroteNothing(d0, r0);
    OneField(Early);
    assert Room([], n);
    FieldPrefixes(h);
    hide Room, EncodeFields, Wrote, Fields;
    ok := PushNext(buf, true, KeyShares(h.keyShares.value), d0, r0, done);
    done := done + Optional(true, KeyShares(h.keyShares.value));
    if !ok { Refused(all, done, n); return; }
    ok := PushNext(buf, true, Versions(h.versions.value), d0, r0, done);
    done := done + Optional(true, Versions(h.versions.value));
    if !ok { Refused(all, done, n); return; }
    ok := PushNext(buf, true, Algorithms(h.algorithms.value), d0, r0, done);
    done := done + Optional(true, Algorithms(h.algorithms.value));
    if !ok { Refused(all, done, n); return; }
    ok := PushNext(buf, true, Groups(h.groups.value), d0, r0, done);
    done := done + Optional(true, Groups(h.groups.value));
    if !ok { Refused(all, done, n); return; }
    ok := PushNext(buf, h.pskModes.Some?, Modes(Get(h.pskModes, [])), d0, r0, done);
    done := done + Optional(h.pskModes.Some?, Modes(Get(h.pskModes, [])));
    if !ok { Refused(all, done, n); return; }
    ok := PushNext(buf, h.serverName.Some?, ServerName(Get(h.serverName, [])), d0, r0, done);
    done := done + Optional(h.serverName.Some?, ServerName(Get(h.serverName, [])));
    if !ok { Refused(all, done, n); return; }
    ok := PushNext(buf, h.alpn.Some?, Alpn(Get(h.alpn, [])), d0, r0, done);
    done := done + Optional(h.alpn.Some?, Alpn(Get(h.alpn, [])));
    if !ok { Refused(all, done, n); return; }
    ok := PushOthers(buf, h.other, d0, r0, done);
    done := done + OtherFields(h.other);
    if !ok { Refused(all, done, n); return; }
    ok := PushNext(buf, h.earlyData, Early, d0, r0, done);
    done := done + Optional(h.earlyData, Early);
    if !ok { Refused(all, done, n); return; }
    ok := PushNext(buf, h.psks.Some?, Psks(Get(h.psks, OfferedPsks([], []))), d0, r0, done);
    assert done + Optional(h.psks.Some?, Psks(Get(h.psks, OfferedPsks([], [])))) == all;
  }

  /** What does not fit keeps the whole from fitting. */
  lemma Refused(all: seq<Field>, done: seq<Field>, room: nat)
    requires done <= all && !Room(done, room)
    ensures !Room(all, room)
  {
    if Room(all, room) { PrefixHasRoom(all, done, room); }
  }

  /** The list of fields, built up one extension at a time. */
  lemma FieldPrefixes(h: ClientHello)
    requires Complete(h)
    ensures var a := [] + Optional(true, KeyShares(h.keyShares.value));
            var b := a + Optional(true, Versions(h.versions.value));
            var c := b + Optional(true, Algorithms(h.algorithms.value));
            var d := c + Optional(true, Groups(h.groups.value));
            var e := d + Optional(h.pskModes.Some?, Modes(Get(h.pskModes, [])));
            var f := e + Optional(h.serverName.Some?, ServerName(Get(h.serverName, [])));
            var g := f + Optional(h.alpn.Some?, Alpn(Get(h.alpn, [])));
            var i := g + OtherFields(h.other);
            var j := i + Optional(h.earlyData, Early);
            var k := j + Optional(h.psks.Some?, Psks(Get(h.psks, OfferedPsks([], []))));
            && Fields(h) == k
            && a <= k && b <= k && c <= k && d <= k && e <= k && f <= k && g <= k && i <= k && j <= k
  {
    FirstFour(h);
    hide Optional;
    var a := [] + Optional(true, KeyShares(h.keyShares.value));
    var b := a + Optional(true, Versions(h.versions.value));
    var c := b + Optional(true, Algorithms(h.algorithms.value));
    var d := c + Optional(true, Groups(h.groups.value));
    var e := d + Optional(h.pskModes.Some?, Modes(Get(h.pskModes, [])));
    var f := e + Optional(h.serverName.Some?, ServerName(Get(h.serverName, [])));
    var g := f + Optional(h.alpn.Some?, Alpn(Get(h.alpn, [])));
    var i := g + OtherFields(h.other);
    var j := i + Optional(h.earlyData, Early);
    var k := j + Optional(h.psks.Some?, Psks(Get(h.psks, OfferedPsks([], []))));
    assert Fields(h) == k;
    hide Fields;
    Longer(i, j, k);
    Longer(g, i, k);
    Longer(f, g, k);
    Longer(e, f, k);
    Longer(d, e, k);
    Longer(c, d, k);
    Longer(b, c, k);
    Longer(a, b, k);
  }

  lemma Longer(x: seq<Field>, y: seq<Field>, z: seq<Field>)
    requires x <= y && y <= z
    ensures x <= z
  {
  }

  lemma FirstFour(h: ClientHello)
    requires Complete(h)
    ensures [KeyShares(h.keyShares.value), Versions(h.versions.value), Algorithms(h.algorithms.value), Groups(h.groups.value)] ==
            [] + Optional(true, KeyShares(h.keyShares.value)) + Optional(true, Versions(h.versions.value))
            + Optional(true, Algorithms(h.algorithms.value)) + Optional(true, Groups(h.groups.value))
  {
  }

  /** The lengths before the extensions fit where they are written. */
  predicate WritableFront(h: ClientHello) {
    FitsBlock(1, h.sessionId) && FitsBlock(2, Uints(2, h.suites)) && FitsBlock(1, Uints(1, h.compressions))
  }

  method PushFront(buf: Buffer, h: ClientHello) returns (ok: bool)
    requires buf.Valid()
    modifies buf`pos, buf.base
    ensures buf.Valid()
    ensures ok <==> WritableFront(h) && |HelloFront(h)| <= |old(buf.Rest())|
    ensures ok ==> Wrote(old(buf.Data()), old(buf.Rest()), buf.Data(), buf.Rest(), HelloFront(h))
  {
    hide BigEndian, Uints;
    ghost var d0, r0 := buf.Data(), buf.Rest();
    ok := buf.PushUint(TLS_VERSION_1_2, 2);
    if !ok { return; }
    ghost var bytes, d1, r1 := BigEndian(TLS_VERSION_1_2, 2), buf.Data(), buf.Rest();
    ok := buf.PushBytes(h.random);
    if !ok { return; }
    WroteTwice(d0, r0, d1, r1, buf.Data(), buf.Rest(), bytes, h.random);
    bytes, d1, r1 := bytes + h.random, buf.Data(), buf.Rest();
    ok := PushOpaque(buf, 1, h.sessionId);
    if !ok { return; }
    WroteTwice(d0, r0, d1, r1, buf.Data(), buf.Rest(), bytes, Block(1, h.sessionId));
    bytes, d1, r1 := bytes + Block(1, h.sessionId), buf.Data(), buf.Rest();
    ok := PushUints(buf, 2, 2, h.suites);
    if !ok { return; }
    WroteTwice(d0, r0, d1, r1, buf.Data(), buf.Rest(), bytes, Block(2, Uints(2, h.suites)));
    bytes, d1, r1 := bytes + Block(2, Uints(2, h.suites)), buf.Data(), buf.Rest();
    ok := PushUints(buf, 1, 1, h.compressions);
    if !ok { return; }
    WroteTwice(d0, r0, d1, r1, buf.Data(), buf.Rest(), bytes, Block(1, Uints(1, h.compressions)));
  }

  /** Every length in the message fits where it is written. */
  predicate WritableHello(h: ClientHello)
    requires Complete(h)
  {
    && WritableFront(h) && (forall f | f in Fields(h) :: Writable(f))
    && FitsBlock(2, EncodeFields(Fields(h))) && FitsBlock(3, HelloBody(h))
  }

  /** The message is written exactly when its lengths fit and there is room for it. */
  method PushHello(buf: Buffer, h: ClientHello) returns (ok: bool)
    requires buf.Valid() && Complete(h)
    modifies buf`pos, buf.base
    ensures buf.Valid()
    ensures ok <==> WritableHello(h) && |EncodeHello(h)| <= |old(buf.Rest())|
    ensures ok ==> Wrote(old(buf.Data()), old(buf.Rest()), buf.Data(), buf.Rest(), EncodeHello(h))
  {
    hide BigEndian, HelloFront, Fields, EncodeFields, Writable, WritableFront;
    ghost var d0, r0 := buf.Data(), buf.Rest();
    ok := buf.PushUint(CLIENT_HELLO, 1);
    if !ok { return; }
    ghost var d1, r1 := buf.Data(), buf.Rest();
    var start;
    ok, start := BeginBlock(buf, 3);
    if !ok { return; }
    ok := PushBodyOfHello(buf, h);
    if !ok { return; }
    ok := EndBlock(buf, 3, start, d1, r1, HelloBody(h));
    if !ok { return; }
    WroteTwice(d0, r0, d1, r1, buf.Data(), buf.Rest(), BigEndian(CLIENT_HELLO, 1), Block(3, HelloBody(h)));
  }

  method PushBodyOfHello(buf: Buffer, h: ClientHello) returns (ok: bool)
    requires buf.Valid() && Complete(h)
    modifies buf`pos, buf.base
    ensures buf.Valid()
    ensures ok <==> WritableFront(h) && (forall f | f in Fields(h) :: Writable(f)) && FitsBlock(2, EncodeFields(Fields(h)))
                    && |HelloBody(h)| <= |old(buf.Rest())|
    ensures ok ==> Wrote(old(buf.Data()), old(buf.Rest()), buf.Data(), buf.Rest(), HelloBody(h))
  {
    hide BigEndian, HelloFront, Fields, EncodeFields, Writable, WritableFront;
    ghost var d0, r0 := buf.Data(), buf.Rest();
    ok := PushFront(buf, h);
    if !ok { return; }
    ghost var d1, r1 := buf.Data(), buf.Rest();
    var start;
    ok, start := BeginBlock(buf, 2);
    if !ok { return; }
    ok := PushFields(buf, h);
    if !ok { return; }
    ok := EndBlock(buf, 2, start, d1, r1, EncodeFields(Fields(h)));
    if !ok { return; }
    WroteTwice(d0, r0, d1, r1, buf.Data(), buf.Rest(), HelloFront(h), Block(2, EncodeFields(Fields(h))));
  }

  /** A hello whose values and lengths fit can be written, and what is written is read back as the same hello. */
  lemma WrittenReadsBack(h: ClientHello, d0: seq<byte>, r0: seq<byte>, d1: seq<byte>, r1: seq<byte>, tail: seq<byte>)
    requires Fits(h) && Wrote(d0, r0, d1, r1, EncodeHello(h))
    ensures WritableHello(h) && PullHello(d1[|d0|..] + tail) == Some((h, tail))
  {
    HelloRoundTrip(h, tail);
    assert d1[|d0|..] == EncodeHello(h);
    hide PullHello, EncodeHello, Fields, EncodeFields, HelloBody;
    forall f | f in Fields(h)
      ensures Writable(f)
    {
      FittingIsWritable(f);
    }
  }

  lemma FittingIsWritable(f: Field)
    requires FitsField(f)
    ensures Writable(f)
  {
  }
}
