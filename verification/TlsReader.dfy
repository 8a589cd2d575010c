/** Reading a ClientHello with a moving cursor; an exception ends a call with None (tls.py). */
module TlsReader {
  import opened Common
  import opened Buffers
  import opened TlsCodec
  import opened TlsHello

  // ---- Blocks and lists ----

  /** The length of a block. */
  method PullLength(buf: Buffer, capacity: nat) returns (length: Option<nat>)
    requires buf.Valid()
    modifies buf`pos
    ensures buf.Valid()
    ensures length.Some? <==> PullUint(capacity, old(buf.Rest())).Some?
    ensures length.Some? ==> PullUint(capacity, old(buf.Rest())) == Some((length.value, buf.Rest()))
    ensures length.Some? ==> buf.pos == old(buf.pos) + capacity
  {
    var bytes := buf.PullBytes(capacity);
    length := if bytes.Some? then Some(FromBigEndian(bytes.value)) else None;
  }

  method PullOpaqueValue(buf: Buffer, capacity: nat) returns (r: Option<seq<byte>>)
    requires buf.Valid()
    modifies buf`pos
    ensures buf.Valid()
    ensures r.Some? <==> PullOpaque(capacity, old(buf.Rest())).Some?
    ensures r.Some? ==> PullOpaque(capacity, old(buf.Rest())) == Some((r.value, buf.Rest()))
    ensures r.Some? ==> buf.pos >= old(buf.pos) + capacity
  {
    hide FromBigEndian;
    var length := PullLength(buf, capacity);
    if length.None? { return None; }
    r := buf.PullBytes(length.value);
  }

  /** A list of which some items have been read. */
  ghost function Collected<T>(items: seq<T>, r: Option<(seq<T>, seq<byte>)>): Option<(seq<T>, seq<byte>)> {
    match r
    case None => None
    case Some((more, rest)) => Some((items + more, rest))
  }

  lemma NothingCollected<T>(r: Option<(seq<T>, seq<byte>)>)
    ensures Collected([], r) == r
  {
    if r.Some? { assert [] + r.value.0 == r.value.0; }
  }

  /** What an item parser makes of some bytes. */
  function Apply<T>(f: Item<T>, s: seq<byte>): Option<(seq<T>, seq<byte>)> { f(s) }

  /** The items of a block of which so many bytes are left, after those read before. */
  ghost function Remaining<T>(f: Item<T>, items: seq<T>, length: int, s: seq<byte>): Option<(seq<T>, seq<byte>)> {
    Collected(items, PullItems(f, length, s))
  }

  lemma ListStarts<T>(f: Item<T>, capacity: nat, s: seq<byte>)
    ensures PullUint(capacity, s).None? ==> PullList(f, capacity, s).None?
    ensures PullUint(capacity, s).Some? ==>
              PullList(f, capacity, s) == Remaining(f, [], PullUint(capacity, s).value.0, PullUint(capacity, s).value.1)
  {
    if PullUint(capacity, s).Some? {
      NothingCollected(PullItems(f, PullUint(capacity, s).value.0, PullUint(capacity, s).value.1));
    }
  }

  /** One more item: what is read is the same, one item further on. */
  lemma ItemRead<T>(f: Item<T>, items: seq<T>, length: nat, s: seq<byte>)
    requires length > 0
    ensures Apply(f, s).None? ==> Remaining(f, items, length, s).None?
    ensures Apply(f, s).Some? && |Apply(f, s).value.1| < |s| ==>
              Remaining(f, items, length, s) ==
              Remaining(f, items + Apply(f, s).value.0, length - (|s| - |Apply(f, s).value.1|), Apply(f, s).value.1)
  {
    if f(s).Some? && |f(s).value.1| < |s| {
      var (item, rest) := f(s).value;
      var more := PullItems(f, length - (|s| - |rest|), rest);
      if more.Some? { assert items + (item + more.value.0) == items + item + more.value.0; }
    }
  }

  /** The loop ends at the end of the block, or past it, which is an error. */
  lemma ItemsEnd<T>(f: Item<T>, items: seq<T>, length: int, s: seq<byte>)
    requires length <= 0
    ensures Remaining(f, items, length, s) == if length == 0 then Some((items, s)) else None
  {
    assert items + [] == items;
  }

  method PullOneUint(buf: Buffer, width: nat) returns (r: Option<seq<nat>>)
    requires buf.Valid() && width in {1, 2}
    modifies buf`pos
    ensures buf.Valid()
    ensures r.Some? <==> Apply(UintItem(width), old(buf.Rest())).Some?
    ensures r.Some? ==> Apply(UintItem(width), old(buf.Rest())) == Some((r.value, buf.Rest())) && buf.pos > old(buf.pos)
  {
    hide FromBigEndian, PullOpaque;
    var v := buf.PullUint(width);
    r := if v.Some? then Some([v.value]) else None;
  }

  /** pull_list of fixed-width integers. */
  method PullUints(buf: Buffer, capacity: nat, width: nat) returns (r: Option<seq<nat>>)
    requires buf.Valid() && width in {1, 2}
    modifies buf`pos
    ensures buf.Valid()
    ensures r.Some? <==> PullList(UintItem(width), capacity, old(buf.Rest())).Some?
    ensures r.Some? ==> PullList(UintItem(width), capacity, old(buf.Rest())) == Some((r.value, buf.Rest()))
  {
    hide FromBigEndian, PullUint, PullList, Remaining, Apply;
    ghost var all := PullList(UintItem(width), capacity, buf.Rest());
    ListStarts(UintItem(width), capacity, buf.Rest());
    var length := PullLength(buf, capacity);
    if length.None? { return None; }
    var end := buf.pos + length.value;
    var items: seq<nat> := [];
    while buf.pos < end
      invariant buf.Valid() && Remaining(UintItem(width), items, end - buf.pos, buf.Rest()) == all
      decreases end - buf.pos
    {
      ItemRead(UintItem(width), items, end - buf.pos, buf.Rest());
      var item := PullOneUint(buf, width);
      if item.None? { return None; }
      items := items + item.value;
    }
    ItemsEnd(UintItem(width), items, end - buf.pos, buf.Rest());
    r := if buf.pos == end then Some(items) else None;
  }

  method PullBinder(buf: Buffer) returns (r: Option<seq<seq<byte>>>)
    requires buf.Valid()
    modifies buf`pos
    ensures buf.Valid()
    ensures r.Some? <==> Apply(OpaqueItem(1), old(buf.Rest())).Some?
    ensures r.Some? ==> Apply(OpaqueItem(1), old(buf.Rest())) == Some((r.value, buf.Rest())) && buf.pos > old(buf.pos)
  {
    hide FromBigEndian, PullOpaque;
    var v := PullOpaqueValue(buf, 1);
    r := if v.Some? then Some([v.value]) else None;
  }

  method PullBinders(buf: Buffer) returns (r: Option<seq<seq<byte>>>)
    requires buf.Valid()
    modifies buf`pos
    ensures buf.Valid()
    ensures r.Some? <==> PullList(OpaqueItem(1), 2, old(buf.Rest())).Some?
    ensures r.Some? ==> PullList(OpaqueItem(1), 2, old(buf.Rest())) == Some((r.value, buf.Rest()))
  {
    hide FromBigEndian, PullUint, PullList, Remaining, Apply;
    ghost var all := PullList(OpaqueItem(1), 2, buf.Rest());
    ListStarts(OpaqueItem(1), 2, buf.Rest());
    var length := PullLength(buf, 2);
    if length.None? { return None; }
    var end := buf.pos + length.value;
    var items: seq<seq<byte>> := [];
    while buf.pos < end
      invariant buf.Valid() && Remaining(OpaqueItem(1), items, end - buf.pos, buf.Rest()) == all
      decreases end - buf.pos
    {
      ItemRead(OpaqueItem(1), items, end - buf.pos, buf.Rest());
      var item := PullBinder(buf);
      if item.None? { return None; }
      items := items + item.value;
    }
    ItemsEnd(OpaqueItem(1), items, end - buf.pos, buf.Rest());
    r := if buf.pos == end then Some(items) else None;
  }

  /** A protocol name that is not ASCII is skipped. */
  method PullAlpnProtocol(buf: Buffer) returns (r: Option<seq<seq<byte>>>)
    requires buf.Valid()
    modifies buf`pos
    ensures buf.Valid()
    ensures r.Some? <==> Apply(ALPN_ITEM, old(buf.Rest())).Some?
    ensures r.Some? ==> Apply(ALPN_ITEM, old(buf.Rest())) == Some((r.value, buf.Rest())) && buf.pos > old(buf.pos)
  {
    hide FromBigEndian, PullOpaque;
    var v := PullOpaqueValue(buf, 1);
    r := if v.None? then None else if Ascii(v.value) then Some([v.value]) else Some([]);
  }

  method PullAlpnProtocols(buf: Buffer) returns (r: Option<seq<seq<byte>>>)
    requires buf.Valid()
    modifies buf`pos
    ensures buf.Valid()
    ensures r.Some? <==> PullList(ALPN_ITEM, 2, old(buf.Rest())).Some?
    ensures r.Some? ==> PullList(ALPN_ITEM, 2, old(buf.Rest())) == Some((r.value, buf.Rest()))
  {
    hide FromBigEndian, PullUint, PullList, Remaining, Apply;
    ghost var all := PullList(ALPN_ITEM, 2, buf.Rest());
    ListStarts(ALPN_ITEM, 2, buf.Rest());
    var length := PullLength(buf, 2);
    if length.None? { return None; }
    var end := buf.pos + length.value;
    var items: seq<seq<byte>> := [];
    while buf.pos < end
      invariant buf.Valid() && Remaining(ALPN_ITEM, items, end - buf.pos, buf.Rest()) == all
      decreases end - buf.pos
    {
      ItemRead(ALPN_ITEM, items, end - buf.pos, buf.Rest());
      var item := PullAlpnProtocol(buf);
      if item.None? { return None; }
      items := items + item.value;
    }
    ItemsEnd(ALPN_ITEM, items, end - buf.pos, buf.Rest());
    r := if buf.pos == end then Some(items) else None;
  }

  method PullKeyShare(buf: Buffer) returns (r: Option<seq<KeyShare>>)
    requires buf.Valid()
    modifies buf`pos
    ensures buf.Valid()
    ensures r.Some? <==> Apply(KEY_SHARE_ITEM, old(buf.Rest())).Some?
    ensures r.Some? ==> Apply(KEY_SHARE_ITEM, old(buf.Rest())) == Some((r.value, buf.Rest())) && buf.pos > old(buf.pos)
  {
    hide FromBigEndian, PullOpaque;
    ghost var s := buf.Rest();
    var group := buf.PullUint(2);
    if group.None? { return None; }
    assert PullUint(2, s) == Some((group.value, buf.Rest()));
    hide PullUint;
    var data := PullOpaqueValue(buf, 2);
    r := if data.Some? then Some([KeyShare(group.value, data.value)]) else None;
  }

  method PullKeyShares(buf: Buffer) returns (r: Option<seq<KeyShare>>)
    requires buf.Valid()
    modifies buf`pos
    ensures buf.Valid()
    ensures r.Some? <==> PullList(KEY_SHARE_ITEM, 2, old(buf.Rest())).Some?
    ensures r.Some? ==> PullList(KEY_SHARE_ITEM, 2, old(buf.Rest())) == Some((r.value, buf.Rest()))
  {
    hide FromBigEndian, PullUint, PullList, Remaining, Apply;
    ghost var all := PullList(KEY_SHARE_ITEM, 2, buf.Rest());
    ListStarts(KEY_SHARE_ITEM, 2, buf.Rest());
    var length := PullLength(buf, 2);
    if length.None? { return None; }
    var end := buf.pos + length.value;
    var items: seq<KeyShare> := [];
    while buf.pos < end
      invariant buf.Valid() && Remaining(KEY_SHARE_ITEM, items, end - buf.pos, buf.Rest()) == all
      decreases end - buf.pos
    {
      ItemRead(KEY_SHARE_ITEM, items, end - buf.pos, buf.Rest());
      var item := PullKeyShare(buf);
      if item.None? { return None; }
      items := items + item.value;
    }
    ItemsEnd(KEY_SHARE_ITEM, items, end - buf.pos, buf.Rest());
    r := if buf.pos == end then Some(items) else None;
  }

  method PullIdentity(buf: Buffer) returns (r: Option<seq<PskIdentity>>)
    requires buf.Valid()
    modifies buf`pos
    ensures buf.Valid()
    ensures r.Some? <==> Apply(IDENTITY_ITEM, old(buf.Rest())).Some?
    ensures r.Some? ==> Apply(IDENTITY_ITEM, old(buf.Rest())) == Some((r.value, buf.Rest())) && buf.pos > old(buf.pos)
  {
    hide FromBigEndian, PullOpaque;
    var identity := PullOpaqueValue(buf, 2);
    if identity.None? { return None; }
    var age := buf.PullUint(4);
    r := if age.Some? then Some([PskIdentity(identity.value, age.value)]) else None;
  }

  method PullIdentities(buf: Buffer) returns (r: Option<seq<PskIdentity>>)
    requires buf.Valid()
    modifies buf`pos
    ensures buf.Valid()
    ensures r.Some? <==> PullList(IDENTITY_ITEM, 2, old(buf.Rest())).Some?
    ensures r.Some? ==> PullList(IDENTITY_ITEM, 2, old(buf.Rest())) == Some((r.value, buf.Rest()))
  {
    hide FromBigEndian, PullUint, PullList, Remaining, Apply;
    ghost var all := PullList(IDENTITY_ITEM, 2, buf.Rest());
    ListStarts(IDENTITY_ITEM, 2, buf.Rest());
    var length := PullLength(buf, 2);
    if length.None? { return None; }
    var end := buf.pos + length.value;
    var items: seq<PskIdentity> := [];
    while buf.pos < end
      invariant buf.Valid() && Remaining(IDENTITY_ITEM, items, end - buf.pos, buf.Rest()) == all
      decreases end - buf.pos
    {
      ItemRead(IDENTITY_ITEM, items, end - buf.pos, buf.Rest());
      var item := PullIdentity(buf);
      if item.None? { return None; }
      items := items + item.value;
    }
    ItemsEnd(IDENTITY_ITEM, items, end - buf.pos, buf.Rest());
    r := if buf.pos == end then Some(items) else None;
  }

  // ---- Extensions ----

  method PullHostName(buf: Buffer) returns (r: Option<seq<byte>>)
    requires buf.Valid()
    modifies buf`pos
    ensures buf.Valid()
    ensures r.Some? <==> PullServerName(old(buf.Rest())).Some?
    ensures r.Some? ==> PullServerName(old(buf.Rest())) == Some((r.value, buf.Rest()))
  {
    hide FromBigEndian, PullOpaque;
    var length := PullLength(buf, 2);
    if length.None? { return None; }
    var end := buf.pos + length.value;
    var kind := buf.PullUint(1);
    if kind.None? || kind.value != 0 { return None; }
    var name := PullOpaqueValue(buf, 2);
    if name.None? || !Ascii(name.value) || buf.pos != end { return None; }
    r := name;
  }

  method PullOfferedPsks(buf: Buffer) returns (r: Option<OfferedPsks>)
    requires buf.Valid()
    modifies buf`pos
    ensures buf.Valid()
    ensures r.Some? <==> PullPsks(old(buf.Rest())).Some?
    ensures r.Some? ==> PullPsks(old(buf.Rest())) == Some((r.value, buf.Rest()))
  {
    hide PullList;
    var identities := PullIdentities(buf);
    if identities.None? { return None; }
    var binders := PullBinders(buf);
    if binders.None? { return None; }
    r := Some(OfferedPsks(identities.value, binders.value));
  }

  method PullBody(buf: Buffer, kind: nat, length: nat) returns (r: Option<Field>)
    requires buf.Valid()
    modifies buf`pos
    ensures buf.Valid()
    ensures r.Some? <==> PullField(kind, length, old(buf.Rest())).Some?
    ensures r.Some? ==> PullField(kind, length, old(buf.Rest())) == Some((r.value, buf.Rest()))
  {
    hide PullList, PullServerName, PullPsks;
    r := None;
    if kind == KEY_SHARE {
      var v := PullKeyShares(buf);
      if v.Some? { r := Some(KeyShares(v.value)); }
    } else if kind == SUPPORTED_VERSIONS {
      var v := PullUints(buf, 1, 2);
      if v.Some? { r := Some(Versions(v.value)); }
    } else if kind == SIGNATURE_ALGORITHMS {
      var v := PullUints(buf, 2, 2);
      if v.Some? { r := Some(Algorithms(v.value)); }
    } else if kind == SUPPORTED_GROUPS {
      var v := PullUints(buf, 2, 2);
      if v.Some? { r := Some(Groups(v.value)); }
    } else if kind == PSK_KEY_EXCHANGE_MODES {
      var v := PullUints(buf, 1, 1);
      if v.Some? { r := Some(Modes(v.value)); }
    } else if kind == SERVER_NAME {
      var v := PullHostName(buf);
      if v.Some? { r := Some(ServerName(v.value)); }
    } else if kind == ALPN {
      var v := PullAlpnProtocols(buf);
      if v.Some? { r := Some(Alpn(v.value)); }
    } else if kind == EARLY_DATA {
      r := Some(Early);
    } else if kind == PRE_SHARED_KEY {
      var v := PullOfferedPsks(buf);
      if v.Some? { r := Some(Psks(v.value)); }
    } else {
      var v := buf.PullBytes(length);
      if v.Some? { r := Some(Other(Extension(kind, v.value))); }
    }
  }

  /** A type, a length and the body they announce. */
  method PullExtension(buf: Buffer) returns (r: Option<Field>)
    requires buf.Valid()
    modifies buf`pos
    ensures buf.Valid()
    ensures var s := old(buf.Rest());
            && (|s| < 4 ==> r.None?)
            && (|s| >= 4 ==> var body := PullField(FromBigEndian(s[..2]), FromBigEndian(s[2..4]), s[4..]);
                  && (r.Some? <==> body.Some?)
                  && (r.Some? ==> body == Some((r.value, buf.Rest()))))
  {
    hide FromBigEndian, PullField;
    ghost var s := buf.Rest();
    var kind := buf.PullUint(2);
    if kind.None? { return None; }
    var length := buf.PullUint(2);
    if length.None? { return None; }
    assert s[2..][..2] == s[2..4] && s[2..][2..] == s[4..];
    r := PullBody(buf, kind.value, length.value);
  }

  /** The cursor never goes back over an extension. */
  lemma BodyShortens(kind: nat, length: nat, s: seq<byte>)
    ensures PullField(kind, length, s).Some? ==> |PullField(kind, length, s).value.1| <= |s|
  {
    hide PullOpaque, PullUint, PullItems, UintItem, OpaqueItem;
    ListShortens(KEY_SHARE_ITEM, 2, s);
    ListShortens(UintItem(2), 1, s);
    ListShortens(UintItem(2), 2, s);
    ListShortens(UintItem(1), 1, s);
    ListShortens(ALPN_ITEM, 2, s);
    ListShortens(IDENTITY_ITEM, 2, s);
    if PullList(IDENTITY_ITEM, 2, s).Some? { ListShortens(OpaqueItem(1), 2, PullList(IDENTITY_ITEM, 2, s).value.1); }
    hide PullList;
    NameShortens(s);
  }

  lemma NameShortens(s: seq<byte>)
    ensures PullServerName(s).Some? ==> |PullServerName(s).value.1| <= |s|
  {
  }

  lemma ListShortens<T>(f: Item<T>, capacity: nat, s: seq<byte>)
    ensures PullList(f, capacity, s).Some? ==> |PullList(f, capacity, s).value.1| <= |s|
  {
    if PullUint(capacity, s).Some? {
      var (length, rest) := PullUint(capacity, s).value;
      ItemsShorten(f, length, rest);
    }
  }

  lemma {:induction false} ItemsShorten<T>(f: Item<T>, length: int, s: seq<byte>)
    ensures PullItems(f, length, s).Some? ==> |PullItems(f, length, s).value.1| <= |s|
    decreases |s|
  {
    if length > 0 && f(s).Some? && |f(s).value.1| < |s| {
      ItemsShorten(f, length - (|s| - |f(s).value.1|), f(s).value.1);
    }
  }

  lemma FieldRead(h: ClientHello, afterPsks: bool, length: nat, s: seq<byte>)
    requires length > 0
    ensures afterPsks || |s| < 4 ==> PullFields(h, afterPsks, length, s).None?
    ensures !afterPsks && |s| >= 4 ==>
              var body := PullField(FromBigEndian(s[..2]), FromBigEndian(s[2..4]), s[4..]);
              if body.None? then PullFields(h, afterPsks, length, s).None?
              else
                && |body.value.1| < |s|
                && PullFields(h, afterPsks, length, s) ==
                   PullFields(SetField(h, body.value.0), body.value.0.Psks?, length - (|s| - |body.value.1|), body.value.1)
  {
    hide PullField, SetField, FromBigEndian;
    if |s| >= 4 { BodyShortens(FromBigEndian(s[..2]), FromBigEndian(s[2..4]), s[4..]); }
  }

  /** The list of extensions. */
  method PullExtensions(buf: Buffer, front: ClientHello, length: nat) returns (r: Option<ClientHello>)
    requires buf.Valid()
    modifies buf`pos
    ensures buf.Valid()
    ensures r.Some? <==> PullFields(front, false, length, old(buf.Rest())).Some?
    ensures r.Some? ==> PullFields(front, false, length, old(buf.Rest())) == Some((r.value, buf.Rest()))
  {
    hide PullField, SetField, FromBigEndian;
    ghost var all := PullFields(front, false, length, buf.Rest());
    var end, hello, afterPsks := buf.pos + length, front, false;
    while buf.pos < end
      invariant buf.Valid() && PullFields(hello, afterPsks, end - buf.pos, buf.Rest()) == all
      decreases end - buf.pos
    {
      FieldRead(hello, afterPsks, end - buf.pos, buf.Rest());
      hide PullFields;
      if afterPsks { return None; }
      var field := PullExtension(buf);
      if field.None? { return None; }
      hello, afterPsks := SetField(hello, field.value), field.value.Psks?;
    }
    r := if buf.pos == end then Some(hello) else None;
  }

  // ---- The message ----

  /** The version and the fields before the extensions. */
  method PullHelloFront(buf: Buffer) returns (r: Option<ClientHello>)
    requires buf.Valid()
    modifies buf`pos
    ensures buf.Valid()
    ensures r.Some? <==> PullFront(old(buf.Rest())).Some?
    ensures r.Some? ==> PullFront(old(buf.Rest())) == Some((r.value, buf.Rest()))
  {
    hide PullOpaque, PullList, PullUint, UintItem, FromBigEndian;
    ghost var s := buf.Rest();
    var version := buf.PullUint(2);
    if version.None? || version.value != TLS_VERSION_1_2 { return None; }
    var random := buf.PullBytes(32);
    if random.None? { return None; }
    assert s[2..][..32] == s[2..34] && s[2..][32..] == s[34..];
    var sessionId := PullOpaqueValue(buf, 1);
    if sessionId.None? { return None; }
    var suites := PullUints(buf, 2, 2);
    if suites.None? { return None; }
    var compressions := PullUints(buf, 1, 1);
    if compressions.None? { return None; }
    r := Some(ClientHello(random.value, sessionId.value, suites.value, compressions.value,
                          None, false, None, None, None, None, None, None, None, []));
  }

  /** The front and the extensions of a message. */
  method PullMessage(buf: Buffer) returns (r: Option<ClientHello>)
    requires buf.Valid()
    modifies buf`pos
    ensures buf.Valid()
    ensures var front := PullFront(old(buf.Rest()));
            && (front.None? ==> r.None?)
            && (front.Some? ==> var size := PullUint(2, front.value.1);
                  && (size.None? ==> r.None?)
                  && (size.Some? ==> var fields := PullFields(front.value.0, false, size.value.0, size.value.1);
                        && (r.Some? <==> fields.Some?)
                        && (r.Some? ==> fields == Some((r.value, buf.Rest())))))
  {
    hide PullFront, PullFields, FromBigEndian;
    var front := PullHelloFront(buf);
    if front.None? { return None; }
    var length := PullLength(buf, 2);
    if length.None? { return None; }
    r := PullExtensions(buf, front.value, length.value);
  }

  /** pull_client_hello reads exactly the messages that PullHello describes. */
  method PullClientHello(buf: Buffer) returns (r: Option<ClientHello>)
    requires buf.Valid()
    modifies buf`pos
    ensures buf.Valid()
    ensures r.Some? <==> PullHello(old(buf.Rest())).Some?
    ensures r.Some? ==> PullHello(old(buf.Rest())) == Some((r.value, buf.Rest()))
  {
    hide PullFront, PullFields, FromBigEndian;
    ghost var s := buf.Rest();
    var kind := buf.PullUint(1);
    if kind.None? || kind.value != CLIENT_HELLO { return None; }
    var length := PullLength(buf, 3);
    if length.None? { return None; }
    assert s[1..][..3] == s[1..4] && s[1..][3..] == s[4..];
    var end := buf.pos + length.value;
    r := PullMessage(buf);
    if r.Some? && buf.pos != end { r := None; }
  }
}
