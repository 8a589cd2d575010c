/** Length-prefixed blocks, lists and the items in them (tls.py). */
module TlsCodec {
  import opened Common
  import opened Buffers

  // ---- Blocks and lists ----

  function Block(capacity: nat, body: seq<byte>): seq<byte> { BigEndian(|body|, capacity) + body }

  predicate FitsBlock(capacity: nat, body: seq<byte>) { |body| < Pow256(capacity) }

  /** Reads zero or one items (a skipped item gives none) and returns the bytes after them. */
  type Item<T> = seq<byte> -> Option<(seq<T>, seq<byte>)>

  function PullUint(width: nat, s: seq<byte>): Option<(nat, seq<byte>)> {
    if |s| < width then None else Some((FromBigEndian(s[..width]), s[width..]))
  }

  function PullOpaque(capacity: nat, s: seq<byte>): Option<(seq<byte>, seq<byte>)> {
    match PullUint(capacity, s)
    case None => None
    case Some((length, rest)) => if |rest| < length then None else Some((rest[..length], rest[length..]))
  }

  /** Items until the block's remaining length is used up; reading past its end is an error. */
  function PullItems<T>(f: Item<T>, length: int, s: seq<byte>): Option<(seq<T>, seq<byte>)>
    decreases |s|
  {
    if length == 0 then Some(([], s))
    else if length < 0 then None
    else
      match f(s)
      case None => None
      case Some((item, rest)) =>
        if |rest| >= |s| then None
        else
          match PullItems(f, length - (|s| - |rest|), rest)
          case None => None
          case Some((items, after)) => Some((item + items, after))
  }

  function PullList<T>(f: Item<T>, capacity: nat, s: seq<byte>): Option<(seq<T>, seq<byte>)> {
    match PullUint(capacity, s)
    case None => None
    case Some((length, rest)) => PullItems(f, length, rest)
  }

  function EncodeItems<T>(encode: T -> seq<byte>, values: seq<T>): seq<byte> {
    if values == [] then [] else encode(values[0]) + EncodeItems(encode, values[1..])
  }

  /** The item parser reads back exactly what was encoded, whatever follows. */
  ghost predicate Inverts<T>(f: Item<T>, encode: T -> seq<byte>, v: T) {
    encode(v) != [] && forall tail :: f(encode(v) + tail) == Some(([v], tail))
  }

  lemma UintReadsBack(v: nat, width: nat, tail: seq<byte>)
    requires v < Pow256(width)
    ensures PullUint(width, BigEndian(v, width) + tail) == Some((v, tail))
  {
    ReadsBack(v, width, tail);
  }

  lemma OpaqueReadsBack(capacity: nat, value: seq<byte>, tail: seq<byte>)
    requires FitsBlock(capacity, value)
    ensures PullOpaque(capacity, Block(capacity, value) + tail) == Some((value, tail))
  {
    hide BigEndian, FromBigEndian;
    UintReadsBack(|value|, capacity, value + tail);
    assert Block(capacity, value) + tail == BigEndian(|value|, capacity) + (value + tail);
    assert (value + tail)[..|value|] == value && (value + tail)[|value|..] == tail;
  }

  lemma {:induction false} ItemsReadBack<T>(f: Item<T>, encode: T -> seq<byte>, values: seq<T>, tail: seq<byte>)
    requires forall v | v in values :: Inverts(f, encode, v)
    ensures var body := EncodeItems(encode, values); PullItems(f, |body|, body + tail) == Some((values, tail))
  {
    if values == [] {
      assert [] + tail == tail;
    } else {
      var v, more := values[0], EncodeItems(encode, values[1..]);
      ItemsReadBack(f, encode, values[1..], tail);
      assert Inverts(f, encode, v);
      assert (encode(v) + more) + tail == encode(v) + (more + tail);
      assert values == [v] + values[1..];
    }
  }

  lemma ListReadsBack<T>(f: Item<T>, encode: T -> seq<byte>, capacity: nat, values: seq<T>, tail: seq<byte>)
    requires forall v | v in values :: Inverts(f, encode, v)
    requires FitsBlock(capacity, EncodeItems(encode, values))
    ensures PullList(f, capacity, Block(capacity, EncodeItems(encode, values)) + tail) == Some((values, tail))
  {
    hide BigEndian, FromBigEndian, PullItems, Inverts;
    var body := EncodeItems(encode, values);
    UintReadsBack(|body|, capacity, body + tail);
    ItemsReadBack(f, encode, values, tail);
    assert Block(capacity, body) + tail == BigEndian(|body|, capacity) + (body + tail);
  }

  // ---- Item encodings ----

  datatype KeyShare = KeyShare(group: nat, data: seq<byte>)
  datatype PskIdentity = PskIdentity(identity: seq<byte>, obfuscatedAge: nat)
  datatype OfferedPsks = OfferedPsks(identities: seq<PskIdentity>, binders: seq<seq<byte>>)

  function EncodeUint(width: nat): nat -> seq<byte> { v => BigEndian(v, width) }
  function EncodeOpaque(capacity: nat): seq<byte> -> seq<byte> { v => Block(capacity, v) }
  const ENCODE_KEY_SHARE: KeyShare -> seq<byte> := (k: KeyShare) => BigEndian(k.group, 2) + Block(2, k.data)
  const ENCODE_IDENTITY: PskIdentity -> seq<byte> := (p: PskIdentity) => Block(2, p.identity) + BigEndian(p.obfuscatedAge, 4)

  function UintItem(width: nat): Item<nat> {
    s => match PullUint(width, s) case None => None case Some((v, rest)) => Some(([v], rest))
  }

  function OpaqueItem(capacity: nat): Item<seq<byte>> {
    s => match PullOpaque(capacity, s) case None => None case Some((v, rest)) => Some(([v], rest))
  }

  predicate Ascii(s: seq<byte>) { forall i :: 0 <= i < |s| ==> s[i] < 128 }

  /** Protocol names that are not ASCII are left out of the list. */
  const ALPN_ITEM: Item<seq<byte>> :=
    s => match PullOpaque(1, s)
         case None => None
         case Some((v, rest)) => Some((if Ascii(v) then [v] else [], rest))

  const KEY_SHARE_ITEM: Item<KeyShare> :=
    s => match PullUint(2, s)
         case None => None
         case Some((group, s1)) =>
           match PullOpaque(2, s1)
           case None => None
           case Some((data, rest)) => Some(([KeyShare(group, data)], rest))

  const IDENTITY_ITEM: Item<PskIdentity> :=
    s => match PullOpaque(2, s)
         case None => None
         case Some((identity, s1)) =>
           match PullUint(4, s1)
           case None => None
           case Some((age, rest)) => Some(([PskIdentity(identity, age)], rest))

  lemma UintInverts(width: nat, v: nat)
    requires 0 < width && v < Pow256(width)
    ensures Inverts(UintItem(width), EncodeUint(width), v)
  {
    hide BigEndian, FromBigEndian;
    forall tail
      ensures UintItem(width)(EncodeUint(width)(v) + tail) == Some(([v], tail))
    {
      UintReadsBack(v, width, tail);
    }
  }

  lemma OpaqueInverts(capacity: nat, v: seq<byte>)
    requires 0 < capacity && FitsBlock(capacity, v)
    ensures Inverts(OpaqueItem(capacity), EncodeOpaque(capacity), v)
  {
    hide PullOpaque, BigEndian;
    forall tail
      ensures OpaqueItem(capacity)(EncodeOpaque(capacity)(v) + tail) == Some(([v], tail))
    {
      OpaqueReadsBack(capacity, v, tail);
    }
  }

  lemma AlpnInverts(v: seq<byte>)
    requires FitsBlock(1, v) && Ascii(v)
    ensures Inverts(ALPN_ITEM, EncodeOpaque(1), v)
  {
    hide PullOpaque, BigEndian;
    forall tail
      ensures ALPN_ITEM(EncodeOpaque(1)(v) + tail) == Some(([v], tail))
    {
      OpaqueReadsBack(1, v, tail);
    }
  }

  predicate FitsKeyShare(k: KeyShare) { k.group < Pow256(2) && FitsBlock(2, k.data) }

  lemma KeyShareInverts(k: KeyShare)
    requires FitsKeyShare(k)
    ensures Inverts(KEY_SHARE_ITEM, ENCODE_KEY_SHARE, k)
  {
    hide PullOpaque, PullUint, BigEndian, Block;
    forall tail
      ensures KEY_SHARE_ITEM(ENCODE_KEY_SHARE(k) + tail) == Some(([k], tail))
    {
      UintReadsBack(k.group, 2, Block(2, k.data) + tail);
      OpaqueReadsBack(2, k.data, tail);
      assert ENCODE_KEY_SHARE(k) + tail == BigEndian(k.group, 2) + (Block(2, k.data) + tail);
    }
  }

  predicate FitsIdentity(p: PskIdentity) { FitsBlock(2, p.identity) && p.obfuscatedAge < Pow256(4) }

  lemma IdentityInverts(p: PskIdentity)
    requires FitsIdentity(p)
    ensures Inverts(IDENTITY_ITEM, ENCODE_IDENTITY, p)
  {
    hide PullOpaque, PullUint, BigEndian, Block;
    forall tail
      ensures IDENTITY_ITEM(ENCODE_IDENTITY(p) + tail) == Some(([p], tail))
    {
      UintReadsBack(p.obfuscatedAge, 4, tail);
      OpaqueReadsBack(2, p.identity, BigEndian(p.obfuscatedAge, 4) + tail);
      assert ENCODE_IDENTITY(p) + tail == Block(2, p.identity) + (BigEndian(p.obfuscatedAge, 4) + tail);
    }
  }
}
