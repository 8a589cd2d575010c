/** What the reader of a ClientHello refuses (tls.py). */
module TlsStrictness {
  import opened Common
  import opened Buffers
  import opened TlsCodec
  import opened TlsHello

  // ---- Lists ----

  /** How many of the items, from the first, take exactly this many bytes. */
  function Taken<T>(encode: T -> seq<byte>, values: seq<T>, length: int): (k: Option<nat>)
    ensures k.Some? ==> k.value <= |values|
  {
    if length == 0 then Some(0)
    else if length < 0 || values == [] then None
    else
      match Taken(encode, values[1..], length - |encode(values[0])|)
      case None => None
      case Some(k) => Some(k + 1)
  }

  lemma {:induction false} TakenExactly<T>(encode: T -> seq<byte>, values: seq<T>, length: nat, k: nat)
    requires k <= |values| && forall v | v in values :: encode(v) != []
    ensures Taken(encode, values, length) == Some(k) <==> |EncodeItems(encode, values[..k])| == length
  {
    if k > 0 {
      assert values[..k][1..] == values[1..][..k - 1] && values[..k][0] == values[0] && values[0] in values;
      if length >= |encode(values[0])| {
        TakenExactly(encode, values[1..], length - |encode(values[0])|, k - 1);
      }
    }
  }

  /**
   A list is read only if its length ends where an item does: it gives the items before that place, and the bytes
   left start with the next one.
   */
  lemma {:induction false} ListExactly<T>(f: Item<T>, encode: T -> seq<byte>, values: seq<T>, length: nat, tail: seq<byte>)
    requires forall v | v in values :: Inverts(f, encode, v)
    requires length <= |EncodeItems(encode, values)|
    ensures PullItems(f, length, EncodeItems(encode, values) + tail) ==
            match Taken(encode, values, length) {
              case None => None
              case Some(k) => Some((values[..k], EncodeItems(encode, values[k..]) + tail))
            }
    decreases |values|
  {
    hide Inverts;
    if length == 0 {
      assert values[..0] == [] && values[0..] == values;
    } else if values != [] {
      var v, rest := values[0], EncodeItems(encode, values[1..]);
      assert EncodeItems(encode, values) + tail == encode(v) + (rest + tail);
      OneItem(f, encode, v, rest + tail, length);
      hide PullItems, EncodeItems;
      if length >= |encode(v)| {
        hide Taken;
        TakenStep(encode, values, length);
        ListExactly(f, encode, values[1..], length - |encode(v)|, tail);
        var k := Taken(encode, values[1..], length - |encode(v)|);
        if k.Some? {
          assert [v] + values[1..][..k.value] == values[..k.value + 1] && values[1..][k.value..] == values[k.value + 1..];
        }
      }
    }
  }

  lemma TakenStep<T>(encode: T -> seq<byte>, values: seq<T>, length: nat)
    requires values != [] && length > 0
    ensures Taken(encode, values, length) ==
            match Taken(encode, values[1..], length - |encode(values[0])|) {
              case None => None
              case Some(k) => Some(k + 1)
            }
  {
  }

  /** The first item of a list. */
  lemma OneItem<T>(f: Item<T>, encode: T -> seq<byte>, v: T, more: seq<byte>, length: nat)
    requires Inverts(f, encode, v) && length > 0
    ensures PullItems(f, length, encode(v) + more) ==
            if length < |encode(v)| then None
            else match PullItems(f, length - |encode(v)|, more) {
                   case None => None
                   case Some((items, after)) => Some(([v] + items, after))
                 }
  {
  }

  predicate Plain(name: seq<byte>) { forall i :: 0 <= i < |name| ==> name[i] < 0x80 }

  /** Names outside of ASCII are skipped; the others are kept in order. */
  function Known(names: seq<seq<byte>>): seq<seq<byte>> {
    if names == [] then [] else (if Plain(names[0]) then [names[0]] else []) + Known(names[1..])
  }

  lemma {:induction false} NamesExactly(names: seq<seq<byte>>, tail: seq<byte>)
    requires forall n | n in names :: |n| < 0x100
    ensures var body := EncodeItems(EncodeOpaque(1), names);
            PullItems(ALPN_ITEM, |body|, body + tail) == Some((Known(names), tail))
  {
    if names == [] {
      NoNames(tail);
    } else {
      hide Block, PullItems, Plain;
      assert names[0] in names;
      var rest := EncodeItems(EncodeOpaque(1), names[1..]);
      assert EncodeItems(EncodeOpaque(1), names) == Block(1, names[0]) + rest;
      NamesExactly(names[1..], tail);
      NamesStep(names[0], rest, tail);
    }
  }

  lemma NamesStep(name: seq<byte>, rest: seq<byte>, tail: seq<byte>)
    requires |name| < 0x100
    ensures PullItems(ALPN_ITEM, |Block(1, name) + rest|, Block(1, name) + rest + tail) ==
            match PullItems(ALPN_ITEM, |rest|, rest + tail) {
              case None => None
              case Some((items, after)) =>
                Some(((if Plain(name) then [name] else []) + items, after))
            }
  {
    hide Block, PullItems, Plain, ALPN_ITEM, PullOpaque, Ascii;
    NameItem(name, rest + tail);
    FirstItem(ALPN_ITEM, Block(1, name), if Plain(name) then [name] else [], rest, tail);
  }

  lemma NoNames(tail: seq<byte>)
    ensures PullItems(ALPN_ITEM, 0, [] + tail) == Some(([], tail))
  {
    assert [] + tail == tail;
  }

  /** An item, and as many bytes of others. */
  lemma FirstItem<T>(f: Item<T>, first: seq<byte>, item: seq<T>, rest: seq<byte>, tail: seq<byte>)
    requires first != [] && f(first + (rest + tail)) == Some((item, rest + tail))
    ensures PullItems(f, |first + rest|, first + rest + tail) ==
            match PullItems(f, |rest|, rest + tail) {
              case None => None
              case Some((items, after)) => Some((item + items, after))
            }
  {
    assert first + rest + tail == first + (rest + tail);
  }

  lemma NameItem(name: seq<byte>, more: seq<byte>)
    requires |name| < 0x100
    ensures ALPN_ITEM(Block(1, name) + more) ==
            Some((if Plain(name) then [name] else [], more))
    ensures |Block(1, name)| == 1 + |name|
  {
    assert Pow256(1) == 0x100;
    OpaqueReadsBack(1, name, more);
    hide PullOpaque;
  }

  // ---- Extensions ----

  /**
   A list of extensions is read if and only if nothing follows the ticket offer; it then sets all of them, in order,
   the last one of a kind winning.
   */
  lemma ExtensionsExactly(h: ClientHello, fields: seq<Field>, tail: seq<byte>)
    requires forall f | f in fields :: FitsField(f)
    ensures var body := EncodeFields(fields);
            PullFields(h, false, |body|, body + tail) == if PsksLast(fields) then Some((SetAll(h, fields), tail)) else None
  {
    hide FitsField, EncodeFields, PullFields, SetAll;
    if PsksLast(fields) { FieldsReadBack(h, fields, tail); } else { NothingFollows(h, fields, tail); }
  }

  lemma {:induction false} NothingFollows(h: ClientHello, fields: seq<Field>, tail: seq<byte>)
    requires !PsksLast(fields) && forall f | f in fields :: FitsField(f)
    ensures var body := EncodeFields(fields); PullFields(h, false, |body|, body + tail) == None
    decreases |fields|
  {
    hide FitsField, FieldExtension, EncodeExtension, PullFields;
    LastStep(fields);
    var f, rest := fields[0], EncodeFields(fields[1..]);
    assert EncodeFields(fields) == EncodeExtension(FieldExtension(f)) + rest;
    hide EncodeFields, PsksLast;
    KindFits(f);
    ExtensionReadsBack(h, f, rest + tail, |rest|);
    assert EncodeExtension(FieldExtension(f)) + rest + tail == EncodeExtension(FieldExtension(f)) + (rest + tail);
    if f.Psks? {
      SomeBytes(fields[1..]);
      NoneAfter(SetField(h, f), |rest|, rest + tail);
    } else {
      NothingFollows(SetField(h, f), fields[1..], tail);
    }
  }

  lemma LastStep(fields: seq<Field>)
    requires !PsksLast(fields)
    ensures |fields| > 1 && (fields[0].Psks? || !PsksLast(fields[1..]))
  {
  }

  lemma SomeBytes(fields: seq<Field>)
    requires fields != []
    ensures EncodeFields(fields) != []
  {
  }

  lemma NoneAfter(h: ClientHello, length: int, s: seq<byte>)
    requires length != 0
    ensures PullFields(h, true, length, s) == None
  {
  }

  /** A server name is read if and only if its kind is 0, its characters are ASCII and both lengths agree. */
  lemma NameExactly(length: nat, kind: byte, name: seq<byte>, tail: seq<byte>)
    requires length < 0x1_0000 && |name| < 0x1_0000
    ensures PullServerName(BigEndian(length, 2) + [kind] + (BigEndian(|name|, 2) + name) + tail) ==
            if kind == 0 && Plain(name) && length == |name| + 3 then Some((name, tail)) else None
  {
    Powers();
    UintReadsBack(length, 2, [kind] + (Block(2, name) + tail));
    OneByte(kind);
    UintReadsBack(kind as nat, 1, Block(2, name) + tail);
    OpaqueReadsBack(2, name, tail);
    hide BigEndian, FromBigEndian, PullUint, PullOpaque;
    assert BigEndian(length, 2) + [kind] + (BigEndian(|name|, 2) + name) + tail == BigEndian(length, 2) + ([kind] + (Block(2, name) + tail));
    assert |Block(2, name)| == |name| + 2;
  }

  lemma OneByte(b: byte)
    ensures BigEndian(b as nat, 1) == [b] && (b as nat) < Pow256(1)
  {
    assert BigEndian(b as nat / 256, 0) == [];
  }

  // ---- The message ----

  /** Of a message whose type, length or version are replaced, exactly the right ones are read. */
  lemma HelloExactly(h: ClientHello, kind: byte, length: nat, version: nat, tail: seq<byte>)
    requires Fits(h) && length < 0x100_0000 && version < 0x1_0000
    ensures var e := EncodeHello(h);
            |e| >= 6 && PullHello([kind] + BigEndian(length, 3) + BigEndian(version, 2) + e[6..] + tail) ==
            if kind == 1 && length == |e| - 4 && version == 0x0303 then Some((h, tail)) else None
  {
    hide EncodeHello, PullFields, PullHello, PullFront, BigEndian, FromBigEndian;
    assert Complete(h);
    hide Fits, Complete;
    HelloRoundTrip(h, tail);
    HelloLead(h);
    var e := EncodeHello(h);
    ReadLead(kind, length, version, e[6..] + tail);
    ReadLead(1, |e| - 4, 0x0303, e[6..] + tail);
    Regrouped([kind] + BigEndian(length, 3) + BigEndian(version, 2), e[6..], tail);
    Regrouped([1] + BigEndian(|e| - 4, 3) + BigEndian(0x0303, 2), e[6..], tail);
    Replaced([kind] + BigEndian(length, 3) + BigEndian(version, 2) + e[6..] + tail, e + tail);
  }

  lemma Regrouped(a: seq<byte>, b: seq<byte>, c: seq<byte>)
    ensures a + b + c == a + (b + c)
  {
  }

  /** The numbers at the front of a message. */
  lemma ReadLead(kind: byte, length: nat, version: nat, d: seq<byte>)
    requires length < 0x100_0000 && version < 0x1_0000
    ensures var s := [kind] + BigEndian(length, 3) + BigEndian(version, 2) + d;
            && |s| == 6 + |d| && s[4..][2..] == d
            && FromBigEndian(s[..1]) == kind as nat && FromBigEndian(s[1..4]) == length && FromBigEndian(s[4..][..2]) == version
  {
    Powers();
    OneByte(kind);
    ReadsBack(kind as nat, 1, []);
    ReadsBack(length, 3, []);
    ReadsBack(version, 2, []);
    hide BigEndian, FromBigEndian;
    Leads([kind] + BigEndian(length, 3) + BigEndian(version, 2) + d, [kind], BigEndian(length, 3), BigEndian(version, 2), d);
  }

  /** Two messages that differ in nothing else; the second one is read. */
  lemma Replaced(s: seq<byte>, t: seq<byte>)
    requires |s| == |t| >= 6 && s[4..][2..] == t[4..][2..]
    requires FromBigEndian(t[..1]) == 1 && FromBigEndian(t[4..][..2]) == 0x0303 && PullHello(t).Some?
    ensures PullHello(s) ==
            if FromBigEndian(s[..1]) == 1 && FromBigEndian(s[1..4]) == FromBigEndian(t[1..4]) && FromBigEndian(s[4..][..2]) == 0x0303
            then PullHello(t) else None
  {
    hide PullFields, FromBigEndian, PullFront, PullUint;
    FrontVersion(s[4..]);
    if FromBigEndian(s[4..][..2]) == 0x0303 { SameFront(s[4..], t[4..]); }
  }

  lemma FrontVersion(u: seq<byte>)
    ensures PullFront(u).Some? ==> |u| >= 2 && FromBigEndian(u[..2]) == 0x0303
  {
    hide PullOpaque, PullList, FromBigEndian;
  }

  /** The version is only compared. */
  lemma SameFront(u: seq<byte>, v: seq<byte>)
    requires |u| == |v| >= 2 && u[2..] == v[2..] && FromBigEndian(u[..2]) == FromBigEndian(v[..2])
    ensures PullFront(u) == PullFront(v)
  {
    hide PullOpaque, PullList, FromBigEndian;
    if |u| >= 34 {
      assert u[34..] == u[2..][32..] && v[34..] == v[2..][32..] && u[2..34] == u[2..][..32] && v[2..34] == v[2..][..32];
    }
  }

  /** A message starts with its type, its length and the version. */
  lemma HelloLead(h: ClientHello)
    requires Fits(h)
    ensures var e := EncodeHello(h);
            6 <= |e| < 0x100_0004 && e == [1] + BigEndian(|e| - 4, 3) + BigEndian(0x0303, 2) + e[6..]
  {
    Powers();
    OneByte(1);
    hide BigEndian, Block, Uints, EncodeFields, Fields;
    var e := EncodeHello(h);
    var body := HelloBody(h);
    assert e == [1] + (BigEndian(|body|, 3) + body);
    assert body[..2] == BigEndian(0x0303, 2);
    assert e[4..] == body;
  }

  lemma Leads(s: seq<byte>, a: seq<byte>, b: seq<byte>, c: seq<byte>, d: seq<byte>)
    requires |a| == 1 && |b| == 3 && |c| == 2 && s == a + b + c + d
    ensures |s| == 6 + |d| && s[..1] == a && s[1..4] == b && s[4..][..2] == c && s[4..][2..] == d
  {
  }
}
