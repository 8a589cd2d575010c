/** The ClientHello message and its extensions (tls.py). */
module TlsHello {
  import opened Common
  import opened Buffers
  import opened TlsCodec

  const CLIENT_HELLO := 1
  const TLS_VERSION_1_2 := 0x0303
  const SERVER_NAME := 0
  const SUPPORTED_GROUPS := 10
  const SIGNATURE_ALGORITHMS := 13
  const ALPN := 16
  const PRE_SHARED_KEY := 41
  const EARLY_DATA := 42
  const SUPPORTED_VERSIONS := 43
  const PSK_KEY_EXCHANGE_MODES := 45
  const KEY_SHARE := 51
  const KNOWN: set<nat> := {0, 10, 13, 16, 41, 42, 43, 45, 51}

  datatype Extension = Extension(kind: nat, data: seq<byte>)

  datatype ClientHello = ClientHello(
    random: seq<byte>,
    sessionId: seq<byte>,
    suites: seq<nat>,
    compressions: seq<nat>,
    alpn: Option<seq<seq<byte>>>,
    earlyData: bool,
    keyShares: Option<seq<KeyShare>>,
    psks: Option<OfferedPsks>,
    pskModes: Option<seq<nat>>,
    serverName: Option<seq<byte>>,
    algorithms: Option<seq<nat>>,
    groups: Option<seq<nat>>,
    versions: Option<seq<nat>>,
    other: seq<Extension>)

  /** One extension of a ClientHello, in terms of what it stands for. */
  datatype Field =
    | KeyShares(shares: seq<KeyShare>)
    | Versions(versions: seq<nat>)
    | Algorithms(algorithms: seq<nat>)
    | Groups(groups: seq<nat>)
    | Modes(modes: seq<nat>)
    | ServerName(name: seq<byte>)
    | Alpn(protocols: seq<seq<byte>>)
    | Other(extension: Extension)
    | Early
    | Psks(psks: OfferedPsks)

  // ---- Writing ----

  function Uints(width: nat, values: seq<nat>): seq<byte> { EncodeItems(EncodeUint(width), values) }

  function PskBytes(p: OfferedPsks): seq<byte> {
    Block(2, EncodeItems(ENCODE_IDENTITY, p.identities)) + Block(2, EncodeItems(EncodeOpaque(1), p.binders))
  }

  function FieldExtension(f: Field): Extension {
    match f
    case KeyShares(shares) => Extension(KEY_SHARE, Block(2, EncodeItems(ENCODE_KEY_SHARE, shares)))
    case Versions(versions) => Extension(SUPPORTED_VERSIONS, Block(1, Uints(2, versions)))
    case Algorithms(algorithms) => Extension(SIGNATURE_ALGORITHMS, Block(2, Uints(2, algorithms)))
    case Groups(groups) => Extension(SUPPORTED_GROUPS, Block(2, Uints(2, groups)))
    case Modes(modes) => Extension(PSK_KEY_EXCHANGE_MODES, Block(1, Uints(1, modes)))
    case ServerName(name) => Extension(SERVER_NAME, Block(2, [0] + Block(2, name)))
    case Alpn(protocols) => Extension(ALPN, Block(2, EncodeItems(EncodeOpaque(1), protocols)))
    case Other(extension) => extension
    case Early => Extension(EARLY_DATA, [])
    case Psks(psks) => Extension(PRE_SHARED_KEY, PskBytes(psks))
  }

  function EncodeExtension(e: Extension): seq<byte> { BigEndian(e.kind, 2) + Block(2, e.data) }

  function EncodeFields(fields: seq<Field>): seq<byte> {
    if fields == [] then [] else EncodeExtension(FieldExtension(fields[0])) + EncodeFields(fields[1..])
  }

  function OtherFields(extensions: seq<Extension>): seq<Field> {
    if extensions == [] then [] else [Other(extensions[0])] + OtherFields(extensions[1..])
  }

  /** The four extensions every hello has. */
  predicate Complete(h: ClientHello) {
    h.keyShares.Some? && h.versions.Some? && h.algorithms.Some? && h.groups.Some?
  }

  function Optional(present: bool, f: Field): seq<Field> { if present then [f] else [] }

  function Get<T>(o: Option<T>, other: T): T { if o.Some? then o.value else other }

  /** The extensions of a hello in the order they are written; the PSKs come last. */
  function Fields(h: ClientHello): seq<Field>
    requires Complete(h)
  {
    [KeyShares(h.keyShares.value), Versions(h.versions.value), Algorithms(h.algorithms.value), Groups(h.groups.value)]
    + Optional(h.pskModes.Some?, Modes(Get(h.pskModes, [])))
    + Optional(h.serverName.Some?, ServerName(Get(h.serverName, [])))
    + Optional(h.alpn.Some?, Alpn(Get(h.alpn, [])))
    + OtherFields(h.other)
    + Optional(h.earlyData, Early)
    + Optional(h.psks.Some?, Psks(Get(h.psks, OfferedPsks([], []))))
  }

  function HelloFront(h: ClientHello): seq<byte> {
    BigEndian(TLS_VERSION_1_2, 2) + h.random + Block(1, h.sessionId) + Block(2, Uints(2, h.suites))
    + Block(1, Uints(1, h.compressions))
  }

  function HelloBody(h: ClientHello): seq<byte>
    requires Complete(h)
  {
    HelloFront(h) + Block(2, EncodeFields(Fields(h)))
  }

  function EncodeHello(h: ClientHello): seq<byte>
    requires Complete(h)
  {
    BigEndian(CLIENT_HELLO, 1) + Block(3, HelloBody(h))
  }

  // ---- Reading ----

  function PullServerName(s: seq<byte>): Option<(seq<byte>, seq<byte>)> {
    match PullUint(2, s)
    case None => None
    case Some((length, s1)) =>
      match PullUint(1, s1)
      case None => None
      case Some((kind, s2)) =>
        if kind != 0 then None
        else
          match PullOpaque(2, s2)
          case None => None
          case Some((name, rest)) => if Ascii(name) && |s1| - |rest| == length then Some((name, rest)) else None
  }

  function PullPsks(s: seq<byte>): Option<(OfferedPsks, seq<byte>)> {
    match PullList(IDENTITY_ITEM, 2, s)
    case None => None
    case Some((identities, s1)) =>
      match PullList(OpaqueItem(1), 2, s1)
      case None => None
      case Some((binders, rest)) => Some((OfferedPsks(identities, binders), rest))
  }

  function Wrap<T>(r: Option<(T, seq<byte>)>, field: T -> Field): Option<(Field, seq<byte>)> {
    match r
    case None => None
    case Some((v, rest)) => Some((field(v), rest))
  }

  /** The body of an extension; the length that precedes it only matters for unknown kinds. */
  function PullField(kind: nat, length: nat, s: seq<byte>): Option<(Field, seq<byte>)> {
    if kind == KEY_SHARE then Wrap(PullList(KEY_SHARE_ITEM, 2, s), (v: seq<KeyShare>) => KeyShares(v))
    else if kind == SUPPORTED_VERSIONS then Wrap(PullList(UintItem(2), 1, s), (v: seq<nat>) => Versions(v))
    else if kind == SIGNATURE_ALGORITHMS then Wrap(PullList(UintItem(2), 2, s), (v: seq<nat>) => Algorithms(v))
    else if kind == SUPPORTED_GROUPS then Wrap(PullList(UintItem(2), 2, s), (v: seq<nat>) => Groups(v))
    else if kind == PSK_KEY_EXCHANGE_MODES then Wrap(PullList(UintItem(1), 1, s), (v: seq<nat>) => Modes(v))
    else if kind == SERVER_NAME then Wrap(PullServerName(s), (v: seq<byte>) => ServerName(v))
    else if kind == ALPN then Wrap(PullList(ALPN_ITEM, 2, s), (v: seq<seq<byte>>) => Alpn(v))
    else if kind == EARLY_DATA then Some((Early, s))
    else if kind == PRE_SHARED_KEY then Wrap(PullPsks(s), (v: OfferedPsks) => Psks(v))
    else if |s| < length then None
    else Some((Other(Extension(kind, s[..length])), s[length..]))
  }

  function SetField(h: ClientHello, f: Field): ClientHello {
    match f
    case KeyShares(shares) => h.(keyShares := Some(shares))
    case Versions(versions) => h.(versions := Some(versions))
    case Algorithms(algorithms) => h.(algorithms := Some(algorithms))
    case Groups(groups) => h.(groups := Some(groups))
    case Modes(modes) => h.(pskModes := Some(modes))
    case ServerName(name) => h.(serverName := Some(name))
    case Alpn(protocols) => h.(alpn := Some(protocols))
    case Other(extension) => h.(other := h.other + [extension])
    case Early => h.(earlyData := true)
    case Psks(psks) => h.(psks := Some(psks))
  }

  /** The list of extensions; nothing may follow the PSKs. */
  function PullFields(h: ClientHello, afterPsks: bool, length: int, s: seq<byte>): Option<(ClientHello, seq<byte>)>
    decreases |s|
  {
    if length == 0 then Some((h, s))
    else if length < 0 || afterPsks || |s| < 4 then None
    else
      var kind, size := FromBigEndian(s[..2]), FromBigEndian(s[2..4]);
      match PullField(kind, size, s[4..])
      case None => None
      case Some((f, rest)) =>
        if |rest| >= |s| then None else PullFields(SetField(h, f), f.Psks?, length - (|s| - |rest|), rest)
  }

  /** The fields before the extensions. */
  function PullFront(s: seq<byte>): Option<(ClientHello, seq<byte>)> {
    if |s| < 34 || FromBigEndian(s[..2]) != TLS_VERSION_1_2 then None
    else
      match PullOpaque(1, s[34..])
      case None => None
      case Some((sessionId, s1)) =>
        match PullList(UintItem(2), 2, s1)
        case None => None
        case Some((suites, s2)) =>
          match PullList(UintItem(1), 1, s2)
          case None => None
          case Some((compressions, rest)) =>
            Some((ClientHello(s[2..34], sessionId, suites, compressions,
                              None, false, None, None, None, None, None, None, None, []), rest))
  }

  function PullHello(s: seq<byte>): Option<(ClientHello, seq<byte>)> {
    if |s| < 4 || FromBigEndian(s[..1]) != CLIENT_HELLO then None
    else
      var length := FromBigEndian(s[1..4]);
      match PullFront(s[4..])
      case None => None
      case Some((front, s1)) =>
        match PullUint(2, s1)
        case None => None
        case Some((size, s2)) =>
          match PullFields(front, false, size, s2)
          case None => None
          case Some((h, rest)) => if |s| - 4 - |rest| == length then Some((h, rest)) else None
  }

  // ---- Reading undoes writing ----

  predicate FitsUints(capacity: nat, width: nat, values: seq<nat>) {
    (forall v | v in values :: v < Pow256(width)) && FitsBlock(capacity, Uints(width, values))
  }

  predicate FitsPsks(p: OfferedPsks) {
    && (forall i | i in p.identities :: FitsIdentity(i)) && FitsBlock(2, EncodeItems(ENCODE_IDENTITY, p.identities))
    && (forall b | b in p.binders :: FitsBlock(1, b)) && FitsBlock(2, EncodeItems(EncodeOpaque(1), p.binders))
  }

  /** The values are in range, and every length fits where it is written. */
  predicate FitsField(f: Field) {
    && FitsBlock(2, FieldExtension(f).data)
    && match f {
         case KeyShares(shares) =>
           (forall k | k in shares :: FitsKeyShare(k)) && FitsBlock(2, EncodeItems(ENCODE_KEY_SHARE, shares))
         case Versions(versions) => FitsUints(1, 2, versions)
         case Algorithms(algorithms) => FitsUints(2, 2, algorithms)
         case Groups(groups) => FitsUints(2, 2, groups)
         case Modes(modes) => FitsUints(1, 1, modes)
         case ServerName(name) => Ascii(name) && FitsBlock(2, name) && FitsBlock(2, [0] + Block(2, name))
         case Alpn(protocols) =>
           (forall p | p in protocols :: Ascii(p) && FitsBlock(1, p))
           && FitsBlock(2, EncodeItems(EncodeOpaque(1), protocols))
         case Other(extension) => extension.kind < Pow256(2) && extension.kind !in KNOWN
         case Early => true
         case Psks(psks) => FitsPsks(psks)
       }
  }

  predicate Fits(h: ClientHello) {
    && Complete(h) && |h.random| == 32 && FitsBlock(1, h.sessionId)
    && FitsUints(2, 2, h.suites) && FitsUints(1, 1, h.compressions)
    && (forall f | f in Fields(h) :: FitsField(f))
    && FitsBlock(2, EncodeFields(Fields(h))) && FitsBlock(3, HelloBody(h))
  }

  lemma UintsReadBack(capacity: nat, width: nat, values: seq<nat>, tail: seq<byte>)
    requires 0 < width && FitsUints(capacity, width, values)
    ensures PullList(UintItem(width), capacity, Block(capacity, Uints(width, values)) + tail) == Some((values, tail))
  {
    forall v | v in values
      ensures Inverts(UintItem(width), EncodeUint(width), v)
    {
      UintInverts(width, v);
    }
    ListReadsBack(UintItem(width), EncodeUint(width), capacity, values, tail);
  }

  lemma ServerNameReadsBack(name: seq<byte>, tail: seq<byte>)
    requires FitsField(ServerName(name))
    ensures PullServerName(FieldExtension(ServerName(name)).data + tail) == Some((name, tail))
  {
    hide BigEndian, FromBigEndian, PullUint, PullOpaque;
    var body := [0] + Block(2, name);
    assert Block(2, body) + tail == BigEndian(|body|, 2) + (body + tail);
    UintReadsBack(|body|, 2, body + tail);
    assert BigEndian(0, 1) == [0] by { ZeroByte(); }
    assert body + tail == BigEndian(0, 1) + (Block(2, name) + tail);
    assert 0 < Pow256(1);
    UintReadsBack(0, 1, Block(2, name) + tail);
    OpaqueReadsBack(2, name, tail);
  }

  lemma ZeroByte()
    ensures BigEndian(0, 1) == [0]
  {
    assert BigEndian(0, 0) == [];
  }

  lemma PsksReadBack(p: OfferedPsks, tail: seq<byte>)
    requires FitsPsks(p)
    ensures PullPsks(PskBytes(p) + tail) == Some((p, tail))
  {
    hide BigEndian, FromBigEndian, PullList, Inverts, Block, EncodeItems;
    forall i | i in p.identities
      ensures Inverts(IDENTITY_ITEM, ENCODE_IDENTITY, i)
    {
      IdentityInverts(i);
    }
    forall b | b in p.binders
      ensures Inverts(OpaqueItem(1), EncodeOpaque(1), b)
    {
      OpaqueInverts(1, b);
    }
    var second := Block(2, EncodeItems(EncodeOpaque(1), p.binders));
    ListReadsBack(IDENTITY_ITEM, ENCODE_IDENTITY, 2, p.identities, second + tail);
    ListReadsBack(OpaqueItem(1), EncodeOpaque(1), 2, p.binders, tail);
    assert PskBytes(p) + tail == Block(2, EncodeItems(ENCODE_IDENTITY, p.identities)) + (second + tail);
  }

  /** Each extension body reads back as the field it was written from. */
  lemma FieldReadsBack(f: Field, tail: seq<byte>)
    requires FitsField(f)
    ensures var e := FieldExtension(f); PullField(e.kind, |e.data|, e.data + tail) == Some((f, tail))
  {
    hide BigEndian, PullList, Inverts, Block, EncodeItems, PullServerName, PskBytes, PullPsks;
    match f
    case KeyShares(shares) =>
      forall k | k in shares
        ensures Inverts(KEY_SHARE_ITEM, ENCODE_KEY_SHARE, k)
      {
        KeyShareInverts(k);
      }
      ListReadsBack(KEY_SHARE_ITEM, ENCODE_KEY_SHARE, 2, shares, tail);
    case Versions(versions) => UintsReadBack(1, 2, versions, tail);
    case Algorithms(algorithms) => UintsReadBack(2, 2, algorithms, tail);
    case Groups(groups) => UintsReadBack(2, 2, groups, tail);
    case Modes(modes) => UintsReadBack(1, 1, modes, tail);
    case ServerName(name) => ServerNameReadsBack(name, tail);
    case Alpn(protocols) =>
      forall p | p in protocols
        ensures Inverts(ALPN_ITEM, EncodeOpaque(1), p)
      {
        AlpnInverts(p);
      }
      ListReadsBack(ALPN_ITEM, EncodeOpaque(1), 2, protocols, tail);
    case Other(e) => assert (e.data + tail)[..|e.data|] == e.data && (e.data + tail)[|e.data|..] == tail;
    case Early => assert [] + tail == tail;
    case Psks(psks) => PsksReadBack(psks, tail);
  }

  function SetAll(h: ClientHello, fields: seq<Field>): ClientHello
    decreases |fields|
  {
    if fields == [] then h else SetAll(SetField(h, fields[0]), fields[1..])
  }

  lemma {:induction false} SetAllAppend(h: ClientHello, a: seq<Field>, b: seq<Field>)
    ensures SetAll(h, a + b) == SetAll(SetAll(h, a), b)
    decreases |a|
  {
    if a == [] {
      assert a + b == b;
    } else {
      assert (a + b)[1..] == a[1..] + b;
      SetAllAppend(SetField(h, a[0]), a[1..], b);
    }
  }

  /** The PSKs are written last. */
  predicate PsksLast(fields: seq<Field>) { forall i :: 0 <= i < |fields| - 1 ==> !fields[i].Psks? }

  lemma ExtensionReadsBack(h: ClientHello, f: Field, more: seq<byte>, length: nat)
    requires FitsField(f) && FieldExtension(f).kind < Pow256(2)
    ensures var e := EncodeExtension(FieldExtension(f));
            |e| > 0 && PullFields(h, false, |e| + length, e + more) == PullFields(SetField(h, f), f.Psks?, length, more)
  {
    hide FitsField, FieldExtension, PullField;
    var e := FieldExtension(f);
    var s := EncodeExtension(e) + more;
    FieldReadsBack(f, more);
    ReadsBack(e.kind, 2, Block(2, e.data) + more);
    assert FitsBlock(2, e.data) by { FieldFitsBlock(f); }
    ReadsBack(|e.data|, 2, e.data + more);
    hide BigEndian, FromBigEndian;
    assert s == BigEndian(e.kind, 2) + (BigEndian(|e.data|, 2) + (e.data + more));
    assert s[..2] == BigEndian(e.kind, 2) && s[2..4] == BigEndian(|e.data|, 2) && s[4..] == e.data + more;
  }

  lemma FieldFitsBlock(f: Field)
    requires FitsField(f)
    ensures FitsBlock(2, FieldExtension(f).data)
  {
  }

  lemma KindFits(f: Field)
    requires FitsField(f)
    ensures FieldExtension(f).kind < Pow256(2)
  {
    hide Block, EncodeItems, Uints, PskBytes;
    assert Pow256(2) == 0x1_0000 by { Powers(); }
  }

  lemma {:induction false} FieldsReadBack(h: ClientHello, fields: seq<Field>, tail: seq<byte>)
    requires PsksLast(fields) && forall f | f in fields :: FitsField(f)
    ensures var body := EncodeFields(fields);
            PullFields(h, false, |body|, body + tail) == Some((SetAll(h, fields), tail))
    decreases |fields|
  {
    hide FitsField, FieldExtension, EncodeExtension;
    if fields == [] {
      assert [] + tail == tail;
    } else {
      var f, rest := fields[0], EncodeFields(fields[1..]);
      KindFits(f);
      ExtensionReadsBack(h, f, rest + tail, |rest|);
      assert EncodeFields(fields) + tail == EncodeExtension(FieldExtension(f)) + (rest + tail);
      if f.Psks? {
        assert fields[1..] == [];
        assert rest + tail == tail;
      } else {
        FieldsReadBack(SetField(h, f), fields[1..], tail);
      }
    }
  }

  /** A hello without its extensions. */
  function Bare(h: ClientHello): ClientHello {
    ClientHello(h.random, h.sessionId, h.suites, h.compressions, None, false, None, None, None, None, None, None, None, [])
  }

  lemma {:induction false} SetOthers(h: ClientHello, extensions: seq<Extension>)
    ensures SetAll(h, OtherFields(extensions)) == h.(other := h.other + extensions)
    decreases |extensions|
  {
    if extensions == [] {
      assert h.other + [] == h.other;
    } else {
      var e, rest := extensions[0], extensions[1..];
      SetOthers(SetField(h, Other(e)), rest);
      assert ([Other(e)] + OtherFields(rest))[1..] == OtherFields(rest);
      assert h.other + [e] + rest == h.other + extensions;
    }
  }

  lemma SetOne(h: ClientHello, f: Field)
    ensures SetAll(h, [f]) == SetField(h, f) && SetAll(h, []) == h
  {
    assert [f][1..] == [];
  }

  lemma SetFour(h: ClientHello, a: Field, b: Field, c: Field, d: Field)
    ensures SetAll(h, [a, b, c, d]) == SetField(SetField(SetField(SetField(h, a), b), c), d)
  {
    hide SetAll, SetField;
    assert [a, b, c, d] == [a] + [b] + [c] + [d];
    SetAllAppend(h, [a] + [b] + [c], [d]);
    SetAllAppend(h, [a] + [b], [c]);
    SetAllAppend(h, [a], [b]);
    SetOne(h, a);
    SetOne(SetField(h, a), b);
    SetOne(SetField(SetField(h, a), b), c);
    SetOne(SetField(SetField(SetField(h, a), b), c), d);
  }

  lemma SetOptional(h: ClientHello, present: bool, f: Field)
    ensures SetAll(h, Optional(present, f)) == if present then SetField(h, f) else h
  {
    SetOne(h, f);
  }

  lemma SetSeven(h: ClientHello, a: seq<Field>, b: seq<Field>, c: seq<Field>, d: seq<Field>, e: seq<Field>, f: seq<Field>,
                 g: seq<Field>)
    ensures SetAll(h, a + b + c + d + e + f + g) ==
            SetAll(SetAll(SetAll(SetAll(SetAll(SetAll(SetAll(h, a), b), c), d), e), f), g)
  {
    hide SetAll;
    SetAllAppend(h, a + b + c + d + e + f, g);
    SetAllAppend(h, a + b + c + d + e, f);
    SetAllAppend(h, a + b + c + d, e);
    SetAllAppend(h, a + b + c, d);
    SetAllAppend(h, a + b, c);
    SetAllAppend(h, a, b);
  }

  /** Setting every field written restores the hello. */
  lemma FieldsRestore(h: ClientHello)
    requires Complete(h)
    ensures SetAll(Bare(h), Fields(h)) == h
  {
    hide SetAll, Optional;
    var a := [KeyShares(h.keyShares.value), Versions(h.versions.value), Algorithms(h.algorithms.value), Groups(h.groups.value)];
    var b := Modes(Get(h.pskModes, []));
    var c := ServerName(Get(h.serverName, []));
    var d := Alpn(Get(h.alpn, []));
    var g := Psks(Get(h.psks, OfferedPsks([], [])));
    SetSeven(Bare(h), a, Optional(h.pskModes.Some?, b), Optional(h.serverName.Some?, c), Optional(h.alpn.Some?, d),
             OtherFields(h.other), Optional(h.earlyData, Early), Optional(h.psks.Some?, g));
    SetFour(Bare(h), a[0], a[1], a[2], a[3]);
    var h1 := SetField(SetField(SetField(SetField(Bare(h), a[0]), a[1]), a[2]), a[3]);
    SetOptional(h1, h.pskModes.Some?, b);
    var h2 := h1.(pskModes := h.pskModes);
    SetOptional(h2, h.serverName.Some?, c);
    var h3 := h2.(serverName := h.serverName);
    SetOptional(h3, h.alpn.Some?, d);
    var h4 := h3.(alpn := h.alpn);
    SetOthers(h4, h.other);
    assert [] + h.other == h.other;
    var h5 := h4.(other := h.other);
    SetOptional(h5, h.earlyData, Early);
    SetOptional(h5.(earlyData := h.earlyData), h.psks.Some?, g);
  }

  lemma {:induction false} NoPsksInOthers(extensions: seq<Extension>)
    ensures forall f | f in OtherFields(extensions) :: f.Other?
  {
    if extensions != [] { NoPsksInOthers(extensions[1..]); }
  }

  lemma PsksComeLast(h: ClientHello)
    requires Complete(h)
    ensures PsksLast(Fields(h))
  {
    NoPsksInOthers(h.other);
    var last := Optional(h.psks.Some?, Psks(Get(h.psks, OfferedPsks([], []))));
    var front := [KeyShares(h.keyShares.value), Versions(h.versions.value), Algorithms(h.algorithms.value), Groups(h.groups.value)]
                 + Optional(h.pskModes.Some?, Modes(Get(h.pskModes, [])))
                 + Optional(h.serverName.Some?, ServerName(Get(h.serverName, [])))
                 + Optional(h.alpn.Some?, Alpn(Get(h.alpn, [])))
                 + OtherFields(h.other)
                 + Optional(h.earlyData, Early);
    assert Fields(h) == front + last;
    assert forall f | f in front :: !f.Psks?;
  }

  lemma FrontReadsBack(h: ClientHello, tail: seq<byte>)
    requires |h.random| == 32 && FitsBlock(1, h.sessionId)
    requires FitsUints(2, 2, h.suites) && FitsUints(1, 1, h.compressions)
    ensures PullFront(HelloFront(h) + tail) == Some((Bare(h), tail))
  {
    var version := BigEndian(TLS_VERSION_1_2, 2);
    assert FromBigEndian(version) == TLS_VERSION_1_2 by { Powers(); ReadsBack(TLS_VERSION_1_2, 2, []); }
    hide BigEndian, FromBigEndian, PullList, Block, Uints, FitsUints, PullOpaque, FitsBlock;
    var d := Block(1, Uints(1, h.compressions));
    var c := Block(2, Uints(2, h.suites));
    var b := Block(1, h.sessionId);
    UintsReadBack(1, 1, h.compressions, tail);
    UintsReadBack(2, 2, h.suites, d + tail);
    OpaqueReadsBack(1, h.sessionId, c + (d + tail));
    FrontSplits(version, h.random, b, c, d, tail);
    ThreeParts(version, h.random, b + (c + (d + tail)));
  }

  lemma FrontSplits(v: seq<byte>, r: seq<byte>, b: seq<byte>, c: seq<byte>, d: seq<byte>, tail: seq<byte>)
    ensures v + r + b + c + d + tail == v + (r + (b + (c + (d + tail))))
  {
  }

  lemma ThreeParts(a: seq<byte>, b: seq<byte>, c: seq<byte>)
    ensures var s := a + (b + c);
            s[..|a|] == a && s[|a|..|a| + |b|] == b && s[|a| + |b|..] == c && |s| == |a| + |b| + |c|
  {
  }

  /** pull_client_hello undoes push_client_hello, whatever follows the message. */
  lemma HelloRoundTrip(h: ClientHello, tail: seq<byte>)
    requires Fits(h)
    ensures PullHello(EncodeHello(h) + tail) == Some((h, tail))
  {
    hide FitsField, FitsUints, Fields, PullFront, PullFields, HelloFront, EncodeFields;
    var body, fields := HelloBody(h), EncodeFields(Fields(h));
    var kind, size := BigEndian(CLIENT_HELLO, 1), BigEndian(|body|, 3);
    assert FromBigEndian(kind) == CLIENT_HELLO by { ReadsBack(CLIENT_HELLO, 1, []); }
    assert FromBigEndian(size) == |body| by { ReadsBack(|body|, 3, []); }
    hide BigEndian, FromBigEndian, FitsBlock;
    FrontReadsBack(h, Block(2, fields) + tail);
    UintReadsBack(|fields|, 2, fields + tail);
    PsksComeLast(h);
    FieldsReadBack(Bare(h), Fields(h), tail);
    FieldsRestore(h);
    HelloParts(kind, size, body, tail);
    ThreeParts(kind, size, body + tail);
    HelloParts(HelloFront(h), BigEndian(|fields|, 2), fields, tail);
  }

  lemma HelloParts(a: seq<byte>, b: seq<byte>, c: seq<byte>, d: seq<byte>)
    ensures a + (b + c) + d == a + (b + (c + d)) && b + c + d == b + (c + d)
    ensures |a + (b + c) + d| == |a| + |b| + |c| + |d|
  {
  }

  // ---- The binder of a single PSK (section 4.2.11.2 of RFC 8446) ----

  /** The hello with one binder, as the client sends it. */
  function WithBinder(h: ClientHello, binder: seq<byte>): ClientHello
    requires h.psks.Some?
  {
    h.(psks := Some(h.psks.value.(binders := [binder])))
  }

  /** The fields before the PSKs. */
  function FrontFields(h: ClientHello): seq<Field>
    requires Complete(h)
  {
    Fields(h.(psks := None))
  }

  lemma {:induction false} EncodeFieldsAppend(a: seq<Field>, f: Field)
    ensures EncodeFields(a + [f]) == EncodeFields(a) + EncodeExtension(FieldExtension(f))
  {
    hide FieldExtension, EncodeExtension;
    if a == [] {
      assert [] + [f] == [f] && [f][1..] == [];
      var e := EncodeExtension(FieldExtension(f));
      assert EncodeFields([f]) == e + [] && [] + e == e + [];
    } else {
      assert (a + [f])[1..] == a[1..] + [f];
      EncodeFieldsAppend(a[1..], f);
      HelloParts(EncodeExtension(FieldExtension(a[0])), EncodeFields(a[1..]), EncodeExtension(FieldExtension(f)), []);
    }
  }

  /** The bytes of an extension with n bytes left to come at its end. */
  function PskHead(p: OfferedPsks, n: nat): seq<byte> {
    Block(2, EncodeItems(ENCODE_IDENTITY, p.identities)) + BigEndian(n + 1, 2) + BigEndian(n, 1)
  }

  lemma PskSplits(p: OfferedPsks, b: seq<byte>)
    ensures PskBytes(p.(binders := [b])) == PskHead(p, |b|) + b
  {
    hide BigEndian;
    var items := EncodeItems(EncodeOpaque(1), [b]);
    assert [b][1..] == [] && EncodeItems(EncodeOpaque(1), []) == [];
    assert items == EncodeOpaque(1)(b) + [];
    assert items == Block(1, b);
    assert Block(2, items) == BigEndian(|b| + 1, 2) + (BigEndian(|b|, 1) + b);
  }

  /** Everything a hello with an n-byte binder has before that binder. */
  function HelloHead(h: ClientHello, n: nat): seq<byte>
    requires Complete(h) && h.psks.Some?
  {
    var psk := PskHead(h.psks.value, n);
    var fields := EncodeFields(FrontFields(h)) + (BigEndian(PRE_SHARED_KEY, 2) + BigEndian(|psk| + n, 2) + psk);
    var body := HelloFront(h) + BigEndian(|fields| + n, 2) + fields;
    BigEndian(CLIENT_HELLO, 1) + BigEndian(|body| + n, 3) + body
  }

  lemma HelloSplits(h: ClientHello, b: seq<byte>)
    requires Complete(h) && h.psks.Some?
    ensures EncodeHello(WithBinder(h, b)) == HelloHead(h, |b|) + b
  {
    hide BigEndian, EncodeFields, HelloFront, PskHead, PskBytes;
    var hb := WithBinder(h, b);
    var f := Psks(hb.psks.value);
    var psk := PskHead(h.psks.value, |b|);
    PskSplits(h.psks.value, b);
    assert Fields(hb) == FrontFields(h) + [f];
    hide Fields;
    EncodeFieldsAppend(FrontFields(h), f);
    var front := EncodeFields(FrontFields(h));
    var start := BigEndian(PRE_SHARED_KEY, 2) + BigEndian(|psk| + |b|, 2) + psk;
    assert EncodeExtension(FieldExtension(f)) == start + b by {
      HelloParts(BigEndian(PRE_SHARED_KEY, 2), BigEndian(|psk| + |b|, 2), psk + b, []);
      Associate(BigEndian(PRE_SHARED_KEY, 2), BigEndian(|psk| + |b|, 2), psk, b);
    }
    var fields := front + start;
    assert EncodeFields(Fields(hb)) == fields + b by { Associate([], front, start, b); EmptyFront(fields, b); }
    assert HelloFront(hb) == HelloFront(h) by { FrontIgnoresPsks(h, hb); }
    var body := HelloFront(h) + BigEndian(|fields| + |b|, 2) + fields;
    assert HelloBody(hb) == body + b by { Associate(HelloFront(h), BigEndian(|fields| + |b|, 2), fields, b); }
    Associate(BigEndian(CLIENT_HELLO, 1), BigEndian(|body| + |b|, 3), body, b);
  }

  lemma FrontIgnoresPsks(h: ClientHello, other: ClientHello)
    requires h == other.(psks := h.psks)
    ensures HelloFront(h) == HelloFront(other)
  {
  }

  lemma EmptyFront(a: seq<byte>, b: seq<byte>)
    ensures [] + a + b == a + b && [] + a == a
  {
  }

  lemma Associate(a: seq<byte>, b: seq<byte>, c: seq<byte>, d: seq<byte>)
    ensures a + b + c + d == a + (b + (c + d)) && (a + b + c) + d == a + b + (c + d) == a + (b + c + d)
  {
  }

  /**
   Replacing the binder by another of the same length changes only the last bytes of the message. So the client,
   which hashes the hello with a zero binder up to three bytes before that binder, then those three, then the real
   binder, has hashed exactly the message it sends; and the server finds the binder at the end.
   */
  lemma BinderTranscript(h: ClientHello, zeros: seq<byte>, binder: seq<byte>)
    requires Complete(h) && h.psks.Some? && |zeros| == |binder|
    ensures var draft, sent := EncodeHello(WithBinder(h, zeros)), EncodeHello(WithBinder(h, binder));
            var offset := |draft| - |binder| - 3;
            && |draft| == |sent| && offset >= 0
            && draft[..offset] == sent[..offset]
            && draft[..offset] + (draft[offset..offset + 3] + binder) == sent
            && sent[offset + 3..offset + 3 + |binder|] == binder
  {
    hide EncodeHello, HelloHead;
    HelloSplits(h, zeros);
    HelloSplits(h, binder);
    HeadLength(h, |binder|);
    SameHead(HelloHead(h, |binder|), zeros, binder);
  }

  lemma HeadLength(h: ClientHello, n: nat)
    requires Complete(h) && h.psks.Some?
    ensures |HelloHead(h, n)| >= 4
  {
    hide EncodeFields, HelloFront, PskHead, Fields;
  }

  lemma SameHead(head: seq<byte>, zeros: seq<byte>, binder: seq<byte>)
    requires |zeros| == |binder| && |head| >= 3
    ensures var draft, sent, offset := head + zeros, head + binder, |head| - 3;
            && draft[..offset] == sent[..offset]
            && draft[..offset] + (draft[offset..offset + 3] + binder) == sent
            && sent[offset + 3..offset + 3 + |binder|] == binder
  {
  }
}
