/** The TLS 1.3 key schedule with HKDF, HMAC, Diffie-Hellman and signatures as free symbols (tls.py). */
module TlsSchedule {
  import opened Common

  type Suite = nat
  type Group = nat
  type Key = nat

  /** The hash functions of the cipher suites (SHA-384 for AES-256, SHA-256 for the others). */
  datatype Hash = Sha256 | Sha384

  function HashFor(suite: Suite): Hash { if suite == 0x1302 then Sha384 else Sha256 }

  /** What a name is bound to: nothing, the hash of a transcript, or a ticket nonce. */
  datatype Binding = Unbound | HashOf(transcript: seq<Part>) | TicketNonce

  datatype Term =
    | ZeroKey(hash: Hash)
    | Resumption(id: nat)
    | DiffieHellman(group: Group, keys: multiset<Key>)
    | Extract(hash: Hash, salt: Term, material: Term)
    | ExpandLabel(hash: Hash, secret: Term, name: string, binding: Binding)
    | Hmac(hash: Hash, key: Term, transcript: seq<Part>)
    | Signature(signer: Key, algorithm: nat, role: string, hash: Hash, transcript: seq<Part>)

  /** A public key stands for its private key; GREASE shares carry no usable key. */
  datatype Share = Share(group: Group, key: Key)

  /** Everything in a ClientHello but the PSK binder. */
  datatype Offer = Offer(
    suites: seq<Suite>,
    shares: seq<Share>,
    signatureAlgorithms: seq<nat>,
    alpn: Option<seq<nat>>,
    pskModes: Option<seq<nat>>,
    ticket: Option<nat>,
    earlyData: bool)

  datatype Message =
    | ClientHello(offer: Offer, binder: Option<Term>)
    | ServerHello(suite: Suite, share: Share, psk: bool)
    | EncryptedExtensions(alpnChosen: Option<nat>, earlyAccepted: bool)
    | CertificateRequest(algorithms: seq<nat>)
    | Certificate(chain: seq<Key>)
    | CertificateVerify(algorithm: nat, signature: Term)
    | Finished(verifyData: Term)
    | NewSessionTicket(ticketId: nat)

  /** Pieces of the transcript: the hash runs over their bytes. A binder is hashed apart from what precedes it. */
  datatype Part = Whole(message: Message) | Head(offer: Offer) | Tail(binder: Term)

  function Parts(m: Message): seq<Part> {
    if m.ClientHello? && m.binder.Some? then [Head(m.offer), Tail(m.binder.value)] else [Whole(m)]
  }

  datatype Schedule = Schedule(suite: Suite, generation: nat, secret: Term, transcript: seq<Part>) {
    function Derive(name: string): Term {
      ExpandLabel(HashFor(suite), secret, name, HashOf(transcript))
    }

    function FinishedData(base: Term): Term {
      Hmac(HashFor(suite), ExpandLabel(HashFor(suite), base, "finished", Unbound), transcript)
    }

    function Extracted(material: Option<Term>): Schedule {
      var hash := HashFor(suite);
      var salt := if generation > 0 then ExpandLabel(hash, secret, "derived", HashOf([])) else secret;
      this.(secret := Extract(hash, salt, if material.Some? then material.value else ZeroKey(hash)), generation := generation + 1)
    }

    function Updated(parts: seq<Part>): Schedule {
      this.(transcript := transcript + parts)
    }
  }

  function NewSchedule(suite: Suite): Schedule {
    Schedule(suite, 0, ZeroKey(HashFor(suite)), [])
  }

  // ---- What a secret is bound to ----

  /** What goes into a schedule: key material, in order, and the messages hashed. */
  datatype Input = Keyed(key: Option<Term>) | Told(parts: seq<Part>)

  function Fed(s: Schedule, inputs: seq<Input>): Schedule {
    if inputs == [] then s
    else
      var before := Fed(s, inputs[..|inputs| - 1]);
      match inputs[|inputs| - 1]
      case Keyed(key) => before.Extracted(key)
      case Told(parts) => before.Updated(parts)
  }

  function Materials(hash: Hash, inputs: seq<Input>): seq<Term> {
    if inputs == [] then []
    else
      Materials(hash, inputs[..|inputs| - 1])
      + match inputs[|inputs| - 1]
        case Keyed(key) => [if key.Some? then key.value else ZeroKey(hash)]
        case Told(_) => []
  }

  function Transcript(inputs: seq<Input>): seq<Part> {
    if inputs == [] then []
    else Transcript(inputs[..|inputs| - 1]) + if inputs[|inputs| - 1].Told? then inputs[|inputs| - 1].parts else []
  }

  /** The secret after extracting these keys. */
  function Chain(hash: Hash, keys: seq<Term>): Term {
    if keys == [] then ZeroKey(hash)
    else
      var before := Chain(hash, keys[..|keys| - 1]);
      Extract(hash, if |keys| > 1 then ExpandLabel(hash, before, "derived", HashOf([])) else before, keys[|keys| - 1])
  }

  lemma {:induction false} FedIs(suite: Suite, inputs: seq<Input>)
    ensures var keys := Materials(HashFor(suite), inputs);
            Fed(NewSchedule(suite), inputs) == Schedule(suite, |keys|, Chain(HashFor(suite), keys), Transcript(inputs))
  {
    if inputs != [] {
      var before := inputs[..|inputs| - 1];
      FedIs(suite, before);
      var keys := Materials(HashFor(suite), before);
      if inputs[|inputs| - 1].Keyed? {
        assert Materials(HashFor(suite), inputs)[..|keys|] == keys;
        assert Transcript(before) + [] == Transcript(before);
      } else {
        assert keys + [] == keys;
      }
    }
  }

  lemma {:induction false} ChainInjective(h: Hash, g: Hash, a: seq<Term>, b: seq<Term>)
    ensures Chain(h, a) == Chain(g, b) <==> h == g && a == b
  {
    if a != [] && b != [] {
      ChainInjective(h, g, a[..|a| - 1], b[..|b| - 1]);
      assert a == a[..|a| - 1] + [a[|a| - 1]] && b == b[..|b| - 1] + [b[|b| - 1]];
    }
  }

  /**
   Two schedules derive the same secret if and only if they use the same hash function and label, and were fed the same
   keys in the same order and the same messages; only how keys and messages were interleaved does not matter.
   */
  lemma SecretsBindHistory(a: Suite, b: Suite, xs: seq<Input>, ys: seq<Input>, name: string, other: string)
    ensures Fed(NewSchedule(a), xs).Derive(name) == Fed(NewSchedule(b), ys).Derive(other) <==>
            && HashFor(a) == HashFor(b) && name == other
            && Materials(HashFor(a), xs) == Materials(HashFor(b), ys) && Transcript(xs) == Transcript(ys)
  {
    FedIs(a, xs);
    FedIs(b, ys);
    ChainInjective(HashFor(a), HashFor(b), Materials(HashFor(a), xs), Materials(HashFor(b), ys));
    hide Fed, Chain, Materials, Transcript;
  }

  /** Verify data are the same if and only if the hash function, the base secret and the messages are. */
  lemma FinishedBindsHistory(a: Suite, b: Suite, xs: seq<Input>, ys: seq<Input>, base: Term, other: Term)
    ensures Fed(NewSchedule(a), xs).FinishedData(base) == Fed(NewSchedule(b), ys).FinishedData(other) <==>
            HashFor(a) == HashFor(b) && base == other && Transcript(xs) == Transcript(ys)
  {
    FedIs(a, xs);
    FedIs(b, ys);
    hide Fed, Chain, Materials, Transcript;
  }

  class KeySchedule {
    const suite: Suite
    var generation: nat
    var secret: Term
    var transcript: seq<Part>

    ghost function State(): Schedule reads this { Schedule(suite, generation, secret, transcript) }

    constructor (suite: Suite)
      ensures State() == NewSchedule(suite)
    {
      this.suite := suite;
      generation, secret, transcript := 0, ZeroKey(HashFor(suite)), [];
    }

    /** A schedule continuing from a given state, as select takes one out of the proxy. */
    constructor From(state: Schedule)
      ensures State() == state
    {
      suite := state.suite;
      generation, secret, transcript := state.generation, state.secret, state.transcript;
    }

    method DeriveSecret(name: string) returns (r: Term)
      ensures r == State().Derive(name)
    {
      r := ExpandLabel(HashFor(suite), secret, name, HashOf(transcript));
    }

    method FinishedVerifyData(base: Term) returns (r: Term)
      ensures r == State().FinishedData(base)
    {
      var key := ExpandLabel(HashFor(suite), base, "finished", Unbound);
      r := Hmac(HashFor(suite), key, transcript);
    }

    method ExtractKey(material: Option<Term>)
      modifies this
      ensures State() == old(State()).Extracted(material)
    {
      var input := if material.Some? then material.value else ZeroKey(HashFor(suite));
      if generation > 0 {
        secret := ExpandLabel(HashFor(suite), secret, "derived", HashOf([]));
      }
      generation := generation + 1;
      secret := Extract(HashFor(suite), secret, input);
    }

    method UpdateHash(parts: seq<Part>)
      modifies this
      ensures State() == old(State()).Updated(parts)
    {
      transcript := transcript + parts;
    }
  }
}
