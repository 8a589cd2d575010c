/**
 What a TLS endpoint has hashed, derived and checked, whatever messages it was given (tls.py). The peer may send
 anything here; secrets are written out as the terms of section 7.1 of RFC 8446.
 */
module TlsHistory {
  import opened Common
  import opened TlsSchedule
  import opened TlsSpec
  import opened TlsRuns

  // ---- The key schedule, written out ----

  /** What a ClientHello puts into the transcript. */
  function HelloHashed(hello: Message): seq<Part>
    requires hello.ClientHello?
  {
    if hello.binder.Some? then [Head(hello.offer), Tail(hello.binder.value)] else [Whole(hello)]
  }

  function Wholes(ms: seq<Message>): (parts: seq<Part>)
    ensures |parts| == |ms| && forall i | 0 <= i < |ms| :: parts[i] == Whole(ms[i])
  {
    seq(|ms|, i requires 0 <= i < |ms| => Whole(ms[i]))
  }

  function EarlySecret(h: Hash, psk: Option<Term>): Term {
    Extract(h, ZeroKey(h), if psk.Some? then psk.value else ZeroKey(h))
  }

  function HandshakeSecret(h: Hash, psk: Option<Term>, shared: Term): Term {
    Extract(h, ExpandLabel(h, EarlySecret(h, psk), "derived", HashOf([])), shared)
  }

  function MasterSecret(h: Hash, psk: Option<Term>, shared: Term): Term {
    Extract(h, ExpandLabel(h, HandshakeSecret(h, psk, shared), "derived", HashOf([])), ZeroKey(h))
  }

  function VerifyData(h: Hash, base: Term, transcript: seq<Part>): Term {
    Hmac(h, ExpandLabel(h, base, "finished", Unbound), transcript)
  }

  function ResumptionSecret(h: Hash, master: Term, transcript: seq<Part>): Term {
    ExpandLabel(h, ExpandLabel(h, master, "res master", HashOf(transcript)), "resumption", TicketNonce)
  }

  /** The binder covers the hello up to itself, and early data the whole hello. */
  lemma HelloTerms(cc: ClientConfig)
    requires WellFormed(cc) && HelloOf(cc).binder.Some?
    ensures var hello, ticket := HelloOf(cc), cc.ticket.value;
            var h, early := HashFor(ticket.suite), EarlySecret(HashFor(ticket.suite), Some(ticket.secret));
            && hello.binder.value == VerifyData(h, ExpandLabel(h, early, "res binder", HashOf([])), [Head(hello.offer)])
            && (hello.offer.shares != [] && hello.offer.earlyData ==>
                  ClientStart(cc).0.installed ==
                  [TrafficKey(Encrypt, ZeroRtt, ticket.suite, ExpandLabel(h, early, "c e traffic", HashOf(HelloHashed(hello))))])
  {
    assert [] + [Head(HelloOf(cc).offer)] == [Head(HelloOf(cc).offer)];
    assert [Head(HelloOf(cc).offer)] + [Tail(HelloOf(cc).binder.value)] == HelloHashed(HelloOf(cc));
  }

  // ---- The client ----

  /** What the ServerHello settles for a client: its hash function, the key it resumes from and the shared key. */
  function HashOfHello(hello: Message): Hash
    requires hello.ServerHello?
  {
    HashFor(hello.suite)
  }

  function PskOf(cc: ClientConfig, hello: Message): Option<Term>
    requires hello.ServerHello?
  {
    if hello.psk && cc.ticket.Some? then Some(cc.ticket.value.secret) else None
  }

  function SharedOf(cc: ClientConfig, hello: Message): Term
    requires WellFormed(cc) && hello.ServerHello?
  {
    var own := PrivateKey(cc.groups, cc.keys, hello.share.group);
    DiffieHellman(hello.share.group, multiset{if own.Some? then own.value else 0, hello.share.key})
  }

  /** The client's transcript after its hello and these messages. */
  function Heard(cc: ClientConfig, ms: seq<Message>): seq<Part>
    requires WellFormed(cc)
  {
    HelloHashed(HelloOf(cc)) + Wholes(ms)
  }

  /** A handshake secret of the client: it covers the hello and the ServerHello and nothing else. */
  function HandshakeTraffic(cc: ClientConfig, ms: seq<Message>, name: string): Term
    requires WellFormed(cc) && ms != [] && ms[0].ServerHello?
  {
    var h := HashOfHello(ms[0]);
    ExpandLabel(h, HandshakeSecret(h, PskOf(cc, ms[0]), SharedOf(cc, ms[0])), name, HashOf(Heard(cc, ms[..1])))
  }

  /** An application secret of the client: it covers everything through the server's Finished. */
  function ApplicationTraffic(cc: ClientConfig, ms: seq<Message>, name: string): Term
    requires WellFormed(cc) && ms != [] && ms[0].ServerHello?
  {
    var h := HashOfHello(ms[0]);
    ExpandLabel(h, MasterSecret(h, PskOf(cc, ms[0]), SharedOf(cc, ms[0])), name, HashOf(Heard(cc, ms)))
  }

  /** The messages after the first two when the server signs: a request perhaps, then its chain and a signature. */
  predicate Signed(cc: ClientConfig, ms: seq<Message>)
    requires WellFormed(cc) && ms != [] && ms[0].ServerHello?
  {
    var n := |ms|;
    && n in {4, 5} && (n == 5 ==> ms[2].CertificateRequest?)
    && ms[n - 2].Certificate? && ms[n - 2].chain != [] && cc.trusts(ms[n - 2].chain)
    && ms[n - 1].CertificateVerify? && ms[n - 1].algorithm in cc.signatureAlgorithms
    && ms[n - 1].signature == Signature(ms[n - 2].chain[0], ms[n - 1].algorithm, "TLS 1.3, server CertificateVerify",
                                        HashOfHello(ms[0]), Heard(cc, ms[..n - 1]))
  }

  /** What a client knows between the ServerHello and the Finished of the server. */
  predicate Underway(cc: ClientConfig, ms: seq<Message>, c: Endpoint)
    requires WellFormed(cc)
  {
    && ms != [] && ms[0].ServerHello? && ms[0].suite in cc.suites
    && PrivateKey(cc.groups, cc.keys, ms[0].share.group).Some?
    && (ms[0].psk ==> cc.ticket.Some? && HelloOf(cc).binder.Some? && cc.ticket.value.suite == ms[0].suite)
    && c.resumed == ms[0].psk && c.tickets == []
    && c.schedule == Schedule(ms[0].suite, 2,
                              HandshakeSecret(HashOfHello(ms[0]), PskOf(cc, ms[0]), SharedOf(cc, ms[0])), Heard(cc, ms))
    && c.dec == HandshakeTraffic(cc, ms, "s hs traffic")
    && (|ms| > 1 ==>
          && ms[1].EncryptedExtensions? && c.alpn == ms[1].alpnChosen && c.earlyAccepted == ms[1].earlyAccepted
          && c.enc == HandshakeTraffic(cc, ms, "c hs traffic"))
    && c.installed == ClientStart(cc).0.installed + [TrafficKey(Decrypt, Handshake, ms[0].suite, c.dec)]
                      + (if |ms| > 1 then [TrafficKey(Encrypt, Handshake, ms[0].suite, c.enc)] else [])
    && c.request == (if |ms| > 2 && ms[2].CertificateRequest? then Some(ms[2].algorithms) else None)
  }

  /** The state of a client that was given these messages and has not given up. */
  ghost predicate ClientAt(cc: ClientConfig, ms: seq<Message>, c: Endpoint, out: seq<Message>)
    requires WellFormed(cc)
  {
    (c.phase != PostHandshake ==> out == []) &&
    match c.phase
    case ExpectServerHello => ms == [] && c == ClientStart(cc).0
    case ExpectEncryptedExtensions => Underway(cc, ms, c) && |ms| == 1
    case ExpectRequestOrCertificate => Underway(cc, ms, c) && |ms| == 2 && !ms[0].psk
    case ExpectPeerCertificate => Underway(cc, ms, c) && |ms| == 3 && !ms[0].psk && ms[2].CertificateRequest?
    case ExpectPeerVerify =>
      && Underway(cc, ms, c) && |ms| in {3, 4} && !ms[0].psk && (|ms| == 4 ==> ms[2].CertificateRequest?)
      && ms[|ms| - 1].Certificate? && ms[|ms| - 1].chain != [] && c.peerChain == ms[|ms| - 1].chain
    case ExpectPeerFinished => Verified(cc, ms, c)
    case PostHandshake => exists n :: 0 <= n <= |ms| && Finishing(cc, ms[..n], ms[n..], c, out)
    case _ => false
  }

  predicate Verified(cc: ClientConfig, ms: seq<Message>, c: Endpoint)
    requires WellFormed(cc)
  {
    && Underway(cc, ms, c)
    && if ms[0].psk then |ms| == 2 else Signed(cc, ms) && c.peerChain == ms[|ms| - 2].chain
  }

  /** The client's own messages: certificate messages if it was asked for them, and its Finished. */
  function Answer(cc: ClientConfig, ms: seq<Message>): (out: seq<Message>)
    requires WellFormed(cc) && ms != [] && ms[0].ServerHello?
  {
    var h := HashOfHello(ms[0]);
    var certificates :=
      if |ms| <= 2 || !ms[2].CertificateRequest? then []
      else
        var algorithm := if cc.identity.None? then None else Negotiate(cc.identity.value.algorithms, Some(ms[2].algorithms));
        if algorithm.None? then [Certificate([])]
        else
          var certificate := Certificate([cc.identity.value.leaf] + cc.identity.value.above);
          [certificate,
           CertificateVerify(algorithm.value, Signature(cc.identity.value.leaf, algorithm.value,
             "TLS 1.3, client CertificateVerify", h, Heard(cc, ms) + Wholes([certificate])))];
    certificates
    + [Finished(VerifyData(h, HandshakeTraffic(cc, ms, "c hs traffic"), Heard(cc, ms) + Wholes(certificates)))]
  }

  function ClientKeys(cc: ClientConfig, ms: seq<Message>): seq<TrafficKey>
    requires WellFormed(cc) && ms != [] && ms[0].ServerHello?
  {
    [TrafficKey(Decrypt, Handshake, ms[0].suite, HandshakeTraffic(cc, ms, "s hs traffic")),
     TrafficKey(Encrypt, Handshake, ms[0].suite, HandshakeTraffic(cc, ms, "c hs traffic")),
     TrafficKey(Decrypt, OneRtt, ms[0].suite, ApplicationTraffic(cc, ms, "s ap traffic")),
     TrafficKey(Encrypt, OneRtt, ms[0].suite, ApplicationTraffic(cc, ms, "c ap traffic"))]
  }

  /** The server's Finished, checked, and its certificate messages unless the client resumes. */
  predicate Checked(cc: ClientConfig, ms: seq<Message>, chain: seq<Key>)
    requires WellFormed(cc)
  {
    && |ms| > 2 && ms[0].ServerHello? && ms[1].EncryptedExtensions?
    && (if ms[0].psk then |ms| == 3 else Signed(cc, ms[..|ms| - 1]) && chain == ms[|ms| - 3].chain)
    && ms[|ms| - 1] == Finished(VerifyData(HashOfHello(ms[0]), HandshakeTraffic(cc, ms, "s hs traffic"), Heard(cc, ms[..|ms| - 1])))
  }

  /**
   A client that has finished: the messages up to the server's Finished, and then only tickets. The Finished covers
   everything before it.
   */
  predicate Finishing(cc: ClientConfig, ms: seq<Message>, later: seq<Message>, c: Endpoint, out: seq<Message>)
    requires WellFormed(cc)
  {
    && Checked(cc, ms, c.peerChain) && out == Answer(cc, ms)
    && var h := HashOfHello(ms[0]);
    && c.resumed == ms[0].psk && c.alpn == ms[1].alpnChosen && c.earlyAccepted == ms[1].earlyAccepted
    && c.schedule == Schedule(ms[0].suite, 3, MasterSecret(h, PskOf(cc, ms[0]), SharedOf(cc, ms[0])),
                              Heard(cc, ms) + Wholes(Answer(cc, ms)))
    && c.dec == ApplicationTraffic(cc, ms, "s ap traffic") && c.enc == ApplicationTraffic(cc, ms, "c ap traffic")
    && c.installed == ClientStart(cc).0.installed + ClientKeys(cc, ms)
    && (forall m | m in later :: m.NewSessionTicket?)
    && c.tickets == if cc.wantsTickets then TicketsOf(later, ResumptionSecret(h, c.schedule.secret, c.schedule.transcript)) else []
  }

  function TicketsOf(later: seq<Message>, secret: Term): (t: seq<(nat, Term)>)
    requires forall m | m in later :: m.NewSessionTicket?
  {
    seq(|later|, i requires 0 <= i < |later| => (later[i].ticketId, secret))
  }

  // ---- Proof, one message at a time ----

  lemma HeardMore(cc: ClientConfig, ms: seq<Message>, m: Message)
    requires WellFormed(cc)
    ensures Heard(cc, ms + [m]) == Heard(cc, ms) + [Whole(m)]
  {
    hide HelloOf;
    assert Wholes(ms + [m]) == Wholes(ms) + [Whole(m)];
  }

  lemma SameFirst(cc: ClientConfig, ms: seq<Message>, m: Message, name: string)
    requires WellFormed(cc) && ms != [] && ms[0].ServerHello?
    ensures HandshakeTraffic(cc, ms + [m], name) == HandshakeTraffic(cc, ms, name)
  {
    assert (ms + [m])[..1] == ms[..1];
  }

  /** The schedules that a client has ready when it waits for the ServerHello. */
  lemma StartTerms(cc: ClientConfig)
    requires WellFormed(cc) && !ClientStart(cc).0.phase.Failed?
    ensures var c := ClientStart(cc).0;
            && c.phase == ExpectServerHello && !c.resumed && c.tickets == [] && c.request.None?
            && (forall suite | suite in cc.suites ::
                  suite in c.proxy
                  && c.proxy[suite] == Schedule(suite, 1, EarlySecret(HashFor(suite), None), HelloHashed(HelloOf(cc))))
            && (c.psk.Some? ==>
                  && HelloOf(cc).binder.Some? && cc.ticket.Some?
                  && c.psk.value == Schedule(cc.ticket.value.suite, 1,
                                             EarlySecret(HashFor(cc.ticket.value.suite), Some(cc.ticket.value.secret)),
                                             HelloHashed(HelloOf(cc))))
  {
    var hello := HelloOf(cc);
    assert [] + HelloHashed(hello) == HelloHashed(hello);
    if hello.binder.Some? {
      assert [] + [Head(hello.offer)] + [Tail(hello.binder.value)] == HelloHashed(hello);
    }
  }

  lemma HelloStep(cc: ClientConfig, m: Message)
    requires WellFormed(cc) && !ClientStart(cc).0.phase.Failed? && m.ServerHello? && Ready(cc, ClientStart(cc).0)
    ensures var (c, out) := ClientHandleHello(cc, ClientStart(cc).0, m);
            c.phase.Failed? || (c.phase == ExpectEncryptedExtensions && Underway(cc, [m], c) && out == [])
  {
    hide ClientStart, HelloOf, PrivateKey, Ready, Underway;
    StartTerms(cc);
    HelloStepFrom(cc, ClientStart(cc).0, m);
  }

  lemma HelloStepFrom(cc: ClientConfig, c: Endpoint, m: Message)
    requires WellFormed(cc) && m.ServerHello? && Ready(cc, c)
    requires !c.resumed && c.tickets == [] && c.request.None? && c.installed == ClientStart(cc).0.installed
    requires m.suite in cc.suites ==>
               c.proxy[m.suite] == Schedule(m.suite, 1, EarlySecret(HashFor(m.suite), None), HelloHashed(HelloOf(cc)))
    requires c.psk.Some? ==>
               && HelloOf(cc).binder.Some? && cc.ticket.Some?
               && c.psk.value == Schedule(cc.ticket.value.suite, 1,
                                          EarlySecret(HashFor(cc.ticket.value.suite), Some(cc.ticket.value.secret)),
                                          HelloHashed(HelloOf(cc)))
    ensures var (c1, out) := ClientHandleHello(cc, c, m);
            c1.phase.Failed? || (c1.phase == ExpectEncryptedExtensions && Underway(cc, [m], c1) && out == [])
  {
    hide ClientStart, HelloOf, PrivateKey;
    assert Wholes([m]) == [Whole(m)] && [m][..1] == [m];
    NoMore(c.installed);
  }

  lemma NoMore(k: seq<TrafficKey>)
    ensures forall x: TrafficKey :: k + [x] + [] == k + [x]
  {
  }

  lemma ExtensionsStep(cc: ClientConfig, ms: seq<Message>, c: Endpoint, m: Message)
    requires WellFormed(cc) && Underway(cc, ms, c) && |ms| == 1 && m.EncryptedExtensions?
    ensures var c1 := ClientHandleExtensions(c, m).0;
            Underway(cc, ms + [m], c1) && c1.resumed == ms[0].psk && (ms[0].psk ==> Verified(cc, ms + [m], c1))
  {
    HeardMore(cc, ms, m);
    SameFirst(cc, ms, m, "s hs traffic");
    SameFirst(cc, ms, m, "c hs traffic");
    assert ms[..1] == ms;
    hide Heard, ClientStart, HelloOf, PrivateKey;
  }

  lemma RequestStep(cc: ClientConfig, ms: seq<Message>, c: Endpoint, m: Message)
    requires WellFormed(cc) && Underway(cc, ms, c) && |ms| == 2 && m.CertificateRequest?
    ensures Underway(cc, ms + [m], ClientHandleRequest(c, m).0)
  {
    HeardMore(cc, ms, m);
    SameFirst(cc, ms, m, "s hs traffic");
    SameFirst(cc, ms, m, "c hs traffic");
    hide Heard, ClientStart, HelloOf, PrivateKey, HandshakeTraffic;
  }

  /** A message that only goes into the transcript. */
  lemma HashedStep(cc: ClientConfig, ms: seq<Message>, c: Endpoint, m: Message, c1: Endpoint)
    requires WellFormed(cc) && Underway(cc, ms, c) && |ms| > 1 && !m.ClientHello? && (|ms| == 2 ==> !m.CertificateRequest?)
    requires c1 == Hashed(c, m).(peerChain := c1.peerChain, phase := c1.phase)
    ensures Underway(cc, ms + [m], c1)
  {
    HeardMore(cc, ms, m);
    SameFirst(cc, ms, m, "s hs traffic");
    SameFirst(cc, ms, m, "c hs traffic");
    hide Heard, ClientStart, HelloOf, PrivateKey, HandshakeTraffic;
  }

  lemma UnderwayIs(cc: ClientConfig, ms: seq<Message>, c: Endpoint)
    requires WellFormed(cc) && Underway(cc, ms, c)
    ensures ms != [] && ms[0].ServerHello? && c.resumed == ms[0].psk && c.tickets == []
    ensures c.schedule.transcript == Heard(cc, ms) && HashFor(c.schedule.suite) == HashOfHello(ms[0])
    ensures c.schedule.generation == 2 && c.schedule.suite == ms[0].suite && c.dec == HandshakeTraffic(cc, ms, "s hs traffic")
    ensures |ms| > 1 ==>
              && ms[1].EncryptedExtensions? && c.alpn == ms[1].alpnChosen && c.earlyAccepted == ms[1].earlyAccepted
              && c.enc == HandshakeTraffic(cc, ms, "c hs traffic")
              && c.installed == ClientStart(cc).0.installed + [TrafficKey(Decrypt, Handshake, ms[0].suite, c.dec)]
                                + [TrafficKey(Encrypt, Handshake, ms[0].suite, c.enc)]
  {
    hide Heard, HelloOf, PrivateKey;
  }

  lemma VerifyStep(cc: ClientConfig, ms: seq<Message>, c: Endpoint, m: Message)
    requires WellFormed(cc) && ClientAt(cc, ms, c, []) && c.phase == ExpectPeerVerify && m.CertificateVerify?
    ensures var (c1, out) := ClientHandleVerify(cc, c, m);
            out == [] && (!c1.phase.Failed? ==> c1.phase == ExpectPeerFinished && Verified(cc, ms + [m], c1))
  {
    hide Underway, Heard, HelloOf, Finishing, Verified;
    UnderwayIs(cc, ms, c);
    var c1 := ClientHandleVerify(cc, c, m).0;
    if !c1.phase.Failed? {
      HashedStep(cc, ms, c, m, c1);
      NowSigned(cc, ms, c, m, c1);
    }
  }

  lemma NowSigned(cc: ClientConfig, ms: seq<Message>, c: Endpoint, m: Message, c1: Endpoint)
    requires WellFormed(cc) && ms != [] && ms[0].ServerHello? && m.CertificateVerify?
    requires SignatureHolds(c, m, cc.signatureAlgorithms, SERVER_CONTEXT)
    requires |ms| in {3, 4} && !ms[0].psk && (|ms| == 4 ==> ms[2].CertificateRequest?)
    requires ms[|ms| - 1].Certificate? && c.peerChain == c1.peerChain == ms[|ms| - 1].chain && cc.trusts(c.peerChain)
    requires c.schedule.transcript == Heard(cc, ms) && HashFor(c.schedule.suite) == HashOfHello(ms[0])
    requires Underway(cc, ms + [m], c1)
    ensures Verified(cc, ms + [m], c1)
  {
    hide Underway, Heard, HelloOf;
    var all := ms + [m];
    assert all[..|all| - 1] == ms;
  }

  lemma AnswerTerms(cc: ClientConfig, ms: seq<Message>, c: Endpoint)
    requires WellFormed(cc) && ms != [] && ms[0].ServerHello? && |ms| > 2
    requires c.schedule.suite == ms[0].suite && c.schedule.transcript == Heard(cc, ms)
    requires c.request == (if ms[2].CertificateRequest? then Some(ms[2].algorithms) else None)
    requires c.enc == HandshakeTraffic(cc, ms, "c hs traffic")
    ensures var (c1, certificates) := ClientCertificate(cc, c);
            && certificates + [Finished(c1.schedule.FinishedData(c1.enc))] == Answer(cc, ms)
            && c1 == c.(schedule := c.schedule.(transcript := Heard(cc, ms) + Wholes(certificates)))
  {
    hide Heard, HelloOf, HandshakeTraffic, Negotiate;
    var (c1, certificates) := ClientCertificate(cc, c);
    if c.request.None? {
      assert Heard(cc, ms) + Wholes([]) == Heard(cc, ms);
    } else if |certificates| == 1 {
      assert Wholes(certificates) == [Whole(certificates[0])];
    } else {
      assert Wholes([certificates[0]]) == [Whole(certificates[0])];
      assert Heard(cc, ms) + [Whole(certificates[0])] + [Whole(certificates[1])] == Heard(cc, ms) + Wholes(certificates);
    }
  }

  lemma FinishShape(cc: ClientConfig, c: Endpoint, m: Message)
    requires m.Finished? && c.schedule.generation == 2
    ensures var middle := ClientMiddle(c, m);
            var (c2, certificates) := ClientCertificate(cc, middle);
            var (c3, last) := ClientLast(c2, middle.schedule.Derive("c ap traffic"));
            var (c1, out) := ClientHandleFinished(cc, c, m);
            if m.verifyData == VerifyData(HashFor(c.schedule.suite), c.dec, c.schedule.transcript) then
              c1 == c3 && out == certificates + [last]
            else c1.phase.Failed?
  {
    hide ClientCertificate;
  }

  /** After the server's Finished the schedule holds the master secret and everything so far. */
  lemma MiddleTerms(cc: ClientConfig, ms: seq<Message>, c: Endpoint, m: Message)
    requires WellFormed(cc) && Underway(cc, ms, c) && |ms| > 1 && m.Finished?
    ensures var middle, all := ClientMiddle(c, m), ms + [m];
            && middle.schedule == Schedule(ms[0].suite, 3, MasterSecret(HashOfHello(ms[0]), PskOf(cc, ms[0]), SharedOf(cc, ms[0])),
                                           Heard(cc, all))
            && middle.dec == ApplicationTraffic(cc, all, "s ap traffic")
            && middle.schedule.Derive("c ap traffic") == ApplicationTraffic(cc, all, "c ap traffic")
            && middle.enc == HandshakeTraffic(cc, all, "c hs traffic")
            && middle.request == (if all[2].CertificateRequest? then Some(all[2].algorithms) else None)
            && middle.installed == c.installed + [TrafficKey(Decrypt, OneRtt, ms[0].suite, middle.dec)]
            && middle == c.(schedule := middle.schedule, dec := middle.dec, installed := middle.installed)
  {
    HeardMore(cc, ms, m);
    SameFirst(cc, ms, m, "c hs traffic");
    hide Heard, HelloOf, ClientStart, HandshakeTraffic, PrivateKey;
  }

  lemma VerifiedIs(cc: ClientConfig, ms: seq<Message>, c: Endpoint)
    requires WellFormed(cc) && Verified(cc, ms, c)
    ensures Underway(cc, ms, c) && |ms| > 1
    ensures if ms[0].psk then |ms| == 2 else Signed(cc, ms) && |ms| > 2 && ms[|ms| - 2].Certificate? && c.peerChain == ms[|ms| - 2].chain
  {
    hide Heard, HelloOf, ClientStart, HandshakeTraffic, PrivateKey;
  }

  lemma FinishedStep(cc: ClientConfig, ms: seq<Message>, c: Endpoint, m: Message)
    requires WellFormed(cc) && c.phase == ExpectPeerFinished && Verified(cc, ms, c) && m.Finished?
    ensures var (c1, out) := ClientHandleFinished(cc, c, m);
            !c1.phase.Failed? ==> c1.phase == PostHandshake && Finishing(cc, ms + [m], [], c1, out)
  {
    hide Heard, HelloOf, ClientStart, HandshakeTraffic, ApplicationTraffic, PrivateKey, Signed, ClientCertificate, Answer,
         ClientHandleFinished, Verified, Underway, Finishing, ClientMiddle;
    VerifiedIs(cc, ms, c);
    UnderwayIs(cc, ms, c);
    var (c1, out) := ClientHandleFinished(cc, c, m);
    FinishShape(cc, c, m);
    if !c1.phase.Failed? {
      var all := ms + [m];
      SameFirst(cc, ms, m, "s hs traffic");
      SameFirst(cc, ms, m, "c hs traffic");
      MiddleTerms(cc, ms, c, m);
      var middle := ClientMiddle(c, m);
      AnswerTerms(cc, all, middle);
      var (c2, certificates) := ClientCertificate(cc, middle);
      Joined(Heard(cc, all), certificates, out[|out| - 1]);
      LastKeys(ClientStart(cc).0.installed, ms[0].suite, c.dec, c.enc, middle.dec, c1.enc);
      Finishes(cc, ms, m, c1, out);
    }
  }

  lemma Finishes(cc: ClientConfig, ms: seq<Message>, m: Message, c: Endpoint, out: seq<Message>)
    requires WellFormed(cc) && |ms| > 1 && ms[0].ServerHello? && ms[1].EncryptedExtensions?
    requires if ms[0].psk then |ms| == 2 else Signed(cc, ms) && |ms| > 2 && ms[|ms| - 2].Certificate? && c.peerChain == ms[|ms| - 2].chain
    requires m == Finished(VerifyData(HashOfHello(ms[0]), HandshakeTraffic(cc, ms + [m], "s hs traffic"), Heard(cc, ms)))
    requires var all, h := ms + [m], HashOfHello(ms[0]);
             && out == Answer(cc, all)
             && c.resumed == ms[0].psk && c.alpn == ms[1].alpnChosen && c.earlyAccepted == ms[1].earlyAccepted
             && c.schedule == Schedule(ms[0].suite, 3, MasterSecret(h, PskOf(cc, ms[0]), SharedOf(cc, ms[0])),
                                       Heard(cc, all) + Wholes(Answer(cc, all)))
             && c.dec == ApplicationTraffic(cc, all, "s ap traffic") && c.enc == ApplicationTraffic(cc, all, "c ap traffic")
             && c.installed == ClientStart(cc).0.installed + ClientKeys(cc, all)
             && c.tickets == []
    ensures Finishing(cc, ms + [m], [], c, out)
  {
    hide Heard, HelloOf, ClientStart, HandshakeTraffic, ApplicationTraffic, PrivateKey, Signed, Answer;
    assert (ms + [m])[..|ms|] == ms;
  }

  lemma Joined(a: seq<Part>, ms: seq<Message>, m: Message)
    ensures a + Wholes(ms) + [Whole(m)] == a + Wholes(ms + [m])
  {
  }

  lemma LastKeys(k: seq<TrafficKey>, suite: Suite, a: Term, b: Term, d: Term, e: Term)
    ensures k + [TrafficKey(Decrypt, Handshake, suite, a)] + [TrafficKey(Encrypt, Handshake, suite, b)]
            + [TrafficKey(Decrypt, OneRtt, suite, d)] + [TrafficKey(Encrypt, OneRtt, suite, e)] ==
            k + [TrafficKey(Decrypt, Handshake, suite, a), TrafficKey(Encrypt, Handshake, suite, b),
                 TrafficKey(Decrypt, OneRtt, suite, d), TrafficKey(Encrypt, OneRtt, suite, e)]
  {
  }

  lemma TicketStep(cc: ClientConfig, ms: seq<Message>, later: seq<Message>, c: Endpoint, out: seq<Message>, m: Message)
    requires WellFormed(cc) && Finishing(cc, ms, later, c, out) && m.NewSessionTicket?
    ensures Finishing(cc, ms, later + [m], ClientHandleTicket(cc, c, m).0, out)
  {
    hide Heard, HelloOf, ClientStart, HandshakeTraffic, ApplicationTraffic, PrivateKey, Signed, Answer;
    var secret := ResumptionSecret(HashOfHello(ms[0]), c.schedule.secret, c.schedule.transcript);
    assert TicketsOf(later + [m], secret) == TicketsOf(later, secret) + [(m.ticketId, secret)];
  }

  lemma ClientStepAt(cc: ClientConfig, ms: seq<Message>, c: Endpoint, out: seq<Message>, m: Message)
    requires WellFormed(cc) && Ready(cc, c) && ClientAt(cc, ms, c, out)
    ensures var (c1, more) := ClientStep(cc, c, m); c1.phase.Failed? || ClientAt(cc, ms + [m], c1, out + more)
  {
    hide Underway, Verified, Finishing, ClientHandleFinished, Ready, ClientHandleVerify, ClientHandleHello, ClientStart;
    var (c1, more) := ClientStep(cc, c, m);
    if !c1.phase.Failed? {
      match c.phase
      case ExpectServerHello =>
        HelloStep(cc, m);
        assert ms + [m] == [m] && out + more == [];
      case ExpectEncryptedExtensions => ExtensionsStep(cc, ms, c, m);
      case ExpectRequestOrCertificate =>
        if m.CertificateRequest? { RequestStep(cc, ms, c, m); } else { HashedStep(cc, ms, c, m, c1); }
      case ExpectPeerCertificate => HashedStep(cc, ms, c, m, c1);
      case ExpectPeerVerify => VerifyStep(cc, ms, c, m);
      case ExpectPeerFinished =>
        FinishedStep(cc, ms, c, m);
        var all := ms + [m];
        assert all[..|all|] == all && all[|all|..] == [] && [] + more == more;
      case PostHandshake =>
        var n :| 0 <= n <= |ms| && Finishing(cc, ms[..n], ms[n..], c, out);
        TicketStep(cc, ms[..n], ms[n..], c, out, m);
        assert (ms + [m])[..n] == ms[..n] && (ms + [m])[n..] == ms[n..] + [m] && out + [] == out;
      case _ =>
    }
  }

  /**
   Whatever messages a client is given, from whomever: as long as it has not given up, they came in the order of the
   handshake; its transcript is its hello and all of them in order, tickets aside, and at the end its own answer; every
   secret it holds is the term of RFC 8446 over the prefix that the phase stands for; and once it has finished, the
   server's Finished covered everything before it, and so did the signature of a trusted certificate unless the
   client resumed from its own ticket.
   */
  lemma {:induction false} ClientHistory(cc: ClientConfig, ms: seq<Message>)
    requires WellFormed(cc) && !ClientStart(cc).0.phase.Failed? && Ready(cc, ClientStart(cc).0)
    ensures var (c, out) := ClientAll(cc, ClientStart(cc).0, ms);
            c.phase.Failed? || ClientAt(cc, ms, c, out)
    decreases |ms|
  {
    hide ClientStep, ClientAll, Ready, Underway, Verified, Finishing, ClientStart;
    if ms == [] {
      ClientNothing(cc, ClientStart(cc).0);
      StartReady(cc);
    } else {
      var before, m := ms[..|ms| - 1], ms[|ms| - 1];
      assert ms == before + [m];
      ClientHistory(cc, before);
      var (c, out) := ClientAll(cc, ClientStart(cc).0, before);
      ClientAllAppend(cc, ClientStart(cc).0, before, [m]);
      One(cc, c, m);
      if !c.phase.Failed? { ClientStepAt(cc, before, c, out, m); }
    }
  }
}
