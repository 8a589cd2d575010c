/** Two honest TLS endpoints talking to each other. */
module TlsRuns {
  import opened Common
  import opened TlsSchedule
  import opened TlsSpec

  predicate WellFormed(cc: ClientConfig) { |cc.groups| == |cc.keys| }

  // ---- Handling a sequence of messages ----

  function ClientAll(cc: ClientConfig, e: Endpoint, ms: seq<Message>): (r: Reaction)
    requires WellFormed(cc) && Ready(cc, e)
    ensures Ready(cc, r.0)
    decreases |ms|
  {
    if ms == [] then (e, [])
    else
      var (e1, out) := ClientStep(cc, e, ms[0]);
      var (e2, more) := ClientAll(cc, e1, ms[1..]);
      (e2, out + more)
  }

  function ServerAll(sc: ServerConfig, e: Endpoint, ms: seq<Message>): Reaction
    decreases |ms|
  {
    if ms == [] then (e, [])
    else
      var (e1, out) := ServerStep(sc, e, ms[0]);
      var (e2, more) := ServerAll(sc, e1, ms[1..]);
      (e2, out + more)
  }

  lemma {:induction false} ClientAllAppend(cc: ClientConfig, e: Endpoint, a: seq<Message>, b: seq<Message>)
    requires WellFormed(cc) && Ready(cc, e)
    ensures ClientAll(cc, e, a + b).0 == ClientAll(cc, ClientAll(cc, e, a).0, b).0
    ensures ClientAll(cc, e, a + b).1 == ClientAll(cc, e, a).1 + ClientAll(cc, ClientAll(cc, e, a).0, b).1
    decreases |a|
  {
    hide ClientStep, Ready;
    if a == [] {
      assert a + b == b;
    } else {
      assert (a + b)[1..] == a[1..] + b;
      ClientAllAppend(cc, ClientStep(cc, e, a[0]).0, a[1..], b);
    }
  }

  lemma {:induction false} ServerAllAppend(sc: ServerConfig, e: Endpoint, a: seq<Message>, b: seq<Message>)
    ensures ServerAll(sc, e, a + b).0 == ServerAll(sc, ServerAll(sc, e, a).0, b).0
    ensures ServerAll(sc, e, a + b).1 == ServerAll(sc, e, a).1 + ServerAll(sc, ServerAll(sc, e, a).0, b).1
    decreases |a|
  {
    hide ServerStep;
    if a == [] {
      assert a + b == b;
    } else {
      assert (a + b)[1..] == a[1..] + b;
      ServerAllAppend(sc, ServerStep(sc, e, a[0]).0, a[1..], b);
    }
  }

  // ---- The two endpoints and the messages between them ----

  /** What each side has received so far, in order; everything else sent is still on its way. */
  datatype System = System(toClient: seq<Message>, toServer: seq<Message>)

  function Client(cc: ClientConfig, sys: System): (r: Reaction)
    requires WellFormed(cc)
  {
    var (e, out) := ClientStart(cc);
    if e.phase.Failed? then (e, out)
    else
      var (e1, more) := ClientAll(cc, e, sys.toClient);
      (e1, out + more)
  }

  function Server(sc: ServerConfig, sys: System): Reaction {
    ServerAll(sc, BLANK, sys.toServer)
  }

  /** The next message in one direction arrives. */
  predicate Delivers(cc: ClientConfig, sc: ServerConfig, a: System, b: System)
    requires WellFormed(cc)
  {
    || (|a.toClient| < |b.toClient| == |a.toClient| + 1 && a.toClient <= b.toClient <= Server(sc, a).1 && b.toServer == a.toServer)
    || (|a.toServer| < |b.toServer| == |a.toServer| + 1 && a.toServer <= b.toServer <= Client(cc, a).1 && b.toClient == a.toClient)
  }

  /** Deliveries in any order, from nothing received. */
  ghost predicate Run(cc: ClientConfig, sc: ServerConfig, run: seq<System>)
    requires WellFormed(cc)
  {
    && run != [] && run[0] == System([], [])
    && forall i :: 0 < i < |run| ==> Delivers(cc, sc, run[i - 1], run[i])
  }

  /** Nothing is on its way. */
  predicate Quiet(cc: ClientConfig, sc: ServerConfig, sys: System)
    requires WellFormed(cc)
  {
    sys.toClient == Server(sc, sys).1 && sys.toServer == Client(cc, sys).1
  }

  // ---- Both sides stay in step ----

  /** Same transcript and secret, and each side's sending secret is the other's receiving secret. */
  predicate Twins(c: Endpoint, s: Endpoint) {
    c.schedule == s.schedule && c.dec == s.enc && c.enc == s.dec
  }

  /** Only the schedule, the phase and the peer's certificate messages differ. */
  predicate Progress(a: Endpoint, b: Endpoint) {
    b.(phase := a.phase, schedule := a.schedule, request := a.request, peerChain := a.peerChain) == a
  }

  /** A single message goes to the handler for the current phase. */
  lemma One(cc: ClientConfig, e: Endpoint, m: Message)
    requires WellFormed(cc) && Ready(cc, e)
    ensures ClientAll(cc, e, [m]) == ClientStep(cc, e, m)
    ensures e.phase == ExpectServerHello && m.ServerHello? ==> ClientStep(cc, e, m) == ClientHandleHello(cc, e, m)
    ensures e.phase == ExpectEncryptedExtensions && m.EncryptedExtensions? ==> ClientStep(cc, e, m) == ClientHandleExtensions(e, m)
    ensures e.phase == ExpectRequestOrCertificate && m.CertificateRequest? ==> ClientStep(cc, e, m) == ClientHandleRequest(e, m)
    ensures e.phase in {ExpectRequestOrCertificate, ExpectPeerCertificate} && m.Certificate? ==>
              ClientStep(cc, e, m) == ClientHandleCertificate(e, m)
    ensures e.phase == ExpectPeerVerify && m.CertificateVerify? ==> ClientStep(cc, e, m) == ClientHandleVerify(cc, e, m)
    ensures e.phase == ExpectPeerFinished && m.Finished? ==> ClientStep(cc, e, m) == ClientHandleFinished(cc, e, m)
    ensures e.phase == PostHandshake && m.NewSessionTicket? ==> ClientStep(cc, e, m) == ClientHandleTicket(cc, e, m)
    ensures e.phase.Failed? ==> ClientStep(cc, e, m) == (e, [])
  {
    hide Ready;
    OneStep(cc, e, m);
  }

  lemma OneStep(cc: ClientConfig, e: Endpoint, m: Message)
    requires WellFormed(cc) && Ready(cc, e)
    ensures ClientAll(cc, e, [m]) == ClientStep(cc, e, m)
  {
    hide ClientStep, Ready;
    var (e1, out) := ClientStep(cc, e, m);
    assert [m][1..] == [];
    assert ClientAll(cc, e1, []) == (e1, []);
    assert out + [] == out;
  }

  lemma OneServer(sc: ServerConfig, e: Endpoint, m: Message)
    ensures ServerAll(sc, e, [m]) == ServerStep(sc, e, m)
    ensures e.phase == ExpectClientHello && m.ClientHello? ==> ServerStep(sc, e, m) == ServerHandleHello(sc, e, m)
    ensures e.phase == ExpectPeerCertificate && m.Certificate? ==> ServerStep(sc, e, m) == ServerHandleCertificate(sc, e, m)
    ensures e.phase == ExpectPeerVerify && m.CertificateVerify? ==> ServerStep(sc, e, m) == ServerHandleVerify(sc, e, m)
    ensures e.phase == ExpectPeerFinished && m.Finished? ==> ServerStep(sc, e, m) == ServerHandleFinished(e, m)
    ensures e.phase == ExpectPeerCertificate && m.Finished? ==> ServerStep(sc, e, m) == Fail(e, Alert)
  {
    OneServerStep(sc, e, m);
  }

  lemma OneServerStep(sc: ServerConfig, e: Endpoint, m: Message)
    ensures ServerAll(sc, e, [m]) == ServerStep(sc, e, m)
  {
    hide ServerStep;
    var (e1, out) := ServerStep(sc, e, m);
    assert [m][1..] == [];
    assert ServerAll(sc, e1, []) == (e1, []);
    assert out + [] == out;
  }

  /** A certificate and the signature over the transcript up to it. */
  lemma CertificateHandled(cc: ClientConfig, c: Endpoint, chain: seq<Key>, algorithm: nat)
    requires WellFormed(cc) && Ready(cc, c) && c.phase in {ExpectRequestOrCertificate, ExpectPeerCertificate}
    requires chain != [] && algorithm in cc.signatureAlgorithms
    ensures var certificate := Certificate(chain);
            var c1 := Hashed(c, certificate);
            var verify := CertificateVerify(algorithm,
                            Signature(chain[0], algorithm, SERVER_CONTEXT, HashFor(c1.schedule.suite), c1.schedule.transcript));
            var (c2, out) := ClientAll(cc, c, [certificate, verify]);
            && out == []
            && (if cc.trusts(chain) then c2 == Hashed(c1, verify).(peerChain := chain, phase := ExpectPeerFinished)
                else c2.phase == Failed(Alert))
  {
    hide ClientStep, ClientAll;
    var certificate := Certificate(chain);
    var c1 := ClientHandleCertificate(c, certificate).0;
    var verify := CertificateVerify(algorithm,
                    Signature(chain[0], algorithm, SERVER_CONTEXT, HashFor(c1.schedule.suite), c1.schedule.transcript));
    TwoInTurn(cc, c, certificate, verify);
    One(cc, c, certificate);
    One(cc, c1, verify);
  }

  /** The server's certificate messages, on a client in step with it. */
  lemma CertificatesHandled(cc: ClientConfig, sc: ServerConfig, c: Endpoint, s: Endpoint, algorithm: nat)
    requires WellFormed(cc) && Ready(cc, c) && c.phase == ExpectRequestOrCertificate
    requires c.schedule.transcript == s.schedule.transcript && c.schedule.suite == s.schedule.suite
    requires algorithm in cc.signatureAlgorithms && c.request.None?
    ensures var (s1, ms) := ServerCertificate(sc, s, algorithm);
            var (c1, out) := ClientAll(cc, c, ms);
            && out == []
            && (if cc.trusts([sc.identity.leaf] + sc.identity.above) then
                  Progress(c, c1) && c1.phase == ExpectPeerFinished
                  && c1.schedule == c.schedule.(transcript := s1.schedule.transcript)
                  && c1.request == if sc.requestsCertificate then Some(sc.signatureAlgorithms) else None
                else c1.phase == Failed(Alert))
            && s1 == s.(schedule := s.schedule.(transcript := s1.schedule.transcript))
  {
    hide ClientStep, ClientAll;
    var request := CertificateRequest(sc.signatureAlgorithms);
    var chain := [sc.identity.leaf] + sc.identity.above;
    var (first, c0) := if sc.requestsCertificate then ([request], ClientHandleRequest(c, request).0) else ([], c);
    if sc.requestsCertificate { One(cc, c, request); } else { ClientNothing(cc, c); }
    assert ClientAll(cc, c, first) == (c0, []);
    CertificateHandled(cc, c0, chain, algorithm);
    var (s1, ms) := ServerCertificate(sc, s, algorithm);
    ClientAllAppend(cc, c, first, ms[|first|..]);
    assert ms == first + ms[|first|..];
  }

  lemma TwoInTurn(cc: ClientConfig, e: Endpoint, a: Message, b: Message)
    requires WellFormed(cc) && Ready(cc, e)
    ensures var (e1, first) := ClientStep(cc, e, a);
            ClientAll(cc, e, [a, b]) == (ClientStep(cc, e1, b).0, first + ClientStep(cc, e1, b).1)
  {
    hide ClientStep, Ready;
    OneStep(cc, e, a);
    OneStep(cc, ClientStep(cc, e, a).0, b);
    assert [a, b] == [a] + [b];
    ClientAllAppend(cc, e, [a], [b]);
  }

  /** The client has the schedule that the server's ServerHello will select. */
  predicate Prepared(cc: ClientConfig, c: Endpoint, s: Endpoint) {
    && c.phase == ExpectServerHello && !c.resumed && c.request.None? && c.tickets == []
    && s.schedule.suite in cc.suites && s.schedule.generation == 1
    && (if s.resumed then c.psk == Some(s.schedule)
        else s.schedule.suite in c.proxy && c.proxy[s.schedule.suite] == s.schedule)
  }

  /** The two keys of an epoch as one side installs them: down is the server's secret, up the client's. */
  function EpochKeys(epoch: Epoch, toClient: Direction, toServer: Direction, suite: Suite, down: Term, up: Term): seq<TrafficKey> {
    [TrafficKey(toClient, epoch, suite, down), TrafficKey(toServer, epoch, suite, up)]
  }

  /** After the ServerHello the sides agree exactly if the client kept the key of the share that was used. */
  lemma HelloHandled(cc: ClientConfig, sc: ServerConfig, c: Endpoint, s: Endpoint, share: Share)
    requires WellFormed(cc) && Ready(cc, c) && Prepared(cc, c, s)
    requires PrivateKey(cc.groups, cc.keys, share.group).Some?
    ensures var (s1, hello) := ServerKeys(sc, s, share);
            var (c1, out) := ClientHandleHello(cc, c, hello);
            && out == []
            && c1 == c.(phase := ExpectEncryptedExtensions, schedule := c1.schedule, dec := c1.schedule.Derive("s hs traffic"),
                        resumed := s.resumed, psk := None,
                        installed := c.installed + [TrafficKey(Decrypt, Handshake, s.schedule.suite, c1.dec)])
            && s1 == s.(schedule := s1.schedule, enc := s1.schedule.Derive("s hs traffic"),
                        dec := s1.schedule.Derive("c hs traffic"),
                        installed := s.installed + EpochKeys(Handshake, Encrypt, Decrypt, s.schedule.suite, s1.enc, s1.dec))
            && c1.schedule.generation == s1.schedule.generation == 2
            && c1.schedule.suite == s1.schedule.suite == s.schedule.suite
            && c1.schedule.transcript == s1.schedule.transcript
            && (if PrivateKey(cc.groups, cc.keys, share.group) == Some(share.key) then c1.schedule == s1.schedule
                else c1.schedule.secret != s1.schedule.secret)
  {
    SameShared(PrivateKey(cc.groups, cc.keys, share.group).value, share.key, sc.key);
  }

  /** The first two messages. */
  lemma OpeningHandled(cc: ClientConfig, sc: ServerConfig, c: Endpoint, s: Endpoint, share: Share)
    requires WellFormed(cc) && Ready(cc, c) && Prepared(cc, c, s)
    requires PrivateKey(cc.groups, cc.keys, share.group).Some?
    ensures var (s1, ms) := ServerOpening(sc, s, share);
            var (c1, out) := ClientAll(cc, c, ms);
            && out == [] && c1.phase == (if s.resumed then ExpectPeerFinished else ExpectRequestOrCertificate)
            && c1.request.None? && c1.tickets == [] && c1.resumed == s.resumed
            && c1.schedule.generation == s1.schedule.generation == 2
            && c1.schedule.suite == s1.schedule.suite == s.schedule.suite
            && c1.schedule.transcript == s1.schedule.transcript
            && (if PrivateKey(cc.groups, cc.keys, share.group) == Some(share.key) then Twins(c1, s1)
                else c1.dec != s1.enc)
            && c1.installed == c.installed + EpochKeys(Handshake, Decrypt, Encrypt, s.schedule.suite, c1.dec, c1.enc)
            && s1.installed == s.installed + EpochKeys(Handshake, Encrypt, Decrypt, s.schedule.suite, s1.enc, s1.dec)
            && s1 == s.(schedule := s1.schedule, enc := s1.enc, dec := s1.dec, installed := s1.installed)
  {
    hide ClientStep, ClientAll, PrivateKey, Prepared, ClientHandleHello;
    HelloHandled(cc, sc, c, s, share);
    assert c.phase == ExpectServerHello && c.request.None? && c.tickets == [] by { ServerHelloExpected(cc, c, s); }
    var (s0, hello) := ServerKeys(sc, s, share);
    var c0 := ClientHandleHello(cc, c, hello).0;
    hide ServerKeys;
    var extensions := EncryptedExtensions(s.alpn, s.earlyAccepted);
    assert [hello, extensions] == [hello] + [extensions];
    ClientAllAppend(cc, c, [hello], [extensions]);
    One(cc, c, hello);
    One(cc, c0, extensions);
    assert c.installed + [TrafficKey(Decrypt, Handshake, s.schedule.suite, c0.dec)]
           + [TrafficKey(Encrypt, Handshake, s.schedule.suite, c0.schedule.Derive("c hs traffic"))]
           == c.installed + EpochKeys(Handshake, Decrypt, Encrypt, s.schedule.suite, c0.dec, c0.schedule.Derive("c hs traffic"));
  }

  lemma ServerHelloExpected(cc: ClientConfig, c: Endpoint, s: Endpoint)
    requires Prepared(cc, c, s)
    ensures c.phase == ExpectServerHello && c.request.None? && c.tickets == []
  {
  }

  lemma SameShared(a: Key, b: Key, k: Key)
    ensures multiset{a, k} == multiset{k, b} <==> a == b
  {
    if a != b {
      assert multiset{a, k}[a] != multiset{k, b}[a];
    }
  }

  /** Whether the client goes along with the server up to its Finished. */
  predicate Accepts(cc: ClientConfig, sc: ServerConfig, s: Endpoint) {
    s.resumed || cc.trusts([sc.identity.leaf] + sc.identity.above)
  }

  /** Everything before the server's Finished. */
  lemma CertifiedHandled(cc: ClientConfig, sc: ServerConfig, c: Endpoint, s: Endpoint, share: Share, algorithm: nat)
    requires WellFormed(cc) && Ready(cc, c) && Prepared(cc, c, s) && algorithm in cc.signatureAlgorithms
    requires PrivateKey(cc.groups, cc.keys, share.group).Some?
    ensures var (s1, ms) := ServerCertified(sc, s, share, algorithm);
            var (c1, out) := ClientAll(cc, c, ms);
            && out == []
            && s1 == s.(schedule := s1.schedule, enc := s1.enc, dec := s1.dec, installed := s1.installed)
            && s1.schedule.generation == 2
            && s1.installed == s.installed + EpochKeys(Handshake, Encrypt, Decrypt, s.schedule.suite, s1.enc, s1.dec)
            && s1.schedule.suite == s.schedule.suite
            && if !Accepts(cc, sc, s) then c1.phase == Failed(Alert)
               else
                 && c1.phase == ExpectPeerFinished && c1.tickets == []
                 && c1.schedule.generation == 2 && c1.schedule.transcript == s1.schedule.transcript
                 && c1.installed == c.installed + EpochKeys(Handshake, Decrypt, Encrypt, s.schedule.suite, c1.dec, c1.enc)
                 && c1.request == (if !s.resumed && sc.requestsCertificate then Some(sc.signatureAlgorithms) else None)
                 && (if PrivateKey(cc.groups, cc.keys, share.group) == Some(share.key) then Twins(c1, s1)
                     else c1.dec != s1.enc)
  {
    hide ClientAll, ServerOpening, ServerCertificate, PrivateKey, Prepared;
    OpeningHandled(cc, sc, c, s, share);
    var (s0, opening) := ServerOpening(sc, s, share);
    var c0 := ClientAll(cc, c, opening).0;
    if s.resumed {
      assert opening + [] == opening;
    } else {
      CertificatesHandled(cc, sc, c0, s0, algorithm);
      ClientAllAppend(cc, c, opening, ServerCertificate(sc, s0, algorithm).1);
    }
  }

  /** A client whose secrets differ rejects the server's Finished. */
  lemma WrongSecretRejected(cc: ClientConfig, c: Endpoint, s: Endpoint)
    requires c.schedule.transcript == s.schedule.transcript && c.dec != s.enc
    ensures ClientHandleFinished(cc, c, Finished(s.schedule.FinishedData(s.enc))) == Fail(c, Alert)
  {
  }

  /** Ready for the application keys: both sides after the server's Finished. */
  function ClientMiddle(c: Endpoint, m: Message): Endpoint {
    var e1 := Hashed(c, m);
    Install(e1.(schedule := e1.schedule.Extracted(None)), Decrypt, OneRtt, "s ap traffic")
  }

  function ServerMiddle(s: Endpoint): Endpoint {
    var e1 := Hashed(s, Finished(s.schedule.FinishedData(s.enc)));
    var e2 := Install(e1.(schedule := e1.schedule.Extracted(None)), Encrypt, OneRtt, "s ap traffic");
    e2.(nextDec := e2.schedule.Derive("c ap traffic"))
  }

  /** The client's last message and its own application key. */
  function ClientLast(e: Endpoint, next: Term): (Endpoint, Message) {
    var finished := Finished(e.schedule.FinishedData(e.enc));
    (Report(Hashed(e, finished).(enc := next), Encrypt, OneRtt, next).(phase := PostHandshake), finished)
  }

  lemma FinishHandled(cc: ClientConfig, sc: ServerConfig, c: Endpoint, s: Endpoint)
    requires Twins(c, s) && c.schedule.generation == 2
    ensures var m := Finished(s.schedule.FinishedData(s.enc));
            var c1, s1 := ClientMiddle(c, m), ServerMiddle(s);
            && Twins(c1, s1) && s1.nextDec == c1.schedule.Derive("c ap traffic")
            && c1.installed == c.installed + [TrafficKey(Decrypt, OneRtt, c.schedule.suite, c1.dec)]
            && s1.installed == s.installed + [TrafficKey(Encrypt, OneRtt, c.schedule.suite, c1.dec)]
            && c1 == c.(schedule := c1.schedule, dec := c1.dec, installed := c1.installed)
            && c1.schedule.suite == c.schedule.suite
            && s1.tickets == s.tickets && s1.pskMode == s.pskMode
            && ServerFinish(sc, s) ==
                 (if sc.requestsCertificate then (s1.(phase := ExpectPeerCertificate), [m])
                  else var (s2, ticket) := ServerExpectFinished(sc, s1); (s2, [m] + ticket))
            && ClientHandleFinished(cc, c, m) ==
                 (var (c2, certificates) := ClientCertificate(cc, c1);
                  var (c3, last) := ClientLast(c2, c1.schedule.Derive("c ap traffic"));
                  (c3, certificates + [last]))
  {
    hide ClientCertificate, ServerExpectFinished;
  }

  /** The last message of either side. */
  lemma LastHandled(cc: ClientConfig, sc: ServerConfig, c: Endpoint, s: Endpoint)
    requires WellFormed(cc) && Ready(cc, c) && c.schedule == s.schedule && c.enc == s.dec && c.tickets == s.tickets == []
    ensures var (c1, last) := ClientLast(c, s.nextDec);
            var (s1, ticket) := ServerExpectFinished(sc, s);
            var (c2, out) := ClientAll(cc, c1, ticket);
            var (s2, none) := ServerAll(sc, s1, [last]);
            && out == none == [] && c2.phase == s2.phase == PostHandshake
            && c2.schedule == s2.schedule && c2.schedule.suite == c.schedule.suite
            && c2.installed == c.installed + [TrafficKey(Encrypt, OneRtt, c.schedule.suite, s.nextDec)]
            && s2.installed == s.installed + [TrafficKey(Decrypt, OneRtt, c.schedule.suite, s.nextDec)]
            && (cc.wantsTickets ==> c2.tickets == s2.tickets)
  {
    hide ClientAll, ServerAll, ClientStep;
    var (c1, last) := ClientLast(c, s.nextDec);
    var (s1, ticket) := ServerExpectFinished(sc, s);
    OneServer(sc, s1, last);
    if ticket == [] {
      ClientNothing(cc, c1);
    } else {
      One(cc, c1, ticket[0]);
    }
  }

  lemma ClientNothing(cc: ClientConfig, e: Endpoint)
    requires WellFormed(cc) && Ready(cc, e)
    ensures ClientAll(cc, e, []) == (e, [])
  {
  }

  lemma PhaseIsSet(sc: ServerConfig, e: Endpoint, phase: Phase)
    ensures ServerExpectFinished(sc, e.(phase := phase)) == ServerExpectFinished(sc, e)
    ensures ServerExpectFinished(sc, e).0.peerChain == e.peerChain
  {
  }

  /** A client's answer to a certificate request, on a server in step with it. */
  lemma AnswerHandled(cc: ClientConfig, sc: ServerConfig, c: Endpoint, s: Endpoint)
    requires c.schedule == s.schedule && c.request == Some(sc.signatureAlgorithms) && s.phase == ExpectPeerCertificate
    ensures var (c1, ms) := ClientCertificate(cc, c);
            var (s1, out) := ServerAll(sc, s, ms);
            && c1 == c.(schedule := c1.schedule)
            && c1.schedule == c.schedule.(transcript := c1.schedule.transcript)
            && (s1, out) == ServerExpectFinished(sc, s.(schedule := c1.schedule, peerChain := s1.peerChain))
  {
    hide ServerAll, ServerExpectFinished;
    var algorithm := if cc.identity.None? then None else Negotiate(cc.identity.value.algorithms, c.request);
    if algorithm.None? {
      EmptyAnswer(sc, s);
      PhaseIsSet(sc, Hashed(s, Certificate([])), s.phase);
    } else {
      var chain := [cc.identity.value.leaf] + cc.identity.value.above;
      var certificate := Certificate(chain);
      var verify := CertificateVerify(algorithm.value,
        Signature(chain[0], algorithm.value, CLIENT_CONTEXT, HashFor(Hashed(s, certificate).schedule.suite),
                  Hashed(s, certificate).schedule.transcript));
      SignedAnswer(sc, s, chain, algorithm.value, verify);
      PhaseIsSet(sc, Hashed(Hashed(s, certificate), verify).(peerChain := chain), s.phase);
    }
  }

  lemma EmptyAnswer(sc: ServerConfig, s: Endpoint)
    requires s.phase == ExpectPeerCertificate
    ensures ServerAll(sc, s, [Certificate([])]) == ServerExpectFinished(sc, Hashed(s, Certificate([])))
  {
    OneServer(sc, s, Certificate([]));
  }

  lemma SignedAnswer(sc: ServerConfig, s: Endpoint, chain: seq<Key>, algorithm: nat, verify: Message)
    requires chain != [] && s.phase == ExpectPeerCertificate && algorithm in sc.signatureAlgorithms
    requires verify == CertificateVerify(algorithm,
                         Signature(chain[0], algorithm, CLIENT_CONTEXT, HashFor(Hashed(s, Certificate(chain)).schedule.suite),
                                   Hashed(s, Certificate(chain)).schedule.transcript))
    ensures ServerAll(sc, s, [Certificate(chain), verify]) ==
            ServerExpectFinished(sc, Hashed(Hashed(s, Certificate(chain)), verify).(peerChain := chain))
  {
    hide ServerAll, ServerStep, ServerExpectFinished;
    var s1 := Hashed(s, Certificate(chain)).(peerChain := chain, phase := ExpectPeerVerify);
    OneServer(sc, s, Certificate(chain));
    OneServer(sc, s1, verify);
    assert [Certificate(chain), verify] == [Certificate(chain)] + [verify];
    ServerAllAppend(sc, s, [Certificate(chain)], [verify]);
    var s2 := Hashed(s1, verify);
    PhaseIsSet(sc, s2, s.phase);
    assert s2.(phase := s.phase) == Hashed(Hashed(s, Certificate(chain)), verify).(peerChain := chain);
    var out := ServerExpectFinished(sc, s2).1;
    assert [] + out == out;
  }

  // ---- From the configurations to the handshake ----

  /** The ticket the server will resume from, judging by the configurations alone. */
  function Resumption(cc: ClientConfig, sc: ServerConfig): Option<Ticket>
    requires WellFormed(cc) && Choose(sc, OfferOf(cc)).Some?
  {
    Resumes(sc, HelloOf(cc), Choose(sc, OfferOf(cc)).value)
  }

  /** The server can choose its parameters, finds a share it can use, and accepts the binder if it resumes. */
  predicate Answerable(cc: ClientConfig, sc: ServerConfig)
    requires WellFormed(cc)
  {
    && Choose(sc, OfferOf(cc)).Some?
    && UsableShare(OfferOf(cc).shares).Some?
    && (Resumption(cc, sc).Some? ==>
          && Resumption(cc, sc).value.secret == cc.ticket.value.secret
          && HashFor(Choose(sc, OfferOf(cc)).value.suite) == HashFor(cc.ticket.value.suite))
  }

  /**
   What a caller can check of two configurations: the server can answer, the client's last key for the group used
   is the one it offered first, and either the server resumes with the ticket's cipher suite and does not ask for
   a client certificate, or the client trusts the server's certificate.
   */
  predicate Compatible(cc: ClientConfig, sc: ServerConfig)
    requires WellFormed(cc)
  {
    && Answerable(cc, sc)
    && PrivateKey(cc.groups, cc.keys, UsableShare(OfferOf(cc).shares).value.group)
         == Some(UsableShare(OfferOf(cc).shares).value.key)
    && match Resumption(cc, sc) {
         case None => cc.trusts([sc.identity.leaf] + sc.identity.above)
         case Some(ticket) => cc.ticket.value.suite == Choose(sc, OfferOf(cc)).value.suite && !sc.requestsCertificate
       }
  }

  lemma BinderMatches(a: Ticket, b: Ticket, s: Suite, t: Suite, offer: Offer)
    ensures BinderOf(a, s, offer) == BinderOf(b, t, offer) <==> a.secret == b.secret && HashFor(s) == HashFor(t)
  {
  }

  /** The server's endpoint after the ClientHello of a client it can answer. */
  function Opened(cc: ClientConfig, sc: ServerConfig): Option<Endpoint>
    requires WellFormed(cc) && Choose(sc, OfferOf(cc)).Some?
  {
    var choice := Choose(sc, OfferOf(cc)).value;
    ServerSchedule(BLANK.(alpn := choice.alpn, pskMode := choice.mode), HelloOf(cc), choice.suite, Resumption(cc, sc))
  }

  function EarlyKeys(cc: ClientConfig, direction: Direction): seq<TrafficKey>
    requires WellFormed(cc)
  {
    if OfferOf(cc).earlyData then
      var schedule := BinderSchedule(cc.ticket.value, cc.ticket.value.suite, OfferOf(cc)).Updated([Tail(HelloOf(cc).binder.value)]);
      EarlyKey(schedule, direction)
    else []
  }

  /** An answerable hello leaves the server on the schedule that the client is prepared for. */
  lemma HelloOpens(cc: ClientConfig, sc: ServerConfig)
    requires WellFormed(cc) && Answerable(cc, sc)
    ensures Opened(cc, sc).Some?
    ensures var s := Opened(cc, sc).value;
            var c := ClientStart(cc).0;
            && !c.phase.Failed? && ClientStart(cc).1 == [HelloOf(cc)]
            && s.resumed == Resumption(cc, sc).Some?
            && s.schedule.suite == Choose(sc, OfferOf(cc)).value.suite
            && s.tickets == [] && s.schedule.generation == 1
            && c.installed == EarlyKeys(cc, Encrypt)
            && Ready(cc, c) && c.phase == ExpectServerHello && !c.resumed
            && (s.resumed ==> c.psk.Some? && c.psk.value.suite == cc.ticket.value.suite)
            && (s.resumed && cc.ticket.value.suite != s.schedule.suite ==> c.psk.value.suite != s.schedule.suite)
            && (s.resumed ==> cc.ticket.value.suite == s.schedule.suite ==> Prepared(cc, c, s) && s.installed == EarlyKeys(cc, Decrypt))
            && (!s.resumed ==> Prepared(cc, c, s) && s.installed == [])
  {
    var offer := OfferOf(cc);
    var choice := Choose(sc, offer).value;
    if Resumption(cc, sc).Some? {
      BinderMatches(cc.ticket.value, Resumption(cc, sc).value, cc.ticket.value.suite, choice.suite, offer);
    }
    assert choice.suite in cc.suites;
  }

  lemma HelloRefused(cc: ClientConfig, sc: ServerConfig)
    requires WellFormed(cc) && !Answerable(cc, sc)
    ensures var (s, out) := ServerAll(sc, BLANK, ClientStart(cc).1);
            out == [] && s.phase in {ExpectClientHello, Failed(Alert), Failed(NoKeyShare)}
            && (s.installed == [] || s.phase == Failed(NoKeyShare))
  {
    hide ServerStep, ServerAll;
    OneServer(sc, BLANK, HelloOf(cc));
    ServerNothing(sc, BLANK);
    var offer := OfferOf(cc);
    if Choose(sc, offer).Some? && Resumption(cc, sc).Some? {
      BinderMatches(cc.ticket.value, Resumption(cc, sc).value, cc.ticket.value.suite, Choose(sc, offer).value.suite, offer);
    }
  }

  lemma ServerNothing(sc: ServerConfig, e: Endpoint)
    ensures ServerAll(sc, e, []) == (e, [])
  {
  }

  // ---- The whole exchange ----

  /** The client's part of being compatible: it will accept everything up to the server's Finished. */
  predicate Acceptable(cc: ClientConfig, sc: ServerConfig)
    requires WellFormed(cc)
  {
    && Answerable(cc, sc)
    && PrivateKey(cc.groups, cc.keys, UsableShare(OfferOf(cc).shares).value.group)
         == Some(UsableShare(OfferOf(cc).shares).value.key)
    && match Resumption(cc, sc) {
         case None => cc.trusts([sc.identity.leaf] + sc.identity.above)
         case Some(_) => cc.ticket.value.suite == Choose(sc, OfferOf(cc)).value.suite
       }
  }

  lemma {:induction false} FailedStays(cc: ClientConfig, e: Endpoint, ms: seq<Message>)
    requires WellFormed(cc) && Ready(cc, e) && e.phase.Failed?
    ensures ClientAll(cc, e, ms) == (e, [])
    decreases |ms|
  {
    hide Ready;
    if ms != [] {
      One(cc, e, ms[0]);
      FailedStays(cc, e, ms[1..]);
    }
  }

  lemma {:induction false} ShareHasKey(groups: seq<Group>, keys: seq<Key>, share: Share)
    requires |groups| == |keys| && share in Shares(groups, keys) && share.group in EXCHANGE_GROUPS
    ensures share.group in groups
  {
    if groups != [] && share in Shares(groups[1..], keys[1..]) {
      ShareHasKey(groups[1..], keys[1..], share);
    }
  }

  lemma {:induction false} GroupHasKey(groups: seq<Group>, keys: seq<Key>, group: Group)
    requires |groups| == |keys| && group in groups && group in EXCHANGE_GROUPS
    ensures PrivateKey(groups, keys, group).Some?
  {
    var n := |groups| - 1;
    if groups[n] != group {
      assert groups == groups[..n] + [groups[n]];
      GroupHasKey(groups[..n], keys[..n], group);
    }
  }

  /** What the server sends on an answerable hello. */
  lemma ServerAnswers(cc: ClientConfig, sc: ServerConfig)
    requires WellFormed(cc) && Answerable(cc, sc)
    ensures var share := UsableShare(OfferOf(cc).shares).value;
            var choice := Choose(sc, OfferOf(cc)).value;
            && Opened(cc, sc).Some? && PrivateKey(cc.groups, cc.keys, share.group).Some?
            && choice.algorithm in cc.signatureAlgorithms
            && ServerAll(sc, BLANK, ClientStart(cc).1) ==
                 var (s1, certified) := ServerCertified(sc, Opened(cc, sc).value, share, choice.algorithm);
                 var (s2, closing) := ServerFinish(sc, s1);
                 (s2, certified + closing)
  {
    hide ServerStep, ServerAll, ServerCertified, ServerFinish;
    HelloOpens(cc, sc);
    OneServer(sc, BLANK, HelloOf(cc));
    var share := UsableShare(OfferOf(cc).shares).value;
    ShareHasKey(cc.groups, cc.keys, share);
    GroupHasKey(cc.groups, cc.keys, share.group);
  }

  /** A client that will not accept gives up without an answer. */
  lemma ClientRejects(cc: ClientConfig, sc: ServerConfig)
    requires WellFormed(cc) && Answerable(cc, sc) && !Acceptable(cc, sc)
    ensures Ready(cc, ClientStart(cc).0)
    ensures var (c, out) := ClientAll(cc, ClientStart(cc).0, ServerAll(sc, BLANK, ClientStart(cc).1).1);
            c.phase == Failed(Alert) && out == []
  {
    hide ClientAll, ServerAll, ServerStep, ServerFinish, PrivateKey, Ready;
    HelloOpens(cc, sc);
    ServerAnswers(cc, sc);
    var share, choice := UsableShare(OfferOf(cc).shares).value, Choose(sc, OfferOf(cc)).value;
    var c, s := ClientStart(cc).0, Opened(cc, sc).value;
    var (s1, certified) := ServerCertified(sc, s, share, choice.algorithm);
    var closing := ServerFinish(sc, s1).1;
    if s.resumed && cc.ticket.value.suite != s.schedule.suite {
      hide Opened, ClientStart;
      OtherSuiteRejected(cc, sc, c, s, share, choice.algorithm, closing);
    } else {
      hide Opened, ClientStart;
      CertifiedHandled(cc, sc, c, s, share, choice.algorithm);
      ClientAllAppend(cc, c, certified, closing);
      var c1 := ClientAll(cc, c, certified).0;
      if c1.phase.Failed? {
        FailedStays(cc, c1, closing);
      } else {
        FinishRejected(cc, sc, c1, s1);
      }
    }
  }

  lemma OtherSuiteRejected(cc: ClientConfig, sc: ServerConfig, c: Endpoint, s: Endpoint, share: Share, algorithm: nat,
                           closing: seq<Message>)
    requires WellFormed(cc) && Ready(cc, c) && c.phase == ExpectServerHello
    requires s.resumed && c.psk.Some? && c.psk.value.suite != s.schedule.suite
    ensures ClientAll(cc, c, ServerCertified(sc, s, share, algorithm).1 + closing) == (Fail(c, Alert).0, [])
  {
    hide ClientAll, Ready;
    var (_, hello) := ServerKeys(sc, s, share);
    var all := ServerCertified(sc, s, share, algorithm).1 + closing;
    assert all == [hello] + all[1..];
    ClientAllAppend(cc, c, [hello], all[1..]);
    One(cc, c, hello);
    FailedStays(cc, Fail(c, Alert).0, all[1..]);
  }

  lemma FinishRejected(cc: ClientConfig, sc: ServerConfig, c: Endpoint, s: Endpoint)
    requires WellFormed(cc) && Ready(cc, c) && c.phase == ExpectPeerFinished
    requires c.schedule.transcript == s.schedule.transcript && c.dec != s.enc
    ensures ClientAll(cc, c, ServerFinish(sc, s).1) == (Fail(c, Alert).0, [])
  {
    hide ClientAll, Ready, ServerExpectFinished;
    var m := Finished(s.schedule.FinishedData(s.enc));
    var all := ServerFinish(sc, s).1;
    assert all == [m] + all[1..];
    ClientAllAppend(cc, c, [m], all[1..]);
    One(cc, c, m);
    WrongSecretRejected(cc, c, s);
    FailedStays(cc, Fail(c, Alert).0, all[1..]);
  }

  function Opposite(d: Direction): Direction { if d == Encrypt then Decrypt else Encrypt }

  /** The keys as the other side should hold them. */
  function Mirror(keys: seq<TrafficKey>): seq<TrafficKey> {
    seq(|keys|, i requires 0 <= i < |keys| => keys[i].(direction := Opposite(keys[i].direction)))
  }

  /** A server's keys in the order it installs them. */
  predicate ServerOrder(keys: seq<TrafficKey>, early: bool) {
    var rest := if early && |keys| > 0 then keys[1..] else keys;
    && (early ==> |keys| > 0 && keys[0].epoch == ZeroRtt && keys[0].direction == Decrypt)
    && |rest| == 4
    && rest[0].epoch == rest[1].epoch == Handshake && rest[2].epoch == rest[3].epoch == OneRtt
    && rest[0].direction == rest[2].direction == Encrypt && rest[1].direction == rest[3].direction == Decrypt
  }

  /** How a completed handshake looks. */
  predicate Success(cc: ClientConfig, sc: ServerConfig, c: Endpoint, s: Endpoint)
    requires WellFormed(cc) && Answerable(cc, sc)
  {
    var early := Resumption(cc, sc).Some? && OfferOf(cc).earlyData;
    && c.phase == s.phase == PostHandshake
    && c.schedule == s.schedule
    && c.installed == (if Resumption(cc, sc).Some? then [] else EarlyKeys(cc, Encrypt)) + Mirror(s.installed)
    && ServerOrder(s.installed, early)
    && (forall k | k in s.installed :: k.suite == s.schedule.suite)
    && (cc.wantsTickets ==> c.tickets == s.tickets)
  }

  /** The two logs of keys, put together from their epochs. */
  lemma KeysMirrored(cc: ClientConfig, resumed: bool, suite: Suite, d: Term, u: Term, dd: Term, uu: Term,
                     c: seq<TrafficKey>, s: seq<TrafficKey>)
    requires WellFormed(cc) && (resumed ==> OfferOf(cc).ticket.Some? && cc.ticket.value.suite == suite)
    requires c == EarlyKeys(cc, Encrypt) + EpochKeys(Handshake, Decrypt, Encrypt, suite, d, u)
                  + EpochKeys(OneRtt, Decrypt, Encrypt, suite, dd, uu)
    requires s == (if resumed then EarlyKeys(cc, Decrypt) else []) + EpochKeys(Handshake, Encrypt, Decrypt, suite, d, u)
                  + EpochKeys(OneRtt, Encrypt, Decrypt, suite, dd, uu)
    ensures c == (if resumed then [] else EarlyKeys(cc, Encrypt)) + Mirror(s)
    ensures ServerOrder(s, resumed && OfferOf(cc).earlyData) && forall k | k in s :: k.suite == suite
  {
    var early := if resumed then EarlyKeys(cc, Decrypt) else [];
    assert EarlyKeys(cc, Encrypt) == (if resumed then [] else EarlyKeys(cc, Encrypt)) + Mirror(early);
    assert s == early + [TrafficKey(Encrypt, Handshake, suite, d), TrafficKey(Decrypt, Handshake, suite, u),
                         TrafficKey(Encrypt, OneRtt, suite, dd), TrafficKey(Decrypt, OneRtt, suite, uu)];
    hide OfferOf;
  }

  /** After the server's Finished, when no client certificate is asked for. */
  lemma ClosedWithoutRequest(cc: ClientConfig, sc: ServerConfig, c: Endpoint, s: Endpoint)
    requires WellFormed(cc) && Ready(cc, c) && c.phase == ExpectPeerFinished && Twins(c, s) && c.schedule.generation == 2
    requires c.tickets == s.tickets == [] && c.request.None? && !sc.requestsCertificate
    ensures var (s1, closing) := ServerFinish(sc, s);
            var (c1, out) := ClientAll(cc, c, closing);
            var (s2, none) := ServerAll(sc, s1, out);
            && none == [] && c1.phase == s2.phase == PostHandshake && c1.schedule == s2.schedule
            && c1.schedule.suite == c.schedule.suite
            && (exists down, up ::
                  && c1.installed == c.installed + EpochKeys(OneRtt, Decrypt, Encrypt, c.schedule.suite, down, up)
                  && s2.installed == s.installed + EpochKeys(OneRtt, Encrypt, Decrypt, c.schedule.suite, down, up))
            && (cc.wantsTickets ==> c1.tickets == s2.tickets)
  {
    hide ClientAll, ServerAll, ServerExpectFinished, ServerFinish, ClientHandleFinished, ClientLast;
    var m := Finished(s.schedule.FinishedData(s.enc));
    FinishHandled(cc, sc, c, s);
    var c1, s1 := ClientMiddle(c, m), ServerMiddle(s);
    var ticket := ServerExpectFinished(sc, s1).1;
    ClientAllAppend(cc, c, [m], ticket);
    One(cc, c, m);
    LastHandled(cc, sc, c1, s1);
    assert ClientCertificate(cc, c1) == (c1, []);
    assert [] + [ClientLast(c1, s1.nextDec).1] + [] == [ClientLast(c1, s1.nextDec).1];
    TwoKeys(c.installed, Decrypt, Encrypt, c.schedule.suite, c1.dec, s1.nextDec);
    TwoKeys(s.installed, Encrypt, Decrypt, c.schedule.suite, c1.dec, s1.nextDec);
  }

  lemma TwoKeys(k: seq<TrafficKey>, a: Direction, b: Direction, suite: Suite, down: Term, up: Term)
    ensures k + [TrafficKey(a, OneRtt, suite, down)] + [TrafficKey(b, OneRtt, suite, up)] ==
            k + EpochKeys(OneRtt, a, b, suite, down, up)
  {
  }

  /** After the server's Finished, when a client certificate is asked for. */
  lemma ClosedWithRequest(cc: ClientConfig, sc: ServerConfig, c: Endpoint, s: Endpoint)
    requires WellFormed(cc) && Ready(cc, c) && c.phase == ExpectPeerFinished && Twins(c, s) && c.schedule.generation == 2
    requires c.tickets == s.tickets == [] && c.request == Some(sc.signatureAlgorithms) && sc.requestsCertificate
    ensures var (s1, closing) := ServerFinish(sc, s);
            var (c1, answer) := ClientAll(cc, c, closing);
            var (s2, ticket) := ServerAll(sc, s1, answer);
            var (c2, none) := ClientAll(cc, c1, ticket);
            && none == [] && c2.phase == s2.phase == PostHandshake && c2.schedule == s2.schedule
            && c2.schedule.suite == c.schedule.suite
            && (exists down, up ::
                  && c2.installed == c.installed + EpochKeys(OneRtt, Decrypt, Encrypt, c.schedule.suite, down, up)
                  && s2.installed == s.installed + EpochKeys(OneRtt, Encrypt, Decrypt, c.schedule.suite, down, up))
            && (cc.wantsTickets ==> c2.tickets == s2.tickets)
  {
    hide ClientAll, ServerAll, ServerExpectFinished, ServerFinish, ClientHandleFinished, ClientLast, ClientCertificate;
    var m := Finished(s.schedule.FinishedData(s.enc));
    FinishHandled(cc, sc, c, s);
    var c1, s1 := ClientMiddle(c, m), ServerMiddle(s).(phase := ExpectPeerCertificate);
    One(cc, c, m);
    AnswerHandled(cc, sc, c1, s1);
    var (c2, certificates) := ClientCertificate(cc, c1);
    var s2 := ServerAll(sc, s1, certificates).0;
    var x := s1.(schedule := c2.schedule, peerChain := s2.peerChain);
    LastHandled(cc, sc, c2, x);
    var last := ClientLast(c2, s1.nextDec).1;
    ServerAllAppend(sc, s1, certificates, [last]);
    var ticket := ServerExpectFinished(sc, x).1;
    assert ticket + [] == ticket;
    TwoKeys(c.installed, Decrypt, Encrypt, c.schedule.suite, c1.dec, s1.nextDec);
    TwoKeys(s.installed, Encrypt, Decrypt, c.schedule.suite, c1.dec, s1.nextDec);
  }

  /** A resuming server that waits for a certificate gets the client's Finished instead. */
  lemma ClosedWaiting(cc: ClientConfig, sc: ServerConfig, c: Endpoint, s: Endpoint)
    requires WellFormed(cc) && Ready(cc, c) && c.phase == ExpectPeerFinished && Twins(c, s) && c.schedule.generation == 2
    requires c.request.None? && sc.requestsCertificate
    ensures var (s1, closing) := ServerFinish(sc, s);
            var (c1, answer) := ClientAll(cc, c, closing);
            var (s2, out) := ServerAll(sc, s1, answer);
            s2.phase == Failed(Alert) && c1.phase == PostHandshake && out == []
  {
    hide ClientAll, ServerAll, ServerExpectFinished, ServerFinish, ClientHandleFinished;
    var m := Finished(s.schedule.FinishedData(s.enc));
    FinishHandled(cc, sc, c, s);
    var c1, s1 := ClientMiddle(c, m), ServerMiddle(s).(phase := ExpectPeerCertificate);
    One(cc, c, m);
    assert ClientCertificate(cc, c1) == (c1, []);
    var last := ClientLast(c1, s1.nextDec).1;
    assert [] + [last] == [last];
    OneServer(sc, s1, last);
  }

  /** Flight, answer, and whatever is still to be said, each side reading all it is sent before it answers. */
  datatype Transcript = Transcript(client: Endpoint, server: Endpoint, toClient: seq<Message>, toServer: seq<Message>,
                                   unsaid: seq<Message>)

  function Exchange(cc: ClientConfig, sc: ServerConfig): (t: Transcript)
    requires WellFormed(cc)
  {
    var (c0, hello) := ClientStart(cc);
    if c0.phase.Failed? then Transcript(c0, BLANK, [], [], [])
    else
      var (s1, flight) := ServerAll(sc, BLANK, hello);
      var (c1, answer) := ClientAll(cc, c0, flight);
      var (s2, last) := ServerAll(sc, s1, answer);
      var (c2, unsaid) := ClientAll(cc, c1, last);
      Transcript(c2, s2, flight + last, hello + answer, unsaid)
  }

  predicate BothDone(c: Endpoint, s: Endpoint) { c.phase == PostHandshake && s.phase == PostHandshake }

  predicate AssertionsHold(c: Endpoint, s: Endpoint) {
    c.phase != Failed(GenerationAssert) && s.phase != Failed(GenerationAssert)
  }

  /** The exchange ends with nothing left to say, completes exactly for compatible configurations, and agrees then. */
  lemma ExchangeOutcome(cc: ClientConfig, sc: ServerConfig)
    requires WellFormed(cc)
    ensures var t := Exchange(cc, sc);
            && t.unsaid == []
            && AssertionsHold(t.client, t.server)
            && (BothDone(t.client, t.server) <==> Compatible(cc, sc))
            && (Compatible(cc, sc) ==> Success(cc, sc, t.client, t.server))
  {
    hide ClientAll, ServerAll, ServerStep, ServerFinish, PrivateKey, Success, Ready;
    if ClientStart(cc).0.phase.Failed? {
      NoSharesNoAnswer(cc, sc);
    } else if !Answerable(cc, sc) {
      HelloRefused(cc, sc);
      StartReady(cc);
      ClientNothing(cc, ClientStart(cc).0);
      ServerNothing(sc, ServerAll(sc, BLANK, ClientStart(cc).1).0);
    } else if !Acceptable(cc, sc) {
      RejectedOutcome(cc, sc);
    } else if Compatible(cc, sc) {
      AcceptedOutcome(cc, sc);
      SuccessIsDone(cc, sc, Exchange(cc, sc).client, Exchange(cc, sc).server);
    } else {
      StalledOutcome(cc, sc);
    }
  }

  lemma SuccessIsDone(cc: ClientConfig, sc: ServerConfig, c: Endpoint, s: Endpoint)
    requires WellFormed(cc) && Answerable(cc, sc) && Success(cc, sc, c, s)
    ensures BothDone(c, s)
  {
  }

  lemma StartReady(cc: ClientConfig)
    requires WellFormed(cc)
    ensures !ClientStart(cc).0.phase.Failed? ==> Ready(cc, ClientStart(cc).0) && ClientStart(cc).0.phase == ExpectServerHello
  {
  }

  lemma NoSharesNoAnswer(cc: ClientConfig, sc: ServerConfig)
    requires WellFormed(cc) && ClientStart(cc).0.phase.Failed?
    ensures !Answerable(cc, sc) && ClientStart(cc).0.phase == Failed(NoKeyShare)
  {
    hide Choose, Resumes;
  }

  /** The server's own assertion holds whatever the client makes of its flight. */
  lemma ServerGeneration(sc: ServerConfig, s: Endpoint, share: Share, algorithm: nat)
    requires s.schedule.generation == 1
    ensures var s1 := ServerCertified(sc, s, share, algorithm).0;
            && s1.schedule.generation == 2
            && ServerFinish(sc, s1).0.phase == if sc.requestsCertificate then ExpectPeerCertificate else ExpectPeerFinished
  {
  }

  lemma RejectedOutcome(cc: ClientConfig, sc: ServerConfig)
    requires WellFormed(cc) && Answerable(cc, sc) && !Acceptable(cc, sc)
    ensures var t := Exchange(cc, sc);
            t.unsaid == [] && t.client.phase == Failed(Alert) && AssertionsHold(t.client, t.server)
  {
    hide ClientAll, ServerAll, ServerStep, ServerCertified, ServerFinish, PrivateKey, Ready, Acceptable;
    ClientRejects(cc, sc);
    StartReady(cc);
    HelloOpens(cc, sc);
    ServerAnswers(cc, sc);
    var share, choice := UsableShare(OfferOf(cc).shares).value, Choose(sc, OfferOf(cc)).value;
    ServerGeneration(sc, Opened(cc, sc).value, share, choice.algorithm);
    hide Opened, ClientStart, Answerable;
    var s1 := ServerAll(sc, BLANK, ClientStart(cc).1).0;
    ServerNothing(sc, s1);
    ClientNothing(cc, ClientAll(cc, ClientStart(cc).0, ServerAll(sc, BLANK, ClientStart(cc).1).1).0);
  }

  /** The state just before the server's Finished, on both sides. */
  lemma BeforeFinished(cc: ClientConfig, sc: ServerConfig) returns (c: Endpoint, s: Endpoint, certified: seq<Message>)
    requires WellFormed(cc) && Acceptable(cc, sc)
    ensures Ready(cc, c) && c.phase == ExpectPeerFinished && Twins(c, s) && c.schedule.generation == 2
    ensures c.tickets == s.tickets == []
    ensures c.request == (if Resumption(cc, sc).None? && sc.requestsCertificate then Some(sc.signatureAlgorithms) else None)
    ensures exists down, up ::
              && c.installed == EarlyKeys(cc, Encrypt) + EpochKeys(Handshake, Decrypt, Encrypt, c.schedule.suite, down, up)
              && s.installed == (if Resumption(cc, sc).Some? then EarlyKeys(cc, Decrypt) else [])
                                + EpochKeys(Handshake, Encrypt, Decrypt, c.schedule.suite, down, up)
    ensures Resumption(cc, sc).Some? ==> OfferOf(cc).ticket.Some? && cc.ticket.value.suite == c.schedule.suite
    ensures !ClientStart(cc).0.phase.Failed?
    ensures ServerAll(sc, BLANK, ClientStart(cc).1) == (ServerFinish(sc, s).0, certified + ServerFinish(sc, s).1)
    ensures Ready(cc, ClientStart(cc).0) && ClientAll(cc, ClientStart(cc).0, certified) == (c, [])
  {
    hide ClientAll, ServerAll, ServerStep, ServerCertified, ServerFinish, PrivateKey, Ready;
    HelloOpens(cc, sc);
    ServerAnswers(cc, sc);
    var share, choice := UsableShare(OfferOf(cc).shares).value, Choose(sc, OfferOf(cc)).value;
    var c0, s0 := ClientStart(cc).0, Opened(cc, sc).value;
    assert Accepts(cc, sc, s0);
    assert Prepared(cc, c0, s0);
    CertifiedHandled(cc, sc, c0, s0, share, choice.algorithm);
    s, certified := ServerCertified(sc, s0, share, choice.algorithm).0, ServerCertified(sc, s0, share, choice.algorithm).1;
    c := ClientAll(cc, c0, certified).0;
  }

  /** A resuming server that asks for a certificate ends up rejecting the client's Finished. */
  lemma StalledOutcome(cc: ClientConfig, sc: ServerConfig)
    requires WellFormed(cc) && Acceptable(cc, sc) && !Compatible(cc, sc)
    ensures var t := Exchange(cc, sc);
            t.unsaid == [] && t.client.phase == PostHandshake && t.server.phase == Failed(Alert)
  {
    hide ClientAll, ServerAll, ServerStep, ServerCertified, ServerFinish, PrivateKey, Ready, Twins, ClientStart, Resumes, EarlyKeys;
    var c, s, certified := BeforeFinished(cc, sc);
    var (s1, closing) := ServerFinish(sc, s);
    ClientAllAppend(cc, ClientStart(cc).0, certified, closing);
    var (c1, answer) := ClientAll(cc, c, closing);
    assert [] + answer == answer;
    ClosedWaiting(cc, sc, c, s);
    ClientNothing(cc, c1);
  }

  /** Both ways to close, with or without a client certificate. */
  lemma Closed(cc: ClientConfig, sc: ServerConfig, c: Endpoint, s: Endpoint)
    requires WellFormed(cc) && Ready(cc, c) && c.phase == ExpectPeerFinished && Twins(c, s) && c.schedule.generation == 2
    requires c.tickets == s.tickets == []
    requires c.request == if sc.requestsCertificate then Some(sc.signatureAlgorithms) else None
    ensures var (s1, closing) := ServerFinish(sc, s);
            var (c1, answer) := ClientAll(cc, c, closing);
            var (s2, ticket) := ServerAll(sc, s1, answer);
            var (c2, none) := ClientAll(cc, c1, ticket);
            && none == [] && c2.phase == s2.phase == PostHandshake && c2.schedule == s2.schedule
            && c2.schedule.suite == c.schedule.suite
            && (exists down, up ::
                  && c2.installed == c.installed + EpochKeys(OneRtt, Decrypt, Encrypt, c.schedule.suite, down, up)
                  && s2.installed == s.installed + EpochKeys(OneRtt, Encrypt, Decrypt, c.schedule.suite, down, up))
            && (cc.wantsTickets ==> c2.tickets == s2.tickets)
  {
    hide ClientAll, ServerAll, ServerFinish, Ready, Twins, EpochKeys;
    if sc.requestsCertificate {
      ClosedWithRequest(cc, sc, c, s);
    } else {
      ClosedWithoutRequest(cc, sc, c, s);
      ClientNothing(cc, ClientAll(cc, c, ServerFinish(sc, s).1).0);
    }
  }

  lemma AcceptedOutcome(cc: ClientConfig, sc: ServerConfig)
    requires WellFormed(cc) && Compatible(cc, sc)
    ensures var t := Exchange(cc, sc); t.unsaid == [] && Success(cc, sc, t.client, t.server)
  {
    hide ClientAll, ServerAll, ServerStep, ServerCertified, ServerFinish, PrivateKey, Ready, Twins, ClientStart, Resumes, EarlyKeys;
    hide EpochKeys, Choose, OfferOf, Mirror, ServerOrder;
    var c, s, certified := BeforeFinished(cc, sc);
    var (s1, closing) := ServerFinish(sc, s);
    ClientAllAppend(cc, ClientStart(cc).0, certified, closing);
    var (c1, answer) := ClientAll(cc, c, closing);
    assert [] + answer == answer;
    var (s2, last) := ServerAll(sc, s1, answer);
    Closed(cc, sc, c, s);
    var c2 := ClientAll(cc, c1, last).0;
    var d, u :| c.installed == EarlyKeys(cc, Encrypt) + EpochKeys(Handshake, Decrypt, Encrypt, c.schedule.suite, d, u)
            && s.installed == (if Resumption(cc, sc).Some? then EarlyKeys(cc, Decrypt) else [])
                              + EpochKeys(Handshake, Encrypt, Decrypt, c.schedule.suite, d, u);
    var dd, uu :| c2.installed == c.installed + EpochKeys(OneRtt, Decrypt, Encrypt, c.schedule.suite, dd, uu)
              && s2.installed == s.installed + EpochKeys(OneRtt, Encrypt, Decrypt, c.schedule.suite, dd, uu);
    KeysMirrored(cc, Resumption(cc, sc).Some?, c.schedule.suite, d, u, dd, uu, c2.installed, s2.installed);
  }

  // ---- Every order of delivery ----

  lemma ClientMonotone(cc: ClientConfig, a: System, b: System)
    requires WellFormed(cc) && a.toClient <= b.toClient
    ensures Client(cc, a).1 <= Client(cc, b).1
    ensures !ClientStart(cc).0.phase.Failed? ==>
              Ready(cc, Client(cc, a).0)
              && Client(cc, b).0 == ClientAll(cc, Client(cc, a).0, b.toClient[|a.toClient|..]).0
  {
    hide ClientAll, ClientStart, Ready;
    StartReady(cc);
    var (e, out) := ClientStart(cc);
    if !e.phase.Failed? {
      var rest := b.toClient[|a.toClient|..];
      assert b.toClient == a.toClient + rest;
      ClientAllAppend(cc, e, a.toClient, rest);
      var x, y := ClientAll(cc, e, a.toClient).1, ClientAll(cc, ClientAll(cc, e, a.toClient).0, rest).1;
      assert out + (x + y) == (out + x) + y;
    }
  }

  lemma ServerMonotone(sc: ServerConfig, a: System, b: System)
    requires a.toServer <= b.toServer
    ensures Server(sc, a).1 <= Server(sc, b).1
    ensures Server(sc, b).0 == ServerAll(sc, Server(sc, a).0, b.toServer[|a.toServer|..]).0
  {
    var rest := b.toServer[|a.toServer|..];
    assert b.toServer == a.toServer + rest;
    ServerAllAppend(sc, BLANK, a.toServer, rest);
  }

  function End(cc: ClientConfig, sc: ServerConfig): System
    requires WellFormed(cc)
  {
    System(Exchange(cc, sc).toClient, Exchange(cc, sc).toServer)
  }

  /** The exchange that waits for all messages ends in a quiet state. */
  lemma EndIsQuiet(cc: ClientConfig, sc: ServerConfig)
    requires WellFormed(cc)
    ensures Quiet(cc, sc, End(cc, sc))
    ensures Client(cc, End(cc, sc)).0 == Exchange(cc, sc).client && Server(sc, End(cc, sc)).0 == Exchange(cc, sc).server
  {
    hide ClientAll, ServerAll, ClientStart, Ready;
    StartReady(cc);
    ExchangeOutcome(cc, sc);
    var (c0, hello) := ClientStart(cc);
    if c0.phase.Failed? {
      ServerNothing(sc, BLANK);
      assert hello == [] by { NoSharesNoHello(cc); }
    } else {
      var (s1, flight) := ServerAll(sc, BLANK, hello);
      var (c1, answer) := ClientAll(cc, c0, flight);
      var (s2, last) := ServerAll(sc, s1, answer);
      ServerAllAppend(sc, BLANK, hello, answer);
      ClientAllAppend(cc, c0, flight, last);
      assert answer + [] == answer;
    }
  }

  lemma NoSharesNoHello(cc: ClientConfig)
    requires WellFormed(cc) && ClientStart(cc).0.phase.Failed?
    ensures ClientStart(cc).1 == []
  {
  }

  predicate Below(a: System, b: System) { a.toClient <= b.toClient && a.toServer <= b.toServer }

  lemma PrefixTrans(a: seq<Message>, b: seq<Message>, c: seq<Message>)
    requires a <= b <= c
    ensures a <= c
  {
  }

  lemma DeliveryStaysBelow(cc: ClientConfig, sc: ServerConfig, a: System, b: System)
    requires WellFormed(cc) && Delivers(cc, sc, a, b) && Below(a, End(cc, sc))
    ensures Below(b, End(cc, sc))
    ensures |b.toClient| + |b.toServer| == |a.toClient| + |a.toServer| + 1
  {
    hide Client, Server, End;
    EndIsQuiet(cc, sc);
    var end := End(cc, sc);
    ClientMonotone(cc, a, end);
    ServerMonotone(sc, a, end);
    if b.toServer == a.toServer {
      PrefixTrans(b.toClient, Server(sc, a).1, Server(sc, end).1);
    } else {
      PrefixTrans(b.toServer, Client(cc, a).1, Client(cc, end).1);
    }
  }

  /** No order of delivery gets past the end of the exchange. */
  lemma {:induction false} RunsStayBelow(cc: ClientConfig, sc: ServerConfig, run: seq<System>)
    requires WellFormed(cc) && Run(cc, sc, run)
    ensures Below(run[|run| - 1], End(cc, sc))
    ensures |run| - 1 == |run[|run| - 1].toClient| + |run[|run| - 1].toServer|
    decreases |run|
  {
    hide Delivers, End;
    if |run| > 1 {
      var before := run[..|run| - 1];
      RunsStayBelow(cc, sc, before);
      hide Below;
      DeliveryStaysBelow(cc, sc, run[|run| - 2], run[|run| - 1]);
    }
  }

  /** A quiet state has caught up with the exchange. */
  lemma QuietIsEnd(cc: ClientConfig, sc: ServerConfig, sys: System)
    requires WellFormed(cc) && Below(sys, End(cc, sc)) && Quiet(cc, sc, sys)
    ensures sys == End(cc, sc)
  {
    hide ClientAll, ServerAll, ClientStart, Ready;
    StartReady(cc);
    EndIsQuiet(cc, sc);
    var (c0, hello) := ClientStart(cc);
    if !c0.phase.Failed? {
      var flight := ServerAll(sc, BLANK, hello).1;
      assert hello + [] == hello;
      ClientNothing(cc, c0);
      ClientMonotone(cc, System([], []), sys);
      ServerMonotone(sc, System([], hello), sys);
      ClientMonotone(cc, System(flight, hello), sys);
      var answer := ClientAll(cc, c0, flight).1;
      ServerAllAppend(sc, BLANK, hello, answer);
      ServerMonotone(sc, System(flight, hello + answer), sys);
    } else {
      NoSharesNoHello(cc);
    }
  }

  /** What a side has received was sent by the other. */
  lemma {:induction false} ReceivedWasSent(cc: ClientConfig, sc: ServerConfig, run: seq<System>)
    requires WellFormed(cc) && Run(cc, sc, run)
    ensures var sys := run[|run| - 1]; sys.toClient <= Server(sc, sys).1 && sys.toServer <= Client(cc, sys).1
    decreases |run|
  {
    hide Client, Server;
    if |run| > 1 {
      var before := run[..|run| - 1];
      ReceivedWasSent(cc, sc, before);
      var a, b := run[|run| - 2], run[|run| - 1];
      assert Delivers(cc, sc, a, b);
      ClientMonotone(cc, a, b);
      ServerMonotone(sc, a, b);
    }
  }

  /** While something is on its way, something can arrive. */
  lemma SomethingArrives(cc: ClientConfig, sc: ServerConfig, run: seq<System>)
    requires WellFormed(cc) && Run(cc, sc, run) && !Quiet(cc, sc, run[|run| - 1])
    ensures exists next :: Run(cc, sc, run + [next])
  {
    hide Client, Server;
    ReceivedWasSent(cc, sc, run);
    var sys := run[|run| - 1];
    var sent, answered := Server(sc, sys).1, Client(cc, sys).1;
    var next := if |sys.toClient| < |sent| then System(sent[..|sys.toClient| + 1], sys.toServer)
                else System(sys.toClient, answered[..|sys.toServer| + 1]);
    assert Delivers(cc, sc, sys, next);
    assert Run(cc, sc, run + [next]) by {
      forall i | 0 < i < |run + [next]|
        ensures Delivers(cc, sc, (run + [next])[i - 1], (run + [next])[i])
      {
        if i < |run| { assert Delivers(cc, sc, run[i - 1], run[i]); }
      }
    }
  }

  /** No run gets stuck: every run goes on to one with nothing left to deliver. */
  lemma {:induction false} RunsComplete(cc: ClientConfig, sc: ServerConfig, run: seq<System>)
    requires WellFormed(cc) && Run(cc, sc, run)
    ensures exists whole :: run <= whole && Run(cc, sc, whole) && Quiet(cc, sc, whole[|whole| - 1])
    decreases |End(cc, sc).toClient| + |End(cc, sc).toServer| + 1 - |run|
  {
    RunsStayBelow(cc, sc, run);
    hide Quiet, End;
    if !Quiet(cc, sc, run[|run| - 1]) {
      SomethingArrives(cc, sc, run);
      hide Run;
      var next :| Run(cc, sc, run + [next]);
      RunsStayBelow(cc, sc, run + [next]);
      RunsComplete(cc, sc, run + [next]);
      var whole :| run + [next] <= whole && Run(cc, sc, whole) && Quiet(cc, sc, whole[|whole| - 1]);
      assert run <= run + [next] <= whole;
    }
  }

  // ---- Logs of keys only grow ----

  lemma ClientFinishGrows(cc: ClientConfig, e: Endpoint, m: Message)
    requires m.Finished?
    ensures e.installed <= ClientHandleFinished(cc, e, m).0.installed
  {
    hide Negotiate;
  }

  lemma ClientHelloGrows(cc: ClientConfig, e: Endpoint, m: Message)
    requires WellFormed(cc) && Ready(cc, e) && m.ServerHello?
    ensures e.installed <= ClientHandleHello(cc, e, m).0.installed
  {
    hide PrivateKey;
  }

  lemma ClientLogGrows(cc: ClientConfig, e: Endpoint, m: Message)
    requires WellFormed(cc) && Ready(cc, e)
    ensures e.installed <= ClientStep(cc, e, m).0.installed
    ensures e.phase.Failed? ==> ClientStep(cc, e, m).0 == e
  {
    hide ClientHandleFinished, ClientHandleHello;
    if m.Finished? { ClientFinishGrows(cc, e, m); }
    if m.ServerHello? { ClientHelloGrows(cc, e, m); }
  }

  lemma ExpectFinishedKeepsLog(sc: ServerConfig, e: Endpoint)
    ensures ServerExpectFinished(sc, e).0.installed == e.installed
  {
  }

  lemma ServerFlightGrows(sc: ServerConfig, e: Endpoint, share: Share, algorithm: nat)
    ensures e.installed <= ServerCertified(sc, e, share, algorithm).0.installed
  {
  }

  lemma ServerFinishGrows(sc: ServerConfig, e: Endpoint)
    ensures e.installed <= ServerFinish(sc, e).0.installed
  {
    hide ServerExpectFinished;
    ExpectFinishedKeepsLog(sc, ServerMiddle(e));
  }

  lemma ServerHelloGrows(sc: ServerConfig, e: Endpoint, m: Message)
    requires m.ClientHello?
    ensures e.installed <= ServerHandleHello(sc, e, m).0.installed
  {
    hide Choose, BinderOf, Resumes, UsableShare, ServerCertified, ServerFinish;
    var choice := Choose(sc, m.offer);
    if choice.Some? {
      var s := ServerSchedule(e.(alpn := choice.value.alpn, pskMode := choice.value.mode), m, choice.value.suite,
                              Resumes(sc, m, choice.value));
      var share := UsableShare(m.offer.shares);
      if s.Some? && share.Some? {
        ServerFlightGrows(sc, s.value, share.value, choice.value.algorithm);
        ServerFinishGrows(sc, ServerCertified(sc, s.value, share.value, choice.value.algorithm).0);
      }
    }
  }

  lemma ServerLogGrows(sc: ServerConfig, e: Endpoint, m: Message)
    ensures e.installed <= ServerStep(sc, e, m).0.installed
    ensures e.phase.Failed? ==> ServerStep(sc, e, m).0 == e
  {
    hide ServerHandleHello, ServerExpectFinished;
    if m.ClientHello? { ServerHelloGrows(sc, e, m); }
    ExpectFinishedKeepsLog(sc, Hashed(e, m));
    if m.Certificate? { ExpectFinishedKeepsLog(sc, Hashed(e, m)); }
  }

  lemma {:induction false} ClientPrefix(cc: ClientConfig, e: Endpoint, ms: seq<Message>)
    requires WellFormed(cc) && Ready(cc, e)
    ensures e.installed <= ClientAll(cc, e, ms).0.installed
    ensures e.phase.Failed? ==> ClientAll(cc, e, ms).0 == e
    decreases |ms|
  {
    hide ClientStep, Ready;
    if ms != [] {
      ClientLogGrows(cc, e, ms[0]);
      ClientPrefix(cc, ClientStep(cc, e, ms[0]).0, ms[1..]);
    }
  }

  lemma {:induction false} ServerPrefix(sc: ServerConfig, e: Endpoint, ms: seq<Message>)
    ensures e.installed <= ServerAll(sc, e, ms).0.installed
    ensures e.phase.Failed? ==> ServerAll(sc, e, ms).0 == e
    decreases |ms|
  {
    hide ServerStep;
    if ms != [] {
      ServerLogGrows(sc, e, ms[0]);
      ServerPrefix(sc, ServerStep(sc, e, ms[0]).0, ms[1..]);
    }
  }

  /** Keys of one epoch and direction of travel have one secret and one cipher suite. */
  predicate KeysAgree(c: seq<TrafficKey>, s: seq<TrafficKey>) {
    forall i, j :: 0 <= i < |c| && 0 <= j < |s| && c[i].epoch == s[j].epoch && c[i].direction != s[j].direction ==>
      c[i].secret == s[j].secret && c[i].suite == s[j].suite
  }

  lemma SuccessAgrees(cc: ClientConfig, sc: ServerConfig, c: Endpoint, s: Endpoint)
    requires WellFormed(cc) && Answerable(cc, sc) && Success(cc, sc, c, s)
    ensures KeysAgree(c.installed, s.installed)
  {
    hide OfferOf, HelloOf, BinderSchedule;
    var extra := if Resumption(cc, sc).Some? then [] else EarlyKeys(cc, Encrypt);
    forall i, j | 0 <= i < |c.installed| && 0 <= j < |s.installed| && c.installed[i].epoch == s.installed[j].epoch
                  && c.installed[i].direction != s.installed[j].direction
      ensures c.installed[i].secret == s.installed[j].secret && c.installed[i].suite == s.installed[j].suite
    {
      if i >= |extra| {
        assert c.installed[i] == Mirror(s.installed)[i - |extra|];
      }
    }
  }

  /**
   In every state of every run, whatever the configurations and the order of delivery: the generation assertions
   hold, and the run takes no more steps than there are messages in the exchange.
   */
  lemma EveryRun(cc: ClientConfig, sc: ServerConfig, run: seq<System>)
    requires WellFormed(cc) && Run(cc, sc, run)
    ensures var sys := run[|run| - 1];
            && AssertionsHold(Client(cc, sys).0, Server(sc, sys).0)
            && |run| <= 1 + |End(cc, sc).toClient| + |End(cc, sc).toServer|
  {
    hide ClientAll, ServerAll, Ready;
    var sys := run[|run| - 1];
    RunsStayBelow(cc, sc, run);
    EndIsQuiet(cc, sc);
    ExchangeOutcome(cc, sc);
    StartReady(cc);
    ClientMonotone(cc, sys, End(cc, sc));
    ServerMonotone(sc, sys, End(cc, sc));
    if !ClientStart(cc).0.phase.Failed? {
      ClientPrefix(cc, Client(cc, sys).0, End(cc, sc).toClient[|sys.toClient|..]);
    }
    ServerPrefix(sc, Server(sc, sys).0, End(cc, sc).toServer[|sys.toServer|..]);
  }

  /** Compatible endpoints never hold disagreeing keys, at any point of any run. */
  lemma KeysAlwaysAgree(cc: ClientConfig, sc: ServerConfig, run: seq<System>)
    requires WellFormed(cc) && Compatible(cc, sc) && Run(cc, sc, run)
    ensures var sys := run[|run| - 1]; KeysAgree(Client(cc, sys).0.installed, Server(sc, sys).0.installed)
  {
    hide ClientAll, ServerAll, Ready, ClientStart, Success;
    var sys := run[|run| - 1];
    RunsStayBelow(cc, sc, run);
    EndIsQuiet(cc, sc);
    ExchangeOutcome(cc, sc);
    SuccessAgrees(cc, sc, Exchange(cc, sc).client, Exchange(cc, sc).server);
    ClientMonotone(cc, sys, End(cc, sc));
    ServerMonotone(sc, sys, End(cc, sc));
    if !ClientStart(cc).0.phase.Failed? {
      ClientPrefix(cc, Client(cc, sys).0, End(cc, sc).toClient[|sys.toClient|..]);
    }
    ServerPrefix(sc, Server(sc, sys).0, End(cc, sc).toServer[|sys.toServer|..]);
  }

  /**
   A run with nothing left to deliver ends with both handshakes complete exactly when the configurations are
   compatible, and then both sides hold the same schedule, the same keys and the same ticket secrets.
   */
  lemma CompleteExactlyWhenCompatible(cc: ClientConfig, sc: ServerConfig, run: seq<System>)
    requires WellFormed(cc) && Run(cc, sc, run) && Quiet(cc, sc, run[|run| - 1])
    ensures var c, s := Client(cc, run[|run| - 1]).0, Server(sc, run[|run| - 1]).0;
            && (BothDone(c, s) <==> Compatible(cc, sc))
            && (Compatible(cc, sc) ==> Success(cc, sc, c, s))
  {
    hide Client, Server, Success, Compatible;
    RunsStayBelow(cc, sc, run);
    QuietIsEnd(cc, sc, run[|run| - 1]);
    EndIsQuiet(cc, sc);
    ExchangeOutcome(cc, sc);
  }

  // ---- Two configurations that do not complete ----

  /** A client resuming from a ticket, and a server that also asks for a client certificate. */
  lemma ResumptionWithCertificateRequestStalls()
    ensures exists cc: ClientConfig, sc: ServerConfig ::
              WellFormed(cc) && Acceptable(cc, sc) && Exchange(cc, sc).client.phase == PostHandshake
              && Exchange(cc, sc).server.phase == Failed(Alert)
  {
    hide Exchange, HelloOf;
    var ticket := Ticket(1, 0x1301, Term.Resumption(9), true, false);
    var cc := ClientConfig([0x1301], [0x001D], [7], [0x0403], None, Some(ticket), true, None, chain => true);
    var sc := ServerConfig([0x1301], 8, [0x0403], None, Some(map[1 := ticket]), true, 2, true, Identity(5, [], [0x0403]));
    var offer := OfferOf(cc);
    assert offer.shares == [Share(0x001D, 7)];
    assert PrivateKey(cc.groups, cc.keys, 0x001D) == Some(7);
    assert Choose(sc, offer) == Some(Choice(0x1301, Some(1), 0x0403, None));
    assert Resumption(cc, sc) == Some(ticket);
    assert Acceptable(cc, sc) && !Compatible(cc, sc);
    StalledOutcome(cc, sc);
  }

  /** A client that lists one group twice offers its first key and keeps its last. */
  lemma RepeatedGroupFails()
    ensures exists cc: ClientConfig, sc: ServerConfig ::
              WellFormed(cc) && Answerable(cc, sc) && Exchange(cc, sc).client.phase == Failed(Alert)
  {
    hide Exchange;
    var cc := ClientConfig([0x1301], [0x001D, 0x001D], [7, 6], [0x0403], None, None, false, None, chain => true);
    var sc := ServerConfig([0x1301], 8, [0x0403], None, None, false, 2, false, Identity(5, [], [0x0403]));
    var offer := OfferOf(cc);
    assert cc.groups[1..] == [0x001D] && cc.keys[1..] == [6];
    assert offer.shares == [Share(0x001D, 7), Share(0x001D, 6)];
    assert PrivateKey(cc.groups, cc.keys, 0x001D) == Some(6);
    assert Choose(sc, offer) == Some(Choice(0x1301, None, 0x0403, None));
    assert Resumption(cc, sc) == None;
    assert Answerable(cc, sc) && !Acceptable(cc, sc);
    RejectedOutcome(cc, sc);
  }
}
