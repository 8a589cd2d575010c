/** What a TLS server has hashed, derived, sent and checked, whatever messages it was given (tls.py). */
module TlsServerHistory {
  import opened Common
  import opened TlsSchedule
  import opened TlsSpec
  import opened TlsRuns
  import opened TlsHistory

  /** The server could go on from this hello. */
  predicate Answered(sc: ServerConfig, hello: Message) {
    hello.ClientHello? && Choose(sc, hello.offer).Some? && UsableShare(hello.offer.shares).Some?
  }

  function ChoiceOf(sc: ServerConfig, hello: Message): Choice
    requires Answered(sc, hello)
  {
    Choose(sc, hello.offer).value
  }

  function TicketOf(sc: ServerConfig, hello: Message): Option<Ticket>
    requires Answered(sc, hello)
  {
    Resumes(sc, hello, ChoiceOf(sc, hello))
  }

  function ServerHash(sc: ServerConfig, hello: Message): Hash
    requires Answered(sc, hello)
  {
    HashFor(ChoiceOf(sc, hello).suite)
  }

  function ServerPsk(sc: ServerConfig, hello: Message): Option<Term>
    requires Answered(sc, hello)
  {
    if TicketOf(sc, hello).Some? then Some(TicketOf(sc, hello).value.secret) else None
  }

  function ServerShared(sc: ServerConfig, hello: Message): Term
    requires Answered(sc, hello)
  {
    var share := UsableShare(hello.offer.shares).value;
    DiffieHellman(share.group, multiset{sc.key, share.key})
  }

  /** The transcript after the hello and these messages, sent or received. */
  function Since(hello: Message, ms: seq<Message>): seq<Part>
    requires hello.ClientHello?
  {
    HelloHashed(hello) + Wholes(ms)
  }

  function FirstTwo(sc: ServerConfig, hello: Message): seq<Message>
    requires Answered(sc, hello)
  {
    var choice, resumed := ChoiceOf(sc, hello), TicketOf(sc, hello).Some?;
    [ServerHello(choice.suite, Share(UsableShare(hello.offer.shares).value.group, sc.key), resumed),
     EncryptedExtensions(choice.alpn, resumed && hello.offer.earlyData)]
  }

  /** Everything before the server's Finished: unless it resumes, it signs everything so far with its certificate. */
  function BeforeLast(sc: ServerConfig, hello: Message): seq<Message>
    requires Answered(sc, hello)
  {
    if TicketOf(sc, hello).Some? then FirstTwo(sc, hello)
    else
      var unsigned := FirstTwo(sc, hello) + (if sc.requestsCertificate then [CertificateRequest(sc.signatureAlgorithms)] else [])
                      + [Certificate([sc.identity.leaf] + sc.identity.above)];
      var algorithm := ChoiceOf(sc, hello).algorithm;
      unsigned + [CertificateVerify(algorithm, Signature(sc.identity.leaf, algorithm, "TLS 1.3, server CertificateVerify",
                                                         ServerHash(sc, hello), Since(hello, unsigned)))]
  }

  function ServerTraffic(sc: ServerConfig, hello: Message, name: string): Term
    requires Answered(sc, hello)
  {
    var h := ServerHash(sc, hello);
    ExpandLabel(h, HandshakeSecret(h, ServerPsk(sc, hello), ServerShared(sc, hello)), name,
                HashOf(Since(hello, FirstTwo(sc, hello)[..1])))
  }

  /** The server's flight. */
  function Flight(sc: ServerConfig, hello: Message): seq<Message>
    requires Answered(sc, hello)
  {
    BeforeLast(sc, hello) + [Finished(VerifyData(ServerHash(sc, hello), ServerTraffic(sc, hello, "s hs traffic"),
                                                 Since(hello, BeforeLast(sc, hello))))]
  }

  function ServerMaster(sc: ServerConfig, hello: Message): Term
    requires Answered(sc, hello)
  {
    MasterSecret(ServerHash(sc, hello), ServerPsk(sc, hello), ServerShared(sc, hello))
  }

  function ServerApplication(sc: ServerConfig, hello: Message, name: string): Term
    requires Answered(sc, hello)
  {
    ExpandLabel(ServerHash(sc, hello), ServerMaster(sc, hello), name, HashOf(Since(hello, Flight(sc, hello))))
  }

  /** The Finished that the server expects after these messages of the client. */
  function Expected(sc: ServerConfig, hello: Message, answer: seq<Message>): Term
    requires Answered(sc, hello)
  {
    VerifyData(ServerHash(sc, hello), ServerTraffic(sc, hello, "c hs traffic"), Since(hello, Flight(sc, hello) + answer))
  }

  /** The client's messages after its hello and before its Finished are in order, and signed if it sent a certificate. */
  predicate Answers(sc: ServerConfig, hello: Message, answer: seq<Message>)
    requires Answered(sc, hello)
  {
    if !sc.requestsCertificate then answer == []
    else
      && |answer| in {1, 2} && answer[0].Certificate? && (|answer| == 1 <==> answer[0].chain == [])
      && (|answer| == 2 ==>
            answer[1].CertificateVerify? && answer[1].algorithm in sc.signatureAlgorithms &&
            answer[1].signature == Signature(answer[0].chain[0], answer[1].algorithm, "TLS 1.3, client CertificateVerify",
                                                ServerHash(sc, hello), Since(hello, Flight(sc, hello) + answer[..1])))
  }

  /** The binder of a client that holds the secret of the ticket. */
  function BinderTerm(sc: ServerConfig, hello: Message): Term
    requires Answered(sc, hello)
  {
    var h := ServerHash(sc, hello);
    VerifyData(h, ExpandLabel(h, EarlySecret(h, ServerPsk(sc, hello)), "res binder", HashOf([])), [Head(hello.offer)])
  }

  /** What holds of a server from its flight on. */
  predicate Flown(sc: ServerConfig, hello: Message, s: Endpoint)
    requires Answered(sc, hello)
  {
    && (TicketOf(sc, hello).Some? ==> hello.binder == Some(BinderTerm(sc, hello)))
    && s.alpn == ChoiceOf(sc, hello).alpn && s.pskMode == ChoiceOf(sc, hello).mode
    && s.resumed == TicketOf(sc, hello).Some? && s.earlyAccepted == (s.resumed && hello.offer.earlyData)
    && s.schedule.suite == ChoiceOf(sc, hello).suite && s.schedule.generation == 3
    && s.schedule.secret == ServerMaster(sc, hello)
    && s.enc == ServerApplication(sc, hello, "s ap traffic") && s.nextDec == ServerApplication(sc, hello, "c ap traffic")
  }

  function ServerKeysAt(sc: ServerConfig, hello: Message): seq<TrafficKey>
    requires Answered(sc, hello)
  {
    var h, suite := ServerHash(sc, hello), ChoiceOf(sc, hello).suite;
    (if TicketOf(sc, hello).Some? && hello.offer.earlyData then
       [TrafficKey(Decrypt, ZeroRtt, suite,
                   ExpandLabel(h, EarlySecret(h, ServerPsk(sc, hello)), "c e traffic", HashOf(HelloHashed(hello))))] else [])
    + [TrafficKey(Encrypt, Handshake, suite, ServerTraffic(sc, hello, "s hs traffic")),
       TrafficKey(Decrypt, Handshake, suite, ServerTraffic(sc, hello, "c hs traffic")),
       TrafficKey(Encrypt, OneRtt, suite, ServerApplication(sc, hello, "s ap traffic"))]
  }

  /** The ticket a server sends, with the secret it remembers for it, once it knows what the client will finish with. */
  function Issued(sc: ServerConfig, hello: Message, answer: seq<Message>): seq<(nat, Term)>
    requires Answered(sc, hello)
  {
    if sc.issuesTickets && ChoiceOf(sc, hello).mode.Some? then
      [(sc.nextTicket, ResumptionSecret(ServerHash(sc, hello), ServerMaster(sc, hello),
                                        Since(hello, Flight(sc, hello) + answer + [Finished(Expected(sc, hello, answer))])))]
    else []
  }

  function TicketMessages(tickets: seq<(nat, Term)>): seq<Message> {
    seq(|tickets|, i requires 0 <= i < |tickets| => NewSessionTicket(tickets[i].0))
  }

  /** The state of a server that was given these messages and has not given up, and what it has sent. */
  predicate ServerAt(sc: ServerConfig, ms: seq<Message>, s: Endpoint, out: seq<Message>) {
    match s.phase
    case ExpectClientHello => ms == [] && s == BLANK && out == []
    case ExpectPeerCertificate =>
      && |ms| == 1 && sc.requestsCertificate && Waiting(sc, ms, s, out)
    case ExpectPeerVerify =>
      && |ms| == 2 && sc.requestsCertificate && Waiting(sc, ms, s, out)
      && ms[1].Certificate? && ms[1].chain != [] && s.peerChain == ms[1].chain
    case ExpectPeerFinished =>
      ms != [] && Answered(sc, ms[0]) && Answers(sc, ms[0], ms[1..]) && Closing(sc, ms[0], ms[1..], s, out)
      && s.dec == ServerTraffic(sc, ms[0], "c hs traffic") && s.installed == ServerKeysAt(sc, ms[0])
    case PostHandshake =>
      && |ms| > 1 && Answered(sc, ms[0])
      && var answer := ms[1..|ms| - 1];
         && Answers(sc, ms[0], answer) && Closing(sc, ms[0], answer, s, out)
         && ms[|ms| - 1] == Finished(Expected(sc, ms[0], answer))
         && s.dec == s.nextDec
         && s.installed == ServerKeysAt(sc, ms[0]) + [TrafficKey(Decrypt, OneRtt, ChoiceOf(sc, ms[0]).suite, s.dec)]
    case _ => false
  }

  /** After the flight, while the client's certificate messages are awaited. */
  predicate Waiting(sc: ServerConfig, ms: seq<Message>, s: Endpoint, out: seq<Message>) {
    && ms != [] && Answered(sc, ms[0]) && Flown(sc, ms[0], s)
    && out == Flight(sc, ms[0]) && s.schedule.transcript == Since(ms[0], Flight(sc, ms[0]) + ms[1..])
    && s.dec == ServerTraffic(sc, ms[0], "c hs traffic") && s.installed == ServerKeysAt(sc, ms[0]) && s.tickets == []
  }

  /** The client's Finished is known: it is hashed ahead, and the ticket is out. */
  predicate Closing(sc: ServerConfig, hello: Message, answer: seq<Message>, s: Endpoint, out: seq<Message>)
    requires Answered(sc, hello)
  {
    && Flown(sc, hello, s) && s.expected == Expected(sc, hello, answer)
    && s.schedule.transcript == Since(hello, Flight(sc, hello) + answer + [Finished(s.expected)])
    && s.tickets == Issued(sc, hello, answer)
    && out == Flight(sc, hello) + TicketMessages(s.tickets)
    && (|answer| > 0 && answer[0].Certificate? && answer[0].chain != [] ==> s.peerChain == answer[0].chain)
  }

  // ---- Proof, one step at a time ----

  lemma SinceMore(hello: Message, ms: seq<Message>, m: Message)
    requires hello.ClientHello?
    ensures Since(hello, ms) + [Whole(m)] == Since(hello, ms + [m])
  {
  }

  lemma SinceNone(hello: Message)
    requires hello.ClientHello?
    ensures Since(hello, []) == HelloHashed(hello)
  {
  }

  /** After the hello: the early secret of the ticket used, if any, and the hello. */
  lemma ScheduleStep(sc: ServerConfig, e: Endpoint, hello: Message)
    requires Answered(sc, hello) && e == BLANK.(alpn := e.alpn, pskMode := e.pskMode)
    ensures var r := ServerSchedule(e, hello, ChoiceOf(sc, hello).suite, TicketOf(sc, hello));
            var h := ServerHash(sc, hello);
            r.Some? ==>
              && r.value.schedule == Schedule(ChoiceOf(sc, hello).suite, 1, EarlySecret(h, ServerPsk(sc, hello)), HelloHashed(hello))
              && (TicketOf(sc, hello).Some? ==> hello.binder == Some(BinderTerm(sc, hello)))
              && r.value.resumed == TicketOf(sc, hello).Some?
              && r.value.earlyAccepted == (r.value.resumed && hello.offer.earlyData)
              && r.value.installed == (if r.value.earlyAccepted then
                                         [TrafficKey(Decrypt, ZeroRtt, ChoiceOf(sc, hello).suite,
                                           ExpandLabel(h, EarlySecret(h, ServerPsk(sc, hello)), "c e traffic", HashOf(HelloHashed(hello))))]
                                       else [])
              && r.value == e.(schedule := r.value.schedule, resumed := r.value.resumed, earlyAccepted := r.value.earlyAccepted,
                               installed := r.value.installed)
  {
    hide Choose, Resumes;
    assert [] + HelloHashed(hello) == HelloHashed(hello);
    if TicketOf(sc, hello).Some? {
      assert [] + [Head(hello.offer)] + [Tail(hello.binder.value)] == HelloHashed(hello);
      assert [] + [Head(hello.offer)] == [Head(hello.offer)];
    }
  }

  /** After the ServerHello: the handshake secret and its two keys, over the hello and the ServerHello. */
  lemma KeysStep(sc: ServerConfig, hello: Message, s: Endpoint)
    requires Answered(sc, hello) && s.resumed == TicketOf(sc, hello).Some?
    requires s.schedule == Schedule(ChoiceOf(sc, hello).suite, 1, EarlySecret(ServerHash(sc, hello), ServerPsk(sc, hello)), HelloHashed(hello))
    ensures var (s1, m) := ServerKeys(sc, s, UsableShare(hello.offer.shares).value);
            var suite := ChoiceOf(sc, hello).suite;
            && m == FirstTwo(sc, hello)[0]
            && s1.schedule == Schedule(suite, 2, HandshakeSecret(ServerHash(sc, hello), ServerPsk(sc, hello), ServerShared(sc, hello)),
                                       Since(hello, [m]))
            && s1.enc == ServerTraffic(sc, hello, "s hs traffic") && s1.dec == ServerTraffic(sc, hello, "c hs traffic")
            && s1.installed == s.installed + [TrafficKey(Encrypt, Handshake, suite, s1.enc)] + [TrafficKey(Decrypt, Handshake, suite, s1.dec)]
            && s1 == s.(schedule := s1.schedule, enc := s1.enc, dec := s1.dec, installed := s1.installed)
  {
    hide Choose, Resumes, UsableShare;
    var m := FirstTwo(sc, hello)[0];
    assert FirstTwo(sc, hello)[..1] == [m] && Wholes([m]) == [Whole(m)];
  }

  /** From the ServerHello to the server's certificate messages. */
  lemma CertifiedStep(sc: ServerConfig, hello: Message, s: Endpoint)
    requires Answered(sc, hello) && s.resumed == TicketOf(sc, hello).Some?
    requires s.alpn == ChoiceOf(sc, hello).alpn && s.earlyAccepted == (s.resumed && hello.offer.earlyData)
    requires s.schedule == Schedule(ChoiceOf(sc, hello).suite, 1, EarlySecret(ServerHash(sc, hello), ServerPsk(sc, hello)), HelloHashed(hello))
    ensures var (s1, certified) := ServerCertified(sc, s, UsableShare(hello.offer.shares).value, ChoiceOf(sc, hello).algorithm);
            var suite := ChoiceOf(sc, hello).suite;
            && certified == BeforeLast(sc, hello)
            && s1.schedule == Schedule(suite, 2, HandshakeSecret(ServerHash(sc, hello), ServerPsk(sc, hello), ServerShared(sc, hello)),
                                       Since(hello, BeforeLast(sc, hello)))
            && s1.enc == ServerTraffic(sc, hello, "s hs traffic") && s1.dec == ServerTraffic(sc, hello, "c hs traffic")
            && s1.installed == s.installed + [TrafficKey(Encrypt, Handshake, suite, s1.enc)] + [TrafficKey(Decrypt, Handshake, suite, s1.dec)]
            && s1 == s.(schedule := s1.schedule, enc := s1.enc, dec := s1.dec, installed := s1.installed)
  {
    KeysStep(sc, hello, s);
    hide Choose, Resumes, UsableShare, ServerTraffic, Since, HelloHashed, HandshakeSecret, EarlySecret, ServerKeys;
    var (s0, m) := ServerKeys(sc, s, UsableShare(hello.offer.shares).value);
    var first := FirstTwo(sc, hello);
    SinceMore(hello, [m], first[1]);
    assert [m] + [first[1]] == first;
    if s.resumed {
      assert first + [] == first;
    } else {
      var request := if sc.requestsCertificate then [CertificateRequest(sc.signatureAlgorithms)] else [];
      var certificate := Certificate([sc.identity.leaf] + sc.identity.above);
      if sc.requestsCertificate { SinceMore(hello, first, request[0]); } else { assert first + [] == first; }
      SinceMore(hello, first + request, certificate);
      var unsigned := first + request + [certificate];
      var verify := BeforeLast(sc, hello)[|unsigned|];
      SinceMore(hello, unsigned, verify);
      assert first + (request + [certificate, verify]) == unsigned + [verify];
    }
  }

  /** After the server's Finished: the master secret and the application keys, over the whole flight. */
  lemma FinishStep(sc: ServerConfig, hello: Message, s: Endpoint)
    requires Answered(sc, hello)
    requires s.schedule == Schedule(ChoiceOf(sc, hello).suite, 2,
                                    HandshakeSecret(ServerHash(sc, hello), ServerPsk(sc, hello), ServerShared(sc, hello)),
                                    Since(hello, BeforeLast(sc, hello)))
    requires s.enc == ServerTraffic(sc, hello, "s hs traffic")
    ensures var s1 := ServerMiddle(s);
            var m := Flight(sc, hello)[|BeforeLast(sc, hello)|];
            && s1.schedule == Schedule(ChoiceOf(sc, hello).suite, 3, ServerMaster(sc, hello), Since(hello, Flight(sc, hello)))
            && s1.enc == ServerApplication(sc, hello, "s ap traffic") && s1.nextDec == ServerApplication(sc, hello, "c ap traffic")
            && s1.installed == s.installed + [TrafficKey(Encrypt, OneRtt, s.schedule.suite, s1.enc)]
            && s1 == s.(schedule := s1.schedule, enc := s1.enc, nextDec := s1.nextDec, installed := s1.installed)
            && ServerFinish(sc, s) ==
                 (if sc.requestsCertificate then (s1.(phase := ExpectPeerCertificate), [m])
                  else var (s2, ticket) := ServerExpectFinished(sc, s1); (s2, [m] + ticket))
  {
    hide Choose, Resumes, UsableShare, ServerTraffic, Since, HelloHashed, HandshakeSecret, EarlySecret, ServerExpectFinished, BeforeLast;
    SinceMore(hello, BeforeLast(sc, hello), Flight(sc, hello)[|BeforeLast(sc, hello)|]);
  }

  /** Once the client has only to finish. */
  lemma ExpectStep(sc: ServerConfig, hello: Message, answer: seq<Message>, s: Endpoint)
    requires Answered(sc, hello) && Flown(sc, hello, s) && s.tickets == []
    requires s.schedule.transcript == Since(hello, Flight(sc, hello) + answer) && s.dec == ServerTraffic(sc, hello, "c hs traffic")
    requires |answer| > 0 && answer[0].Certificate? && answer[0].chain != [] ==> s.peerChain == answer[0].chain
    ensures var (s1, ticket) := ServerExpectFinished(sc, s);
            && Closing(sc, hello, answer, s1, Flight(sc, hello) + ticket) && s1.phase == ExpectPeerFinished
            && s1.dec == s.dec && s1.installed == s.installed
  {
    hide Choose, Resumes, UsableShare, ServerTraffic, Since, HelloHashed, HandshakeSecret, EarlySecret, Flight, ServerApplication,
         ServerMaster, BinderTerm;
    SinceMore(hello, Flight(sc, hello) + answer, Finished(Expected(sc, hello, answer)));
    var (s1, ticket) := ServerExpectFinished(sc, s);
    assert ticket == TicketMessages(s1.tickets);
  }

  lemma HelloStep(sc: ServerConfig, m: Message)
    requires m.ClientHello?
    ensures var (s, out) := ServerHandleHello(sc, BLANK, m);
            !s.phase.Failed? ==>
              Answered(sc, m) && s.phase in {ExpectPeerCertificate, ExpectPeerFinished} && ServerAt(sc, [m], s, out)
  {
    hide Choose, Resumes, UsableShare, ServerSchedule, ServerCertified, ServerFinish, Flown, ServerExpectFinished;
    if Answered(sc, m) {
      var choice := ChoiceOf(sc, m);
      var start := BLANK.(alpn := choice.alpn, pskMode := choice.mode);
      ScheduleStep(sc, start, m);
      var e := ServerSchedule(start, m, choice.suite, TicketOf(sc, m));
      if e.Some? { FlightStep(sc, m, e.value); }
    }
  }

  /** From the schedule after the hello to the end of the server's flight. */
  lemma FlightStep(sc: ServerConfig, m: Message, s: Endpoint)
    requires Answered(sc, m) && s.tickets == [] && s.resumed == TicketOf(sc, m).Some? && s.pskMode == ChoiceOf(sc, m).mode
    requires s.alpn == ChoiceOf(sc, m).alpn && s.earlyAccepted == (s.resumed && m.offer.earlyData)
    requires s.schedule == Schedule(ChoiceOf(sc, m).suite, 1, EarlySecret(ServerHash(sc, m), ServerPsk(sc, m)), HelloHashed(m))
    requires TicketOf(sc, m).Some? ==> m.binder == Some(BinderTerm(sc, m))
    requires s.installed == if s.earlyAccepted then
                              [TrafficKey(Decrypt, ZeroRtt, ChoiceOf(sc, m).suite,
                                 ExpandLabel(ServerHash(sc, m), EarlySecret(ServerHash(sc, m), ServerPsk(sc, m)), "c e traffic",
                                             HashOf(HelloHashed(m))))]
                            else []
    ensures var (s1, flight) := ServerCertified(sc, s, UsableShare(m.offer.shares).value, ChoiceOf(sc, m).algorithm);
            var (s2, closing) := ServerFinish(sc, s1);
            s2.phase in {ExpectPeerCertificate, ExpectPeerFinished} && ServerAt(sc, [m], s2, flight + closing)
  {
    hide Choose, Resumes, UsableShare, ServerCertified, Since, HelloHashed, HandshakeSecret, EarlySecret, BinderTerm, ServerTraffic,
         ServerMaster, ServerApplication, BeforeLast, ServerFinish, ServerExpectFinished, ServerMiddle;
    CertifiedStep(sc, m, s);
    var (s1, flight) := ServerCertified(sc, s, UsableShare(m.offer.shares).value, ChoiceOf(sc, m).algorithm);
    FinishStep(sc, m, s1);
    var s2 := ServerMiddle(s1);
    KeysInOrder(s.installed, ChoiceOf(sc, m).suite, s1.enc, s1.dec, s2.enc);
    AfterFlight(sc, m, s2, ServerFinish(sc, s1).0, ServerFinish(sc, s1).1);
  }

  lemma AfterFlight(sc: ServerConfig, m: Message, s: Endpoint, s1: Endpoint, closing: seq<Message>)
    requires Answered(sc, m) && Flown(sc, m, s) && s.tickets == []
    requires s.schedule.transcript == Since(m, Flight(sc, m)) && s.dec == ServerTraffic(sc, m, "c hs traffic")
    requires s.installed == ServerKeysAt(sc, m)
    requires var last := Flight(sc, m)[|BeforeLast(sc, m)|];
             (s1, closing) == if sc.requestsCertificate then (s.(phase := ExpectPeerCertificate), [last])
                              else var (s2, ticket) := ServerExpectFinished(sc, s); (s2, [last] + ticket)
    ensures s1.phase in {ExpectPeerCertificate, ExpectPeerFinished} && ServerAt(sc, [m], s1, BeforeLast(sc, m) + closing)
  {
    hide Choose, Resumes, UsableShare, Since, BinderTerm, ServerTraffic, ServerMaster, ServerApplication, BeforeLast, ServerExpectFinished,
         ServerKeysAt;
    var all := Flight(sc, m);
    assert all + [] == all && [m][1..] == [];
    if !sc.requestsCertificate {
      ExpectStep(sc, m, [], s);
      var ticket := ServerExpectFinished(sc, s).1;
      assert BeforeLast(sc, m) + closing == all + ticket;
    }
  }

  lemma KeysInOrder(k: seq<TrafficKey>, suite: Suite, a: Term, b: Term, d: Term)
    ensures k + [TrafficKey(Encrypt, Handshake, suite, a)] + [TrafficKey(Decrypt, Handshake, suite, b)]
            + [TrafficKey(Encrypt, OneRtt, suite, d)] ==
            k + [TrafficKey(Encrypt, Handshake, suite, a), TrafficKey(Decrypt, Handshake, suite, b), TrafficKey(Encrypt, OneRtt, suite, d)]
  {
  }

  lemma CertificateStep(sc: ServerConfig, ms: seq<Message>, s: Endpoint, out: seq<Message>, m: Message)
    requires ServerAt(sc, ms, s, out) && s.phase == ExpectPeerCertificate && m.Certificate?
    ensures var (s1, more) := ServerHandleCertificate(sc, s, m);
            s1.phase in {ExpectPeerVerify, ExpectPeerFinished} && ServerAt(sc, ms + [m], s1, out + more)
  {
    hide Choose, Resumes, UsableShare, Since, ServerTraffic, Flight, ServerApplication, ServerMaster, BinderTerm, ServerKeysAt,
         ServerExpectFinished;
    var all := ms + [m];
    assert all[1..] == [m] && ms[1..] == [] && Flight(sc, ms[0]) + [] == Flight(sc, ms[0]);
    SinceMore(ms[0], Flight(sc, ms[0]), m);
    if m.chain == [] {
      ExpectStep(sc, ms[0], [m], Hashed(s, m));
    } else {
      assert out + [] == out;
    }
  }

  lemma VerifyStep(sc: ServerConfig, ms: seq<Message>, s: Endpoint, out: seq<Message>, m: Message)
    requires ServerAt(sc, ms, s, out) && s.phase == ExpectPeerVerify && m.CertificateVerify?
    ensures var (s1, more) := ServerHandleVerify(sc, s, m);
            !s1.phase.Failed? ==> s1.phase == ExpectPeerFinished && ServerAt(sc, ms + [m], s1, out + more)
  {
    hide Choose, Resumes, UsableShare, Since, ServerTraffic, Flight, ServerApplication, ServerMaster, BinderTerm, ServerKeysAt,
         ServerExpectFinished;
    var all := ms + [m];
    var answer := all[1..];
    assert answer[..1] == ms[1..] && answer == ms[1..] + [m];
    SinceMore(ms[0], Flight(sc, ms[0]) + ms[1..], m);
    assert Flight(sc, ms[0]) + ms[1..] + [m] == Flight(sc, ms[0]) + answer;
    if SignatureHolds(s, m, sc.signatureAlgorithms, CLIENT_CONTEXT) {
      ExpectStep(sc, ms[0], answer, Hashed(s, m));
    }
  }

  lemma FinishedStep(sc: ServerConfig, ms: seq<Message>, s: Endpoint, out: seq<Message>, m: Message)
    requires ServerAt(sc, ms, s, out) && s.phase == ExpectPeerFinished && m.Finished?
    ensures var (s1, more) := ServerHandleFinished(s, m);
            !s1.phase.Failed? ==> s1.phase == PostHandshake && ServerAt(sc, ms + [m], s1, out + more)
  {
    hide Choose, Resumes, UsableShare, Since, ServerTraffic, Flight, ServerApplication, ServerMaster, BinderTerm, ServerKeysAt, Expected,
         Answers, Issued;
    var all := ms + [m];
    assert all[1..|all| - 1] == ms[1..] && out + [] == out;
  }

  lemma ServerStepAt(sc: ServerConfig, ms: seq<Message>, s: Endpoint, out: seq<Message>, m: Message)
    requires ServerAt(sc, ms, s, out)
    ensures var (s1, more) := ServerStep(sc, s, m); s1.phase.Failed? || ServerAt(sc, ms + [m], s1, out + more)
  {
    hide ServerAt, ServerHandleHello, ServerHandleCertificate, ServerHandleVerify, ServerHandleFinished;
    if !ServerStep(sc, s, m).0.phase.Failed? {
      match s.phase
      case ExpectClientHello =>
        Start(sc, ms, s, out);
        HelloStep(sc, m);
        assert [] + [m] == [m] && out + ServerStep(sc, s, m).1 == ServerStep(sc, s, m).1;
      case ExpectPeerCertificate => CertificateStep(sc, ms, s, out, m);
      case ExpectPeerVerify => VerifyStep(sc, ms, s, out, m);
      case ExpectPeerFinished => FinishedStep(sc, ms, s, out, m);
      case _ =>
    }
  }

  lemma Start(sc: ServerConfig, ms: seq<Message>, s: Endpoint, out: seq<Message>)
    requires ServerAt(sc, ms, s, out) && s.phase == ExpectClientHello
    ensures ms == [] && s == BLANK && out == []
  {
  }

  /**
   Whatever messages a server is given, from whomever: as long as it has not given up, they came in the order of the
   handshake; its transcript is the client's hello, its own flight and the client's answer, tickets aside; what it sent
   is exactly that flight and perhaps a ticket; every secret it holds is the term of RFC 8446 over the prefix that the
   phase stands for; a ticket was only used if the binder was made with its secret; and once it has finished, the
   client's Finished covered everything before it, and so did the signature of its certificate if it sent one.
   */
  lemma {:induction false} ServerHistory(sc: ServerConfig, ms: seq<Message>)
    ensures var (s, out) := ServerAll(sc, BLANK, ms); s.phase.Failed? || ServerAt(sc, ms, s, out)
    decreases |ms|
  {
    hide ServerAll, ServerStep, ServerAt;
    if ms == [] {
      ServerNothing(sc, BLANK);
      Blank(sc);
    } else {
      var before, m := ms[..|ms| - 1], ms[|ms| - 1];
      assert ms == before + [m];
      ServerHistory(sc, before);
      var (s, out) := ServerAll(sc, BLANK, before);
      ServerAllAppend(sc, BLANK, before, [m]);
      OneServerStep(sc, s, m);
      if s.phase.Failed? { GivenUp(sc, s, m); } else { ServerStepAt(sc, before, s, out, m); }
    }
  }

  lemma Blank(sc: ServerConfig)
    ensures ServerAt(sc, [], BLANK, [])
  {
  }

  lemma GivenUp(sc: ServerConfig, s: Endpoint, m: Message)
    requires s.phase.Failed?
    ensures ServerStep(sc, s, m) == (s, [])
  {
  }
}
