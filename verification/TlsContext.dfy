/** The handshake context with its key schedule objects (class Context in tls.py). */
module TlsContexts {
  import opened Common
  import opened TlsSchedule
  import opened TlsSpec

  class Context {
    var phase: Phase
    var keySchedule: KeySchedule?
    var pskSchedule: KeySchedule?
    var proxy: map<Suite, Schedule>
    var sessionResumed: bool
    var encKey: Term
    var decKey: Term
    var nextDecKey: Term
    var expectedVerifyData: Term
    var certificateRequest: Option<seq<nat>>
    var peerChain: seq<Key>
    var pskMode: Option<nat>
    var alpnNegotiated: Option<nat>
    var earlyDataAccepted: bool
    var installed: seq<TrafficKey>
    var tickets: seq<(nat, Term)>

    /** The two schedules are different objects, and messages after the hellos find one in place. */
    ghost predicate Valid()
      reads this
    {
      && (keySchedule != null ==> keySchedule != pskSchedule)
      && (phase !in {ExpectClientHello, ExpectServerHello} && !phase.Failed? ==> keySchedule != null)
    }

    ghost function State(): Endpoint
      reads this, keySchedule, pskSchedule
    {
      Endpoint(phase, if keySchedule == null then NewSchedule(0) else keySchedule.State(),
               if pskSchedule == null then None else Some(pskSchedule.State()), proxy, sessionResumed,
               encKey, decKey, nextDecKey, expectedVerifyData, certificateRequest, peerChain, pskMode,
               alpnNegotiated, earlyDataAccepted, installed, tickets)
    }

    /** Only the schedules held before are held now. */
    twostate predicate SameSchedules()
      reads this
    {
      keySchedule == old(keySchedule) && pskSchedule == old(pskSchedule)
    }

    /** Only those, or new ones. */
    twostate predicate OwnSchedules()
      reads this
    {
      && (keySchedule == old(keySchedule) || keySchedule == old(pskSchedule) || fresh(keySchedule))
      && (pskSchedule == old(pskSchedule) || pskSchedule == null || fresh(pskSchedule))
    }

    constructor ()
      ensures Valid() && State() == BLANK && keySchedule == null && pskSchedule == null
    {
      phase, keySchedule, pskSchedule, proxy, sessionResumed := ExpectClientHello, null, null, map[], false;
      encKey, decKey, nextDecKey, expectedVerifyData := ZeroKey(Sha256), ZeroKey(Sha256), ZeroKey(Sha256), ZeroKey(Sha256);
      certificateRequest, peerChain, pskMode, alpnNegotiated := None, [], None, None;
      earlyDataAccepted, installed, tickets := false, [], [];
    }

    method GiveUp(why: Failure)
      requires Valid()
      modifies this`phase
      ensures Valid() && State() == Fail(old(State()), why).0
    {
      phase := Failed(why);
    }

    method SetupTrafficProtection(direction: Direction, epoch: Epoch, name: string)
      requires Valid() && keySchedule != null
      modifies this`encKey, this`decKey, this`installed
      ensures Valid() && State() == Install(old(State()), direction, epoch, name)
    {
      var key := keySchedule.DeriveSecret(name);
      if direction == Encrypt {
        encKey := key;
      } else {
        decKey := key;
      }
      UpdateTrafficKey(direction, epoch, key);
    }

    /** Reports a key to the update_traffic_key callback. */
    method UpdateTrafficKey(direction: Direction, epoch: Epoch, key: Term)
      requires Valid() && keySchedule != null
      modifies this`installed
      ensures Valid() && State() == Report(old(State()), direction, epoch, key)
    {
      installed := installed + [TrafficKey(direction, epoch, keySchedule.suite, key)];
    }

    method Hash(m: Message)
      requires Valid() && keySchedule != null
      modifies keySchedule
      ensures Valid() && State() == Hashed(old(State()), m)
    {
      keySchedule.UpdateHash(Parts(m));
    }

    // ---- Client ----

    /** A schedule keyed by the ticket, past the ClientHello up to the binder, and the binder it gives. */
    static method ComputeBinder(ticket: Ticket, suite: Suite, offer: Offer) returns (schedule: KeySchedule, binder: Term)
      ensures fresh(schedule) && schedule.State() == BinderSchedule(ticket, suite, offer)
      ensures binder == BinderOf(ticket, suite, offer)
    {
      schedule := new KeySchedule(suite);
      schedule.ExtractKey(Some(ticket.secret));
      var binderKey := schedule.DeriveSecret("res binder");
      schedule.UpdateHash([Head(offer)]);
      binder := schedule.FinishedVerifyData(binderKey);
    }

    /** Keys a schedule with the ticket and computes the binder of the offer. */
    method OfferTicket(ticket: Ticket, offer: Offer) returns (binder: Term)
      requires Valid()
      modifies this`pskSchedule, this`installed
      ensures Valid() && binder == BinderOf(ticket, ticket.suite, offer)
      ensures pskSchedule != null && fresh(pskSchedule)
      ensures var psk := BinderSchedule(ticket, ticket.suite, offer).Updated([Tail(binder)]);
              State() == old(State()).(psk := Some(psk),
                installed := old(installed) + if offer.earlyData then EarlyKey(psk, Encrypt) else [])
    {
      hide BinderOf, BinderSchedule;
      var psk;
      psk, binder := ComputeBinder(ticket, ticket.suite, offer);
      psk.UpdateHash([Tail(binder)]);
      pskSchedule := psk;
      if offer.earlyData {
        var key := psk.DeriveSecret("c e traffic");
        installed := installed + [TrafficKey(Encrypt, ZeroRtt, psk.suite, key)];
      } else {
        assert installed + [] == installed;
      }
    }

    method ClientSendHello(cc: ClientConfig) returns (out: seq<Message>)
      requires Valid() && State() == BLANK && |cc.groups| == |cc.keys|
      modifies this
      ensures Valid() && (State(), out) == ClientStart(cc) && (pskSchedule != null ==> fresh(pskSchedule))
      ensures keySchedule == old(keySchedule)
      ensures OwnSchedules()
    {
      hide BinderOf, BinderSchedule, OfferOf;
      var offer := OfferOf(cc);
      if offer.shares == [] {
        GiveUp(NoKeyShare);
        return [];
      }
      var hello := ClientHello(offer, None);
      OfferShape(cc);
      if offer.ticket.Some? {
        var binder := OfferTicket(cc.ticket.value, offer);
        hello := ClientHello(offer, Some(binder));
        NoKeysBefore(if offer.earlyData then EarlyKey(pskSchedule.State(), Encrypt) else []);
      }
      assert hello == HelloOf(cc);
      proxy := map suite | suite in cc.suites :: NewSchedule(suite).Extracted(None).Updated(Parts(hello));
      phase := ExpectServerHello;
      out := [hello];
    }

    static lemma NoKeysBefore(keys: seq<TrafficKey>)
      ensures [] + keys == keys
    {
    }

    static lemma OfferShape(cc: ClientConfig)
      requires |cc.groups| == |cc.keys|
      ensures OfferOf(cc).ticket.Some? ==> cc.ticket.Some?
      ensures OfferOf(cc).earlyData ==> OfferOf(cc).ticket.Some?
    {
    }

    /** Takes the schedule the server has chosen and drops the others. */
    method SelectSchedule(psk: bool, suite: Suite)
      requires Valid() && (if psk then pskSchedule != null else suite in proxy)
      modifies this`keySchedule, this`pskSchedule, this`sessionResumed
      ensures Valid() && keySchedule != null && (keySchedule == old(pskSchedule) || fresh(keySchedule))
      ensures var was := old(State());
              State() == was.(schedule := if psk then was.psk.value else was.proxy[suite],
                              resumed := was.resumed || psk, psk := None)
    {
      if psk {
        keySchedule := pskSchedule;
        sessionResumed := true;
      } else {
        keySchedule := new KeySchedule.From(proxy[suite]);
      }
      pskSchedule := null;
    }

    method HandleServerHello(cc: ClientConfig, m: Message)
      requires Valid() && |cc.groups| == |cc.keys| && m.ServerHello? && Ready(cc, State())
      modifies this, keySchedule, pskSchedule
      ensures Valid() && State() == ClientHandleHello(cc, old(State()), m).0
      ensures OwnSchedules()
    {
      if m.suite !in cc.suites {
        GiveUp(Alert);
        return;
      }
      if m.psk && (pskSchedule == null || m.suite != pskSchedule.suite) {
        GiveUp(Alert);
        return;
      }
      hide PrivateKey, Install;
      var own := PrivateKey(cc.groups, cc.keys, m.share.group);
      if own.None? {
        GiveUp(NoKeyShare);
        return;
      }
      AcceptHello(m, own.value);
    }

    /** Goes on with the schedule the server has chosen. */
    method AcceptHello(m: Message, own: Key)
      requires Valid() && m.ServerHello? && (if m.psk then pskSchedule != null else m.suite in proxy)
      modifies this, keySchedule, pskSchedule
      ensures Valid()
      ensures var was := old(State());
              var schedule := if m.psk then was.psk.value else was.proxy[m.suite];
              var shared := DiffieHellman(m.share.group, multiset{own, m.share.key});
              var e := was.(schedule := schedule.Updated(Parts(m)).Extracted(Some(shared)),
                            resumed := was.resumed || m.psk, psk := None);
              State() == Install(e, Decrypt, Handshake, "s hs traffic").(phase := ExpectEncryptedExtensions)
      ensures OwnSchedules()
    {
      hide Install;
      SelectSchedule(m.psk, m.suite);
      AgreeOnKeys(m, own);
    }

    method AgreeOnKeys(m: Message, own: Key)
      requires Valid() && m.ServerHello? && keySchedule != null
      modifies this, keySchedule
      ensures Valid()
      ensures var shared := DiffieHellman(m.share.group, multiset{own, m.share.key});
              var e := old(State()).(schedule := old(State()).schedule.Updated(Parts(m)).Extracted(Some(shared)));
              State() == Install(e, Decrypt, Handshake, "s hs traffic").(phase := ExpectEncryptedExtensions)
      ensures SameSchedules()
    {
      hide Install;
      Hash(m);
      ExchangeKeys(m.share.group, own, m.share.key);
      SetupTrafficProtection(Decrypt, Handshake, "s hs traffic");
      phase := ExpectEncryptedExtensions;
    }

    method ExchangeKeys(group: Group, own: Key, peer: Key)
      requires Valid() && keySchedule != null
      modifies keySchedule
      ensures Valid()
      ensures State() == old(State()).(schedule := old(State()).schedule.Extracted(Some(DiffieHellman(group, multiset{own, peer}))))
    {
      keySchedule.ExtractKey(Some(DiffieHellman(group, multiset{own, peer})));
    }

    method HandleEncryptedExtensions(m: Message)
      requires Valid() && m.EncryptedExtensions? && keySchedule != null
      modifies this, keySchedule
      ensures Valid() && State() == ClientHandleExtensions(old(State()), m).0
      ensures SameSchedules()
    {
      hide Install;
      alpnNegotiated, earlyDataAccepted := m.alpnChosen, m.earlyAccepted;
      InstallClientKeyAndHash(m);
      phase := if sessionResumed then ExpectPeerFinished else ExpectRequestOrCertificate;
    }

    method InstallClientKeyAndHash(m: Message)
      requires Valid() && keySchedule != null
      modifies keySchedule, this`encKey, this`decKey, this`installed
      ensures Valid() && State() == Hashed(Install(old(State()), Encrypt, Handshake, "c hs traffic"), m)
    {
      hide Install;
      SetupTrafficProtection(Encrypt, Handshake, "c hs traffic");
      Hash(m);
    }

    method HandleCertificateRequest(m: Message)
      requires Valid() && m.CertificateRequest? && keySchedule != null
      modifies this, keySchedule
      ensures Valid() && State() == ClientHandleRequest(old(State()), m).0
      ensures SameSchedules()
    {
      certificateRequest := Some(m.algorithms);
      Hash(m);
      phase := ExpectPeerCertificate;
    }

    method HandleCertificate(m: Message)
      requires Valid() && m.Certificate? && keySchedule != null
      modifies this, keySchedule
      ensures Valid() && State() == ClientHandleCertificate(old(State()), m).0
      ensures SameSchedules()
    {
      Hash(m);
      if m.chain == [] {
        GiveUp(NoCertificate);
        return;
      }
      peerChain := m.chain;
      phase := ExpectPeerVerify;
    }

    method CheckSignature(m: Message, algorithms: seq<nat>, role: string) returns (ok: bool)
      requires Valid() && m.CertificateVerify? && keySchedule != null
      ensures ok <==> SignatureHolds(State(), m, algorithms, role)
    {
      if m.algorithm !in algorithms || peerChain == [] { return false; }
      ok := m.signature == Signature(peerChain[0], m.algorithm, role, HashFor(keySchedule.suite), keySchedule.transcript);
    }

    method HandleCertificateVerify(cc: ClientConfig, m: Message)
      requires Valid() && m.CertificateVerify? && keySchedule != null
      modifies this, keySchedule
      ensures Valid() && State() == ClientHandleVerify(cc, old(State()), m).0
      ensures SameSchedules()
    {
      var ok := CheckSignature(m, cc.signatureAlgorithms, SERVER_CONTEXT);
      if !ok || !cc.trusts(peerChain) {
        GiveUp(Alert);
        return;
      }
      Hash(m);
      phase := ExpectPeerFinished;
    }

    /** The answer to a certificate request, if there was one. */
    method SendCertificate(cc: ClientConfig) returns (out: seq<Message>)
      requires Valid() && keySchedule != null
      modifies keySchedule
      ensures Valid() && (State(), out) == ClientCertificate(cc, old(State()))
    {
      if certificateRequest.None? { return []; }
      var algorithm: Option<nat> := None;
      if cc.identity.Some? {
        algorithm := Negotiate(cc.identity.value.algorithms, certificateRequest);
      }
      var certificate := Certificate(if algorithm.Some? then [cc.identity.value.leaf] + cc.identity.value.above else []);
      Hash(certificate);
      out := [certificate];
      if algorithm.Some? {
        var verify := CertificateVerify(algorithm.value,
          Signature(cc.identity.value.leaf, algorithm.value, CLIENT_CONTEXT, HashFor(keySchedule.suite), keySchedule.transcript));
        Hash(verify);
        out := [certificate, verify];
      }
    }

    /** Moves on to the application secrets and installs the one the server sends with. */
    method InstallServerKey(direction: Direction)
      requires Valid() && keySchedule != null
      modifies keySchedule, this`encKey, this`decKey, this`installed
      ensures Valid()
      ensures State() == Install(old(State()).(schedule := old(State()).schedule.Extracted(None)), direction, OneRtt, "s ap traffic")
    {
      keySchedule.ExtractKey(None);
      SetupTrafficProtection(direction, OneRtt, "s ap traffic");
    }

    /** Sends the client's Finished and switches to its application key. */
    method SendClientFinished(next: Term) returns (m: Message)
      requires Valid() && keySchedule != null
      modifies keySchedule, this`encKey, this`installed, this`phase
      ensures Valid() && m == Finished(old(State()).schedule.FinishedData(old(State()).enc))
      ensures State() == Report(Hashed(old(State()), m).(enc := next), Encrypt, OneRtt, next).(phase := PostHandshake)
    {
      var verifyData := keySchedule.FinishedVerifyData(encKey);
      m := Finished(verifyData);
      Hash(m);
      encKey := next;
      UpdateTrafficKey(Encrypt, OneRtt, next);
      phase := PostHandshake;
    }

    method HandleServerFinished(cc: ClientConfig, m: Message) returns (out: seq<Message>)
      requires Valid() && m.Finished? && keySchedule != null
      modifies this, keySchedule
      ensures Valid() && (State(), out) == ClientHandleFinished(cc, old(State()), m)
      ensures SameSchedules()
    {
      hide ClientCertificate, Install, Report;
      var expected := keySchedule.FinishedVerifyData(decKey);
      if m.verifyData != expected {
        GiveUp(Alert);
        return [];
      }
      Hash(m);
      if keySchedule.generation != 2 {
        GiveUp(GenerationAssert);
        return [];
      }
      InstallServerKey(Decrypt);
      var next := keySchedule.DeriveSecret("c ap traffic");
      out := SendCertificate(cc);
      var last := SendClientFinished(next);
      out := out + [last];
    }

    method BuildSessionTicket(id: nat)
      requires Valid() && keySchedule != null
      modifies this`tickets
      ensures Valid() && State() == old(State()).(tickets := old(State()).tickets + [(id, TicketSecret(old(State()).schedule))])
    {
      var master := keySchedule.DeriveSecret("res master");
      tickets := tickets + [(id, ExpandLabel(HashFor(keySchedule.suite), master, "resumption", TicketNonce))];
    }

    method HandleNewSessionTicket(cc: ClientConfig, m: Message)
      requires Valid() && m.NewSessionTicket? && keySchedule != null
      modifies this`tickets
      ensures Valid() && State() == ClientHandleTicket(cc, old(State()), m).0
    {
      if cc.wantsTickets {
        BuildSessionTicket(m.ticketId);
      }
    }

    // ---- Server ----

    /** The key schedule up to the ClientHello; ok is false when the binder is wrong. */
    method StartSchedule(hello: Message, suite: Suite, ticket: Option<Ticket>) returns (ok: bool)
      requires Valid() && hello.ClientHello? && (ticket.Some? ==> hello.binder.Some?)
      modifies this
      ensures Valid() && pskSchedule == old(pskSchedule)
      ensures ok <==> ServerSchedule(old(State()), hello, suite, ticket).Some?
      ensures ok ==> keySchedule != null && fresh(keySchedule) && Some(State()) == ServerSchedule(old(State()), hello, suite, ticket)
      ensures !ok ==> State() == old(State()) && keySchedule == old(keySchedule)
    {
      hide BinderOf, BinderSchedule;
      if ticket.Some? {
        var schedule, expected := ComputeBinder(ticket.value, suite, hello.offer);
        if hello.binder.value != expected { return false; }
        schedule.UpdateHash([Tail(hello.binder.value)]);
        keySchedule := schedule;
        sessionResumed := true;
        if hello.offer.earlyData {
          var key := schedule.DeriveSecret("c e traffic");
          earlyDataAccepted := true;
          UpdateTrafficKey(Decrypt, ZeroRtt, key);
        }
      } else {
        keySchedule := new KeySchedule(suite);
        keySchedule.ExtractKey(None);
        keySchedule.UpdateHash(Parts(hello));
      }
      ok := true;
    }

    /** The ServerHello, the handshake keys and the encrypted extensions. */
    method SendHello(sc: ServerConfig, share: Share) returns (out: seq<Message>)
      requires Valid() && keySchedule != null
      modifies this, keySchedule
      ensures Valid() && keySchedule == old(keySchedule) && pskSchedule == old(pskSchedule)
      ensures (State(), out) == ServerOpening(sc, old(State()), share)
    {
      var hello := ServerHello(keySchedule.suite, Share(share.group, sc.key), sessionResumed);
      Hash(hello);
      ExchangeKeys(share.group, sc.key, share.key);
      SetupTrafficProtection(Encrypt, Handshake, "s hs traffic");
      SetupTrafficProtection(Decrypt, Handshake, "c hs traffic");
      var extensions := EncryptedExtensions(alpnNegotiated, earlyDataAccepted);
      Hash(extensions);
      out := [hello, extensions];
    }

    method SendServerCertificate(sc: ServerConfig, algorithm: nat) returns (out: seq<Message>)
      requires Valid() && keySchedule != null
      modifies keySchedule
      ensures Valid() && (State(), out) == ServerCertificate(sc, old(State()), algorithm)
    {
      out := [];
      if sc.requestsCertificate {
        var request := CertificateRequest(sc.signatureAlgorithms);
        Hash(request);
        out := [request];
      }
      var certificate := Certificate([sc.identity.leaf] + sc.identity.above);
      Hash(certificate);
      var verify := CertificateVerify(algorithm,
        Signature(sc.identity.leaf, algorithm, SERVER_CONTEXT, HashFor(keySchedule.suite), keySchedule.transcript));
      Hash(verify);
      out := out + [certificate, verify];
    }

    method ExpectFinished(sc: ServerConfig) returns (out: seq<Message>)
      requires Valid() && keySchedule != null
      modifies this, keySchedule
      ensures Valid() && (State(), out) == ServerExpectFinished(sc, old(State()))
      ensures SameSchedules()
    {
      expectedVerifyData := keySchedule.FinishedVerifyData(decKey);
      Hash(Finished(expectedVerifyData));
      phase := ExpectPeerFinished;
      out := [];
      if sc.issuesTickets && pskMode.Some? {
        BuildSessionTicket(sc.nextTicket);
        out := [NewSessionTicket(sc.nextTicket)];
      }
    }

    method PrepareApplicationKeys()
      requires Valid() && keySchedule != null
      modifies keySchedule, this`encKey, this`decKey, this`installed, this`nextDecKey
      ensures Valid()
      ensures var e := Install(old(State()).(schedule := old(State()).schedule.Extracted(None)), Encrypt, OneRtt, "s ap traffic");
              State() == e.(nextDec := e.schedule.Derive("c ap traffic"))
    {
      InstallServerKey(Encrypt);
      nextDecKey := keySchedule.DeriveSecret("c ap traffic");
    }

    method SendFinished(sc: ServerConfig) returns (out: seq<Message>)
      requires Valid() && keySchedule != null
      modifies this, keySchedule
      ensures Valid() && (State(), out) == ServerFinish(sc, old(State()))
      ensures SameSchedules()
    {
      hide ServerExpectFinished, Install;
      var verifyData := keySchedule.FinishedVerifyData(encKey);
      Hash(Finished(verifyData));
      out := [Finished(verifyData)];
      if keySchedule.generation != 2 {
        GiveUp(GenerationAssert);
        return;
      }
      PrepareApplicationKeys();
      if sc.requestsCertificate {
        phase := ExpectPeerCertificate;
      } else {
        var ticket := ExpectFinished(sc);
        out := out + ticket;
      }
    }

    method HandleClientHello(sc: ServerConfig, m: Message) returns (out: seq<Message>)
      requires Valid() && m.ClientHello?
      modifies this, keySchedule
      ensures Valid() && (State(), out) == ServerHandleHello(sc, old(State()), m)
      ensures OwnSchedules()
    {
      hide Choose, Resumes, UsableShare, ServerSchedule, ServerOpening, ServerCertificate, ServerFinish;
      var choice := Choose(sc, m.offer);
      if choice.None? {
        GiveUp(Alert);
        return [];
      }
      alpnNegotiated, pskMode := choice.value.alpn, choice.value.mode;
      var ok := StartSchedule(m, choice.value.suite, Resumes(sc, m, choice.value));
      if !ok {
        GiveUp(Alert);
        return [];
      }
      var share := UsableShare(m.offer.shares);
      if share.None? {
        GiveUp(NoKeyShare);
        return [];
      }
      var resumed := sessionResumed;
      out := SendHello(sc, share.value);
      var certificates: seq<Message> := [];
      if !resumed {
        certificates := SendServerCertificate(sc, choice.value.algorithm);
      }
      var closing := SendFinished(sc);
      out := out + certificates + closing;
    }

    method HandleClientCertificate(sc: ServerConfig, m: Message) returns (out: seq<Message>)
      requires Valid() && m.Certificate? && keySchedule != null
      modifies this, keySchedule
      ensures Valid() && (State(), out) == ServerHandleCertificate(sc, old(State()), m)
      ensures SameSchedules()
    {
      Hash(m);
      if m.chain != [] {
        peerChain := m.chain;
        phase := ExpectPeerVerify;
        out := [];
      } else {
        out := ExpectFinished(sc);
      }
    }

    method HandleClientVerify(sc: ServerConfig, m: Message) returns (out: seq<Message>)
      requires Valid() && m.CertificateVerify? && keySchedule != null
      modifies this, keySchedule
      ensures Valid() && (State(), out) == ServerHandleVerify(sc, old(State()), m)
      ensures SameSchedules()
    {
      var ok := CheckSignature(m, sc.signatureAlgorithms, CLIENT_CONTEXT);
      if !ok {
        GiveUp(Alert);
        return [];
      }
      Hash(m);
      out := ExpectFinished(sc);
    }

    method HandleClientFinished(m: Message)
      requires Valid() && m.Finished? && keySchedule != null
      modifies this
      ensures Valid() && State() == ServerHandleFinished(old(State()), m).0
      ensures SameSchedules()
    {
      if m.verifyData != expectedVerifyData {
        GiveUp(Alert);
        return;
      }
      decKey := nextDecKey;
      UpdateTrafficKey(Decrypt, OneRtt, decKey);
      phase := PostHandshake;
    }

    // ---- Dispatch on the current state ----

    method HandleAsClient(cc: ClientConfig, m: Message) returns (out: seq<Message>)
      requires Valid() && |cc.groups| == |cc.keys| && Ready(cc, State())
      modifies this, keySchedule, pskSchedule
      ensures Valid() && (State(), out) == ClientStep(cc, old(State()), m)
      ensures OwnSchedules()
    {
      hide ClientHandleHello, ClientHandleExtensions, ClientHandleRequest, ClientHandleCertificate, ClientHandleVerify;
      hide ClientHandleFinished, ClientHandleTicket, Ready;
      ClientKeepsQuiet(cc, State(), m);
      out := [];
      if phase == ExpectServerHello && m.ServerHello? {
        HandleServerHello(cc, m);
      } else if phase == ExpectPeerFinished && m.Finished? {
        out := HandleServerFinished(cc, m);
      } else {
        HandleQuietly(cc, m);
      }
    }

    /** The messages between the hellos and the Finished, and those that are not expected. */
    method HandleQuietly(cc: ClientConfig, m: Message)
      requires Valid() && |cc.groups| == |cc.keys| && Ready(cc, State())
      requires !(phase == ExpectServerHello && m.ServerHello?) && !(phase == ExpectPeerFinished && m.Finished?)
      modifies this, keySchedule
      ensures Valid() && (State(), []) == ClientStep(cc, old(State()), m)
      ensures SameSchedules()
    {
      hide ClientHandleHello, ClientHandleExtensions, ClientHandleRequest, ClientHandleCertificate, ClientHandleVerify;
      hide ClientHandleFinished, ClientHandleTicket, Ready;
      ClientKeepsQuiet(cc, State(), m);
      if phase == ExpectEncryptedExtensions && m.EncryptedExtensions? {
        HandleEncryptedExtensions(m);
      } else if phase == ExpectRequestOrCertificate && m.CertificateRequest? {
        HandleCertificateRequest(m);
      } else if (phase == ExpectRequestOrCertificate || phase == ExpectPeerCertificate) && m.Certificate? {
        HandleCertificate(m);
      } else if phase == ExpectPeerVerify && m.CertificateVerify? {
        HandleCertificateVerify(cc, m);
      } else if phase == PostHandshake && m.NewSessionTicket? {
        HandleNewSessionTicket(cc, m);
      } else if !phase.Failed? {
        GiveUp(Alert);
      }
    }

    /** Only the server's Finished makes a client send anything. */
    static lemma ClientKeepsQuiet(cc: ClientConfig, e: Endpoint, m: Message)
      requires |cc.groups| == |cc.keys| && Ready(cc, e)
      ensures m.ServerHello? ==> ClientHandleHello(cc, e, m).1 == []
      ensures m.EncryptedExtensions? ==> ClientHandleExtensions(e, m).1 == []
      ensures m.CertificateRequest? ==> ClientHandleRequest(e, m).1 == []
      ensures m.Certificate? ==> ClientHandleCertificate(e, m).1 == []
      ensures m.CertificateVerify? ==> ClientHandleVerify(cc, e, m).1 == []
      ensures m.NewSessionTicket? ==> ClientHandleTicket(cc, e, m).1 == []
    {
      hide PrivateKey;
    }

    method HandleAsServer(sc: ServerConfig, m: Message) returns (out: seq<Message>)
      requires Valid()
      modifies this, keySchedule
      ensures Valid() && (State(), out) == ServerStep(sc, old(State()), m)
      ensures OwnSchedules()
    {
      hide ServerHandleHello, ServerHandleCertificate, ServerHandleVerify;
      out := [];
      if phase == ExpectClientHello && m.ClientHello? {
        out := HandleClientHello(sc, m);
      } else if phase == ExpectPeerCertificate && m.Certificate? {
        out := HandleClientCertificate(sc, m);
      } else if phase == ExpectPeerVerify && m.CertificateVerify? {
        out := HandleClientVerify(sc, m);
      } else if phase == ExpectPeerFinished && m.Finished? {
        HandleClientFinished(m);
      } else if !phase.Failed? {
        GiveUp(Alert);
      }
    }
  }
}
