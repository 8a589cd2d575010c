/** The handshake handlers of both endpoints on values (class Context in tls.py). */
module TlsSpec {
  import opened Common
  import opened TlsSchedule

  const GREASE: Group := 0xAAAA
  const EXCHANGE_GROUPS: set<Group> := {0x0017, 0x0018, 0x0019, 0x001D, 0x001E}
  const PSK_DHE_KE := 1

  datatype Ticket = Ticket(id: nat, suite: Suite, secret: Term, valid: bool, earlyData: bool)

  /** A certificate, those above it, and the algorithms its private key can sign with. */
  datatype Identity = Identity(leaf: Key, above: seq<Key>, algorithms: seq<nat>)

  datatype ClientConfig = ClientConfig(
    suites: seq<Suite>,
    groups: seq<Group>,
    keys: seq<Key>,
    signatureAlgorithms: seq<nat>,
    alpn: Option<seq<nat>>,
    ticket: Option<Ticket>,
    wantsTickets: bool,
    identity: Option<Identity>,
    trusts: seq<Key> -> bool)

  datatype ServerConfig = ServerConfig(
    suites: seq<Suite>,
    key: Key,
    signatureAlgorithms: seq<nat>,
    alpn: Option<seq<nat>>,
    tickets: Option<map<nat, Ticket>>,
    issuesTickets: bool,
    nextTicket: nat,
    requestsCertificate: bool,
    identity: Identity)

  datatype Direction = Encrypt | Decrypt
  datatype Epoch = ZeroRtt | Handshake | OneRtt
  datatype TrafficKey = TrafficKey(direction: Direction, epoch: Epoch, suite: Suite, secret: Term)

  /** Why an endpoint gave up: an alert, one of the handlers' assert statements, or the index into an empty chain. */
  datatype Failure = Alert | NoKeyShare | GenerationAssert | NoCertificate

  datatype Phase =
    | ExpectServerHello | ExpectEncryptedExtensions | ExpectRequestOrCertificate | ExpectPeerCertificate
    | ExpectPeerVerify | ExpectPeerFinished | PostHandshake
    | ExpectClientHello
    | Failed(why: Failure)

  /** The state of either endpoint; installed and tickets log what it reported to its callbacks. */
  datatype Endpoint = Endpoint(
    phase: Phase,
    schedule: Schedule,
    psk: Option<Schedule>,
    proxy: map<Suite, Schedule>,
    resumed: bool,
    enc: Term,
    dec: Term,
    nextDec: Term,
    expected: Term,
    request: Option<seq<nat>>,
    peerChain: seq<Key>,
    pskMode: Option<nat>,
    alpn: Option<nat>,
    earlyAccepted: bool,
    installed: seq<TrafficKey>,
    tickets: seq<(nat, Term)>)

  const BLANK := Endpoint(ExpectClientHello, NewSchedule(0), None, map[], false, ZeroKey(Sha256), ZeroKey(Sha256), ZeroKey(Sha256), ZeroKey(Sha256),
                          None, [], None, None, false, [], [])

  type Reaction = (Endpoint, seq<Message>)

  function Fail(e: Endpoint, why: Failure): Reaction { (e.(phase := Failed(why)), []) }

  /** The first supported value that is offered. */
  function Negotiate(supported: seq<nat>, offered: Option<seq<nat>>): (r: Option<nat>)
    ensures r.Some? ==> offered.Some? && r.value in offered.value
    ensures r.Some? ==> exists i :: 0 <= i < |supported| && supported[i] == r.value &&
                          forall j :: 0 <= j < i ==> supported[j] !in offered.value
    ensures r.None? && offered.Some? ==> forall x | x in supported :: x !in offered.value
  {
    if supported == [] || offered.None? then None
    else if supported[0] in offered.value then Some(supported[0])
    else
      var r := Negotiate(supported[1..], offered);
      assert forall i | 0 < i < |supported| :: supported[i] == supported[1..][i - 1];
      assert r.Some? ==> exists i :: 0 <= i < |supported[1..]| && supported[1..][i] == r.value && supported[i + 1] == r.value
                                     && forall j :: 0 <= j < i + 1 ==> supported[j] !in offered.value;
      r
  }

  /** Derives a secret and reports it, as _setup_traffic_protection does. */
  function Install(e: Endpoint, direction: Direction, epoch: Epoch, name: string): Endpoint {
    var secret := e.schedule.Derive(name);
    var e1 := if direction == Encrypt then e.(enc := secret) else e.(dec := secret);
    Report(e1, direction, epoch, secret)
  }

  function Report(e: Endpoint, direction: Direction, epoch: Epoch, secret: Term): Endpoint {
    e.(installed := e.installed + [TrafficKey(direction, epoch, e.schedule.suite, secret)])
  }

  /** Hashes a message sent or received. */
  function Hashed(e: Endpoint, m: Message): Endpoint {
    e.(schedule := e.schedule.Updated(Parts(m)))
  }

  function TicketSecret(s: Schedule): Term {
    ExpandLabel(HashFor(s.suite), s.Derive("res master"), "resumption", TicketNonce)
  }

  // ---- Client ----

  /** One key pair for every group that can be exchanged, a placeholder for GREASE. */
  function Shares(groups: seq<Group>, keys: seq<Key>): seq<Share>
    requires |groups| == |keys|
  {
    if groups == [] then []
    else
      (if groups[0] in EXCHANGE_GROUPS then [Share(groups[0], keys[0])]
       else if groups[0] == GREASE then [Share(GREASE, 0)] else [])
      + Shares(groups[1..], keys[1..])
  }

  /** The private key kept for a group: the last one generated. */
  function PrivateKey(groups: seq<Group>, keys: seq<Key>, group: Group): Option<Key>
    requires |groups| == |keys|
  {
    if groups == [] then None
    else if groups[|groups| - 1] == group && group in EXCHANGE_GROUPS then Some(keys[|groups| - 1])
    else PrivateKey(groups[..|groups| - 1], keys[..|groups| - 1], group)
  }

  function OfferOf(cc: ClientConfig): Offer
    requires |cc.groups| == |cc.keys|
  {
    var psk := cc.ticket.Some? && cc.ticket.value.valid;
    Offer(cc.suites, Shares(cc.groups, cc.keys), cc.signatureAlgorithms, cc.alpn,
          if cc.ticket.Some? || cc.wantsTickets then Some([PSK_DHE_KE]) else None,
          if psk then Some(cc.ticket.value.id) else None,
          psk && cc.ticket.value.earlyData)
  }

  /** A schedule keyed by a ticket that has hashed the ClientHello up to its binder. */
  function BinderSchedule(ticket: Ticket, suite: Suite, offer: Offer): Schedule {
    NewSchedule(suite).Extracted(Some(ticket.secret)).Updated([Head(offer)])
  }

  function BinderOf(ticket: Ticket, suite: Suite, offer: Offer): Term {
    var key := NewSchedule(suite).Extracted(Some(ticket.secret)).Derive("res binder");
    BinderSchedule(ticket, suite, offer).FinishedData(key)
  }

  function EarlyKey(psk: Schedule, direction: Direction): seq<TrafficKey> {
    [TrafficKey(direction, ZeroRtt, psk.suite, psk.Derive("c e traffic"))]
  }

  function HelloOf(cc: ClientConfig): (m: Message)
    requires |cc.groups| == |cc.keys|
    ensures m.ClientHello? && m.offer == OfferOf(cc) && (m.binder.Some? <==> m.offer.ticket.Some?)
    ensures m.binder.Some? ==> cc.ticket.Some?
  {
    var offer := OfferOf(cc);
    ClientHello(offer, if offer.ticket.Some? then Some(BinderOf(cc.ticket.value, cc.ticket.value.suite, offer)) else None)
  }

  function ClientStart(cc: ClientConfig): Reaction
    requires |cc.groups| == |cc.keys|
  {
    var hello := HelloOf(cc);
    var offer := hello.offer;
    if offer.shares == [] then Fail(BLANK, NoKeyShare)
    else
      var e :=
        if hello.binder.Some? then
          var psk := BinderSchedule(cc.ticket.value, cc.ticket.value.suite, offer).Updated([Tail(hello.binder.value)]);
          BLANK.(psk := Some(psk), installed := if offer.earlyData then EarlyKey(psk, Encrypt) else [])
        else BLANK;
      (e.(phase := ExpectServerHello,
          proxy := map suite | suite in cc.suites :: NewSchedule(suite).Extracted(None).Updated(Parts(hello))), [hello])
  }

  function ClientHandleHello(cc: ClientConfig, e: Endpoint, m: Message): Reaction
    requires |cc.groups| == |cc.keys| && m.ServerHello?
    requires forall suite | suite in cc.suites :: suite in e.proxy
  {
    if m.suite !in cc.suites || (m.psk && (e.psk.None? || m.suite != e.psk.value.suite)) then Fail(e, Alert)
    else
      var own := PrivateKey(cc.groups, cc.keys, m.share.group);
      if own.None? then Fail(e, NoKeyShare)
      else
        var schedule := if m.psk then e.psk.value else e.proxy[m.suite];
        var shared := DiffieHellman(m.share.group, multiset{own.value, m.share.key});
        var e1 := e.(schedule := schedule.Updated(Parts(m)).Extracted(Some(shared)), resumed := e.resumed || m.psk, psk := None);
        (Install(e1, Decrypt, Handshake, "s hs traffic").(phase := ExpectEncryptedExtensions), [])
  }

  function ClientHandleExtensions(e: Endpoint, m: Message): Reaction
    requires m.EncryptedExtensions?
  {
    var e1 := Hashed(Install(e.(alpn := m.alpnChosen, earlyAccepted := m.earlyAccepted), Encrypt, Handshake, "c hs traffic"), m);
    (e1.(phase := if e.resumed then ExpectPeerFinished else ExpectRequestOrCertificate), [])
  }

  function ClientHandleRequest(e: Endpoint, m: Message): Reaction
    requires m.CertificateRequest?
  {
    (Hashed(e, m).(request := Some(m.algorithms), phase := ExpectPeerCertificate), [])
  }

  function ClientHandleCertificate(e: Endpoint, m: Message): Reaction
    requires m.Certificate?
  {
    var e1 := Hashed(e, m);
    if m.chain == [] then Fail(e1, NoCertificate)
    else (e1.(peerChain := m.chain, phase := ExpectPeerVerify), [])
  }

  predicate SignatureHolds(e: Endpoint, m: Message, algorithms: seq<nat>, role: string)
    requires m.CertificateVerify?
  {
    m.algorithm in algorithms && e.peerChain != []
    && m.signature == Signature(e.peerChain[0], m.algorithm, role, HashFor(e.schedule.suite), e.schedule.transcript)
  }

  const SERVER_CONTEXT := "TLS 1.3, server CertificateVerify"
  const CLIENT_CONTEXT := "TLS 1.3, client CertificateVerify"

  function ClientHandleVerify(cc: ClientConfig, e: Endpoint, m: Message): Reaction
    requires m.CertificateVerify?
  {
    if !SignatureHolds(e, m, cc.signatureAlgorithms, SERVER_CONTEXT) || !cc.trusts(e.peerChain) then Fail(e, Alert)
    else (Hashed(e, m).(phase := ExpectPeerFinished), [])
  }

  /** The certificate messages a client answers a request with: an empty chain when it cannot sign. */
  function ClientCertificate(cc: ClientConfig, e: Endpoint): Reaction {
    if e.request.None? then (e, [])
    else
      var algorithm := if cc.identity.None? then None else Negotiate(cc.identity.value.algorithms, e.request);
      var certificate := Certificate(if algorithm.Some? then [cc.identity.value.leaf] + cc.identity.value.above else []);
      var e1 := Hashed(e, certificate);
      if algorithm.None? then (e1, [certificate])
      else
        var verify := CertificateVerify(algorithm.value,
          Signature(cc.identity.value.leaf, algorithm.value, CLIENT_CONTEXT, HashFor(e1.schedule.suite), e1.schedule.transcript));
        (Hashed(e1, verify), [certificate, verify])
  }

  function ClientHandleFinished(cc: ClientConfig, e: Endpoint, m: Message): Reaction
    requires m.Finished?
  {
    if m.verifyData != e.schedule.FinishedData(e.dec) then Fail(e, Alert)
    else
      var e1 := Hashed(e, m);
      if e1.schedule.generation != 2 then Fail(e1, GenerationAssert)
      else
        var e2 := Install(e1.(schedule := e1.schedule.Extracted(None)), Decrypt, OneRtt, "s ap traffic");
        var next := e2.schedule.Derive("c ap traffic");
        var (e3, certificates) := ClientCertificate(cc, e2);
        var finished := Finished(e3.schedule.FinishedData(e3.enc));
        var e4 := Report(Hashed(e3, finished).(enc := next), Encrypt, OneRtt, next);
        (e4.(phase := PostHandshake), certificates + [finished])
  }

  function ClientHandleTicket(cc: ClientConfig, e: Endpoint, m: Message): Reaction
    requires m.NewSessionTicket?
  {
    (if cc.wantsTickets then e.(tickets := e.tickets + [(m.ticketId, TicketSecret(e.schedule))]) else e, [])
  }

  predicate Ready(cc: ClientConfig, e: Endpoint) { forall suite | suite in cc.suites :: suite in e.proxy }

  function ClientStep(cc: ClientConfig, e: Endpoint, m: Message): (r: Reaction)
    requires |cc.groups| == |cc.keys| && Ready(cc, e)
    ensures Ready(cc, r.0)
  {
    match (e.phase, m)
    case (ExpectServerHello, ServerHello(_, _, _)) => ClientHandleHello(cc, e, m)
    case (ExpectEncryptedExtensions, EncryptedExtensions(_, _)) => ClientHandleExtensions(e, m)
    case (ExpectRequestOrCertificate, CertificateRequest(_)) => ClientHandleRequest(e, m)
    case (ExpectRequestOrCertificate, Certificate(_)) => ClientHandleCertificate(e, m)
    case (ExpectPeerCertificate, Certificate(_)) => ClientHandleCertificate(e, m)
    case (ExpectPeerVerify, CertificateVerify(_, _)) => ClientHandleVerify(cc, e, m)
    case (ExpectPeerFinished, Finished(_)) => ClientHandleFinished(cc, e, m)
    case (PostHandshake, NewSessionTicket(_)) => ClientHandleTicket(cc, e, m)
    case (Failed(_), _) => (e, [])
    case _ => Fail(e, Alert)
  }

  // ---- Server ----

  datatype Choice = Choice(suite: Suite, mode: Option<nat>, algorithm: nat, alpn: Option<nat>)

  function Choose(sc: ServerConfig, offer: Offer): Option<Choice> {
    var suite := Negotiate(sc.suites, Some(offer.suites));
    var mode := Negotiate([PSK_DHE_KE], offer.pskModes);
    var algorithm := Negotiate(sc.identity.algorithms, Some(offer.signatureAlgorithms));
    var alpn := if sc.alpn.Some? then Negotiate(sc.alpn.value, offer.alpn) else None;
    if suite.None? || algorithm.None? || (sc.alpn.Some? && alpn.None?) then None
    else Some(Choice(suite.value, mode, algorithm.value, alpn))
  }

  /** The stored ticket that will be used, if any. */
  function Resumes(sc: ServerConfig, hello: Message, choice: Choice): (t: Option<Ticket>)
    requires hello.ClientHello?
    ensures t.Some? ==> hello.binder.Some? && t.value.suite == choice.suite
  {
    if sc.tickets.None? || choice.mode.None? || hello.offer.ticket.None? || hello.binder.None? then None
    else if hello.offer.ticket.value !in sc.tickets.value then None
    else
      var ticket := sc.tickets.value[hello.offer.ticket.value];
      if ticket.valid && ticket.suite == choice.suite then Some(ticket) else None
  }

  /** The first share the server can use; it does not look at its own list of groups. */
  function UsableShare(shares: seq<Share>): (r: Option<Share>)
    ensures r.Some? ==> r.value.group in EXCHANGE_GROUPS
    ensures r.Some? ==> exists i :: 0 <= i < |shares| && shares[i] == r.value &&
                          forall j :: 0 <= j < i ==> shares[j].group !in EXCHANGE_GROUPS
    ensures r.None? ==> forall s | s in shares :: s.group !in EXCHANGE_GROUPS
  {
    if shares == [] then None
    else if shares[0].group in EXCHANGE_GROUPS then Some(shares[0])
    else
      var r := UsableShare(shares[1..]);
      assert forall i | 0 < i < |shares| :: shares[i] == shares[1..][i - 1];
      assert r.Some? ==> exists i :: 0 <= i < |shares[1..]| && shares[1..][i] == r.value && shares[i + 1] == r.value
                                     && forall j :: 0 <= j < i + 1 ==> shares[j].group !in EXCHANGE_GROUPS;
      r
  }

  /** The schedule after the ClientHello; None when the binder is wrong. */
  function ServerSchedule(e: Endpoint, hello: Message, suite: Suite, ticket: Option<Ticket>): Option<Endpoint>
    requires hello.ClientHello? && (ticket.Some? ==> hello.binder.Some?)
  {
    match ticket
    case None => Some(e.(schedule := NewSchedule(suite).Extracted(None).Updated(Parts(hello))))
    case Some(t) =>
      if hello.binder.value != BinderOf(t, suite, hello.offer) then None
      else
        var schedule := BinderSchedule(t, suite, hello.offer).Updated([Tail(hello.binder.value)]);
        var e1 := e.(schedule := schedule, resumed := true);
        Some(if hello.offer.earlyData then
               Report(e1.(earlyAccepted := true), Decrypt, ZeroRtt, schedule.Derive("c e traffic"))
             else e1)
  }

  /** The certificate messages of a server that does not resume. */
  function ServerCertificate(sc: ServerConfig, e: Endpoint, algorithm: nat): Reaction
  {
    var request := CertificateRequest(sc.signatureAlgorithms);
    var (e1, first) := if sc.requestsCertificate then (Hashed(e, request), [request]) else (e, []);
    var certificate := Certificate([sc.identity.leaf] + sc.identity.above);
    var e2 := Hashed(e1, certificate);
    var verify := CertificateVerify(algorithm,
      Signature(sc.identity.leaf, algorithm, SERVER_CONTEXT, HashFor(e2.schedule.suite), e2.schedule.transcript));
    (Hashed(e2, verify), first + [certificate, verify])
  }

  /** Hashes the Finished message the client will send, and issues a ticket. */
  function ServerExpectFinished(sc: ServerConfig, e: Endpoint): Reaction {
    var expected := e.schedule.FinishedData(e.dec);
    var e1 := Hashed(e.(expected := expected), Finished(expected)).(phase := ExpectPeerFinished);
    if sc.issuesTickets && e.pskMode.Some? then
      (e1.(tickets := e1.tickets + [(sc.nextTicket, TicketSecret(e1.schedule))]), [NewSessionTicket(sc.nextTicket)])
    else (e1, [])
  }

  /** The handshake keys, after the ServerHello. */
  function ServerKeys(sc: ServerConfig, e: Endpoint, share: Share): (Endpoint, Message) {
    var hello := ServerHello(e.schedule.suite, Share(share.group, sc.key), e.resumed);
    var shared := DiffieHellman(share.group, multiset{sc.key, share.key});
    var e1 := e.(schedule := e.schedule.Updated(Parts(hello)).Extracted(Some(shared)));
    (Install(Install(e1, Encrypt, Handshake, "s hs traffic"), Decrypt, Handshake, "c hs traffic"), hello)
  }

  /** The ServerHello and the encrypted extensions, with the handshake keys between them. */
  function ServerOpening(sc: ServerConfig, e: Endpoint, share: Share): Reaction {
    var (e1, hello) := ServerKeys(sc, e, share);
    var extensions := EncryptedExtensions(e.alpn, e.earlyAccepted);
    (Hashed(e1, extensions), [hello, extensions])
  }

  /** From the ServerHello to the server's certificate messages, if any. */
  function ServerCertified(sc: ServerConfig, e: Endpoint, share: Share, algorithm: nat): Reaction {
    var (e1, opening) := ServerOpening(sc, e, share);
    var (e2, certificates) := if e.resumed then (e1, []) else ServerCertificate(sc, e1, algorithm);
    (e2, opening + certificates)
  }

  /** The server's Finished, and the application keys. */
  function ServerFinish(sc: ServerConfig, e: Endpoint): Reaction {
    var finished := Finished(e.schedule.FinishedData(e.enc));
    var e1 := Hashed(e, finished);
    if e1.schedule.generation != 2 then (e1.(phase := Failed(GenerationAssert)), [finished])
    else
      var e2 := Install(e1.(schedule := e1.schedule.Extracted(None)), Encrypt, OneRtt, "s ap traffic");
      var e3 := e2.(nextDec := e2.schedule.Derive("c ap traffic"));
      if sc.requestsCertificate then (e3.(phase := ExpectPeerCertificate), [finished])
      else
        var (e4, ticket) := ServerExpectFinished(sc, e3);
        (e4, [finished] + ticket)
  }

  function ServerHandleHello(sc: ServerConfig, e: Endpoint, m: Message): Reaction
    requires m.ClientHello?
  {
    match Choose(sc, m.offer)
    case None => Fail(e, Alert)
    case Some(choice) =>
      var start := e.(alpn := choice.alpn, pskMode := choice.mode);
      match ServerSchedule(start, m, choice.suite, Resumes(sc, m, choice))
      case None => Fail(start, Alert)
      case Some(e1) =>
        match UsableShare(m.offer.shares)
        case None => Fail(e1, NoKeyShare)
        case Some(share) =>
          var (e2, flight) := ServerCertified(sc, e1, share, choice.algorithm);
          var (e3, closing) := ServerFinish(sc, e2);
          (e3, flight + closing)
  }

  function ServerHandleCertificate(sc: ServerConfig, e: Endpoint, m: Message): Reaction
    requires m.Certificate?
  {
    var e1 := Hashed(e, m);
    if m.chain != [] then (e1.(peerChain := m.chain, phase := ExpectPeerVerify), [])
    else ServerExpectFinished(sc, e1)
  }

  function ServerHandleVerify(sc: ServerConfig, e: Endpoint, m: Message): Reaction
    requires m.CertificateVerify?
  {
    if !SignatureHolds(e, m, sc.signatureAlgorithms, CLIENT_CONTEXT) then Fail(e, Alert)
    else ServerExpectFinished(sc, Hashed(e, m))
  }

  function ServerHandleFinished(e: Endpoint, m: Message): Reaction
    requires m.Finished?
  {
    if m.verifyData != e.expected then Fail(e, Alert)
    else (Report(e.(dec := e.nextDec), Decrypt, OneRtt, e.nextDec).(phase := PostHandshake), [])
  }

  function ServerStep(sc: ServerConfig, e: Endpoint, m: Message): Reaction
  {
    match (e.phase, m)
    case (ExpectClientHello, ClientHello(_, _)) => ServerHandleHello(sc, e, m)
    case (ExpectPeerCertificate, Certificate(_)) => ServerHandleCertificate(sc, e, m)
    case (ExpectPeerVerify, CertificateVerify(_, _)) => ServerHandleVerify(sc, e, m)
    case (ExpectPeerFinished, Finished(_)) => ServerHandleFinished(e, m)
    case (Failed(_), _) => (e, [])
    case _ => Fail(e, Alert)
  }
}
