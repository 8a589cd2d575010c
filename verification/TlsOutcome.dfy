/** What two honest TLS endpoints agree on, in terms of their configurations alone (tls.py; section 4 of RFC 8446). */
module TlsOutcomes {
  import opened Common
  import opened TlsSchedule
  import opened TlsSpec
  import opened TlsRuns
  import opened TlsHistory
  import opened TlsServerHistory
  import opened TlsTranscripts

  // ---- Choices ----

  /** The first of the supported values that is offered. */
  ghost predicate First(x: nat, supported: seq<nat>, offered: seq<nat>) {
    x in offered && exists i :: 0 <= i < |supported| && supported[i] == x && forall j | 0 <= j < i :: supported[j] !in offered
  }

  predicate Overlap(a: seq<nat>, b: seq<nat>) { exists x :: x in a && x in b }

  lemma FirstIsNegotiated(x: nat, supported: seq<nat>, offered: seq<nat>)
    ensures Negotiate(supported, Some(offered)) == Some(x) <==> First(x, supported, offered)
    ensures Negotiate(supported, Some(offered)).Some? <==> Overlap(supported, offered)
  {
    var r := Negotiate(supported, Some(offered));
    if First(x, supported, offered) && r.Some? {
      var i :| 0 <= i < |supported| && supported[i] == x && forall j | 0 <= j < i :: supported[j] !in offered;
      var k :| 0 <= k < |supported| && supported[k] == r.value && forall j | 0 <= j < k :: supported[j] !in offered;
      assert i < k || k < i || i == k;
    }
    if r.Some? {
      var k :| 0 <= k < |supported| && supported[k] == r.value;
      assert r.value in supported && r.value in offered;
    }
  }

  /** P-256, P-384, P-521, X25519 and X448. */
  predicate Exchangeable(group: Group) {
    group == 0x0017 || group == 0x0018 || group == 0x0019 || group == 0x001D || group == 0x001E
  }

  lemma ExchangeableIs(group: Group)
    ensures Exchangeable(group) <==> group in EXCHANGE_GROUPS
  {
  }

  /** The first group of a client for which it has a key to exchange. */
  ghost predicate FirstGroup(groups: seq<Group>, i: nat) {
    i < |groups| && Exchangeable(groups[i]) && forall j | 0 <= j < i :: !Exchangeable(groups[j])
  }

  /** The last mention of a group. */
  ghost predicate LastMention(groups: seq<Group>, i: nat) {
    i < |groups| && forall j | i < j < |groups| :: groups[j] != groups[i]
  }

  lemma {:induction false} ShareIsFirst(groups: seq<Group>, keys: seq<Key>)
    requires |groups| == |keys|
    ensures match UsableShare(Shares(groups, keys)) {
              case None => forall g | g in groups :: !Exchangeable(g)
              case Some(share) => exists i: nat :: FirstGroup(groups, i) && share == Share(groups[i], keys[i])
            }
  {
    if groups != [] {
      hide Shares, UsableShare, FirstGroup;
      FirstShare(groups, keys);
      if Exchangeable(groups[0]) {
        FirstAtOnce(groups);
      } else {
        ShareIsFirst(groups[1..], keys[1..]);
        if UsableShare(Shares(groups, keys)).Some? {
          var i: nat :| FirstGroup(groups[1..], i) && UsableShare(Shares(groups, keys)).value == Share(groups[1..][i], keys[1..][i]);
          FirstLater(groups, i);
        } else {
          assert forall g | g in groups :: g == groups[0] || g in groups[1..];
        }
      }
    }
  }

  lemma FirstAtOnce(groups: seq<Group>)
    requires groups != [] && Exchangeable(groups[0])
    ensures FirstGroup(groups, 0)
  {
  }

  lemma FirstLater(groups: seq<Group>, i: nat)
    requires groups != [] && !Exchangeable(groups[0]) && FirstGroup(groups[1..], i)
    ensures FirstGroup(groups, i + 1)
  {
    assert forall j | 0 < j <= i :: groups[j] == groups[1..][j - 1];
  }

  /** A group that cannot be exchanged makes no difference. */
  lemma FirstShare(groups: seq<Group>, keys: seq<Key>)
    requires |groups| == |keys| > 0
    ensures UsableShare(Shares(groups, keys)) ==
            if Exchangeable(groups[0]) then Some(Share(groups[0], keys[0])) else UsableShare(Shares(groups[1..], keys[1..]))
  {
    hide UsableShare, Shares;
    SharesFront(groups, keys);
    var rest := Shares(groups[1..], keys[1..]);
    if Exchangeable(groups[0]) {
      UsableFirst(Share(groups[0], keys[0]), rest);
    } else if groups[0] == GREASE {
      UsableFirst(Share(GREASE, 0), rest);
    }
  }

  lemma SharesFront(groups: seq<Group>, keys: seq<Key>)
    requires |groups| == |keys| > 0
    ensures var rest := Shares(groups[1..], keys[1..]);
            Shares(groups, keys) ==
            if Exchangeable(groups[0]) then [Share(groups[0], keys[0])] + rest
            else if groups[0] == GREASE then [Share(GREASE, 0)] + rest else rest
  {
    ExchangeableIs(groups[0]);
    hide Exchangeable;
    Nothing(Shares(groups[1..], keys[1..]));
  }

  lemma Nothing(shares: seq<Share>)
    ensures [] + shares == shares
  {
  }

  lemma UsableFirst(share: Share, rest: seq<Share>)
    ensures UsableShare([share] + rest) == if Exchangeable(share.group) then Some(share) else UsableShare(rest)
  {
    assert ([share] + rest)[1..] == rest;
  }

  lemma {:induction false} KeyIsLast(groups: seq<Group>, keys: seq<Key>, i: nat)
    requires |groups| == |keys| && LastMention(groups, i) && Exchangeable(groups[i])
    ensures PrivateKey(groups, keys, groups[i]) == Some(keys[i])
  {
    var n := |groups| - 1;
    if i < n {
      assert forall j | i < j < n :: groups[..n][j] == groups[j];
      KeyIsLast(groups[..n], keys[..n], i);
    }
  }

  /** Every group mentioned has a last mention. */
  lemma {:induction false} SomeLast(groups: seq<Group>, i: nat) returns (k: nat)
    requires i < |groups|
    ensures LastMention(groups, k) && groups[k] == groups[i] && k >= i
    decreases |groups| - i
  {
    if j :| i < j < |groups| && groups[j] == groups[i] {
      k := SomeLast(groups, j);
    } else {
      k := i;
    }
  }

  // ---- What a client offers ----

  predicate Usable(t: Option<Ticket>) { t.Some? && t.value.valid }

  lemma OfferExactly(cc: ClientConfig)
    requires WellFormed(cc)
    ensures var offer := HelloOf(cc).offer;
            && offer.suites == cc.suites && offer.signatureAlgorithms == cc.signatureAlgorithms && offer.alpn == cc.alpn
            && offer.pskModes == (if cc.ticket.Some? || cc.wantsTickets then Some([1]) else None)
            && offer.ticket == (if Usable(cc.ticket) then Some(cc.ticket.value.id) else None)
            && offer.earlyData == (Usable(cc.ticket) && cc.ticket.value.earlyData)
            && (HelloOf(cc).binder.Some? <==> Usable(cc.ticket))
  {
  }

  /** The shares, group by group: one with its key for each that can be exchanged, an empty one for GREASE. */
  lemma {:induction false} SharesExactly(groups: seq<Group>, keys: seq<Key>, group: Group, key: Key)
    requires |groups| == |keys|
    ensures Shares([], []) == []
    ensures Shares(groups + [group], keys + [key]) ==
            Shares(groups, keys)
            + (if Exchangeable(group) then [Share(group, key)] else if group == 0xAAAA then [Share(0xAAAA, 0)] else [])
  {
    if groups == [] {
      assert groups + [group] == [group] && keys + [key] == [key] && [group][1..] == [] && [key][1..] == [];
    } else {
      assert (groups + [group])[1..] == groups[1..] + [group] && (keys + [key])[1..] == keys[1..] + [key];
      SharesExactly(groups[1..], keys[1..], group, key);
    }
  }

  // ---- Compatible configurations ----

  /** The server will resume: it knows the ticket, which is valid on both sides and made for the suite it chooses. */
  ghost predicate Resumes(cc: ClientConfig, sc: ServerConfig) {
    && Usable(cc.ticket) && sc.tickets.Some? && cc.ticket.value.id in sc.tickets.value
    && var stored := sc.tickets.value[cc.ticket.value.id];
       stored.valid && First(stored.suite, sc.suites, cc.suites)
  }

  /** Suites, algorithms and application protocols overlap, and some group can be exchanged. */
  ghost predicate Matching(cc: ClientConfig, sc: ServerConfig) {
    && Overlap(sc.suites, cc.suites) && Overlap(sc.identity.algorithms, cc.signatureAlgorithms)
    && (sc.alpn.Some? ==> cc.alpn.Some? && Overlap(sc.alpn.value, cc.alpn.value))
    && exists g :: g in cc.groups && Exchangeable(g)
  }

  /** The first and the last key of the first group that can be exchanged are the same. */
  ghost predicate OneKey(cc: ClientConfig)
    requires WellFormed(cc)
  {
    exists i: nat, k: nat :: FirstGroup(cc.groups, i) && LastMention(cc.groups, k) && cc.groups[k] == cc.groups[i] && cc.keys[k] == cc.keys[i]
  }

  /**
   The exchange completes exactly for configurations that match, whose client has one key for the group used, and of
   which, if the server resumes, both hold the same secret for the ticket, the client's is for the suite chosen too, and
   no certificate is asked of the client, and else the client trusts the certificate of the server.
   */
  lemma CompatibleExactly(cc: ClientConfig, sc: ServerConfig)
    requires WellFormed(cc)
    ensures BothDone(Exchange(cc, sc).client, Exchange(cc, sc).server) <==>
            && Matching(cc, sc) && OneKey(cc)
            && if Resumes(cc, sc) then
                 && sc.tickets.value[cc.ticket.value.id].secret == cc.ticket.value.secret
                 && First(cc.ticket.value.suite, sc.suites, cc.suites) && !sc.requestsCertificate
               else cc.trusts([sc.identity.leaf] + sc.identity.above)
  {
    hide Exchange, First, Overlap;
    ExchangeOutcome(cc, sc);
    ChoiceExactly(cc, sc);
    if Choose(sc, OfferOf(cc)).Some? { ResumesExactly(cc, sc); }
    KeyExactly(cc);
  }

  lemma ChoiceExactly(cc: ClientConfig, sc: ServerConfig)
    requires WellFormed(cc)
    ensures Choose(sc, OfferOf(cc)).Some? <==>
            Overlap(sc.suites, cc.suites) && Overlap(sc.identity.algorithms, cc.signatureAlgorithms)
            && (sc.alpn.Some? ==> cc.alpn.Some? && Overlap(sc.alpn.value, cc.alpn.value))
    ensures Choose(sc, OfferOf(cc)).Some? ==>
              var choice := Choose(sc, OfferOf(cc)).value;
              && First(choice.suite, sc.suites, cc.suites) && First(choice.algorithm, sc.identity.algorithms, cc.signatureAlgorithms)
              && (choice.mode == if cc.ticket.Some? || cc.wantsTickets then Some(1) else None)
              && (sc.alpn.None? ==> choice.alpn == None)
              && (sc.alpn.Some? ==> choice.alpn.Some? && First(choice.alpn.value, sc.alpn.value, cc.alpn.value))
    ensures forall x: nat | First(x, sc.suites, cc.suites) :: Choose(sc, OfferOf(cc)).Some? ==> Choose(sc, OfferOf(cc)).value.suite == x
  {
    forall x: nat
      ensures Negotiate(sc.suites, Some(cc.suites)) == Some(x) <==> First(x, sc.suites, cc.suites)
      ensures Negotiate(sc.identity.algorithms, Some(cc.signatureAlgorithms)) == Some(x) <==>
              First(x, sc.identity.algorithms, cc.signatureAlgorithms)
    {
      FirstIsNegotiated(x, sc.suites, cc.suites);
      FirstIsNegotiated(x, sc.identity.algorithms, cc.signatureAlgorithms);
    }
    FirstIsNegotiated(0, sc.suites, cc.suites);
    FirstIsNegotiated(0, sc.identity.algorithms, cc.signatureAlgorithms);
    if sc.alpn.Some? && cc.alpn.Some? {
      var alpn := Negotiate(sc.alpn.value, cc.alpn);
      FirstIsNegotiated(if alpn.Some? then alpn.value else 0, sc.alpn.value, cc.alpn.value);
    }
    assert Negotiate([1], Some([1])) == Some(1);
    hide First, Overlap, Negotiate;
  }

  lemma ResumesExactly(cc: ClientConfig, sc: ServerConfig)
    requires WellFormed(cc) && Choose(sc, OfferOf(cc)).Some?
    ensures TlsRuns.Resumption(cc, sc).Some? <==> Resumes(cc, sc)
    ensures Resumes(cc, sc) ==> TlsRuns.Resumption(cc, sc).value == sc.tickets.value[cc.ticket.value.id]
  {
    ChoiceExactly(cc, sc);
    OfferExactly(cc);
    hide First, Choose, OfferOf;
  }

  lemma KeyExactly(cc: ClientConfig)
    requires WellFormed(cc)
    ensures UsableShare(OfferOf(cc).shares).Some? <==> exists g :: g in cc.groups && Exchangeable(g)
    ensures UsableShare(OfferOf(cc).shares).Some? ==>
              var share := UsableShare(OfferOf(cc).shares).value;
              PrivateKey(cc.groups, cc.keys, share.group) == Some(share.key) <==> OneKey(cc)
  {
    ShareIsFirst(cc.groups, cc.keys);
    var r := UsableShare(OfferOf(cc).shares);
    if r.Some? {
      var i: nat :| FirstGroup(cc.groups, i) && r.value == Share(cc.groups[i], cc.keys[i]);
      assert cc.groups[i] in cc.groups;
      var k := SomeLast(cc.groups, i);
      KeyIsLast(cc.groups, cc.keys, k);
      hide PrivateKey, UsableShare, OfferOf;
      forall i': nat, k': nat | FirstGroup(cc.groups, i') && LastMention(cc.groups, k') && cc.groups[k'] == cc.groups[i']
        ensures i' == i && k' == k
      {
        assert i' < i || i < i' || i' == i;
        assert k' < k || k < k' || k' == k;
      }
    }
  }

  // ---- What both hold in the end ----

  lemma FlightTells(sc: ServerConfig, hello: Message)
    requires Answered(sc, hello)
    ensures var flight, resumed, choice := Flight(sc, hello), TicketOf(sc, hello).Some?, ChoiceOf(sc, hello);
            && |flight| > 2 && flight[0].ServerHello? && flight[0].psk == resumed
            && flight[1] == EncryptedExtensions(choice.alpn, resumed && hello.offer.earlyData)
            && (forall m | m in flight :: !m.NewSessionTicket?)
            && (!resumed ==>
                  && |flight| == (if sc.requestsCertificate then 6 else 5)
                  && flight[|flight| - 3] == Certificate([sc.identity.leaf] + sc.identity.above)
                  && (sc.requestsCertificate ==> flight[2] == CertificateRequest(sc.signatureAlgorithms)))
  {
    hide Choose, Resumes, UsableShare, Since, ServerTraffic, VerifyData;
  }

  lemma FinishedTells(cc: ClientConfig, ms: seq<Message>, later: seq<Message>, c: Endpoint, out: seq<Message>)
    requires WellFormed(cc) && Finishing(cc, ms, later, c, out)
    ensures |ms| > 2 && ms[0].ServerHello? && ms[1].EncryptedExtensions?
    ensures c.resumed == ms[0].psk && c.alpn == ms[1].alpnChosen && c.earlyAccepted == ms[1].earlyAccepted
    ensures !ms[0].psk && ms[|ms| - 3].Certificate? ==> c.peerChain == ms[|ms| - 3].chain
    ensures !cc.wantsTickets ==> c.tickets == []
    ensures out == Answer(cc, ms)
  {
    hide Heard, HelloOf, ClientStart, HandshakeTraffic, ApplicationTraffic, PrivateKey, Answer;
  }

  lemma ServerTells(sc: ServerConfig, ms: seq<Message>, s: Endpoint, out: seq<Message>)
    requires s.phase == PostHandshake && ServerAt(sc, ms, s, out)
    ensures |ms| > 1 && Answered(sc, ms[0]) && Flown(sc, ms[0], s) && out == Flight(sc, ms[0]) + TicketMessages(s.tickets)
    ensures |s.tickets| == (if sc.issuesTickets && ChoiceOf(sc, ms[0]).mode.Some? then 1 else 0)
    ensures s.tickets != [] ==> s.tickets[0].0 == sc.nextTicket
    ensures |ms| > 2 && ms[1].Certificate? && ms[1].chain != [] ==> s.peerChain == ms[1].chain
  {
    hide Choose, Resumes, UsableShare, Flown, Flight, ServerKeysAt, Expected, ResumptionSecret, ServerMaster;
  }

  lemma ClientReads(cc: ClientConfig, sc: ServerConfig)
    requires WellFormed(cc) && Compatible(cc, sc)
    ensures var end, c, s := End(cc, sc), Exchange(cc, sc).client, Exchange(cc, sc).server;
            && end.toServer != [] && end.toServer[0] == HelloOf(cc) && Answered(sc, HelloOf(cc))
            && ServerAt(sc, end.toServer, s, end.toClient) && s.phase == PostHandshake && c.schedule == s.schedule
            && exists later :: Finishing(cc, Flight(sc, HelloOf(cc)), later, c, end.toServer[1..])
  {
    hide Compatible, Exchange, HelloOf, ClientStart, Finishing, End, Flight, ServerAt, NoTickets;
    ExchangeTranscript(cc, sc);
    SameSchedules(cc, sc);
    var end, s := End(cc, sc), Exchange(cc, sc).server;
    ServerTells(sc, end.toServer, s, end.toClient);
    FlightTells(sc, HelloOf(cc));
    TicketsLast(Flight(sc, HelloOf(cc)), TicketMessages(s.tickets));
    var n := |NoTickets(end.toClient)|;
    assert end.toClient[..n] == Flight(sc, HelloOf(cc));
  }

  /** What the server settled at its hello, both ends know in the end. */
  lemma EndsChosen(cc: ClientConfig, sc: ServerConfig)
    requires WellFormed(cc) && Compatible(cc, sc)
    ensures var c, s, hello := Exchange(cc, sc).client, Exchange(cc, sc).server, HelloOf(cc);
            && Answered(sc, hello) && Flown(sc, hello, s)
            && c.schedule == s.schedule && c.alpn == s.alpn && c.resumed == s.resumed && c.earlyAccepted == s.earlyAccepted
            && (!c.resumed ==> c.peerChain == [sc.identity.leaf] + sc.identity.above)
            && (!cc.wantsTickets ==> c.tickets == [])
            && |s.tickets| == (if sc.issuesTickets && ChoiceOf(sc, hello).mode.Some? then 1 else 0)
            && (s.tickets != [] ==> s.tickets[0].0 == sc.nextTicket)
  {
    hide Compatible, Exchange, HelloOf, ClientStart, Finishing, End, Flight, ServerAt, Answer;
    ClientReads(cc, sc);
    var end, c, s, hello := End(cc, sc), Exchange(cc, sc).client, Exchange(cc, sc).server, HelloOf(cc);
    var later :| Finishing(cc, Flight(sc, hello), later, c, end.toServer[1..]);
    FinishedTells(cc, Flight(sc, hello), later, c, end.toServer[1..]);
    ServerTells(sc, end.toServer, s, end.toClient);
    FlightTells(sc, hello);
  }

  lemma SameTickets(cc: ClientConfig, sc: ServerConfig)
    requires WellFormed(cc) && Compatible(cc, sc) && cc.wantsTickets
    ensures Exchange(cc, sc).client.tickets == Exchange(cc, sc).server.tickets
  {
    hide Exchange, EarlyKeys, Mirror, ServerOrder;
    ExchangeOutcome(cc, sc);
  }

  /**
   At the end of every exchange that completes, both ends agree, in terms of the configurations: on the first suite and
   the first protocol of the server that the client offers, on resumption and early data, and on the master secret over
   the ticket and the keys exchanged in the first group that could be; the client knows the certificate of the server
   unless it resumes; one ticket was issued exactly if the server issues tickets and the client holds one or wants some,
   and the client has it if it wants tickets.
   */
  lemma EndsAgree(cc: ClientConfig, sc: ServerConfig)
    requires WellFormed(cc) && BothDone(Exchange(cc, sc).client, Exchange(cc, sc).server)
    ensures var c, s, resumed := Exchange(cc, sc).client, Exchange(cc, sc).server, Resumes(cc, sc);
            && First(c.schedule.suite, sc.suites, cc.suites) && c.schedule == s.schedule
            && c.alpn == s.alpn && (sc.alpn.None? ==> c.alpn == None)
            && (sc.alpn.Some? ==> c.alpn.Some? && cc.alpn.Some? && First(c.alpn.value, sc.alpn.value, cc.alpn.value))
            && c.resumed == s.resumed == resumed && c.earlyAccepted == s.earlyAccepted == (resumed && cc.ticket.value.earlyData)
            && (!resumed ==> c.peerChain == [sc.identity.leaf] + sc.identity.above)
            && |s.tickets| == (if sc.issuesTickets && (cc.ticket.Some? || cc.wantsTickets) then 1 else 0)
            && c.tickets == (if cc.wantsTickets then s.tickets else [])
            && exists i: nat :: FirstGroup(cc.groups, i) &&
                 c.schedule.secret == MasterSecret(if c.schedule.suite == 0x1302 then Sha384 else Sha256,
                                                   if resumed then Some(cc.ticket.value.secret) else None,
                                                   DiffieHellman(cc.groups[i], multiset{cc.keys[i], sc.key}))
  {
    hide Exchange, First, MasterSecret, FirstGroup, Compatible, Flown, HelloOf, Resumes;
    ExchangeOutcome(cc, sc);
    EndsChosen(cc, sc);
    if cc.wantsTickets { SameTickets(cc, sc); }
    ServerSettles(cc, sc);
    ServerHolds(sc, HelloOf(cc), Exchange(cc, sc).server);
  }

  /** What the server settles at the hello, in terms of the configurations. */
  lemma ServerSettles(cc: ClientConfig, sc: ServerConfig)
    requires WellFormed(cc) && Compatible(cc, sc)
    ensures var hello := HelloOf(cc);
            && Answered(sc, hello)
            && var choice := ChoiceOf(sc, hello);
               && First(choice.suite, sc.suites, cc.suites) && (choice.mode.Some? <==> cc.ticket.Some? || cc.wantsTickets)
               && (sc.alpn.None? ==> choice.alpn == None)
               && (sc.alpn.Some? ==> choice.alpn.Some? && cc.alpn.Some? && First(choice.alpn.value, sc.alpn.value, cc.alpn.value))
               && (TicketOf(sc, hello).Some? <==> Resumes(cc, sc))
               && ServerPsk(sc, hello) == (if Resumes(cc, sc) then Some(cc.ticket.value.secret) else None)
               && (Resumes(cc, sc) ==> cc.ticket.Some? && hello.offer.earlyData == cc.ticket.value.earlyData)
               && exists i: nat :: FirstGroup(cc.groups, i) &&
                    ServerShared(sc, hello) == DiffieHellman(cc.groups[i], multiset{cc.keys[i], sc.key})
  {
    hide Overlap, First, UsableShare, Shares;
    ChoiceExactly(cc, sc);
    ResumesExactly(cc, sc);
    OfferExactly(cc);
    ShareIsFirst(cc.groups, cc.keys);
    hide Choose, BinderOf;
    assert HelloOf(cc).offer == OfferOf(cc) && OfferOf(cc).shares == Shares(cc.groups, cc.keys);
    assert TicketOf(sc, HelloOf(cc)) == TlsRuns.Resumption(cc, sc);
    var i: nat :| FirstGroup(cc.groups, i) && UsableShare(Shares(cc.groups, cc.keys)).value == Share(cc.groups[i], cc.keys[i]);
    assert multiset{sc.key, cc.keys[i]} == multiset{cc.keys[i], sc.key};
  }

  /** And what it holds then. */
  lemma ServerHolds(sc: ServerConfig, hello: Message, s: Endpoint)
    requires Answered(sc, hello) && Flown(sc, hello, s)
    ensures s.alpn == ChoiceOf(sc, hello).alpn && s.schedule.suite == ChoiceOf(sc, hello).suite
    ensures s.resumed == TicketOf(sc, hello).Some? && s.earlyAccepted == (s.resumed && hello.offer.earlyData)
    ensures s.schedule.secret ==
            MasterSecret(if s.schedule.suite == 0x1302 then Sha384 else Sha256, ServerPsk(sc, hello), ServerShared(sc, hello))
  {
    hide Choose, TlsSpec.Resumes, UsableShare, MasterSecret;
  }

  /** A client that can sign as the server asks shows its certificate, and the server knows it in the end. */
  lemma ServerKnowsClient(cc: ClientConfig, sc: ServerConfig)
    requires WellFormed(cc) && BothDone(Exchange(cc, sc).client, Exchange(cc, sc).server)
    requires sc.requestsCertificate && cc.identity.Some? && Overlap(cc.identity.value.algorithms, sc.signatureAlgorithms)
    ensures Exchange(cc, sc).server.peerChain == [cc.identity.value.leaf] + cc.identity.value.above
  {
    hide Exchange, Compatible, HelloOf, Resumes, Finishing, End, Flight, ServerAt, Overlap, Negotiate, Flown;
    ExchangeOutcome(cc, sc);
    EndsAgree(cc, sc);
    CompatibleExactly(cc, sc);
    ClientReads(cc, sc);
    EndsChosen(cc, sc);
    var end, c, s, hello := End(cc, sc), Exchange(cc, sc).client, Exchange(cc, sc).server, HelloOf(cc);
    ServerHolds(sc, hello, s);
    var later :| Finishing(cc, Flight(sc, hello), later, c, end.toServer[1..]);
    FinishedTells(cc, Flight(sc, hello), later, c, end.toServer[1..]);
    ServerTells(sc, end.toServer, s, end.toClient);
    FlightTells(sc, hello);
    FirstIsNegotiated(0, cc.identity.value.algorithms, sc.signatureAlgorithms);
    CertificateFirst(cc, Flight(sc, hello), sc.signatureAlgorithms);
  }

  lemma CertificateFirst(cc: ClientConfig, ms: seq<Message>, algorithms: seq<nat>)
    requires WellFormed(cc) && |ms| > 2 && ms[0].ServerHello? && ms[2] == CertificateRequest(algorithms)
    requires cc.identity.Some? && Negotiate(cc.identity.value.algorithms, Some(algorithms)).Some?
    ensures |Answer(cc, ms)| == 3 && Answer(cc, ms)[0] == Certificate([cc.identity.value.leaf] + cc.identity.value.above)
  {
    hide Negotiate, Heard, HandshakeTraffic, VerifyData;
  }
}
