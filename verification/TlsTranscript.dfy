/** What two honest TLS endpoints have hashed once both are done, and what their secrets cover (tls.py). */
module TlsTranscripts {
  import opened Common
  import opened TlsSchedule
  import opened TlsSpec
  import opened TlsRuns
  import opened TlsHistory
  import opened TlsServerHistory

  /** Messages without the tickets among them. */
  function NoTickets(ms: seq<Message>): seq<Message> {
    if ms == [] then [] else (if ms[0].NewSessionTicket? then [] else [ms[0]]) + NoTickets(ms[1..])
  }

  lemma {:induction false} TicketsLast(ms: seq<Message>, later: seq<Message>)
    requires (forall m | m in ms :: !m.NewSessionTicket?) && forall m | m in later :: m.NewSessionTicket?
    ensures NoTickets(ms + later) == ms
    decreases |ms| + |later|
  {
    if ms != [] {
      assert (ms + later)[1..] == ms[1..] + later;
      TicketsLast(ms[1..], later);
    } else if later != [] {
      assert ms + later == later;
      TicketsLast([], later[1..]);
      assert [] + later[1..] == later[1..];
    }
  }

  lemma FinishingHasNoTickets(cc: ClientConfig, ms: seq<Message>, later: seq<Message>, c: Endpoint, out: seq<Message>)
    requires WellFormed(cc) && Finishing(cc, ms, later, c, out)
    ensures forall m | m in ms :: !m.NewSessionTicket?
  {
    hide Heard, HelloOf, ClientStart, HandshakeTraffic, ApplicationTraffic, PrivateKey, Answer;
    forall m | m in ms
      ensures !m.NewSessionTicket?
    {
      var i :| 0 <= i < |ms| && ms[i] == m;
      if !ms[0].psk && i < |ms| - 1 { assert ms[..|ms| - 1][i] == m; }
    }
  }

  /** The transcript of a client that has finished. */
  lemma FinishedTranscript(cc: ClientConfig, ms: seq<Message>, c: Endpoint, out: seq<Message>)
    requires WellFormed(cc) && c.phase == PostHandshake && ClientAt(cc, ms, c, out)
    ensures c.schedule.transcript == HelloHashed(HelloOf(cc)) + Wholes(NoTickets(ms)) + Wholes(out)
    ensures var n := |NoTickets(ms)|; 0 <= n <= |ms| && NoTickets(ms) == ms[..n] && Finishing(cc, ms[..n], ms[n..], c, out)
  {
    hide HelloOf, Finishing, Verified, Underway;
    var n :| 0 <= n <= |ms| && Finishing(cc, ms[..n], ms[n..], c, out);
    FinishingHasNoTickets(cc, ms[..n], ms[n..], c, out);
    LaterAreTickets(cc, ms[..n], ms[n..], c, out);
    TicketsLast(ms[..n], ms[n..]);
    assert ms == ms[..n] + ms[n..];
  }

  lemma LaterAreTickets(cc: ClientConfig, ms: seq<Message>, later: seq<Message>, c: Endpoint, out: seq<Message>)
    requires WellFormed(cc) && Finishing(cc, ms, later, c, out)
    ensures (forall m | m in later :: m.NewSessionTicket?) && c.schedule.transcript == Heard(cc, ms) + Wholes(out)
  {
    hide Heard, HelloOf, ClientStart, HandshakeTraffic, ApplicationTraffic, PrivateKey, Signed, Answer;
  }

  /**
   At the end of every compatible exchange both transcripts are the client's hello and then every message of the
   server and every further message of the client, in order and whole, tickets aside. The handshake secrets cover it
   up to the ServerHello, the application secrets up to the server's Finished, and the ticket secrets all of it.
   */
  lemma ExchangeTranscript(cc: ClientConfig, sc: ServerConfig)
    requires WellFormed(cc) && Compatible(cc, sc)
    ensures var end, c, s := End(cc, sc), Exchange(cc, sc).client, Exchange(cc, sc).server;
            var n, all := |NoTickets(end.toClient)|, c.schedule.transcript;
            && end.toServer != [] && end.toServer[0] == HelloOf(cc)
            && all == s.schedule.transcript
            && all == HelloHashed(end.toServer[0]) + Wholes(NoTickets(end.toClient)) + Wholes(end.toServer[1..])
            && n <= |end.toClient| && Finishing(cc, end.toClient[..n], end.toClient[n..], c, end.toServer[1..])
            && ServerAt(sc, end.toServer, s, end.toClient)
  {
    hide ClientAll, ServerAll, ClientStart, Ready, ClientAt, ServerAt, Finishing, HelloOf, Compatible, Exchange;
    EndIsQuiet(cc, sc);
    ExchangeOutcome(cc, sc);
    StartReady(cc);
    var end := End(cc, sc);
    Started(cc, sc);
    ClientHistory(cc, end.toClient);
    ServerHistory(sc, end.toServer);
    var c, out := ClientAll(cc, ClientStart(cc).0, end.toClient).0, ClientAll(cc, ClientStart(cc).0, end.toClient).1;
    assert end.toServer == [HelloOf(cc)] + out;
    assert end.toServer[1..] == out;
    SameSchedules(cc, sc);
    FinishedTranscript(cc, end.toClient, c, out);
  }

  lemma Started(cc: ClientConfig, sc: ServerConfig)
    requires WellFormed(cc) && Compatible(cc, sc)
    ensures !ClientStart(cc).0.phase.Failed? && ClientStart(cc).1 == [HelloOf(cc)]
  {
    HelloOpens(cc, sc);
  }

  lemma SameSchedules(cc: ClientConfig, sc: ServerConfig)
    requires WellFormed(cc) && Compatible(cc, sc)
    ensures var c, s := Exchange(cc, sc).client, Exchange(cc, sc).server;
            c.phase == s.phase == PostHandshake && c.schedule == s.schedule
  {
    hide Exchange, Answerable, EarlyKeys, Mirror, ServerOrder;
    ExchangeOutcome(cc, sc);
  }

  /** What the client's secrets cover, in terms of the whole transcript. */
  lemma SecretsCover(cc: ClientConfig, sc: ServerConfig)
    requires WellFormed(cc) && Compatible(cc, sc)
    ensures var end, c := End(cc, sc), Exchange(cc, sc).client;
            var hello, first, all := HelloHashed(HelloOf(cc)), end.toClient[0], c.schedule.transcript;
            var a, b := |hello| + 1, |hello| + |NoTickets(end.toClient)|;
            && a <= b <= |all| && first.ServerHello?
            && var h, psk, shared := HashFor(first.suite), PskOf(cc, first), SharedOf(cc, first);
               var hs, master := HandshakeSecret(h, psk, shared), MasterSecret(h, psk, shared);
               && c.installed == ClientStart(cc).0.installed
                    + [TrafficKey(Decrypt, Handshake, first.suite, ExpandLabel(h, hs, "s hs traffic", HashOf(all[..a]))),
                       TrafficKey(Encrypt, Handshake, first.suite, ExpandLabel(h, hs, "c hs traffic", HashOf(all[..a]))),
                       TrafficKey(Decrypt, OneRtt, first.suite, ExpandLabel(h, master, "s ap traffic", HashOf(all[..b]))),
                       TrafficKey(Encrypt, OneRtt, first.suite, ExpandLabel(h, master, "c ap traffic", HashOf(all[..b])))]
               && (forall t | t in c.tickets ::
                     t.1 == ExpandLabel(h, ExpandLabel(h, master, "res master", HashOf(all)), "resumption", TicketNonce))
  {
    hide Compatible, Exchange, HelloOf, ClientStart, ServerAt, Finishing;
    ExchangeTranscript(cc, sc);
    var end, c := End(cc, sc), Exchange(cc, sc).client;
    var n := |NoTickets(end.toClient)|;
    hide End;
    Covered(cc, end.toClient[..n], end.toClient[n..], c, end.toServer[1..]);
    FinishingHasNoTickets(cc, end.toClient[..n], end.toClient[n..], c, end.toServer[1..]);
    LaterAreTickets(cc, end.toClient[..n], end.toClient[n..], c, end.toServer[1..]);
    TicketsLast(end.toClient[..n], end.toClient[n..]);
    assert end.toClient == end.toClient[..n] + end.toClient[n..];
  }

  lemma Covered(cc: ClientConfig, ms: seq<Message>, later: seq<Message>, c: Endpoint, out: seq<Message>)
    requires WellFormed(cc) && Finishing(cc, ms, later, c, out)
    ensures var hello, all := HelloHashed(HelloOf(cc)), c.schedule.transcript;
            && |ms| > 2 && ms[0].ServerHello? && |hello| + |ms| <= |all|
            && var first := ms[0];
            var h, psk, shared := HashFor(first.suite), PskOf(cc, first), SharedOf(cc, first);
            var hs, master := HandshakeSecret(h, psk, shared), MasterSecret(h, psk, shared);
            var a, b := |hello| + 1, |hello| + |ms|;
               && c.installed == ClientStart(cc).0.installed
                    + [TrafficKey(Decrypt, Handshake, first.suite, ExpandLabel(h, hs, "s hs traffic", HashOf(all[..a]))),
                       TrafficKey(Encrypt, Handshake, first.suite, ExpandLabel(h, hs, "c hs traffic", HashOf(all[..a]))),
                       TrafficKey(Decrypt, OneRtt, first.suite, ExpandLabel(h, master, "s ap traffic", HashOf(all[..b]))),
                       TrafficKey(Encrypt, OneRtt, first.suite, ExpandLabel(h, master, "c ap traffic", HashOf(all[..b])))]
               && (forall t | t in c.tickets ::
                     t.1 == ExpandLabel(h, ExpandLabel(h, master, "res master", HashOf(all)), "resumption", TicketNonce))
  {
    hide HelloOf, ClientStart, PrivateKey, Signed, Answer;
    var all := c.schedule.transcript;
    assert Heard(cc, ms[..1]) == all[..|HelloHashed(HelloOf(cc))| + 1];
    assert Heard(cc, ms) == all[..|HelloHashed(HelloOf(cc))| + |ms|];
  }
}
