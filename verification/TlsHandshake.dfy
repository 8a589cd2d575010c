/** Two handshake contexts exchanging messages until there is nothing left to say (handle_message in tls.py). */
module TlsHandshakes {
  import opened Common
  import opened TlsSchedule
  import opened TlsSpec
  import opened TlsContexts
  import opened TlsRuns

  /** The state after one more message for the client, and what it sends then. */
  lemma ClientGets(cc: ClientConfig, sc: ServerConfig, sys: System, m: Message)
    requires WellFormed(cc) && !ClientStart(cc).0.phase.Failed?
    ensures Ready(cc, Client(cc, sys).0)
    ensures var step := ClientStep(cc, Client(cc, sys).0, m);
            Client(cc, System(sys.toClient + [m], sys.toServer)) == (step.0, Client(cc, sys).1 + step.1)
  {
    hide ClientStep, ClientStart, Ready;
    StartReady(cc);
    var (e, out) := ClientStart(cc);
    ClientAllAppend(cc, e, sys.toClient, [m]);
    OneStep(cc, ClientAll(cc, e, sys.toClient).0, m);
    var step := ClientStep(cc, Client(cc, sys).0, m);
    assert out + (ClientAll(cc, e, sys.toClient).1 + step.1) == out + ClientAll(cc, e, sys.toClient).1 + step.1;
  }

  lemma ServerGets(sc: ServerConfig, sys: System, m: Message)
    ensures var step := ServerStep(sc, Server(sc, sys).0, m);
            Server(sc, System(sys.toClient, sys.toServer + [m])) == (step.0, Server(sc, sys).1 + step.1)
  {
    hide ServerStep;
    ServerAllAppend(sc, BLANK, sys.toServer, [m]);
    OneServerStep(sc, ServerAll(sc, BLANK, sys.toServer).0, m);
  }

  /** Neither side has received anything yet. */
  lemma Beginning(cc: ClientConfig, sc: ServerConfig)
    requires WellFormed(cc)
    ensures Client(cc, System([], [])) == ClientStart(cc) && Server(sc, System([], [])) == (BLANK, [])
    ensures Run(cc, sc, [System([], [])])
  {
    hide ClientStart, Ready;
    StartReady(cc);
    var (e, out) := ClientStart(cc);
    if !e.phase.Failed? { ClientNothing(cc, e); }
    assert out + [] == out;
  }

  /** A client that could not start has sent nothing, so nothing comes back. */
  lemma NothingComesBack(cc: ClientConfig, sc: ServerConfig, sys: System)
    requires WellFormed(cc) && ClientStart(cc).0.phase.Failed? && sys.toServer <= Client(cc, sys).1
    ensures Server(sc, sys).1 == []
  {
    NoSharesNoHello(cc);
    hide ClientStart;
    assert sys.toServer == [];
  }

  /** What the two sides have sent and not yet received. */
  ghost predicate Waiting(cc: ClientConfig, sc: ServerConfig, sys: System, toClient: seq<Message>, toServer: seq<Message>)
    requires WellFormed(cc)
  {
    Server(sc, sys).1 == sys.toClient + toClient && Client(cc, sys).1 == sys.toServer + toServer
  }

  /** A message arrives: the run is one step longer, and the queues are what they should be. */
  lemma Arrives(cc: ClientConfig, sc: ServerConfig, run: seq<System>, next: System)
    requires WellFormed(cc) && Run(cc, sc, run) && Delivers(cc, sc, run[|run| - 1], next)
    ensures Run(cc, sc, run + [next])
    ensures |run| <= |End(cc, sc).toClient| + |End(cc, sc).toServer|
  {
    hide Delivers, End;
    forall i | 0 < i < |run + [next]|
      ensures Delivers(cc, sc, (run + [next])[i - 1], (run + [next])[i])
    {
      if i < |run| { assert Delivers(cc, sc, run[i - 1], run[i]); }
    }
    RunsStayBelow(cc, sc, run + [next]);
  }

  lemma ClientTurn(cc: ClientConfig, sc: ServerConfig, sys: System, toClient: seq<Message>, toServer: seq<Message>)
    requires WellFormed(cc) && Waiting(cc, sc, sys, toClient, toServer) && toClient != []
    ensures Ready(cc, Client(cc, sys).0)
    ensures var next := System(sys.toClient + [toClient[0]], sys.toServer);
            var (e, out) := ClientStep(cc, Client(cc, sys).0, toClient[0]);
            Delivers(cc, sc, sys, next) && Client(cc, next).0 == e && Waiting(cc, sc, next, toClient[1..], toServer + out)
  {
    hide ClientStep, ServerStep, ClientStart, Client, Server;
    var m := toClient[0];
    if ClientStart(cc).0.phase.Failed? { NothingComesBack(cc, sc, sys); }
    ClientGets(cc, sc, sys, m);
    var next := System(sys.toClient + [m], sys.toServer);
    SameServer(sc, sys, next);
    assert sys.toClient + toClient == next.toClient + toClient[1..];
    var out := ClientStep(cc, Client(cc, sys).0, m).1;
    assert sys.toServer + toServer + out == sys.toServer + (toServer + out);
  }

  lemma SameServer(sc: ServerConfig, a: System, b: System)
    requires a.toServer == b.toServer
    ensures Server(sc, a) == Server(sc, b)
  {
  }

  lemma SameClient(cc: ClientConfig, a: System, b: System)
    requires WellFormed(cc) && a.toClient == b.toClient
    ensures Client(cc, a) == Client(cc, b)
  {
  }

  lemma ServerTurn(cc: ClientConfig, sc: ServerConfig, sys: System, toClient: seq<Message>, toServer: seq<Message>)
    requires WellFormed(cc) && Waiting(cc, sc, sys, toClient, toServer) && toServer != []
    ensures var next := System(sys.toClient, sys.toServer + [toServer[0]]);
            var (e, out) := ServerStep(sc, Server(sc, sys).0, toServer[0]);
            Delivers(cc, sc, sys, next) && Server(sc, next).0 == e && Waiting(cc, sc, next, toClient + out, toServer[1..])
  {
    hide ClientStep, ServerStep, ClientStart, Client, Server;
    var m := toServer[0];
    ServerGets(sc, sys, m);
    var next := System(sys.toClient, sys.toServer + [m]);
    SameClient(cc, sys, next);
    assert sys.toServer + toServer == next.toServer + toServer[1..];
    var out := ServerStep(sc, Server(sc, sys).0, m).1;
    assert sys.toClient + toClient + out == sys.toClient + (toClient + out);
  }

  /** Where the two sides stand after a run, with what is on its way. */
  ghost predicate Underway(cc: ClientConfig, sc: ServerConfig, run: seq<System>, client: Endpoint, server: Endpoint,
                           toClient: seq<Message>, toServer: seq<Message>)
    requires WellFormed(cc)
  {
    && run != [] && Run(cc, sc, run)
    && client == Client(cc, run[|run| - 1]).0 && server == Server(sc, run[|run| - 1]).0
    && Waiting(cc, sc, run[|run| - 1], toClient, toServer)
  }

  lemma OneFurther(cc: ClientConfig, sc: ServerConfig, run: seq<System>, next: System, client: Endpoint, server: Endpoint,
                   toClient: seq<Message>, toServer: seq<Message>)
    requires WellFormed(cc) && Run(cc, sc, run) && Delivers(cc, sc, run[|run| - 1], next)
    requires client == Client(cc, next).0 && server == Server(sc, next).0 && Waiting(cc, sc, next, toClient, toServer)
    ensures Underway(cc, sc, run + [next], client, server, toClient, toServer)
  {
    hide Client, Server, Delivers, Waiting;
    Arrives(cc, sc, run, next);
  }

  /** While something is on its way, the run is shorter than the exchange. */
  lemma StillToCome(cc: ClientConfig, sc: ServerConfig, run: seq<System>, client: Endpoint, server: Endpoint,
                    toClient: seq<Message>, toServer: seq<Message>)
    requires WellFormed(cc) && Underway(cc, sc, run, client, server, toClient, toServer) && (toClient != [] || toServer != [])
    ensures |run| <= |End(cc, sc).toClient| + |End(cc, sc).toServer|
  {
    hide ClientStep, ServerStep, ClientStart, Client, Server, Run, End, Delivers, Waiting;
    var sys := run[|run| - 1];
    if toClient != [] {
      ClientTurn(cc, sc, sys, toClient, toServer);
      Arrives(cc, sc, run, System(sys.toClient + [toClient[0]], sys.toServer));
    } else {
      ServerTurn(cc, sc, sys, toClient, toServer);
      Arrives(cc, sc, run, System(sys.toClient, sys.toServer + [toServer[0]]));
    }
  }

  lemma Outcome(cc: ClientConfig, sc: ServerConfig, run: seq<System>, client: Endpoint, server: Endpoint)
    requires WellFormed(cc) && Underway(cc, sc, run, client, server, [], [])
    ensures BothDone(client, server) <==> Compatible(cc, sc)
    ensures Compatible(cc, sc) ==> Success(cc, sc, client, server)
    ensures AssertionsHold(client, server)
  {
    hide Client, Server, Run, Waiting, Quiet, Compatible, Success, BothDone, AssertionsHold;
    AllSaid(cc, sc, run[|run| - 1]);
    CompleteExactlyWhenCompatible(cc, sc, run);
    EveryRun(cc, sc, run);
  }

  /** The context and its key schedules are new. */
  twostate predicate New(new c: Context)
    reads c
  {
    && fresh(c) && (c.keySchedule != null ==> fresh(c.keySchedule)) && (c.pskSchedule != null ==> fresh(c.pskSchedule))
  }

  /** The two contexts share nothing. */
  predicate Apart(a: Context, b: Context)
    reads a, b
  {
    && a != b
    && (a.keySchedule != null ==> a.keySchedule != b.keySchedule && a.keySchedule != b.pskSchedule)
    && (a.pskSchedule != null ==> a.pskSchedule != b.keySchedule && a.pskSchedule != b.pskSchedule)
  }

  /** The next message arrives at the client. */
  method ClientRound(cc: ClientConfig, sc: ServerConfig, client: Context, toClient: seq<Message>, toServer: seq<Message>,
                     ghost run: seq<System>, ghost server: Endpoint)
    returns (restForClient: seq<Message>, restForServer: seq<Message>, ghost next: System)
    requires WellFormed(cc) && client.Valid() && toClient != []
    requires Underway(cc, sc, run, client.State(), server, toClient, toServer)
    modifies client, client.keySchedule, client.pskSchedule
    ensures client.Valid() && client.OwnSchedules()
    ensures Underway(cc, sc, run + [next], client.State(), server, restForClient, restForServer)
  {
    hide ClientStart, Client, Server, ClientStep, Ready, Run, Delivers, Waiting;
    ghost var sys := run[|run| - 1];
    next := System(sys.toClient + [toClient[0]], sys.toServer);
    ClientTurn(cc, sc, sys, toClient, toServer);
    SameServer(sc, sys, next);
    hide Underway;
    var out := client.HandleAsClient(cc, toClient[0]);
    restForClient, restForServer := toClient[1..], toServer + out;
    OneFurther(cc, sc, run, next, client.State(), server, restForClient, restForServer);
  }

  method ServerRound(cc: ClientConfig, sc: ServerConfig, server: Context, toClient: seq<Message>, toServer: seq<Message>,
                     ghost run: seq<System>, ghost client: Endpoint)
    returns (restForClient: seq<Message>, restForServer: seq<Message>, ghost next: System)
    requires WellFormed(cc) && server.Valid() && toServer != []
    requires Underway(cc, sc, run, client, server.State(), toClient, toServer)
    modifies server, server.keySchedule, server.pskSchedule
    ensures server.Valid() && server.OwnSchedules()
    ensures Underway(cc, sc, run + [next], client, server.State(), restForClient, restForServer)
  {
    hide ClientStart, Client, Server, ServerStep, Run, Delivers, Waiting;
    ghost var sys := run[|run| - 1];
    next := System(sys.toClient, sys.toServer + [toServer[0]]);
    ServerTurn(cc, sc, sys, toClient, toServer);
    SameClient(cc, sys, next);
    hide Underway;
    var out := server.HandleAsServer(sc, toServer[0]);
    restForClient, restForServer := toClient + out, toServer[1..];
    OneFurther(cc, sc, run, next, client, server.State(), restForClient, restForServer);
  }

  /** Both contexts, and the client's hello on its way. */
  method Introduce(cc: ClientConfig, sc: ServerConfig) returns (client: Context, server: Context, hello: seq<Message>)
    requires WellFormed(cc)
    ensures New(client) && New(server) && Apart(client, server)
    ensures client.Valid() && server.Valid()
    ensures var sys := System([], []);
            Underway(cc, sc, [sys], client.State(), server.State(), [], hello)
  {
    hide ClientStart, Client, Server, Run, Waiting;
    client := new Context();
    server := new Context();
    hello := client.ClientSendHello(cc);
    Beginning(cc, sc);
    NothingYet(cc, sc, hello);
  }

  /**
   Runs a client and a server against each other; order decides, when both have messages waiting, whether the next one
   arrives at the client. Whatever it decides, both complete exactly when the configurations are compatible, and then the
   two contexts hold the same schedule, the same keys and the same ticket secrets.
   */
  method Handshake(cc: ClientConfig, sc: ServerConfig, order: nat -> bool) returns (client: Context, server: Context)
    requires WellFormed(cc)
    ensures New(client) && New(server) && client.Valid() && server.Valid()
    ensures BothDone(client.State(), server.State()) <==> Compatible(cc, sc)
    ensures Compatible(cc, sc) ==> Success(cc, sc, client.State(), server.State())
    ensures AssertionsHold(client.State(), server.State())
  {
    hide ClientStart, Client, Server, ClientStep, ServerStep, Compatible, Success, Ready, Run, End, Delivers, Waiting;
    hide AssertionsHold, BothDone, Quiet, Answerable, Underway;
    var toServer;
    client, server, toServer := Introduce(cc, sc);
    var toClient: seq<Message> := [];
    var arrived := 0;
    ghost var run := [System([], [])];
    while toClient != [] || toServer != []
      invariant New(client) && New(server) && Apart(client, server)
      invariant client.Valid() && server.Valid()
      invariant Underway(cc, sc, run, client.State(), server.State(), toClient, toServer)
      decreases |End(cc, sc).toClient| + |End(cc, sc).toServer| + 1 - |run|
    {
      ghost var next;
      StillToCome(cc, sc, run, client.State(), server.State(), toClient, toServer);
      if toServer == [] || (toClient != [] && order(arrived)) {
        toClient, toServer, next := ClientRound(cc, sc, client, toClient, toServer, run, server.State());
      } else {
        toClient, toServer, next := ServerRound(cc, sc, server, toClient, toServer, run, client.State());
      }
      run := run + [next];
      arrived := arrived + 1;
    }
    Outcome(cc, sc, run, client.State(), server.State());
  }

  lemma NothingYet(cc: ClientConfig, sc: ServerConfig, hello: seq<Message>)
    requires WellFormed(cc) && hello == ClientStart(cc).1
    ensures Waiting(cc, sc, System([], []), [], hello)
  {
    hide Client, Server, ClientStart;
    Beginning(cc, sc);
    assert [] + hello == hello;
  }

  lemma AllSaid(cc: ClientConfig, sc: ServerConfig, sys: System)
    requires WellFormed(cc) && Waiting(cc, sc, sys, [], [])
    ensures Quiet(cc, sc, sys)
  {
    hide Client, Server;
    assert sys.toClient + [] == sys.toClient && sys.toServer + [] == sys.toServer;
  }
}
