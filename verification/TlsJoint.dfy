/** The two machines running against each other, in any interleaving. */
module TlsJoint {
  import opened Words
  import opened TlsHandshake
  import opened TlsAgreement
  import opened TlsServerOrder

  /** Both ends, and what is on its way to each. */
  datatype Joint = Joint(client: Client, server: Server, toServer: seq<Wire>, toClient: seq<Wire>)

  const START := Joint(NEW_CLIENT, NEW_SERVER, [], [])

  function Drop(ws: seq<Wire>, took: bool): seq<Wire>
    requires took ==> ws != []
  {
    if took then ws[1..] else ws
  }

  /** A turn of one end; nothing if it waits for input, and None if it rejects its input. */
  function Turn(env: Env, j: Joint, clients: bool): Option<Joint> {
    if clients then
      var r := ClientStep(env, j.client, j.toClient);
      match r
      case Failed => None
      case Blocked => Some(j)
      case Moved(d, took, sent) =>
        ClientTakesInput(env, j.client, j.toClient);
        Some(Joint(d, j.server, j.toServer + sent, Drop(j.toClient, took)))
    else
      var r := ServerStep(env, j.server, j.toServer);
      match r
      case Failed => None
      case Blocked => Some(j)
      case Moved(d, took, sent) =>
        ServerTakesInput(env, j.server, j.toServer);
        Some(Joint(j.client, d, Drop(j.toServer, took), j.toClient + sent))
  }

  lemma {:induction false} ClientTakesInput(env: Env, c: Client, inbox: seq<Wire>)
    ensures ClientStep(env, c, inbox).Moved? && ClientStep(env, c, inbox).took ==> inbox != []
  {
    hide Update, ClientFinish;
  }

  lemma {:induction false} ServerTakesInput(env: Env, s: Server, inbox: seq<Wire>)
    ensures ServerStep(env, s, inbox).Moved? && ServerStep(env, s, inbox).took ==> inbox != []
  {
    hide Update, ServerFinish;
  }

  /** The turns of a schedule, as long as nobody rejects anything. */
  function Run(env: Env, j: Joint, schedule: seq<bool>): Option<Joint>
    decreases |schedule|
  {
    if schedule == [] then Some(j)
    else
      var n :- Turn(env, j, schedule[0]);
      Run(env, n, schedule[1..])
  }

  // ------------------------------------------------------------- the invariant

  /** One end is ahead of the other by exactly what is on its way. */
  ghost predicate InStep(env: Env, j: Joint) {
    || (j.toClient == [] && ServerLeft(env, j.server) == Tagged(true, j.toServer) + ClientLeft(env, j.client))
    || (j.toServer == [] && ClientLeft(env, j.client) == Tagged(false, j.toClient) + ServerLeft(env, j.server))
  }

  ghost predicate Inv(env: Env, j: Joint) {
    EnvOk(env) && ClientOk(env, j.client) && ServerOk(env, j.server) && InStep(env, j)
  }

  lemma {:induction false} StartInv(env: Env)
    requires EnvOk(env)
    ensures Inv(env, START)
  {
    hide Events, ClientRest, ServerRest, Requests, Status, Identified, KeyMessage;
    SameOrder(env);
    var items := ClientRest(env, StartConnect);
    assert [] + items == items;
    var left := Events(env, items, []);
    assert Tagged(true, []) + left == left;
  }

  /** What is next in a queue is the next event of whoever reads it. */
  lemma {:induction false} QueueNext(env: Env, j: Joint)
    requires InStep(env, j)
    ensures Next(ClientLeft(env, j.client), false, j.toClient) && Next(ServerLeft(env, j.server), true, j.toServer)
  {
    hide ClientLeft, ServerLeft;
  }

  lemma {:induction false} TaggedAppend(fromClient: bool, a: seq<Wire>, b: seq<Wire>)
    ensures Tagged(fromClient, a + b) == Tagged(fromClient, a) + Tagged(fromClient, b)
  {
  }

  /** What the reader took leaves the queue and its own list together; what the writer sent
      joins the queue and leaves its list. */
  lemma {:induction false} Balance(mine: bool, left: seq<Event>, left': seq<Event>, other: seq<Event>, inbox: seq<Wire>,
      outbox: seq<Wire>, took: bool, sent: seq<Wire>)
    requires took ==> inbox != [] && sent == []
    requires left == (if took then [Event(!mine, inbox[0])] else []) + (Tagged(mine, sent) + left')
    requires (inbox == [] && other == Tagged(mine, outbox) + left) || (outbox == [] && left == Tagged(!mine, inbox) + other)
    ensures var inbox' := Drop(inbox, took);
      (inbox' == [] && other == Tagged(mine, outbox + sent) + left') || (outbox + sent == [] && left' == Tagged(!mine, inbox') + other)
  {
    if took {
      var q := Tagged(!mine, inbox);
      assert q == [Event(!mine, inbox[0])] + Tagged(!mine, inbox[1..]);
      assert Tagged(mine, sent) == [];
      assert left[1..] == left' && (q + other)[1..] == Tagged(!mine, inbox[1..]) + other;
      assert outbox + sent == outbox;
    } else if sent == [] {
      assert left == left' && outbox + sent == outbox;
    } else {
      SenderHasNoInput(mine, left, left', other, inbox, outbox, sent);
      TaggedAppend(mine, outbox, sent);
      Together(Tagged(mine, outbox), Tagged(mine, sent), left');
      if outbox == [] { assert Tagged(mine, outbox) + left == left && Tagged(!mine, inbox) + other == other; }
    }
  }

  /** Nothing is on its way to an end whose turn it is to send. */
  lemma {:induction false} SenderHasNoInput(mine: bool, left: seq<Event>, left': seq<Event>, other: seq<Event>,
      inbox: seq<Wire>, outbox: seq<Wire>, sent: seq<Wire>)
    requires sent != [] && left == [] + (Tagged(mine, sent) + left')
    requires (inbox == [] && other == Tagged(mine, outbox) + left) || (outbox == [] && left == Tagged(!mine, inbox) + other)
    ensures inbox == []
  {
    HeadOf(mine, sent, left');
    HeadOf(!mine, inbox, other);
    assert [] + (Tagged(mine, sent) + left') == Tagged(mine, sent) + left';
  }

  lemma {:induction false} HeadOf(fromClient: bool, ws: seq<Wire>, more: seq<Event>)
    ensures ws != [] ==> (Tagged(fromClient, ws) + more)[0].fromClient == fromClient
  {
  }

  lemma {:induction false} Together(a: seq<Event>, b: seq<Event>, c: seq<Event>)
    ensures a + ([] + (b + c)) == (a + b) + c
  {
  }

  // ------------------------------------------------------------- one turn

  function Measure(env: Env, j: Joint): nat {
    ClientMeasure(j.client) + ServerMeasure(j.server)
  }

  lemma {:induction false} TurnInv(env: Env, j: Joint, clients: bool)
    requires Inv(env, j)
    ensures Turn(env, j, clients).Some? && Inv(env, Turn(env, j, clients).value)
    ensures var n := Turn(env, j, clients).value; n == j || Measure(env, n) < Measure(env, j)
  {
    hide ClientStep, ServerStep, ClientOk, ServerOk, ClientLeft, ServerLeft, EnvOk, ClientMeasure, ServerMeasure,
         Tagged;
    QueueNext(env, j);
    if clients {
      ClientKeepsOrder(env, j.client, j.toClient);
      var r := ClientStep(env, j.client, j.toClient);
      if r.Moved? {
        Balance(true, ClientLeft(env, j.client), ClientLeft(env, r.next), ServerLeft(env, j.server), j.toClient, j.toServer, r.took, r.sent);
      }
    } else {
      ServerKeepsOrder(env, j.server, j.toServer);
      var r := ServerStep(env, j.server, j.toServer);
      if r.Moved? {
        Balance(false, ServerLeft(env, j.server), ServerLeft(env, r.next), ClientLeft(env, j.client), j.toServer, j.toClient, r.took, r.sent);
      }
    }
  }

  lemma {:induction false} RunInv(env: Env, j: Joint, schedule: seq<bool>)
    requires Inv(env, j)
    ensures Run(env, j, schedule).Some? && Inv(env, Run(env, j, schedule).value)
    decreases |schedule|
  {
    hide Inv, Turn;
    if schedule != [] {
      TurnInv(env, j, schedule[0]);
      RunInv(env, Turn(env, j, schedule[0]).value, schedule[1..]);
    }
  }

  // ------------------------------------------------------------- main results

  /** Whatever is negotiated and however the turns fall, neither end ever rejects the other's
      next message as unexpected, or finds a signature or MAC wrong. */
  lemma {:induction false} NeverRejects(env: Env, schedule: seq<bool>)
    requires EnvOk(env)
    ensures Run(env, START, schedule).Some?
  {
    hide *;
    StartInv(env);
    RunInv(env, START, schedule);
  }

  /** The transcript the server is about to check something against. */
  function ServerChecks(env: Env, s: Server): Option<(Kind, Option<seq<Msg>>)> {
    if s.needCcs then None
    else match s.state
      case ReadClientCertificateVerify => if s.peerKey then Some((CertificateVerify, s.transcript.buffer)) else None
      case ReadChannelId => if s.channelId then Some((ChannelId, s.transcript.hash)) else None
      case ReadClientFinished => Some((Finished, s.transcript.hash))
      case _ => None
  }

  /** Whenever one end checks a Finished MAC, a CertificateVerify or a Channel ID, its hashed
      messages are exactly those that the other end had hashed when it computed it. */
  lemma {:induction false} TranscriptsAgree(env: Env, schedule: seq<bool>)
    requires EnvOk(env) && Run(env, START, schedule).Some?
    ensures var j := Run(env, START, schedule).value;
      && (ServerChecks(env, j.server).Some? && j.toServer != [] ==>
            var (what, hashed) := ServerChecks(env, j.server).value;
            j.toServer[0].Hs? && j.toServer[0].m.Proof? && j.toServer[0].m.what == what && hashed == Some(j.toServer[0].m.over))
      && (j.client.state == ReadServerFinished && j.toClient != [] ==>
            j.toClient[0].Hs? && j.toClient[0].m.Proof? && j.toClient[0].m.what == Finished
            && j.client.transcript.hash == Some(j.toClient[0].m.over))
  {
    hide Run, InStep, Identified, Requests, Status, KeyMessage;
    StartInv(env);
    RunInv(env, START, schedule);
    var j := Run(env, START, schedule).value;
    QueueNext(env, j);
    if ServerChecks(env, j.server).Some? && j.toServer != [] { ServerCheckNext(env, j.server, j.toServer[0]); }
    if j.client.state == ReadServerFinished && j.toClient != [] { ClientCheckNext(env, j.client, j.toClient[0]); }
  }

  lemma {:induction false} ServerCheckNext(env: Env, s: Server, w: Wire)
    requires ServerOk(env, s) && ServerChecks(env, s).Some?
    requires ServerLeft(env, s) != [] && ServerLeft(env, s)[0] == Event(true, w)
    ensures var (what, hashed) := ServerChecks(env, s).value;
      w.Hs? && w.m.Proof? && w.m.what == what && hashed == Some(w.m.over)
  {
    hide Identified, Requests, Status, KeyMessage, ServerLeft;
    match s.state {
      case ReadClientCertificateVerify => ClientTurn(env, s, Requests(env) && env.clientCert, CertificateVerify, ServerRest(env, ReadClientCcs));
      case ReadChannelId => ClientTurn(env, s, Identified(env), ChannelId, ServerRest(env, ReadClientFinished));
      case ReadClientFinished =>
        ClientTurn(env, s, true, Finished, ServerRest(env, if env.resumed then FinishServerHandshake else SendServerFinished));
    }
  }

  lemma {:induction false} ClientCheckNext(env: Env, c: Client, w: Wire)
    requires ClientOk(env, c) && c.state == ReadServerFinished
    requires ClientLeft(env, c) != [] && ClientLeft(env, c)[0] == Event(false, w)
    ensures w.Hs? && w.m.Proof? && w.m.what == Finished && c.transcript.hash == Some(w.m.over)
  {
    hide Identified, Requests, Status, KeyMessage, ClientLeft;
    ServerTurn(env, c, true, Finished, ClientRest(env, if c.resumed then SendClientFinished else FinishClientHandshake));
  }

  /** The handshake cannot get stuck: if neither end can take a turn, both are done and nothing
      is left on the way.  As every turn that is taken makes the measure smaller, it completes. */
  lemma {:induction false} NoDeadlock(env: Env, schedule: seq<bool>)
    requires EnvOk(env) && Run(env, START, schedule).Some?
    ensures var j := Run(env, START, schedule).value;
      Turn(env, j, true) == Some(j) == Turn(env, j, false)
      ==> j.client.state == ClientDone && j.server.state == ServerDone && j.toServer == [] && j.toClient == []
  {
    hide Run, ClientOk, ServerOk, ClientStep, ServerStep, EnvOk, ClientMeasure, ServerMeasure, Turn;
    StartInv(env);
    RunInv(env, START, schedule);
    var j := Run(env, START, schedule).value;
    if Turn(env, j, true) == Some(j) == Turn(env, j, false) {
      BothBlocked(env, j);
      StuckIsDone(env, j);
    }
  }

  lemma {:induction false} BothBlocked(env: Env, j: Joint)
    requires Inv(env, j) && Turn(env, j, true) == Some(j) == Turn(env, j, false)
    ensures ClientStep(env, j.client, j.toClient).Blocked? && ServerStep(env, j.server, j.toServer).Blocked?
  {
    hide ClientOk, ServerOk, ClientStep, ServerStep, EnvOk, ClientLeft, ServerLeft, InStep, ClientMeasure,
         ServerMeasure;
    QueueNext(env, j);
    ClientKeepsOrder(env, j.client, j.toClient);
    ServerKeepsOrder(env, j.server, j.toServer);
  }

  lemma {:induction false} StuckIsDone(env: Env, j: Joint)
    requires Inv(env, j) && ClientStep(env, j.client, j.toClient).Blocked?
        && ServerStep(env, j.server, j.toServer).Blocked?
    ensures j.client.state == ClientDone && j.server.state == ServerDone && j.toServer == [] && j.toClient == []
  {
    hide ClientOk, ServerOk, ClientStep, ServerStep, EnvOk, ClientLeft, ServerLeft, ClientMeasure, ServerMeasure;
    QueueNext(env, j);
    ClientKeepsOrder(env, j.client, j.toClient);
    ServerKeepsOrder(env, j.server, j.toServer);
    var lc, ls := ClientLeft(env, j.client), ServerLeft(env, j.server);
    assert Tagged(true, []) + lc == lc && Tagged(false, []) + ls == ls;
    assert lc == ls;
    DoneLeft(env, j);
  }

  lemma {:induction false} DoneLeft(env: Env, j: Joint)
    requires ClientOk(env, j.client) && ServerOk(env, j.server)
    ensures j.client.state == ClientDone ==> ClientLeft(env, j.client) == []
    ensures j.server.state == ServerDone ==> ServerLeft(env, j.server) == []
  {
    hide ClientLeft, ServerLeft, TranscriptOk, Requests, Status, Identified, KeyMessage;
    if j.client.state == ClientDone { ClientEnd(env, j.client); }
    if j.server.state == ServerDone { ServerEnd(env, j.server); }
  }
}
