/** Which messages a handshake consists of (RFC 5246 section 7.3, with the extensions of RFC 5077,
    RFC 6066, NPN and Channel ID): the list the two drivers exchange, and what a client insists on
    against any peer. */
module TlsMessages {
  import opened Words
  import opened TlsHandshake
  import opened TlsAgreement
  import opened TlsServerOrder
  import opened TlsMachines
  import opened TlsJoint
  import opened TlsComplete
  import TlsVerified

  // ------------------------------------------------------------- the list

  /** The server asks for a certificate when it verifies its peer, unless the peer offers a Channel ID
      in its place or the cipher works with a pre-shared key. */
  predicate Asks(env: Env) { env.verifyPeer && !(env.unlessChannelId && env.channelIdOffered) && !env.cipher.psk }

  /** The client's ChangeCipherSpec and what follows it. */
  function ClientEnd(env: Env): seq<Item> {
    [Item(true, None)]
    + (if env.npn then [Item(true, Some(NextProto))] else [])
    + (if env.channelIdOffered && env.cipher.kx == Ecdhe && (env.hashRecorded || !env.resumed) then [Item(true, Some(ChannelId))] else [])
    + [Item(true, Some(Finished))]
  }

  function ServerEnd(env: Env): seq<Item> {
    (if env.ticket then [Item(false, Some(NewSessionTicket))] else []) + [Item(false, None), Item(false, Some(Finished))]
  }

  /** The server's messages between its hello and the client's second flight. */
  function ServerFirst(env: Env): seq<Item> {
    (if !env.cipher.psk then [Item(false, Some(Certificate))] else [])
    + ((if !env.cipher.psk && env.stapling then [Item(false, Some(CertificateStatus))] else [])
    + ((if env.cipher.kx == Ecdhe || (env.cipher.psk && env.pskHint) then [Item(false, Some(ServerKeyExchange))] else [])
    + ((if Asks(env) then [Item(false, Some(CertificateRequest))] else [])
    + [Item(false, Some(ServerHelloDone))])))
  }

  function ClientSecond(env: Env): seq<Item> {
    (if Asks(env) then [Item(true, Some(Certificate))] else [])
    + ([Item(true, Some(ClientKeyExchange))]
    + (if Asks(env) && env.clientCert then [Item(true, Some(CertificateVerify))] else []))
  }

  /** Everything that goes over the connection, in order. */
  function Handshake(env: Env): seq<Item> {
    [Item(true, Some(ClientHello)), Item(false, Some(ServerHello))]
    + (if env.resumed then ServerEnd(env) + ClientEnd(env)
       else ServerFirst(env) + (ClientSecond(env) + (ClientEnd(env) + ServerEnd(env))))
  }

  lemma {:induction false} SecondIs(env: Env)
    requires !env.resumed
    ensures ClientRest(env, SendClientCertificate) == ClientSecond(env) + ClientRest(env, SendClientFinished)
  {
    hide ClientRest, KeyMessage, Status, Identified;
    SecondRests(env);
    var a := if Asks(env) then [Item(true, Some(Certificate))] else [];
    var b := if Asks(env) && env.clientCert then [Item(true, Some(CertificateVerify))] else [];
    var end := ClientRest(env, SendClientFinished);
    assert a + ([Item(true, Some(ClientKeyExchange))] + (b + end)) == a + ([Item(true, Some(ClientKeyExchange))] + b) + end;
  }

  lemma {:induction false} SecondRests(env: Env)
    ensures ClientRest(env, SendClientCertificate) == Opt(Requests(env), C(Certificate)) + ClientRest(env, SendClientKeyExchange)
    ensures ClientRest(env, SendClientKeyExchange) == [C(ClientKeyExchange)] + ClientRest(env, SendClientCertificateVerify)
    ensures ClientRest(env, SendClientCertificateVerify) == Opt(Requests(env) && env.clientCert, C(CertificateVerify)) + ClientRest(env, SendClientFinished)
  {
    hide Requests, Opt, C;
  }

  lemma {:induction false} EndsAre(env: Env)
    ensures ClientRest(env, SendClientFinished) == ClientEnd(env) + ClientRest(env, if env.resumed then FinishClientHandshake else ReadSessionTicket)
    ensures ClientRest(env, ReadSessionTicket) == ServerEnd(env) + ClientRest(env, if env.resumed then SendClientFinished else FinishClientHandshake)
    ensures ClientRest(env, FinishClientHandshake) == []
  {
    hide ClientRest;
    FinishRest(env);
    FinishSent(env);
    ServerLastFlight(env);
    FinishItemsAre(env);
    var t := if env.ticket then [Item(false, Some(NewSessionTicket))] else [];
    var end := ClientRest(env, if env.resumed then SendClientFinished else FinishClientHandshake);
    assert t + ([Item(false, None), Item(false, Some(Finished))] + end) == t + [Item(false, None), Item(false, Some(Finished))] + end;
  }

  lemma {:induction false} FinishSent(env: Env)
    ensures ClientRest(env, SendClientFinished) == FinishItems(env) + ClientRest(env, FinishFlight)
  {
    hide FinishItems;
  }

  lemma {:induction false} FirstIs(env: Env)
    requires !env.resumed
    ensures ClientRest(env, ReadServerCertificate) == ServerFirst(env) + ClientRest(env, SendClientCertificate)
  {
    hide ClientRest;
    FullClient(env);
    var end := ClientRest(env, SendClientCertificate);
    var a := if !env.cipher.psk then [Item(false, Some(Certificate))] else [];
    var b := if !env.cipher.psk && env.stapling then [Item(false, Some(CertificateStatus))] else [];
    var c := if env.cipher.kx == Ecdhe || (env.cipher.psk && env.pskHint) then [Item(false, Some(ServerKeyExchange))] else [];
    var d := if Asks(env) then [Item(false, Some(CertificateRequest))] else [];
    var e := [Item(false, Some(ServerHelloDone))];
    Regrouped(a, b, c, d, e, end);
  }

  lemma {:induction false} Regrouped(a: seq<Item>, b: seq<Item>, c: seq<Item>, d: seq<Item>, e: seq<Item>,
      end: seq<Item>)
    ensures a + (b + (c + (d + (e + end)))) == a + (b + (c + (d + e))) + end
  {
    assert c + (d + (e + end)) == c + (d + e) + end;
    assert a + (b + (c + (d + e) + end)) == a + (b + (c + (d + e))) + end;
  }

  lemma {:induction false} OrderIs(env: Env)
    ensures ClientRest(env, StartConnect) == Handshake(env)
  {
    hide ServerFirst, ClientSecond, ClientEnd, ServerEnd, Asks, ClientRest;
    EndsAre(env);
    HelloRests(env);
    var ends := ClientEnd(env) + ServerEnd(env);
    if env.resumed {
      assert ServerEnd(env) + (ClientEnd(env) + []) == ServerEnd(env) + ClientEnd(env);
    } else {
      FirstIs(env);
      SecondIs(env);
      assert ClientEnd(env) + (ServerEnd(env) + []) == ends;
    }
    var rest := ClientRest(env, if env.resumed then ReadSessionTicket else ReadServerCertificate);
    assert [Item(true, Some(ClientHello))] + ([Item(false, Some(ServerHello))] + rest) == [Item(true, Some(ClientHello)), Item(false, Some(ServerHello))] + rest;
  }

  lemma {:induction false} HelloRests(env: Env)
    ensures ClientRest(env, StartConnect)
         == [Item(true, Some(ClientHello))] + ([Item(false, Some(ServerHello))] + ClientRest(env, if env.resumed then ReadSessionTicket else ReadServerCertificate))
  {
    assert ClientRest(env, EnterEarlyData) == ClientRest(env, ReadServerHello)
        == [S(ServerHello)] + ClientRest(env, if env.resumed then ReadSessionTicket else ReadServerCertificate);
  }

  // ------------------------------------------------------------- what is said

  /** A message by its name. */
  function Name(w: Wire): Option<Kind> {
    match w
    case Ccs => None
    case Hs(Plain(k, _, _)) => Some(k)
    case Hs(Hello(_)) => Some(ServerHello)
    case Hs(Proof(k, _, _)) => Some(k)
  }

  function Said(fromClient: bool, ws: seq<Wire>): seq<Item> {
    if ws == [] then [] else [Item(fromClient, Name(ws[0]))] + Said(fromClient, ws[1..])
  }

  function Names(es: seq<Event>): seq<Item> {
    if es == [] then [] else [Item(es[0].fromClient, Name(es[0].wire))] + Names(es[1..])
  }

  lemma {:induction false} NamesThen(a: seq<Event>, b: seq<Event>)
    ensures Names(a + b) == Names(a) + Names(b)
  {
    if a == [] { assert a + b == b; }
    else {
      assert (a + b)[1..] == a[1..] + b;
      NamesThen(a[1..], b);
    }
  }

  lemma {:induction false} NamesTagged(fromClient: bool, ws: seq<Wire>)
    ensures Names(Tagged(fromClient, ws)) == Said(fromClient, ws)
  {
    if ws != [] {
      NamesTagged(fromClient, ws[1..]);
      assert Tagged(fromClient, ws)[1..] == Tagged(fromClient, ws[1..]);
    }
  }

  lemma {:induction false} SaidThen(fromClient: bool, a: seq<Wire>, b: seq<Wire>)
    ensures Said(fromClient, a + b) == Said(fromClient, a) + Said(fromClient, b)
  {
    if a == [] { assert a + b == b; }
    else {
      assert (a + b)[1..] == a[1..] + b;
      SaidThen(fromClient, a[1..], b);
    }
  }

  lemma {:induction false} NamesOfEvents(env: Env, items: seq<Item>, heard: seq<Msg>)
    ensures Names(Events(env, items, heard)) == items
  {
    hide MsgOf;
    if items != [] {
      var w := WireOf(env, items[0], heard);
      NamesOfEvents(env, items[1..], After(heard, w));
      NameIs(env, items[0], heard);
      assert Events(env, items, heard)[1..] == Events(env, items[1..], After(heard, w));
      assert [items[0]] + items[1..] == items;
    }
  }

  lemma {:induction false} NameIs(env: Env, i: Item, heard: seq<Msg>)
    ensures Name(WireOf(env, i, heard)) == i.what
  {
    hide MsgOf;
  }

  /** What is still to be said by either end: the events left to the one that is ahead. */
  ghost function Ahead(mine: bool, left: seq<Event>, other: seq<Event>, inbox: seq<Wire>,
      outbox: seq<Wire>): seq<Event> {
    if inbox == [] && other == Tagged(mine, outbox) + left then left else other
  }

  ghost function ToSay(env: Env, j: Joint): seq<Item> {
    Names(Ahead(true, ClientLeft(env, j.client), ServerLeft(env, j.server), j.toClient, j.toServer))
  }

  /** It does not matter from which end one looks. */
  lemma {:induction false} AheadSame(env: Env, j: Joint)
    requires InStep(env, j)
    ensures ToSay(env, j) == Names(Ahead(false, ServerLeft(env, j.server), ClientLeft(env, j.client), j.toServer, j.toClient))
  {
    hide ClientLeft, ServerLeft, Names;
    var c, s := ClientLeft(env, j.client), ServerLeft(env, j.server);
    assert Tagged(true, []) + c == c && Tagged(false, []) + s == s;
  }

  /** What one turn sends is no longer to be said. */
  lemma {:induction false} TurnSays(mine: bool, left: seq<Event>, left': seq<Event>, other: seq<Event>,
      inbox: seq<Wire>, outbox: seq<Wire>, took: bool, sent: seq<Wire>)
    requires took ==> inbox != [] && sent == []
    requires left == (if took then [Event(!mine, inbox[0])] else []) + (Tagged(mine, sent) + left')
    requires (inbox == [] && other == Tagged(mine, outbox) + left) || (outbox == [] && left == Tagged(!mine, inbox) + other)
    ensures Names(Ahead(mine, left, other, inbox, outbox)) == Said(mine, sent) + Names(Ahead(mine, left', other, Drop(inbox, took), outbox + sent))
  {
    Balance(mine, left, left', other, inbox, outbox, took, sent);
    NamesTagged(mine, sent);
    if sent != [] {
      SenderHasNoInput(mine, left, left', other, inbox, outbox, sent);
      NamesThen(Tagged(mine, sent), left');
      SentAhead(mine, left, left', other, outbox, sent);
    } else {
      assert outbox + sent == outbox && Said(mine, sent) == [] && [] + Names(other) == Names(other) && [] + Names(left') == Names(left');
      if took { TookAhead(mine, left, left', other, inbox, outbox); }
      else { assert left == left'; }
    }
  }

  lemma {:induction false} SentAhead(mine: bool, left: seq<Event>, left': seq<Event>, other: seq<Event>,
      outbox: seq<Wire>, sent: seq<Wire>)
    requires sent != [] && left == [] + (Tagged(mine, sent) + left')
    requires other == Tagged(mine, outbox) + left || (outbox == [] && left == Tagged(!mine, []) + other)
    ensures left == Tagged(mine, sent) + left'
    ensures Ahead(mine, left, other, [], outbox) == left && Ahead(mine, left', other, [], outbox + sent) == left'
  {
    TaggedAppend(mine, outbox, sent);
    Together(Tagged(mine, outbox), Tagged(mine, sent), left');
    assert Tagged(!mine, []) + other == other && Tagged(mine, []) + left == left;
  }

  lemma {:induction false} TookAhead(mine: bool, left: seq<Event>, left': seq<Event>, other: seq<Event>,
      inbox: seq<Wire>, outbox: seq<Wire>)
    requires inbox != [] && left == [Event(!mine, inbox[0])] + (Tagged(mine, []) + left')
    requires outbox == [] && left == Tagged(!mine, inbox) + other
    ensures Ahead(mine, left, other, inbox, outbox) == other == Ahead(mine, left', other, inbox[1..], outbox)
  {
    var q := Tagged(!mine, inbox);
    assert q == [Event(!mine, inbox[0])] + Tagged(!mine, inbox[1..]);
    assert left[1..] == left' && (q + other)[1..] == Tagged(!mine, inbox[1..]) + other;
    assert Tagged(mine, []) + left' == left' && Tagged(!mine, []) + other == other;
  }

  /** One turn of either end, and what it sends. */
  lemma {:induction false} StepSays(env: Env, j: Joint, clients: bool)
    requires Inv(env, j)
    ensures Turn(env, j, clients).Some? && Inv(env, Turn(env, j, clients).value)
    ensures var sent := if clients then Sent(ClientStep(env, j.client, j.toClient)) else Sent(ServerStep(env, j.server, j.toServer));
      ToSay(env, j) == Said(clients, sent) + ToSay(env, Turn(env, j, clients).value)
  {
    hide ClientStep, ServerStep, ClientOk, ServerOk, ClientLeft, ServerLeft, EnvOk, ClientMeasure, ServerMeasure,
         Tagged, Names, Ahead;
    TurnInv(env, j, clients);
    QueueNext(env, j);
    var n := Turn(env, j, clients).value;
    assert [] + ToSay(env, j) == ToSay(env, j);
    if clients {
      ClientKeepsOrder(env, j.client, j.toClient);
      var r := ClientStep(env, j.client, j.toClient);
      if r.Moved? {
        TurnSays(true, ClientLeft(env, j.client), ClientLeft(env, r.next), ServerLeft(env, j.server), j.toClient, j.toServer, r.took, r.sent);
      }
    } else {
      ServerKeepsOrder(env, j.server, j.toServer);
      var r := ServerStep(env, j.server, j.toServer);
      AheadSame(env, j);
      AheadSame(env, n);
      if r.Moved? {
        TurnSays(false, ServerLeft(env, j.server), ServerLeft(env, r.next), ClientLeft(env, j.client), j.toServer, j.toClient, r.took, r.sent);
      }
    }
  }

  function Sent<S>(r: Step<S>): seq<Wire> {
    match r
    case Moved(_, _, sent) => sent
    case _ => []
  }

  // ------------------------------------------------------------- the drivers

  /** What one call of a driver sends. */
  function Says(env: Env, j: Joint, clients: bool): seq<Wire> {
    if clients then DriveClient(env, j.client, j.toClient).sent else DriveServer(env, j.server, j.toServer).sent
  }

  lemma {:induction false} DriveSays(env: Env, j: Joint, clients: bool)
    requires Inv(env, j)
    ensures var r := if clients then RunClient(env, j) else RunServer(env, j);
      r.Some? && Inv(env, r.value) && ToSay(env, j) == Said(clients, Says(env, j, clients)) + ToSay(env, r.value)
    decreases Measure(env, j)
  {
    hide ClientStep, ServerStep, Inv, RunClient, RunServer, Measure, ToSay, Says;
    StepSays(env, j, clients);
    TurnInv(env, j, clients);
    StepMoves(env, j, clients);
    SaysFirst(env, j, clients);
    if clients { RunClientTurn(env, j); } else { RunServerTurn(env, j); }
    var n := Turn(env, j, clients).value;
    var sent := if clients then Sent(ClientStep(env, j.client, j.toClient)) else Sent(ServerStep(env, j.server, j.toServer));
    if n != j {
      DriveSays(env, n, clients);
      SaidThen(clients, sent, Says(env, n, clients));
      var r := (if clients then RunClient(env, n) else RunServer(env, n)).value;
      assert Said(clients, sent) + (Said(clients, Says(env, n, clients)) + ToSay(env, r)) == Said(clients, sent) + Said(clients, Says(env, n, clients)) + ToSay(env, r);
    }
  }

  /** A driver sends what its first turn does, and then what it sends from there. */
  lemma {:induction false} SaysFirst(env: Env, j: Joint, clients: bool)
    requires Inv(env, j)
    ensures Turn(env, j, clients).Some?
    ensures var sent := if clients then Sent(ClientStep(env, j.client, j.toClient)) else Sent(ServerStep(env, j.server, j.toServer));
      var n := Turn(env, j, clients).value;
      Says(env, j, clients) == if n == j then sent else sent + Says(env, n, clients)
    ensures Turn(env, j, clients) == Some(j) ==> Said(clients, Says(env, j, clients)) == []
  {
    hide ClientStep, ServerStep, Inv, ClientMeasure, ServerMeasure;
    TurnInv(env, j, clients);
    StepMoves(env, j, clients);
    ClientStepSmaller(env, j.client, j.toClient);
    ServerStepSmaller(env, j.server, j.toServer);
  }

  /** Everything that client and server send in n rounds, each driven in turn. */
  function Talk(env: Env, j: Joint, n: nat): seq<Item>
    decreases n
  {
    if n == 0 then []
    else
      var a := RunClient(env, j);
      if a.None? then Said(true, Says(env, j, true))
      else
        var b := RunServer(env, a.value);
        Said(true, Says(env, j, true)) + (Said(false, Says(env, a.value, false)) + (if b.None? then [] else Talk(env, b.value, n - 1)))
  }

  lemma {:induction false} RoundsSay(env: Env, j: Joint, n: nat)
    requires Inv(env, j)
    ensures Rounds(env, j, n).Some? && Inv(env, Rounds(env, j, n).value)
    ensures ToSay(env, j) == Talk(env, j, n) + ToSay(env, Rounds(env, j, n).value)
    decreases n
  {
    hide Inv, RunClient, RunServer, ToSay, Says, Said;
    if n == 0 {
      assert [] + ToSay(env, j) == ToSay(env, j);
    } else {
      DriveSays(env, j, true);
      var a := RunClient(env, j).value;
      DriveSays(env, a, false);
      var b := RunServer(env, a).value;
      RoundsSay(env, b, n - 1);
      var x, y, t, z := Said(true, Says(env, j, true)), Said(false, Says(env, a, false)), Talk(env, b, n - 1), ToSay(env, Rounds(env, b, n - 1).value);
      assert x + (y + (t + z)) == x + (y + t) + z;
    }
  }

  lemma {:induction false} StartSays(env: Env)
    requires EnvOk(env)
    ensures ToSay(env, START) == Handshake(env)
  {
    hide Handshake, Events, ClientRest, ServerRest, Names;
    SameOrder(env);
    OrderIs(env);
    NamesOfEvents(env, Handshake(env), []);
    var left := Events(env, Handshake(env), []);
    var items := Handshake(env);
    assert [] + items == items;
    assert Tagged(true, []) + left == left;
  }

  lemma {:induction false} NothingToSay(env: Env, j: Joint)
    requires Inv(env, j) && Complete(j)
    ensures ToSay(env, j) == []
  {
    hide ClientLeft, ServerLeft, ClientOk, ServerOk, EnvOk, InStep;
    DoneLeft(env, j);
  }

  /** Driving the two ends in turn, they exchange exactly the messages of the list, in its order: at
      any time a part of it from the start, and all of it once both are done. */
  lemma {:induction false} ExchangedExactly(env: Env, n: nat)
    requires EnvOk(env)
    ensures Rounds(env, START, n).Some? && Talk(env, START, n) <= Handshake(env)
    ensures Complete(Rounds(env, START, n).value) ==> Talk(env, START, n) == Handshake(env)
  {
    hide Inv, ToSay, Talk, Rounds, Handshake, Complete;
    StartInv(env);
    RoundsSay(env, START, n);
    StartSays(env);
    var end := Rounds(env, START, n).value;
    if Complete(end) {
      NothingToSay(env, end);
      assert Talk(env, START, n) + [] == Talk(env, START, n);
    }
  }

  // ------------------------------------------------------------- what a client insists on

  /** Against any peer: with an ephemeral key exchange the client goes on only with a
      ServerKeyExchange; with RSA it takes none. */
  lemma {:induction false} KeyExchangeRequired(env: Env, c: Client, ins: seq<Wire>)
    requires c.state == ReadServerKeyExchange && !c.needCcs
    ensures var r := ClientStep(env, c, ins);
      r.Moved? ==> ins != [] && r.next.state == ReadCertificateRequest
                   && (r.took <==> Name(ins[0]) == Some(ServerKeyExchange))
                   && (c.cipher.kx == Ecdhe ==> r.took) && (c.cipher.kx == Rsa ==> !r.took)
                   && r.next.resumed == c.resumed && r.next.cipher == c.cipher
                   && r.next.transcript == (if r.took then Update(c.transcript, ins[0].m) else c.transcript)
  {
    hide Update;
  }

  /** Against any peer: unless the cipher works with a pre-shared key, the client goes on only with
      the server's Certificate. */
  lemma {:induction false} CertificateRequired(env: Env, c: Client, ins: seq<Wire>)
    requires c.state == ReadServerCertificate && !c.needCcs
    ensures var r := ClientStep(env, c, ins);
      r.Moved? ==> r.next.state == ReadCertificateStatus
                   && (!c.cipher.psk ==> r.took && ins != [] && Name(ins[0]) == Some(Certificate) && r.next.transcript == Update(c.transcript, ins[0].m))
                   && (c.cipher.psk ==> !r.took)
  {
    hide Update;
  }

  /** A message of that name has come in and is in the transcript. */
  ghost predicate Heard(what: Kind, seen: seq<Wire>, t: Transcript) {
    t.hash.Some? && exists k :: 0 <= k < |t.hash.value| && HeardAt(what, seen, t.hash.value[k])
  }

  predicate HeardAt(what: Kind, seen: seq<Wire>, m: Msg) { Hs(m) in seen && Name(Hs(m)) == Some(what) }

  lemma {:induction false} StaysHeard(what: Kind, seen: seq<Wire>, t: Transcript, m: Msg)
    requires Heard(what, seen, t)
    ensures Heard(what, seen, Update(t, m))
  {
    var k :| 0 <= k < |t.hash.value| && HeardAt(what, seen, t.hash.value[k]);
    assert (t.hash.value + [m])[k] == t.hash.value[k];
  }

  lemma {:induction false} NowHeard(what: Kind, seen: seq<Wire>, t: Transcript, m: Msg)
    requires t.hash.Some? && HeardAt(what, seen, m)
    ensures Heard(what, seen, Update(t, m))
  {
    assert (t.hash.value + [m])[|t.hash.value|] == m;
  }

  /** How far the server's first messages have been read: not its hello, its hello, its Certificate,
      its ServerKeyExchange. */
  function Stage(state: ClientState): nat {
    match state
    case StartConnect => 0
    case EnterEarlyData => 0
    case ReadServerHello => 0
    case ReadServerCertificate => 1
    case ReadCertificateStatus => 2
    case VerifyServerCertificate => 2
    case ReadServerKeyExchange => 2
    case _ => 3
  }

  /** In a full handshake: what has been heard when the client is past the state that reads it. */
  ghost predicate ClientHeard(c: Client, seen: seq<Wire>) {
    !c.resumed ==>
      && (Stage(c.state) >= 1 ==> c.transcript.hash.Some?)
      && (Stage(c.state) >= 2 && !c.cipher.psk ==> Heard(Certificate, seen, c.transcript))
      && (Stage(c.state) >= 3 && c.cipher.kx == Ecdhe ==> Heard(ServerKeyExchange, seen, c.transcript))
  }

  /** Nothing has been forgotten, and the stage is the same. */
  predicate Moves(c: Client, d: Client, t: Transcript) {
    d.resumed == c.resumed && d.cipher == c.cipher && Stage(d.state) == Stage(c.state) && d.transcript == t
  }

  ghost predicate Keeps(c: Client, d: Client, seen: seq<Wire>) {
    && d.resumed == c.resumed && d.cipher == c.cipher && Stage(d.state) == Stage(c.state)
    && (c.transcript.hash.Some? ==> d.transcript.hash.Some?)
    && (forall what :: Heard(what, seen, c.transcript) ==> Heard(what, seen, d.transcript))
  }

  lemma {:induction false} KeepsHeard(c: Client, d: Client, seen: seq<Wire>)
    requires ClientHeard(c, seen) && Keeps(c, d, seen)
    ensures ClientHeard(d, seen)
  {
    hide Heard, Stage;
  }

  lemma {:induction false} TranscriptKeeps(seen: seq<Wire>, t: Transcript, m: Msg)
    ensures var u := Update(t, m); (t.hash.Some? ==> u.hash.Some?) && forall what :: Heard(what, seen, t) ==> Heard(what, seen, u)
    ensures var u := FreeBuffer(t); u.hash == t.hash && forall what :: Heard(what, seen, t) ==> Heard(what, seen, u)
    ensures var u := FreeBuffer(Update(t, m)); u.hash == Update(t, m).hash && forall what :: Heard(what, seen, t) ==> Heard(what, seen, u)
    ensures var u := Update(FreeBuffer(t), m); u.hash == Update(t, m).hash && forall what :: Heard(what, seen, t) ==> Heard(what, seen, u)
  {
    hide HeardAt;
    forall what | Heard(what, seen, t) ensures Heard(what, seen, Update(t, m)) { StaysHeard(what, seen, t, m); }
  }

  lemma {:induction false} HelloHeard(env: Env, c: Client, m: Msg, seen: seq<Wire>)
    requires c.state == ReadServerHello
    ensures var r := ClientOnMessage(env, c, m); r.Moved? ==> ClientHeard(r.next, seen)
  {
    hide Heard;
  }

  lemma {:induction false} CertificateHeard(env: Env, c: Client, m: Msg, seen: seq<Wire>)
    requires c.state == ReadServerCertificate && ClientHeard(c, seen) && Hs(m) in seen
    ensures var r := ClientOnMessage(env, c, m); r.Moved? ==> ClientHeard(r.next, seen)
  {
    hide Update, Heard;
    if !c.resumed { NowHeardIf(Certificate, seen, c.transcript, m); }
  }

  lemma {:induction false} NowHeardIf(what: Kind, seen: seq<Wire>, t: Transcript, m: Msg)
    requires t.hash.Some? && Hs(m) in seen
    ensures Update(t, m).hash.Some? && (KindOf(m) == what ==> Heard(what, seen, Update(t, m)))
  {
    if KindOf(m) == what { NowHeard(what, seen, t, m); }
  }

  lemma {:induction false} KeyExchangeHeard(env: Env, c: Client, m: Msg, seen: seq<Wire>)
    requires c.state == ReadServerKeyExchange && !c.needCcs && ClientHeard(c, seen) && Hs(m) in seen
    ensures var r := ClientOnMessage(env, c, m); r.Moved? ==> ClientHeard(r.next, seen)
  {
    hide Update, Heard, ClientOnMessage;
    KeyExchangeRequired(env, c, [Hs(m)]);
    TranscriptKeeps(seen, c.transcript, m);
    if !c.resumed { NowHeardIf(ServerKeyExchange, seen, c.transcript, m); }
  }

  /** The other messages. */
  lemma {:induction false} StatusMoves(env: Env, c: Client, m: Msg)
    requires c.state == ReadCertificateStatus
    ensures var r := ClientOnMessage(env, c, m); r.Moved? ==> Moves(c, r.next, c.transcript) || Moves(c, r.next, Update(c.transcript, m))
  {
    hide Update, KindOf;
  }

  lemma {:induction false} RequestMoves(env: Env, c: Client, m: Msg)
    requires c.state == ReadCertificateRequest
    ensures var r := ClientOnMessage(env, c, m); r.Moved? ==> Moves(c, r.next, FreeBuffer(c.transcript)) || Moves(c, r.next, Update(c.transcript, m))
  {
    hide Update, FreeBuffer, KindOf;
  }

  lemma {:induction false} DoneMoves(env: Env, c: Client, m: Msg)
    requires c.state == ReadServerHelloDone
    ensures var r := ClientOnMessage(env, c, m); r.Moved? ==> Moves(c, r.next, Update(c.transcript, m))
  {
    hide Update, KindOf;
  }

  lemma {:induction false} LastMoves(env: Env, c: Client, m: Msg)
    requires c.state in {ReadSessionTicket, ReadServerFinished}
    ensures var r := ClientOnMessage(env, c, m); r.Moved? ==> Moves(c, r.next, Update(c.transcript, m))
  {
    hide Update, FreeBuffer, KindOf;
    match c.state {
      case ReadSessionTicket =>
      case ReadServerFinished =>
    }
  }

  lemma {:induction false} OtherKeeps(env: Env, c: Client, m: Msg, seen: seq<Wire>)
    requires c.state in {ReadCertificateStatus, ReadCertificateRequest, ReadServerHelloDone, ReadSessionTicket, ReadServerFinished}
    ensures var r := ClientOnMessage(env, c, m); r.Moved? ==> Keeps(c, r.next, seen)
  {
    hide Update, Heard, FreeBuffer, ClientOnMessage, Stage;
    TranscriptKeeps(seen, c.transcript, m);
    match c.state {
      case ReadCertificateStatus => StatusMoves(env, c, m);
      case ReadCertificateRequest => RequestMoves(env, c, m);
      case ReadServerHelloDone => DoneMoves(env, c, m);
      case ReadSessionTicket => LastMoves(env, c, m);
      case ReadServerFinished => LastMoves(env, c, m);
    }
  }

  lemma {:induction false} AloneHeard(env: Env, c: Client, seen: seq<Wire>)
    requires ClientHeard(c, seen) && !ClientReads(c) && !c.needCcs
    ensures var r := ClientAlone(env, c); r.Moved? ==> ClientHeard(r.next, seen)
  {
    hide ClientAlone, ClientHeard, Keeps;
    var r := ClientAlone(env, c);
    match c.state {
      case StartConnect => StartHeard(env, c, seen);
      case EnterEarlyData => StartHeard(env, c, seen);
      case ReadServerCertificate => SkipCertificate(env, c, seen);
      case SendClientCertificate => SecondKeeps(env, c, seen);
      case SendClientKeyExchange => SecondKeeps(env, c, seen);
      case SendClientCertificateVerify => SecondKeeps(env, c, seen);
      case SendClientFinished => FinishKeeps(env, c, seen);
      case ClientDone => DoneBlocked(env, c);
      case _ => SkipKeeps(env, c, seen);
    }
    if r.Moved? && c.state !in {StartConnect, EnterEarlyData, ReadServerCertificate} { KeepsHeard(c, r.next, seen); }
  }

  lemma {:induction false} DoneBlocked(env: Env, c: Client)
    requires c.state == ClientDone
    ensures ClientAlone(env, c).Blocked?
  {
  }

  lemma {:induction false} StartHeard(env: Env, c: Client, seen: seq<Wire>)
    requires c.state in {StartConnect, EnterEarlyData}
    ensures var r := ClientAlone(env, c); r.Moved? ==> ClientHeard(r.next, seen)
  {
    hide Update, Heard;
    match c.state {
      case StartConnect =>
      case EnterEarlyData =>
    }
  }

  lemma {:induction false} SkipCertificate(env: Env, c: Client, seen: seq<Wire>)
    requires c.state == ReadServerCertificate && ClientHeard(c, seen) && !ClientReads(c)
    ensures var r := ClientAlone(env, c); r.Moved? ==> ClientHeard(r.next, seen)
  {
    hide Heard;
  }

  lemma {:induction false} SecondMoves(env: Env, c: Client) returns (m: Msg)
    requires c.state in {SendClientCertificate, SendClientKeyExchange, SendClientCertificateVerify}
    ensures var r := ClientAlone(env, c); var t := c.transcript;
      r.Moved? ==> Moves(c, r.next, t) || Moves(c, r.next, Update(t, m)) || Moves(c, r.next, Update(FreeBuffer(t), m)) || Moves(c, r.next, FreeBuffer(Update(t, m)))
  {
    hide Update, FreeBuffer, Sign;
    m := Plain(ClientKeyExchange, false, env.body(false, ClientKeyExchange));
    match c.state {
      case SendClientCertificate => m := Plain(Certificate, !env.clientCert, env.body(false, Certificate));
      case SendClientKeyExchange =>
      case SendClientCertificateVerify =>
        if c.transcript.buffer.Some? { m := Sign(env, CertificateVerify, false, c.transcript.buffer.value); }
    }
  }

  lemma {:induction false} SecondKeeps(env: Env, c: Client, seen: seq<Wire>)
    requires c.state in {SendClientCertificate, SendClientKeyExchange, SendClientCertificateVerify}
    ensures var r := ClientAlone(env, c); r.Moved? ==> Keeps(c, r.next, seen)
  {
    hide Update, Heard, FreeBuffer, ClientAlone, Stage;
    var m := SecondMoves(env, c);
    TranscriptKeeps(seen, c.transcript, m);
    UpdateHash(c.transcript, m);
  }

  lemma {:induction false} UpdateHash(t: Transcript, m: Msg)
    ensures t.hash.Some? ==> Update(t, m).hash.Some?
  {
  }

  lemma {:induction false} FinishKeeps(env: Env, c: Client, seen: seq<Wire>)
    requires c.state == SendClientFinished
    ensures var r := ClientAlone(env, c); r.Moved? ==> Keeps(c, r.next, seen)
  {
    hide Heard, ClientFinish;
    if ClientFinish(env, c).Some? { FinishTranscript(env, c, seen); }
  }

  lemma {:induction false} FinishTranscript(env: Env, c: Client, seen: seq<Wire>)
    requires ClientFinish(env, c).Some?
    ensures var u := ClientFinish(env, c).value.0;
      (c.transcript.hash.Some? ==> u.hash.Some?) && forall what :: Heard(what, seen, c.transcript) ==> Heard(what, seen, u)
  {
    hide Heard, Update, Sign;
    var m := Plain(NextProto, false, env.body(false, NextProto));
    var t := if c.npn then Update(c.transcript, m) else c.transcript;
    TranscriptKeeps(seen, c.transcript, m);
    var id := Sign(env, ChannelId, false, t.hash.value);
    var u := if c.channelId then Update(t, id) else t;
    TranscriptKeeps(seen, t, id);
    TranscriptKeeps(seen, u, Sign(env, Finished, false, u.hash.value));
  }

  lemma {:induction false} SkipKeeps(env: Env, c: Client, seen: seq<Wire>)
    requires c.state !in {StartConnect, EnterEarlyData, ReadServerCertificate, SendClientCertificate, SendClientKeyExchange, SendClientCertificateVerify, SendClientFinished, ClientDone}
    requires !ClientReads(c)
    ensures var r := ClientAlone(env, c); r.Moved? ==> Keeps(c, r.next, seen)
  {
    hide Heard, ClientAlone, Stage;
    SkipsTo(env, c);
  }

  lemma {:induction false} SkipsTo(env: Env, c: Client)
    requires c.state in {ReadCertificateStatus, VerifyServerCertificate, ReadCertificateRequest, FinishFlight, ReadSessionTicket, ProcessServerCcs, FinishClientHandshake}
    ensures ClientAlone(env, c).Moved? && Moves(c, ClientAlone(env, c).next, c.transcript)
  {
    hide Update, FreeBuffer, ClientFinish;
    match c.state {
      case ReadCertificateStatus =>
      case VerifyServerCertificate =>
      case ReadCertificateRequest =>
      case FinishFlight =>
      case ReadSessionTicket =>
      case ProcessServerCcs =>
      case FinishClientHandshake =>
    }
  }

  lemma {:induction false} ReadHeard(env: Env, c: Client, m: Msg, seen: seq<Wire>)
    requires ClientHeard(c, seen) && ClientReads(c) && !c.needCcs && Hs(m) in seen
    ensures var r := ClientOnMessage(env, c, m); r.Moved? ==> ClientHeard(r.next, seen)
  {
    hide ClientOnMessage, ClientHeard, Keeps;
    match c.state {
      case ReadServerHello => HelloHeard(env, c, m, seen);
      case ReadServerCertificate => CertificateHeard(env, c, m, seen);
      case ReadServerKeyExchange => KeyExchangeHeard(env, c, m, seen);
      case ReadCertificateStatus => OtherHeard(env, c, m, seen);
      case ReadCertificateRequest => OtherHeard(env, c, m, seen);
      case ReadServerHelloDone => OtherHeard(env, c, m, seen);
      case ReadSessionTicket => OtherHeard(env, c, m, seen);
      case ReadServerFinished => OtherHeard(env, c, m, seen);
    }
  }

  lemma {:induction false} OtherHeard(env: Env, c: Client, m: Msg, seen: seq<Wire>)
    requires ClientHeard(c, seen)
    requires c.state in {ReadCertificateStatus, ReadCertificateRequest, ReadServerHelloDone, ReadSessionTicket, ReadServerFinished}
    ensures var r := ClientOnMessage(env, c, m); r.Moved? ==> ClientHeard(r.next, seen)
  {
    hide ClientOnMessage, ClientHeard, Keeps;
    OtherKeeps(env, c, m, seen);
    var r := ClientOnMessage(env, c, m);
    if r.Moved? { KeepsHeard(c, r.next, seen); }
  }

  lemma {:induction false} StepHeard(env: Env, c: Client, ins: seq<Wire>, seen: seq<Wire>)
    requires ClientHeard(c, seen) && forall x :: x in ins ==> x in seen
    ensures var r := ClientStep(env, c, ins); r.Moved? ==> ClientHeard(r.next, seen)
  {
    hide ClientOnMessage, ClientAlone, Heard, Keeps;
    if !c.needCcs {
      if !ClientReads(c) { AloneHeard(env, c, seen); }
      else if ins != [] && ins[0].Hs? {
        var m := ins[0].m;
        assert ins[0] in ins;
        ReadHeard(env, c, m, seen);
      }
    }
  }

  lemma {:induction false} DriveHeard(env: Env, c: Client, ins: seq<Wire>, seen: seq<Wire>)
    requires ClientHeard(c, seen) && forall x :: x in ins ==> x in seen
    ensures var d := DriveClient(env, c, ins); !d.failed ==> ClientHeard(d.state, seen)
    decreases ClientMeasure(c)
  {
    hide ClientStep, ClientHeard, ClientMeasure;
    StepHeard(env, c, ins, seen);
    ClientStepSmaller(env, c, ins);
    var r := ClientStep(env, c, ins);
    if r.Moved? { DriveHeard(env, r.next, Rest(ins, r.took), seen); }
  }

  lemma {:induction false} FeedHeard(env: Env, c: Client, left: seq<Wire>, feeds: seq<seq<Wire>>, seen: seq<Wire>)
    requires ClientHeard(c, seen) && forall x :: x in left + TlsVerified.Arrived(feeds) ==> x in seen
    ensures var r := TlsVerified.FeedClient(env, c, left, feeds); r.Some? ==> ClientHeard(r.value, seen)
    decreases |feeds|
  {
    hide DriveClient, ClientHeard;
    if feeds != [] {
      var ins := left + feeds[0];
      assert left + TlsVerified.Arrived(feeds) == ins + TlsVerified.Arrived(feeds[1..]);
      DriveHeard(env, c, ins, seen);
      var d := DriveClient(env, c, ins);
      if !d.failed {
        assert ins == ins[..d.took] + ins[d.took..];
        FeedHeard(env, d.state, ins[d.took..], feeds[1..], seen);
      }
    }
  }

  /** Against any peer: a client whose full handshake is done has hashed a Certificate that came in
      unless its cipher works with a pre-shared key, and a ServerKeyExchange if its key exchange is
      ephemeral. */
  lemma {:induction false} ClientInsists(env: Env, feeds: seq<seq<Wire>>)
    requires TlsVerified.FeedClient(env, NEW_CLIENT, [], feeds).Some?
    ensures var c := TlsVerified.FeedClient(env, NEW_CLIENT, [], feeds).value;
      c.state == ClientDone && !c.resumed ==>
        && (!c.cipher.psk ==> Heard(Certificate, TlsVerified.Arrived(feeds), c.transcript))
        && (c.cipher.kx == Ecdhe ==> Heard(ServerKeyExchange, TlsVerified.Arrived(feeds), c.transcript))
  {
    hide TlsVerified.FeedClient, TlsVerified.Arrived, Heard;
    var all := TlsVerified.Arrived(feeds);
    assert [] + all == all;
    FeedHeard(env, NEW_CLIENT, [], feeds, all);
  }
}
