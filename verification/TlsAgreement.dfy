/** The two handshake machines, joined by a reliable connection, agree (RFC 5246 sections 7.3 and
    7.4.9): neither ever rejects what the other sends, and every signature and MAC is checked
    over the transcript it was made over. */
module TlsAgreement {
  import opened Words
  import opened TlsHandshake

  // ------------------------------------------------------------- one order for both

  lemma {:induction false} LastReads(env: Env)
    ensures ServerRest(env, ReadClientCcs) == [Item(true, None)] + ServerRest(env, ReadNextProto)
    ensures ServerRest(env, ReadNextProto) == Opt(env.npn, C(NextProto)) + ServerRest(env, ReadChannelId)
    ensures ServerRest(env, ReadChannelId) == Opt(Identified(env), C(ChannelId)) + ServerRest(env, ReadClientFinished)
    ensures ServerRest(env, ReadClientFinished) == [C(Finished)] + ServerRest(env, if env.resumed then FinishServerHandshake else SendServerFinished)
  {
    hide Opt, Identified;
    assert ServerRest(env, ProcessClientCcs) == ServerRest(env, ReadNextProto);
  }

  /** The client's last flight, as the server reads it. */
  lemma {:induction false} LastFlight(env: Env)
    ensures ServerRest(env, ReadClientCcs) == FinishItems(env) + ServerRest(env, if env.resumed then FinishServerHandshake else SendServerFinished)
  {
    hide *;
    LastReads(env);
    FinishItemsAre(env);
    var end := ServerRest(env, if env.resumed then FinishServerHandshake else SendServerFinished);
    var ccs, npn, id := [Item(true, None)], Opt(env.npn, C(NextProto)), Opt(Identified(env), C(ChannelId));
    assert ccs + (npn + (id + ([C(Finished)] + end))) == ccs + npn + id + [C(Finished)] + end;
  }

  lemma {:induction false} FinishItemsAre(env: Env)
    ensures FinishItems(env) == [Item(true, None)] + Opt(env.npn, C(NextProto)) + Opt(Identified(env), C(ChannelId)) + [C(Finished)]
  {
  }

  /** The server's last flight, as the client reads it. */
  lemma {:induction false} ServerLastFlight(env: Env)
    ensures ClientRest(env, ReadSessionTicket)
         == Opt(env.ticket, S(NewSessionTicket)) + ([Item(false, None), S(Finished)]
                                                    + ClientRest(env, if env.resumed then SendClientFinished else FinishClientHandshake))
  {
    var end := ClientRest(env, if env.resumed then SendClientFinished else FinishClientHandshake);
    assert ClientRest(env, ProcessServerCcs) == ClientRest(env, ReadServerFinished) == [S(Finished)] + end;
    assert [Item(false, None)] + ([S(Finished)] + end) == [Item(false, None), S(Finished)] + end;
  }

  lemma {:induction false} FullClient(env: Env)
    requires !env.resumed
    ensures ClientRest(env, ReadServerCertificate)
         == Opt(CertAuth(env.cipher), S(Certificate)) + (Opt(Status(env), S(CertificateStatus)) + (Opt(KeyMessage(env), S(ServerKeyExchange))
            + (Opt(Requests(env), S(CertificateRequest)) + ([S(ServerHelloDone)] + ClientRest(env, SendClientCertificate)))))
  {
    hide Status, KeyMessage, Requests, CertAuth, Opt;
    assert ClientRest(env, ReadServerHelloDone) == [S(ServerHelloDone)] + ClientRest(env, SendClientCertificate);
    assert ClientRest(env, ReadCertificateRequest) == Opt(Requests(env), S(CertificateRequest)) + ClientRest(env, ReadServerHelloDone);
    assert ClientRest(env, ReadServerKeyExchange) == Opt(KeyMessage(env), S(ServerKeyExchange)) + ClientRest(env, ReadCertificateRequest);
    assert ClientRest(env, VerifyServerCertificate) == ClientRest(env, ReadServerKeyExchange);
    assert ClientRest(env, ReadCertificateStatus) == Opt(Status(env), S(CertificateStatus)) + ClientRest(env, VerifyServerCertificate);
  }

  lemma {:induction false} FullServer(env: Env)
    requires !env.resumed
    ensures ServerRest(env, SendServerCertificate)
         == Opt(CertAuth(env.cipher), S(Certificate)) + (Opt(Status(env), S(CertificateStatus)) + (Opt(KeyMessage(env), S(ServerKeyExchange))
            + (Opt(Requests(env), S(CertificateRequest)) + ([S(ServerHelloDone)] + ServerRest(env, ReadClientCertificate)))))
  {
    hide Status, KeyMessage, Requests, CertAuth, Opt;
    assert ServerRest(env, SendServerHelloDone) == Opt(Requests(env), S(CertificateRequest)) + ([S(ServerHelloDone)] + ServerRest(env, ReadClientCertificate));
    assert ServerRest(env, SendServerKeyExchange) == Opt(KeyMessage(env), S(ServerKeyExchange)) + ServerRest(env, SendServerHelloDone);
  }

  /** The end of the full handshake, from the client's finishing flight on. */
  lemma {:induction false} FullEnd(env: Env)
    requires !env.resumed
    ensures ClientRest(env, SendClientFinished) == ServerRest(env, ReadClientCcs)
  {
    hide Status, KeyMessage, Requests, CertAuth, Opt, FinishItems;
    LastFlight(env);
    ServerLastFlight(env);
    var end := Opt(env.ticket, S(NewSessionTicket)) + ([Item(false, None), S(Finished)] + []);
    assert ClientRest(env, FinishClientHandshake) == [] == ServerRest(env, FinishServerHandshake);
    assert ClientRest(env, FinishFlight) == end == ServerRest(env, SendServerFinished);
  }

  lemma {:induction false} SecondFlight(env: Env)
    requires !env.resumed
    ensures ClientRest(env, SendClientCertificate) == ServerRest(env, ReadClientCertificate)
  {
    hide Status, KeyMessage, Requests, CertAuth, Opt, FinishItems;
    FullEnd(env);
    assert ClientRest(env, SendClientCertificateVerify) == ServerRest(env, ReadClientCertificateVerify);
    assert ClientRest(env, SendClientKeyExchange) == ServerRest(env, ReadClientKeyExchange) == ServerRest(env, VerifyClientCertificate);
  }

  /** Whatever is negotiated, the two machines expect the same messages in the same order. */
  lemma {:induction false} SameOrder(env: Env)
    ensures ClientRest(env, StartConnect) == ServerRest(env, StartAccept)
  {
    hide Status, KeyMessage, Requests, CertAuth, Opt, FinishItems;
    if env.resumed {
      LastFlight(env);
      ServerLastFlight(env);
      assert ClientRest(env, FinishFlight) == [] == ServerRest(env, FinishServerHandshake);
      assert ClientRest(env, SendClientFinished) == FinishItems(env) + [] == ServerRest(env, ReadClientCcs);
      assert ClientRest(env, ReadSessionTicket) == ServerRest(env, SendServerFinished);
    } else {
      FullClient(env);
      FullServer(env);
      SecondFlight(env);
    }
    assert ClientRest(env, ReadServerHello) == ServerRest(env, SendServerHello);
    assert ClientRest(env, EnterEarlyData) == ClientRest(env, ReadServerHello);
    assert ServerRest(env, StartAccept) == ServerRest(env, ReadClientHello) == ServerRest(env, SelectCertificate) == ServerRest(env, SelectParameters);
  }

  // ------------------------------------------------------------- what the items are

  function FinalFlags(env: Env): Flags {
    Flags(env.resumed, env.cipher, Status(env), env.ticket, env.npn, Identified(env))
  }

  /** The message of that kind, when `heard` has been exchanged before. */
  function MsgOf(env: Env, fromClient: bool, k: Kind, heard: seq<Msg>): (m: Msg)
    ensures KindOf(m) == k
  {
    if k == ServerHello then Hello(FinalFlags(env))
    else if k == CertificateVerify || k == ChannelId || k == Finished then Sign(env, k, !fromClient, heard)
    else Plain(k, (k == Certificate && fromClient && !env.clientCert) || (k == NewSessionTicket && env.emptyTicket), env.body(!fromClient, k))
  }

  function WireOf(env: Env, i: Item, heard: seq<Msg>): Wire {
    if i.what.None? then Ccs else Hs(MsgOf(env, i.fromClient, i.what.value, heard))
  }

  function After(heard: seq<Msg>, w: Wire): seq<Msg> {
    if w.Ccs? then heard else heard + [w.m]
  }

  /** Something that was, or will be, put on the connection. */
  datatype Event = Event(fromClient: bool, wire: Wire)

  function Events(env: Env, items: seq<Item>, heard: seq<Msg>): seq<Event> {
    if items == [] then []
    else
      var w := WireOf(env, items[0], heard);
      [Event(items[0].fromClient, w)] + Events(env, items[1..], After(heard, w))
  }

  lemma {:induction false} EventsFirst(env: Env, i: Item, rest: seq<Item>, heard: seq<Msg>)
    ensures var w := WireOf(env, i, heard); Events(env, [i] + rest, heard) == [Event(i.fromClient, w)] + Events(env, rest, After(heard, w))
  {
    hide WireOf;
    assert ([i] + rest)[1..] == rest;
  }

  lemma {:induction false} EventsOpt(env: Env, b: bool, i: Item, rest: seq<Item>, heard: seq<Msg>)
    ensures Events(env, Opt(b, i) + rest, heard)
         == if b then var w := WireOf(env, i, heard); [Event(i.fromClient, w)] + Events(env, rest, After(heard, w)) else Events(env, rest, heard)
  {
    hide WireOf;
    if b { EventsFirst(env, i, rest, heard); } else { assert [] + rest == rest; }
  }

  function Tagged(fromClient: bool, ws: seq<Wire>): (es: seq<Event>)
    ensures |es| == |ws| && forall k :: 0 <= k < |ws| ==> es[k] == Event(fromClient, ws[k])
  {
    seq(|ws|, k requires 0 <= k < |ws| => Event(fromClient, ws[k]))
  }

  /** The messages a transcript stands for. */
  function Heard(t: Transcript): seq<Msg> {
    if t.hash.Some? then t.hash.value else if t.buffer.Some? then t.buffer.value else []
  }

  predicate TranscriptOk(t: Transcript) {
    (t.hash.Some? || t.buffer.Some?) && (t.hash.Some? && t.buffer.Some? ==> t.hash == t.buffer)
  }

  // ------------------------------------------------------------- the client keeps to the order

  /** What the client knows matches what the server decided, as far as it has got. */
  predicate ClientOk(env: Env, c: Client) {
    var rank := ClientRank(c.resumed, c.state);
    && TranscriptOk(c.transcript)
    && (rank >= 18 ==> c.transcript.hash.None?)
    && (rank < 18 ==> c.transcript.hash.Some? && c.resumed == env.resumed && c.cipher == env.cipher && c.npn == env.npn && c.channelId == Identified(env))
    && (16 <= rank < 18 ==> c.statusExpected == Status(env))
    && (6 <= rank < 18 ==> c.ticketExpected == env.ticket)
    && (if rank >= 13 then !c.certRequest else c.certRequest == Requests(env))
    && (9 <= rank < 18 ==> !env.resumed && (Requests(env) && env.clientCert ==> c.transcript.buffer.Some?))
    && (c.needCcs ==> c.state == ProcessServerCcs)
  }

  /** What each turn of the driver loop makes smaller. */
  function ClientMeasure(c: Client): nat {
    2 * ClientRank(c.resumed, c.state) + if c.needCcs then 1 else 0
  }

  function ClientLeft(env: Env, c: Client): seq<Event> {
    Events(env, (if c.needCcs then [Item(false, None)] else []) + ClientRest(env, c.state), Heard(c.transcript))
  }

  /** The next input, if there is one, is the next event. */
  predicate Next(left: seq<Event>, fromClient: bool, inbox: seq<Wire>) {
    inbox != [] ==> left != [] && left[0] == Event(fromClient, inbox[0])
  }

  /** Every step keeps to the order: it never fails, takes exactly the next event of the peer and
      sends exactly its own next ones; it waits only for an event of the peer, or at the end. */
  ghost predicate ClientKeeps(env: Env, c: Client, inbox: seq<Wire>) {
    match ClientStep(env, c, inbox)
    case Failed => false
    case Blocked => inbox == [] && (c.state == ClientDone || (ClientLeft(env, c) != [] && !ClientLeft(env, c)[0].fromClient))
    case Moved(d, took, sent) =>
      && ClientOk(env, d) && (took ==> inbox != [] && sent == [])
      && ClientLeft(env, c) == (if took then [Event(false, inbox[0])] else []) + (Tagged(true, sent) + ClientLeft(env, d))
      && ClientMeasure(d) < ClientMeasure(c)
  }

  lemma {:induction false} HeardUpdate(t: Transcript, m: Msg)
    requires TranscriptOk(t)
    ensures var u := Update(t, m);
      TranscriptOk(u) && Heard(u) == Heard(t) + [m] && (u.hash.Some? <==> t.hash.Some?) && (u.buffer.Some? <==> t.buffer.Some?)
  {
  }

  lemma {:induction false} HeardFree(t: Transcript)
    requires TranscriptOk(t) && t.hash.Some?
    ensures var u := FreeBuffer(t); TranscriptOk(u) && Heard(u) == Heard(t) && u.hash == t.hash && u.buffer.None?
  {
  }

  lemma {:induction false} HeardInit(t: Transcript)
    requires TranscriptOk(t) && t.hash.None?
    ensures var u := InitHash(t); TranscriptOk(u) && Heard(u) == Heard(t) && u.hash.Some? && u.buffer.Some?
  {
  }

  lemma {:induction false} NoneSent(left: seq<Event>, fromClient: bool)
    ensures Tagged(fromClient, []) == [] && [] + (Tagged(fromClient, []) + left) == left
  {
  }

  lemma {:induction false} OneSent(left: seq<Event>, fromClient: bool, w: Wire)
    ensures [] + (Tagged(fromClient, [w]) + left) == [Event(fromClient, w)] + left
  {
    assert Tagged(fromClient, [w]) == [Event(fromClient, w)];
  }

  lemma {:induction false} OneTaken(left: seq<Event>, e: Event, fromClient: bool)
    ensures [e] + (Tagged(fromClient, []) + left) == [e] + left
  {
    assert Tagged(fromClient, []) == [];
  }

  /** Reading one message that the state expects, hashing it. */
  lemma {:induction false} ClientTakes(env: Env, c: Client, inbox: seq<Wire>, b: bool, k: Kind, d: Client,
      rest: seq<Item>)
    requires TranscriptOk(c.transcript) && !c.needCcs && !d.needCcs && Next(ClientLeft(env, c), false, inbox)
    requires ClientRest(env, c.state) == Opt(b, S(k)) + rest && rest == ClientRest(env, d.state) && b
    requires inbox != [] && Heard(d.transcript) == Heard(c.transcript) + [MsgOf(env, false, k, Heard(c.transcript))]
    ensures inbox[0] == Hs(MsgOf(env, false, k, Heard(c.transcript)))
    ensures ClientLeft(env, c) == [Event(false, inbox[0])] + (Tagged(true, []) + ClientLeft(env, d))
  {
    hide ClientRest, MsgOf, Heard, Opt, Tagged;
    EventsOpt(env, b, S(k), rest, Heard(c.transcript));
    assert [] + ClientRest(env, c.state) == ClientRest(env, c.state) && [] + rest == rest;
    OneTaken(ClientLeft(env, d), Event(false, inbox[0]), true);
  }

  /** Nothing happens on the connection. */
  lemma {:induction false} ClientSkips(env: Env, c: Client, d: Client)
    requires !c.needCcs && !d.needCcs && ClientRest(env, c.state) == ClientRest(env, d.state)
        && Heard(c.transcript) == Heard(d.transcript)
    ensures ClientLeft(env, c) == [] + (Tagged(true, []) + ClientLeft(env, d))
  {
    hide ClientRest, Events, Heard, Tagged;
    NoneSent(ClientLeft(env, d), true);
  }

  /** Sending one message. */
  lemma {:induction false} ClientSends(env: Env, c: Client, b: bool, k: Kind, d: Client, rest: seq<Item>)
    requires !c.needCcs && !d.needCcs && b && ClientRest(env, c.state) == Opt(b, C(k)) + rest
        && rest == ClientRest(env, d.state)
    requires Heard(d.transcript) == Heard(c.transcript) + [MsgOf(env, true, k, Heard(c.transcript))]
    ensures ClientLeft(env, c) == [] + (Tagged(true, [Hs(MsgOf(env, true, k, Heard(c.transcript)))]) + ClientLeft(env, d))
  {
    hide ClientRest, MsgOf, Heard, Opt, Tagged;
    EventsOpt(env, b, C(k), rest, Heard(c.transcript));
    assert [] + ClientRest(env, c.state) == ClientRest(env, c.state) && [] + rest == rest;
    OneSent(ClientLeft(env, d), true, Hs(MsgOf(env, true, k, Heard(c.transcript))));
  }

  /** The first of the events left, when it is the server's turn. */
  lemma {:induction false} ServerTurn(env: Env, c: Client, b: bool, k: Kind, rest: seq<Item>)
    requires !c.needCcs && b && ClientRest(env, c.state) == Opt(b, S(k)) + rest
    ensures ClientLeft(env, c) != []
        && ClientLeft(env, c)[0] == Event(false, Hs(MsgOf(env, false, k, Heard(c.transcript))))
  {
    hide ClientRest, MsgOf, Heard, Opt;
    EventsOpt(env, b, S(k), rest, Heard(c.transcript));
    assert [] + ClientRest(env, c.state) == ClientRest(env, c.state);
  }

  lemma {:induction false} ClientStarts(env: Env, c: Client, inbox: seq<Wire>)
    requires ClientOk(env, c) && Next(ClientLeft(env, c), false, inbox) && !c.needCcs
    requires c.state == StartConnect || c.state == EnterEarlyData
    ensures ClientKeeps(env, c, inbox)
  {
    hide Heard, Update, ClientLeft, Tagged;
    if c.state == StartConnect {
      var m := MsgOf(env, true, ClientHello, Heard(c.transcript));
      HeardUpdate(c.transcript, m);
      ClientSends(env, c, true, ClientHello, c.(state := EnterEarlyData, transcript := Update(c.transcript, m)), ClientRest(env, EnterEarlyData));
    } else {
      ClientSkips(env, c, c.(state := ReadServerHello));
    }
  }

  lemma {:induction false} ClientReadsHello(env: Env, c: Client, inbox: seq<Wire>)
    requires ClientOk(env, c) && Next(ClientLeft(env, c), false, inbox) && !c.needCcs && c.state == ReadServerHello
    ensures ClientKeeps(env, c, inbox)
  {
    hide Heard, Update, InitHash, FreeBuffer, ClientLeft, Tagged, Status, Identified, Requests;
    var rest := ClientRest(env, if env.resumed then ReadSessionTicket else ReadServerCertificate);
    ServerTurn(env, c, true, ServerHello, rest);
    if inbox != [] {
      var m := MsgOf(env, false, ServerHello, Heard(c.transcript));
      HeardInit(c.transcript);
      HeardUpdate(InitHash(c.transcript), m);
      HeardFree(Update(InitHash(c.transcript), m));
      NoRequest(env);
      ClientTakes(env, c, inbox, true, ServerHello, ClientStep(env, c, inbox).next, rest);
    }
  }

  lemma {:induction false} NoRequest(env: Env)
    ensures Requests(env) ==> !env.resumed && CertAuth(env.cipher)
    ensures Status(env) ==> !env.resumed && CertAuth(env.cipher)
  {
  }

  lemma {:induction false} ClientReadsCertificate(env: Env, c: Client, inbox: seq<Wire>)
    requires ClientOk(env, c) && Next(ClientLeft(env, c), false, inbox) && !c.needCcs
    requires c.state == ReadServerCertificate || c.state == ReadCertificateStatus || c.state == VerifyServerCertificate
    ensures ClientKeeps(env, c, inbox)
  {
    hide Heard, Update, ClientLeft, Tagged, Status, Identified, Requests, CertAuth;
    var b := if c.state == ReadServerCertificate then CertAuth(env.cipher) else Status(env);
    var k := if c.state == ReadServerCertificate then Certificate else CertificateStatus;
    var to := if c.state == ReadServerCertificate then ReadCertificateStatus else if c.state == ReadCertificateStatus then VerifyServerCertificate else ReadServerKeyExchange;
    if ClientReads(c) {
      ServerTurn(env, c, b, k, ClientRest(env, to));
      if inbox != [] {
        var m := MsgOf(env, false, k, Heard(c.transcript));
        HeardUpdate(c.transcript, m);
        ClientTakes(env, c, inbox, b, k, c.(transcript := Update(c.transcript, m), state := to), ClientRest(env, to));
      }
    } else {
      assert [] + ClientRest(env, to) == ClientRest(env, to);
      ClientSkips(env, c, c.(state := to));
    }
  }

  /** What comes next when no ServerKeyExchange, or no CertificateRequest, does. */
  lemma {:induction false} AfterKeyMessage(env: Env, c: Client)
    requires !c.needCcs && (c.state == ReadCertificateRequest || (c.state == ReadServerKeyExchange && !KeyMessage(env)))
    ensures ClientRest(env, c.state) == ClientRest(env, ReadCertificateRequest)
    ensures ClientLeft(env, c) != []
    ensures ClientLeft(env, c)[0] == Event(false, Hs(MsgOf(env, false, if Requests(env) then CertificateRequest else ServerHelloDone, Heard(c.transcript))))
  {
    hide MsgOf, Heard, KeyMessage, Requests;
    var r := ClientRest(env, ReadCertificateRequest);
    assert [] + r == r;
    if Requests(env) {
      ServerTurn(env, c, true, CertificateRequest, ClientRest(env, ReadServerHelloDone));
    } else {
      var d := ClientRest(env, SendClientCertificate);
      assert [] + ClientRest(env, ReadServerHelloDone) == ClientRest(env, ReadServerHelloDone) == Opt(true, S(ServerHelloDone)) + d;
      ServerTurn(env, c, true, ServerHelloDone, d);
    }
  }

  lemma {:induction false} ClientReadsKeyExchange(env: Env, c: Client, inbox: seq<Wire>)
    requires EnvOk(env) && ClientOk(env, c) && Next(ClientLeft(env, c), false, inbox) && !c.needCcs
        && c.state == ReadServerKeyExchange
    ensures ClientKeeps(env, c, inbox)
  {
    hide Heard, Update, ClientLeft, Tagged, Status, Identified, Requests, ClientRest;
    var to := ReadCertificateRequest;
    KeyRest(env);
    if KeyMessage(env) {
      ServerTurn(env, c, true, ServerKeyExchange, ClientRest(env, to));
      if inbox != [] {
        var m := MsgOf(env, false, ServerKeyExchange, Heard(c.transcript));
        HeardUpdate(c.transcript, m);
        ClientTakes(env, c, inbox, true, ServerKeyExchange, c.(transcript := Update(c.transcript, m), state := to), ClientRest(env, to));
      }
    } else {
      AfterKeyMessage(env, c);
      ClientSkips(env, c, c.(state := to));
    }
  }

  lemma {:induction false} KeyRest(env: Env)
    ensures ClientRest(env, ReadServerKeyExchange) == Opt(KeyMessage(env), S(ServerKeyExchange)) + ClientRest(env, ReadCertificateRequest)
    ensures ClientRest(env, ReadCertificateRequest) == Opt(Requests(env), S(CertificateRequest)) + ClientRest(env, ReadServerHelloDone)
  {
    hide KeyMessage, Requests, Opt;
  }

  lemma {:induction false} ClientReadsRequest(env: Env, c: Client, inbox: seq<Wire>)
    requires ClientOk(env, c) && Next(ClientLeft(env, c), false, inbox) && !c.needCcs
        && c.state == ReadCertificateRequest
    ensures ClientKeeps(env, c, inbox)
  {
    hide Heard, Update, FreeBuffer, ClientLeft, Tagged, Status, Identified, Requests, ClientRest;
    var to := ReadServerHelloDone;
    KeyRest(env);
    NoRequest(env);
    AfterKeyMessage(env, c);
    if Requests(env) {
      if inbox != [] {
        var m := MsgOf(env, false, CertificateRequest, Heard(c.transcript));
        HeardUpdate(c.transcript, m);
        ClientTakes(env, c, inbox, true, CertificateRequest, c.(certRequest := true, transcript := Update(c.transcript, m), state := to), ClientRest(env, to));
      }
    } else {
      assert [] + ClientRest(env, to) == ClientRest(env, to);
      HeardFree(c.transcript);
      ClientSkips(env, c, c.(state := to));
      ClientSkips(env, c, c.(state := to, transcript := FreeBuffer(c.transcript)));
    }
  }

  lemma {:induction false} ClientReadsDone(env: Env, c: Client, inbox: seq<Wire>)
    requires ClientOk(env, c) && Next(ClientLeft(env, c), false, inbox) && !c.needCcs && c.state == ReadServerHelloDone
    ensures ClientKeeps(env, c, inbox)
  {
    hide Heard, Update, ClientLeft, Tagged, Status, Identified, Requests;
    var rest := ClientRest(env, SendClientCertificate);
    ServerTurn(env, c, true, ServerHelloDone, rest);
    if inbox != [] {
      var m := MsgOf(env, false, ServerHelloDone, Heard(c.transcript));
      HeardUpdate(c.transcript, m);
      ClientTakes(env, c, inbox, true, ServerHelloDone, c.(transcript := Update(c.transcript, m), state := SendClientCertificate), rest);
    }
  }

  lemma {:induction false} ClientSendsCertificate(env: Env, c: Client, inbox: seq<Wire>)
    requires ClientOk(env, c) && !c.needCcs && c.state == SendClientCertificate
    ensures ClientKeeps(env, c, inbox)
  {
    hide Heard, Update, FreeBuffer, ClientLeft, Tagged, Status, Identified, Requests;
    var rest := ClientRest(env, SendClientKeyExchange);
    if c.certRequest {
      var m := MsgOf(env, true, Certificate, Heard(c.transcript));
      HeardFree(c.transcript);
      var t := if env.clientCert then c.transcript else FreeBuffer(c.transcript);
      HeardUpdate(t, m);
      ClientSends(env, c, true, Certificate, c.(state := SendClientKeyExchange, transcript := Update(t, m)), rest);
    } else {
      assert [] + rest == rest;
      ClientSkips(env, c, c.(state := SendClientKeyExchange));
    }
  }

  lemma {:induction false} ClientSendsKeyExchange(env: Env, c: Client, inbox: seq<Wire>)
    requires ClientOk(env, c) && !c.needCcs && c.state == SendClientKeyExchange
    ensures ClientKeeps(env, c, inbox)
  {
    hide Heard, Update, ClientLeft, Tagged, Status, Identified, Requests;
    var m := MsgOf(env, true, ClientKeyExchange, Heard(c.transcript));
    HeardUpdate(c.transcript, m);
    ClientSends(env, c, true, ClientKeyExchange, c.(state := SendClientCertificateVerify, transcript := Update(c.transcript, m)), ClientRest(env, SendClientCertificateVerify));
  }

  lemma {:induction false} ClientSendsVerify(env: Env, c: Client, inbox: seq<Wire>)
    requires ClientOk(env, c) && !c.needCcs && c.state == SendClientCertificateVerify
    ensures ClientKeeps(env, c, inbox)
  {
    hide Update, FreeBuffer, ClientLeft, Tagged, Status, Identified, Requests;
    var rest := ClientRest(env, SendClientFinished);
    if c.certRequest && env.clientCert {
      var m := MsgOf(env, true, CertificateVerify, Heard(c.transcript));
      HeardUpdate(c.transcript, m);
      HeardFree(Update(c.transcript, m));
      ClientSends(env, c, true, CertificateVerify, c.(state := SendClientFinished, transcript := FreeBuffer(Update(c.transcript, m))), rest);
    } else {
      assert [] + rest == rest;
      ClientSkips(env, c, c.(state := SendClientFinished));
    }
  }

  /** The client's finishing flight, from the ChangeCipherSpec on, is what the order wants. */
  lemma {:induction false} ClientFlight(env: Env, c: Client, rest: seq<Item>)
    requires TranscriptOk(c.transcript) && c.transcript.hash.Some? && c.npn == env.npn && c.channelId == Identified(env)
    ensures ClientFinish(env, c).Some?
    ensures var f := ClientFinish(env, c).value;
      && TranscriptOk(f.0) && f.0.hash.Some?
      && Events(env, FinishItems(env) + rest, Heard(c.transcript)) == Tagged(true, [Ccs] + f.1) + Events(env, rest, Heard(f.0))
  {
    hide Update, Identified, Events, Tagged, WireOf, FinishItems;
    var heard := Heard(c.transcript);
    var m := MsgOf(env, true, NextProto, heard);
    HeardUpdate(c.transcript, m);
    var t := if c.npn then Update(c.transcript, m) else c.transcript;
    var id := MsgOf(env, true, ChannelId, Heard(t));
    HeardUpdate(t, id);
    var u := if c.channelId then Update(t, id) else t;
    var fin := MsgOf(env, true, Finished, Heard(u));
    HeardUpdate(u, fin);
    FlightEvents(env, rest, heard);
    FlightTagged(c.npn, m, c.channelId, id, fin, Events(env, rest, Heard(Update(u, fin))));
  }

  lemma {:induction false} FlightEvents(env: Env, rest: seq<Item>, heard: seq<Msg>)
    ensures
      var m := MsgOf(env, true, NextProto, heard); var h1 := if env.npn then heard + [m] else heard;
      var id := MsgOf(env, true, ChannelId, h1); var h2 := if Identified(env) then h1 + [id] else h1;
      var fin := MsgOf(env, true, Finished, h2);
      Events(env, FinishItems(env) + rest, heard)
      == [Event(true, Ccs)] + ((if env.npn then [Event(true, Hs(m))] else [])
           + ((if Identified(env) then [Event(true, Hs(id))] else []) + ([Event(true, Hs(fin))] + Events(env, rest, h2 + [fin]))))
  {
    hide MsgOf, Identified, Events, Opt;
    FinishItemsAre(env);
    var a, b, c := Opt(env.npn, C(NextProto)), Opt(Identified(env), C(ChannelId)), [C(Finished)];
    assert FinishItems(env) + rest == [Item(true, None)] + (a + (b + (c + rest)));
    EventsFirst(env, Item(true, None), a + (b + (c + rest)), heard);
    EventsOpt(env, env.npn, C(NextProto), b + (c + rest), heard);
    var m := MsgOf(env, true, NextProto, heard);
    var h1 := if env.npn then heard + [m] else heard;
    EventsOpt(env, Identified(env), C(ChannelId), c + rest, h1);
    var id := MsgOf(env, true, ChannelId, h1);
    var h2 := if Identified(env) then h1 + [id] else h1;
    EventsFirst(env, C(Finished), rest, h2);
    var e := Events(env, c + rest, h2);
    var f := Events(env, b + (c + rest), h1);
    assert [] + e == e && [] + f == f;
  }

  lemma {:induction false} FlightTagged(p: bool, m: Msg, q: bool, id: Msg, fin: Msg, left: seq<Event>)
    ensures var a := if p then [Hs(m)] else []; var b := if q then [Hs(id)] else [];
      Tagged(true, [Ccs] + (a + b + [Hs(fin)])) + left
      == [Event(true, Ccs)] + ((if p then [Event(true, Hs(m))] else [])
           + ((if q then [Event(true, Hs(id))] else []) + ([Event(true, Hs(fin))] + left)))
  {
  }

  lemma {:induction false} ClientSendsFinished(env: Env, c: Client, inbox: seq<Wire>)
    requires ClientOk(env, c) && !c.needCcs && c.state == SendClientFinished
    ensures ClientKeeps(env, c, inbox)
  {
    hide Heard, ClientFinish, Tagged, Status, Identified, Requests, Events, FinishItems, TranscriptOk;
    var rest := ClientRest(env, FinishFlight);
    ClientFlight(env, c, rest);
    var f := ClientFinish(env, c).value;
    var d := c.(state := FinishFlight, transcript := f.0);
    assert ClientStep(env, c, inbox) == Moved(d, false, [Ccs] + f.1);
    assert [] + ClientRest(env, c.state) == FinishItems(env) + rest && [] + rest == rest;
    assert ClientLeft(env, c) == Tagged(true, [Ccs] + f.1) + ClientLeft(env, d);
    var all := Tagged(true, [Ccs] + f.1) + ClientLeft(env, d);
    assert [] + all == all;
  }

  lemma {:induction false} ClientFinishesFlight(env: Env, c: Client, inbox: seq<Wire>)
    requires ClientOk(env, c) && !c.needCcs && (c.state == FinishFlight || c.state == ProcessServerCcs)
    ensures ClientKeeps(env, c, inbox)
  {
    hide Heard, ClientLeft, Tagged, Status, Identified, Requests, TranscriptOk, ClientRest;
    FinishRest(env);
    var to := if c.state == ProcessServerCcs then ReadServerFinished else if c.resumed then FinishClientHandshake else ReadSessionTicket;
    ClientSkips(env, c, c.(state := to));
  }

  lemma {:induction false} FinishRest(env: Env)
    ensures ClientRest(env, FinishFlight) == ClientRest(env, if env.resumed then FinishClientHandshake else ReadSessionTicket)
    ensures ClientRest(env, ProcessServerCcs) == ClientRest(env, ReadServerFinished)
    ensures ClientRest(env, FinishClientHandshake) == [] == ClientRest(env, ClientDone)
  {
  }

  lemma {:induction false} ClientEnds(env: Env, c: Client, inbox: seq<Wire>)
    requires ClientOk(env, c) && !c.needCcs && (c.state == FinishClientHandshake || c.state == ClientDone)
    requires Next(ClientLeft(env, c), false, inbox)
    ensures ClientKeeps(env, c, inbox)
  {
    hide Heard, ClientLeft, Tagged, Status, Identified, Requests, TranscriptOk, ClientRest;
    FinishRest(env);
    if c.state == ClientDone { ClientEnd(env, c); } else { ClientSkips(env, c, c.(state := ClientDone)); }
  }

  lemma {:induction false} ClientEnd(env: Env, c: Client)
    requires !c.needCcs && c.state == ClientDone
    ensures ClientLeft(env, c) == []
  {
  }

  lemma {:induction false} ClientTicket(env: Env, c: Client, inbox: seq<Wire>)
    requires ClientOk(env, c) && Next(ClientLeft(env, c), false, inbox) && !c.needCcs && c.state == ReadSessionTicket
    ensures ClientKeeps(env, c, inbox)
  {
    hide Heard, Update, Tagged, Status, Identified, Requests, TranscriptOk, Events;
    var rest := [Item(false, None)] + ClientRest(env, ProcessServerCcs);
    var heard := Heard(c.transcript);
    EventsOpt(env, env.ticket, S(NewSessionTicket), rest, heard);
    var all := ClientRest(env, c.state);
    assert [] + all == all == Opt(env.ticket, S(NewSessionTicket)) + rest;
    if env.ticket {
      if inbox != [] {
        var m := MsgOf(env, false, NewSessionTicket, heard);
        HeardUpdate(c.transcript, m);
        var d := ClientStep(env, c, inbox).next;
        OneTaken(ClientLeft(env, d), Event(false, inbox[0]), true);
      }
    } else {
      NoneSent(ClientLeft(env, c.(state := ProcessServerCcs, needCcs := true)), true);
    }
  }

  lemma {:induction false} ClientCcs(env: Env, c: Client, inbox: seq<Wire>)
    requires ClientOk(env, c) && Next(ClientLeft(env, c), false, inbox) && c.needCcs
    ensures ClientKeeps(env, c, inbox)
  {
    hide Heard, Tagged, Status, Identified, Requests, TranscriptOk, Events, ClientRest;
    var rest := ClientRest(env, ProcessServerCcs);
    EventsFirst(env, Item(false, None), rest, Heard(c.transcript));
    assert [] + rest == rest;
    OneTaken(Events(env, rest, Heard(c.transcript)), Event(false, Ccs), true);
  }

  lemma {:induction false} ClientReadsFinished(env: Env, c: Client, inbox: seq<Wire>)
    requires ClientOk(env, c) && Next(ClientLeft(env, c), false, inbox) && !c.needCcs && c.state == ReadServerFinished
    ensures ClientKeeps(env, c, inbox)
  {
    hide Update, ClientLeft, Tagged, Status, Identified, Requests;
    var to := if c.resumed then SendClientFinished else FinishClientHandshake;
    ServerTurn(env, c, true, Finished, ClientRest(env, to));
    if inbox != [] {
      var m := MsgOf(env, false, Finished, Heard(c.transcript));
      HeardUpdate(c.transcript, m);
      ClientTakes(env, c, inbox, true, Finished, c.(transcript := Update(c.transcript, m), state := to), ClientRest(env, to));
    }
  }

  /** The client keeps to the order in every state. */
  lemma {:induction false} ClientKeepsOrder(env: Env, c: Client, inbox: seq<Wire>)
    requires EnvOk(env) && ClientOk(env, c) && Next(ClientLeft(env, c), false, inbox)
    ensures ClientKeeps(env, c, inbox)
  {
    hide *;
    if c.needCcs { ClientCcs(env, c, inbox); }
    else {
      match c.state {
        case StartConnect => ClientStarts(env, c, inbox);
        case EnterEarlyData => ClientStarts(env, c, inbox);
        case ReadServerHello => ClientReadsHello(env, c, inbox);
        case ReadServerCertificate => ClientReadsCertificate(env, c, inbox);
        case ReadCertificateStatus => ClientReadsCertificate(env, c, inbox);
        case VerifyServerCertificate => ClientReadsCertificate(env, c, inbox);
        case ReadServerKeyExchange => ClientReadsKeyExchange(env, c, inbox);
        case ReadCertificateRequest => ClientReadsRequest(env, c, inbox);
        case ReadServerHelloDone => ClientReadsDone(env, c, inbox);
        case SendClientCertificate => ClientSendsCertificate(env, c, inbox);
        case SendClientKeyExchange => ClientSendsKeyExchange(env, c, inbox);
        case SendClientCertificateVerify => ClientSendsVerify(env, c, inbox);
        case SendClientFinished => ClientSendsFinished(env, c, inbox);
        case ReadSessionTicket => ClientTicket(env, c, inbox);
        case ReadServerFinished => ClientReadsFinished(env, c, inbox);
        case FinishFlight => ClientFinishesFlight(env, c, inbox);
        case ProcessServerCcs => ClientFinishesFlight(env, c, inbox);
        case FinishClientHandshake => ClientEnds(env, c, inbox);
        case ClientDone => ClientEnds(env, c, inbox);
      }
    }
  }
}
