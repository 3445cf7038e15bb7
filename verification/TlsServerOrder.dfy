/** The server handshake machine keeps to the order of messages, as the client does. */
module TlsServerOrder {
  import opened Words
  import opened TlsHandshake
  import opened TlsAgreement

  /** What the server has settled so far, and the transcript it keeps. */
  predicate ServerOk(env: Env, s: Server) {
    var rank := ServerRank(env.resumed, s.state);
    && TranscriptOk(s.transcript)
    && (rank >= 17 ==> s.transcript.hash.None?)
    && (rank < 17 ==> s.transcript.hash.Some? && s.resumed == env.resumed && s.ticketExpected == env.ticket && s.certRequest == Requests(env))
    && (16 <= rank < 19 ==> s.channelId == env.channelIdOffered)
    && (rank < 16 ==> s.channelId == Identified(env) && s.statusExpected == Status(env))
    && (s.state == SendServerKeyExchange ==> s.hasParams == KeyMessage(env))
    && (9 <= rank < 16 ==> !env.resumed)
    && (9 <= rank < 17 && Requests(env) && env.clientCert ==> s.transcript.buffer.Some?)
    && (9 <= rank < 12 ==> s.peerKey == (Requests(env) && env.clientCert))
    && (rank >= 12 ==> !s.peerKey)
    && (s.needCcs ==> s.state == ProcessClientCcs)
  }

  /** What each turn of the driver loop makes smaller. */
  function ServerMeasure(s: Server): nat {
    2 * ServerRank(s.resumed, s.state) + if s.needCcs then 1 else 0
  }

  function ServerLeft(env: Env, s: Server): seq<Event> {
    Events(env, (if s.needCcs then [Item(true, None)] else []) + ServerRest(env, s.state), Heard(s.transcript))
  }

  ghost predicate ServerKeeps(env: Env, s: Server, inbox: seq<Wire>) {
    match ServerStep(env, s, inbox)
    case Failed => false
    case Blocked => inbox == [] && (s.state == ServerDone || (ServerLeft(env, s) != [] && ServerLeft(env, s)[0].fromClient))
    case Moved(d, took, sent) =>
      && ServerOk(env, d) && (took ==> inbox != [] && sent == [])
      && ServerLeft(env, s) == (if took then [Event(true, inbox[0])] else []) + (Tagged(false, sent) + ServerLeft(env, d))
      && ServerMeasure(d) < ServerMeasure(s)
  }

  lemma {:induction false} ServerSkips(env: Env, s: Server, d: Server)
    requires !s.needCcs && !d.needCcs && ServerRest(env, s.state) == ServerRest(env, d.state)
        && Heard(s.transcript) == Heard(d.transcript)
    ensures ServerLeft(env, s) == [] + (Tagged(false, []) + ServerLeft(env, d))
  {
    hide ServerRest, Events, Heard, Tagged;
    NoneSent(ServerLeft(env, d), false);
  }

  lemma {:induction false} ServerSends(env: Env, s: Server, b: bool, k: Kind, d: Server, rest: seq<Item>)
    requires !s.needCcs && !d.needCcs && b && ServerRest(env, s.state) == Opt(b, S(k)) + rest
        && rest == ServerRest(env, d.state)
    requires Heard(d.transcript) == Heard(s.transcript) + [MsgOf(env, false, k, Heard(s.transcript))]
    ensures ServerLeft(env, s) == [] + (Tagged(false, [Hs(MsgOf(env, false, k, Heard(s.transcript)))]) + ServerLeft(env, d))
  {
    hide ServerRest, MsgOf, Heard, Opt, Tagged;
    EventsOpt(env, b, S(k), rest, Heard(s.transcript));
    assert [] + ServerRest(env, s.state) == ServerRest(env, s.state) && [] + rest == rest;
    OneSent(ServerLeft(env, d), false, Hs(MsgOf(env, false, k, Heard(s.transcript))));
  }

  lemma {:induction false} ClientTurn(env: Env, s: Server, b: bool, k: Kind, rest: seq<Item>)
    requires !s.needCcs && b && ServerRest(env, s.state) == Opt(b, C(k)) + rest
    ensures ServerLeft(env, s) != []
        && ServerLeft(env, s)[0] == Event(true, Hs(MsgOf(env, true, k, Heard(s.transcript))))
  {
    hide ServerRest, MsgOf, Heard, Opt;
    EventsOpt(env, b, C(k), rest, Heard(s.transcript));
    assert [] + ServerRest(env, s.state) == ServerRest(env, s.state);
  }

  lemma {:induction false} ServerTakes(env: Env, s: Server, inbox: seq<Wire>, b: bool, k: Kind, d: Server,
      rest: seq<Item>)
    requires !s.needCcs && !d.needCcs && Next(ServerLeft(env, s), true, inbox)
    requires ServerRest(env, s.state) == Opt(b, C(k)) + rest && rest == ServerRest(env, d.state) && b
    requires inbox != [] && Heard(d.transcript) == Heard(s.transcript) + [MsgOf(env, true, k, Heard(s.transcript))]
    ensures inbox[0] == Hs(MsgOf(env, true, k, Heard(s.transcript)))
    ensures ServerLeft(env, s) == [Event(true, inbox[0])] + (Tagged(false, []) + ServerLeft(env, d))
  {
    hide ServerRest, MsgOf, Heard, Opt, Tagged;
    EventsOpt(env, b, C(k), rest, Heard(s.transcript));
    assert [] + ServerRest(env, s.state) == ServerRest(env, s.state) && [] + rest == rest;
    OneTaken(ServerLeft(env, d), Event(true, inbox[0]), false);
  }

  // ------------------------------------------------------------- state by state

  lemma {:induction false} ServerStarts(env: Env, s: Server, inbox: seq<Wire>)
    requires ServerOk(env, s) && Next(ServerLeft(env, s), true, inbox) && !s.needCcs && s.state == StartAccept
    ensures ServerKeeps(env, s, inbox)
  {
    hide Heard, ServerLeft, Tagged, Status, Identified, Requests, KeyMessage, TranscriptOk, ServerRest;
    HelloRest(env, s.state);
    HelloRest(env, ReadClientHello);
    ClientTurn(env, s, true, ClientHello, ServerRest(env, SendServerHello));
    ServerSkips(env, s, s.(state := ReadClientHello));
  }

  lemma {:induction false} ServerAccepts(env: Env, s: Server, inbox: seq<Wire>)
    requires ServerOk(env, s) && Next(ServerLeft(env, s), true, inbox) && !s.needCcs && s.state == ReadClientHello
    ensures ServerKeeps(env, s, inbox)
  {
    hide Heard, ServerLeft, Tagged, Status, Identified, Requests, KeyMessage, TranscriptOk, ServerRest;
    HelloRest(env, s.state);
    HelloRest(env, SelectCertificate);
    ClientTurn(env, s, true, ClientHello, ServerRest(env, SendServerHello));
    ServerSkips(env, s, s.(channelId := env.channelIdOffered, state := SelectCertificate));
  }

  lemma {:induction false} ServerPicks(env: Env, s: Server, inbox: seq<Wire>)
    requires ServerOk(env, s) && Next(ServerLeft(env, s), true, inbox) && !s.needCcs && s.state == SelectCertificate
    ensures ServerKeeps(env, s, inbox)
  {
    hide Heard, ServerLeft, Tagged, Status, Identified, Requests, KeyMessage, TranscriptOk, ServerRest;
    HelloRest(env, s.state);
    HelloRest(env, SelectParameters);
    ClientTurn(env, s, true, ClientHello, ServerRest(env, SendServerHello));
    ServerSkips(env, s, s.(state := SelectParameters));
  }

  lemma {:induction false} HelloRest(env: Env, state: ServerState)
    requires state == StartAccept || state == ReadClientHello || state == SelectCertificate || state == SelectParameters
    ensures ServerRest(env, state) == [C(ClientHello)] + ServerRest(env, SendServerHello)
  {
    assert ServerRest(env, SelectCertificate) == ServerRest(env, SelectParameters);
    assert ServerRest(env, ReadClientHello) == ServerRest(env, SelectCertificate);
  }

  lemma {:induction false} ServerSelects(env: Env, s: Server, inbox: seq<Wire>)
    requires ServerOk(env, s) && Next(ServerLeft(env, s), true, inbox) && !s.needCcs && s.state == SelectParameters
    ensures ServerKeeps(env, s, inbox)
  {
    hide Heard, Update, InitHash, FreeBuffer, ServerLeft, Tagged, Status, Identified, KeyMessage;
    var rest := ServerRest(env, SendServerHello);
    ClientTurn(env, s, true, ClientHello, rest);
    if inbox != [] {
      var m := MsgOf(env, true, ClientHello, Heard(s.transcript));
      HeardInit(s.transcript);
      HeardUpdate(InitHash(s.transcript), m);
      HeardFree(Update(InitHash(s.transcript), m));
      ServerTakes(env, s, inbox, true, ClientHello, ServerStep(env, s, inbox).next, rest);
    }
  }

  lemma {:induction false} ServerSendsHello(env: Env, s: Server, inbox: seq<Wire>)
    requires ServerOk(env, s) && !s.needCcs && s.state == SendServerHello
    ensures ServerKeeps(env, s, inbox)
  {
    hide Heard, Update, ServerLeft, Tagged, KeyMessage, Requests, TranscriptOk, ServerRest;
    NoRequest(env);
    var m := MsgOf(env, false, ServerHello, Heard(s.transcript));
    HeardUpdate(s.transcript, m);
    HelloNext(env);
    ServerSends(env, s, true, ServerHello, ServerStep(env, s, inbox).next, ServerRest(env, if env.resumed then SendServerFinished else SendServerCertificate));
  }

  lemma {:induction false} HelloNext(env: Env)
    ensures ServerRest(env, SendServerHello)
         == Opt(true, S(ServerHello)) + ServerRest(env, if env.resumed then SendServerFinished else SendServerCertificate)
  {
  }

  /** The server's first messages of a full handshake, and what is left after them. */
  lemma {:induction false} CertificateLeft(env: Env, s: Server, d: Server)
    requires s.state == SendServerCertificate && d.state == SendServerKeyExchange && !s.needCcs && !d.needCcs
    requires Status(env) ==> CertAuth(env.cipher)
    requires var heard, cert := Heard(s.transcript), MsgOf(env, false, Certificate, Heard(s.transcript));
      Heard(d.transcript) == if !CertAuth(env.cipher) then heard else if !Status(env) then heard + [cert]
                             else heard + [cert] + [MsgOf(env, false, CertificateStatus, heard + [cert])]
    ensures var heard, cert := Heard(s.transcript), MsgOf(env, false, Certificate, Heard(s.transcript));
      var status := MsgOf(env, false, CertificateStatus, heard + [cert]);
      ServerLeft(env, s) == [] + (Tagged(false, if !CertAuth(env.cipher) then [] else if !Status(env) then [Hs(cert)] else [Hs(cert), Hs(status)])
                                  + ServerLeft(env, d))
  {
    hide Heard, Tagged, Status, CertAuth, Events, MsgOf;
    var heard := Heard(s.transcript);
    var rest := ServerRest(env, SendServerKeyExchange);
    var cert := MsgOf(env, false, Certificate, heard);
    EventsOpt(env, CertAuth(env.cipher), S(Certificate), Opt(Status(env), S(CertificateStatus)) + rest, heard);
    EventsOpt(env, Status(env), S(CertificateStatus), rest, if CertAuth(env.cipher) then heard + [cert] else heard);
    var all := ServerRest(env, s.state);
    assert [] + all == all && [] + rest == rest;
    SentPair(CertAuth(env.cipher), cert, Status(env), MsgOf(env, false, CertificateStatus, heard + [cert]), ServerLeft(env, d));
  }

  lemma {:induction false} ServerSendsCertificate(env: Env, s: Server, inbox: seq<Wire>)
    requires EnvOk(env) && ServerOk(env, s) && !s.needCcs && s.state == SendServerCertificate
    ensures ServerKeeps(env, s, inbox)
  {
    hide Heard, Update, Tagged, Identified, Requests, CertAuth, TranscriptOk, MsgOf, ServerLeft, ServerRest;
    NoRequest(env);
    var heard := Heard(s.transcript);
    var cert := MsgOf(env, false, Certificate, heard);
    HeardUpdate(s.transcript, cert);
    HeardUpdate(Update(s.transcript, cert), MsgOf(env, false, CertificateStatus, heard + [cert]));
    PlainParts(env, heard);
    PlainParts(env, heard + [cert]);
    CertificateLeft(env, s, ServerStep(env, s, inbox).next);
  }

  lemma {:induction false} PlainParts(env: Env, heard: seq<Msg>)
    ensures forall k :: k in {Certificate, CertificateStatus, CertificateRequest, ServerHelloDone, ServerKeyExchange}
              ==> MsgOf(env, false, k, heard) == Plain(k, false, env.body(true, k))
  {
  }

  lemma {:induction false} SentPair(a: bool, m: Msg, b: bool, n: Msg, left: seq<Event>)
    requires b ==> a
    ensures [] + (Tagged(false, if !a then [] else if !b then [Hs(m)] else [Hs(m), Hs(n)]) + left)
         == (if a then [Event(false, Hs(m))] else []) + ((if b then [Event(false, Hs(n))] else []) + left)
  {
  }

  lemma {:induction false} ServerSendsKeyExchange(env: Env, s: Server, inbox: seq<Wire>)
    requires ServerOk(env, s) && !s.needCcs && s.state == SendServerKeyExchange
    ensures ServerKeeps(env, s, inbox)
  {
    hide Heard, Update, ServerLeft, Tagged, Status, Identified, Requests, KeyMessage, TranscriptOk;
    var rest := ServerRest(env, SendServerHelloDone);
    if s.hasParams {
      var m := MsgOf(env, false, ServerKeyExchange, Heard(s.transcript));
      HeardUpdate(s.transcript, m);
      ServerSends(env, s, true, ServerKeyExchange, ServerStep(env, s, inbox).next, rest);
    } else {
      assert [] + rest == rest;
      ServerSkips(env, s, s.(state := SendServerHelloDone));
    }
  }

  lemma {:induction false} ServerSendsDone(env: Env, s: Server, inbox: seq<Wire>)
    requires ServerOk(env, s) && !s.needCcs && s.state == SendServerHelloDone
    ensures ServerKeeps(env, s, inbox)
  {
    hide Heard, Update, Tagged, Status, Identified, Requests, KeyMessage, TranscriptOk, Events, MsgOf;
    var heard := Heard(s.transcript);
    var rest := ServerRest(env, ReadClientCertificate);
    var req := MsgOf(env, false, CertificateRequest, heard);
    HeardUpdate(s.transcript, req);
    var h1 := if Requests(env) then heard + [req] else heard;
    var t := if Requests(env) then Update(s.transcript, req) else s.transcript;
    var done := MsgOf(env, false, ServerHelloDone, h1);
    HeardUpdate(t, done);
    PlainParts(env, heard);
    PlainParts(env, h1);
    EventsOpt(env, Requests(env), S(CertificateRequest), [S(ServerHelloDone)] + rest, heard);
    EventsFirst(env, S(ServerHelloDone), rest, h1);
    var all := ServerRest(env, s.state);
    assert [] + all == all && [] + rest == rest;
    SentLast(Requests(env), req, done, ServerLeft(env, ServerStep(env, s, inbox).next));
  }

  lemma {:induction false} SentLast(a: bool, m: Msg, n: Msg, left: seq<Event>)
    ensures [] + (Tagged(false, if a then [Hs(m), Hs(n)] else [Hs(n)]) + left)
         == (if a then [Event(false, Hs(m))] else []) + ([Event(false, Hs(n))] + left)
    ensures !a ==> [] + (Tagged(false, [Hs(n)]) + left) == [Event(false, Hs(n))] + left
  {
  }

  lemma {:induction false} ServerReadsCertificate(env: Env, s: Server, inbox: seq<Wire>)
    requires ServerOk(env, s) && Next(ServerLeft(env, s), true, inbox) && !s.needCcs
    requires s.state == ReadClientCertificate || s.state == VerifyClientCertificate
    ensures ServerKeeps(env, s, inbox)
  {
    hide Heard, Update, FreeBuffer, ServerLeft, Tagged, Status, Identified, Requests, KeyMessage, TranscriptOk;
    var rest := ServerRest(env, VerifyClientCertificate);
    if s.state == ReadClientCertificate && s.certRequest {
      ClientTurn(env, s, Requests(env), Certificate, rest);
      if inbox != [] {
        var m := MsgOf(env, true, Certificate, Heard(s.transcript));
        HeardUpdate(s.transcript, m);
        HeardFree(Update(s.transcript, m));
        var t := if m.empty then FreeBuffer(Update(s.transcript, m)) else Update(s.transcript, m);
        ServerTakes(env, s, inbox, Requests(env), Certificate, s.(transcript := t, peerKey := !m.empty, state := VerifyClientCertificate), rest);
      }
    } else {
      assert [] + rest == rest;
      ServerSkips(env, s, ServerStep(env, s, inbox).next);
    }
  }

  lemma {:induction false} ServerReadsKeyExchange(env: Env, s: Server, inbox: seq<Wire>)
    requires ServerOk(env, s) && Next(ServerLeft(env, s), true, inbox) && !s.needCcs && s.state == ReadClientKeyExchange
    ensures ServerKeeps(env, s, inbox)
  {
    hide Heard, Update, ServerLeft, Tagged, Status, Identified, Requests, KeyMessage, TranscriptOk;
    var rest := ServerRest(env, ReadClientCertificateVerify);
    ClientTurn(env, s, true, ClientKeyExchange, rest);
    if inbox != [] {
      var m := MsgOf(env, true, ClientKeyExchange, Heard(s.transcript));
      HeardUpdate(s.transcript, m);
      ServerTakes(env, s, inbox, true, ClientKeyExchange, s.(transcript := Update(s.transcript, m), state := ReadClientCertificateVerify), rest);
    }
  }

  lemma {:induction false} ServerReadsVerify(env: Env, s: Server, inbox: seq<Wire>)
    requires ServerOk(env, s) && Next(ServerLeft(env, s), true, inbox) && !s.needCcs
        && s.state == ReadClientCertificateVerify
    ensures ServerKeeps(env, s, inbox)
  {
    hide Update, FreeBuffer, ServerLeft, Tagged, Status, Identified, Requests, KeyMessage;
    var rest := ServerRest(env, ReadClientCcs);
    HeardFree(s.transcript);
    if s.peerKey {
      ClientTurn(env, s, Requests(env) && env.clientCert, CertificateVerify, rest);
      if inbox != [] {
        var m := MsgOf(env, true, CertificateVerify, Heard(s.transcript));
        HeardUpdate(FreeBuffer(s.transcript), m);
        ServerTakes(env, s, inbox, Requests(env) && env.clientCert, CertificateVerify,
                    s.(transcript := Update(FreeBuffer(s.transcript), m), state := ReadClientCcs), rest);
      }
    } else {
      assert [] + rest == rest;
      ServerSkips(env, s, s.(transcript := FreeBuffer(s.transcript), state := ReadClientCcs));
    }
  }

  lemma {:induction false} ServerCcs(env: Env, s: Server, inbox: seq<Wire>)
    requires ServerOk(env, s) && Next(ServerLeft(env, s), true, inbox) && s.needCcs
    ensures ServerKeeps(env, s, inbox)
  {
    hide Heard, Tagged, Status, Identified, Requests, KeyMessage, TranscriptOk, Events, ServerRest;
    var rest := ServerRest(env, ProcessClientCcs);
    EventsFirst(env, Item(true, None), rest, Heard(s.transcript));
    assert [] + rest == rest;
    OneTaken(Events(env, rest, Heard(s.transcript)), Event(true, Ccs), false);
  }

  lemma {:induction false} ServerWaitsCcs(env: Env, s: Server, inbox: seq<Wire>)
    requires ServerOk(env, s) && !s.needCcs && s.state == ReadClientCcs
    ensures ServerKeeps(env, s, inbox)
  {
    hide Heard, Tagged, Status, Identified, Requests, KeyMessage, TranscriptOk, Events;
    var rest := ServerRest(env, ProcessClientCcs);
    assert [] + ServerRest(env, s.state) == [Item(true, None)] + rest;
    NoneSent(ServerLeft(env, s.(state := ProcessClientCcs, needCcs := true)), false);
  }

  lemma {:induction false} ServerGoesOn(env: Env, s: Server, inbox: seq<Wire>)
    requires ServerOk(env, s) && Next(ServerLeft(env, s), true, inbox) && !s.needCcs
    requires s.state == ProcessClientCcs || s.state == FinishServerHandshake || s.state == ServerDone
    ensures ServerKeeps(env, s, inbox)
  {
    hide Heard, ServerLeft, Tagged, Status, Identified, Requests, KeyMessage, TranscriptOk;
    if s.state == ServerDone { ServerEnd(env, s); } else { ServerSkips(env, s, ServerStep(env, s, inbox).next); }
  }

  lemma {:induction false} ServerEnd(env: Env, s: Server)
    requires !s.needCcs && s.state == ServerDone
    ensures ServerLeft(env, s) == []
  {
  }

  lemma {:induction false} ServerReadsProto(env: Env, s: Server, inbox: seq<Wire>)
    requires ServerOk(env, s) && Next(ServerLeft(env, s), true, inbox) && !s.needCcs && s.state == ReadNextProto
    ensures ServerKeeps(env, s, inbox)
  {
    hide Heard, Update, ServerLeft, Tagged, Status, Identified, Requests, KeyMessage, TranscriptOk;
    var rest := ServerRest(env, ReadChannelId);
    if env.npn {
      ClientTurn(env, s, env.npn, NextProto, rest);
      if inbox != [] {
        var m := MsgOf(env, true, NextProto, Heard(s.transcript));
        HeardUpdate(s.transcript, m);
        ServerTakes(env, s, inbox, env.npn, NextProto, s.(transcript := Update(s.transcript, m), state := ReadChannelId), rest);
      }
    } else {
      assert [] + rest == rest;
      ServerSkips(env, s, s.(state := ReadChannelId));
    }
  }

  lemma {:induction false} ServerReadsId(env: Env, s: Server, inbox: seq<Wire>)
    requires ServerOk(env, s) && Next(ServerLeft(env, s), true, inbox) && !s.needCcs && s.state == ReadChannelId
    ensures ServerKeeps(env, s, inbox)
  {
    hide Update, ServerLeft, Tagged, Status, Identified, Requests, KeyMessage;
    var rest := ServerRest(env, ReadClientFinished);
    if s.channelId {
      ClientTurn(env, s, Identified(env), ChannelId, rest);
      if inbox != [] {
        var m := MsgOf(env, true, ChannelId, Heard(s.transcript));
        HeardUpdate(s.transcript, m);
        ServerTakes(env, s, inbox, Identified(env), ChannelId, s.(transcript := Update(s.transcript, m), state := ReadClientFinished), rest);
      }
    } else {
      assert [] + rest == rest;
      ServerSkips(env, s, s.(state := ReadClientFinished));
    }
  }

  lemma {:induction false} ServerReadsFinished(env: Env, s: Server, inbox: seq<Wire>)
    requires ServerOk(env, s) && Next(ServerLeft(env, s), true, inbox) && !s.needCcs && s.state == ReadClientFinished
    ensures ServerKeeps(env, s, inbox)
  {
    hide Update, ServerLeft, Tagged, Status, Identified, Requests, KeyMessage;
    var to := if env.resumed then FinishServerHandshake else SendServerFinished;
    ClientTurn(env, s, true, Finished, ServerRest(env, to));
    if inbox != [] {
      var m := MsgOf(env, true, Finished, Heard(s.transcript));
      HeardUpdate(s.transcript, m);
      ServerTakes(env, s, inbox, true, Finished, s.(transcript := Update(s.transcript, m), state := to), ServerRest(env, to));
    }
  }

  /** The server's finishing flight is what the order wants. */
  lemma {:induction false} ServerFlight(env: Env, s: Server, rest: seq<Item>)
    requires TranscriptOk(s.transcript) && s.transcript.hash.Some? && s.ticketExpected == env.ticket
    ensures ServerFinish(env, s).Some?
    ensures var f := ServerFinish(env, s).value;
      && TranscriptOk(f.0) && f.0.hash.Some? && (f.0.buffer.Some? <==> s.transcript.buffer.Some?)
      && Events(env, Opt(env.ticket, S(NewSessionTicket)) + ([Item(false, None), S(Finished)] + rest), Heard(s.transcript))
         == Tagged(false, f.1) + Events(env, rest, Heard(f.0))
  {
    hide Update, Tagged, Events, Opt;
    var heard := Heard(s.transcript);
    var ticket := MsgOf(env, false, NewSessionTicket, heard);
    HeardUpdate(s.transcript, ticket);
    var t := if env.ticket then Update(s.transcript, ticket) else s.transcript;
    var fin := MsgOf(env, false, Finished, Heard(t));
    HeardUpdate(t, fin);
    EventsOpt(env, env.ticket, S(NewSessionTicket), [Item(false, None), S(Finished)] + rest, heard);
    assert [Item(false, None), S(Finished)] + rest == [Item(false, None)] + ([S(Finished)] + rest);
    EventsFirst(env, Item(false, None), [S(Finished)] + rest, Heard(t));
    EventsFirst(env, S(Finished), rest, Heard(t));
    SentFlight(env.ticket, ticket, fin, Events(env, rest, Heard(Update(t, fin))));
  }

  lemma {:induction false} ServerSendsFinished(env: Env, s: Server, inbox: seq<Wire>)
    requires ServerOk(env, s) && !s.needCcs && s.state == SendServerFinished
    ensures ServerKeeps(env, s, inbox)
  {
    hide Heard, ServerFinish, Tagged, Status, Identified, Requests, KeyMessage, Events, TranscriptOk;
    var to := if env.resumed then ReadClientCcs else FinishServerHandshake;
    var rest := ServerRest(env, to);
    ServerFlight(env, s, rest);
    var f := ServerFinish(env, s).value;
    var d := s.(state := to, transcript := f.0);
    assert ServerStep(env, s, inbox) == Moved(d, false, f.1);
    var all := ServerRest(env, s.state);
    assert [] + all == all && [] + rest == rest;
    var left := Tagged(false, f.1) + ServerLeft(env, d);
    assert ServerLeft(env, s) == left && [] + left == left;
  }

  lemma {:induction false} SentFlight(a: bool, m: Msg, fin: Msg, left: seq<Event>)
    ensures Tagged(false, (if a then [Hs(m)] else []) + [Ccs, Hs(fin)]) + left
         == if a then [Event(false, Hs(m))] + ([Event(false, Ccs)] + ([Event(false, Hs(fin))] + left))
            else [Event(false, Ccs)] + ([Event(false, Hs(fin))] + left)
  {
  }

  /** The server keeps to the order in every state. */
  lemma {:induction false} ServerKeepsOrder(env: Env, s: Server, inbox: seq<Wire>)
    requires EnvOk(env) && ServerOk(env, s) && Next(ServerLeft(env, s), true, inbox)
    ensures ServerKeeps(env, s, inbox)
  {
    hide *;
    if s.needCcs { ServerCcs(env, s, inbox); }
    else {
      match s.state {
        case StartAccept => ServerStarts(env, s, inbox);
        case ReadClientHello => ServerAccepts(env, s, inbox);
        case SelectCertificate => ServerPicks(env, s, inbox);
        case SelectParameters => ServerSelects(env, s, inbox);
        case SendServerHello => ServerSendsHello(env, s, inbox);
        case SendServerCertificate => ServerSendsCertificate(env, s, inbox);
        case SendServerKeyExchange => ServerSendsKeyExchange(env, s, inbox);
        case SendServerHelloDone => ServerSendsDone(env, s, inbox);
        case ReadClientCertificate => ServerReadsCertificate(env, s, inbox);
        case VerifyClientCertificate => ServerReadsCertificate(env, s, inbox);
        case ReadClientKeyExchange => ServerReadsKeyExchange(env, s, inbox);
        case ReadClientCertificateVerify => ServerReadsVerify(env, s, inbox);
        case ReadNextProto => ServerReadsProto(env, s, inbox);
        case ReadChannelId => ServerReadsId(env, s, inbox);
        case ReadClientFinished => ServerReadsFinished(env, s, inbox);
        case SendServerFinished => ServerSendsFinished(env, s, inbox);
        case ReadClientCcs => ServerWaitsCcs(env, s, inbox);
        case ProcessClientCcs => ServerGoesOn(env, s, inbox);
        case FinishServerHandshake => ServerGoesOn(env, s, inbox);
        case ServerDone => ServerGoesOn(env, s, inbox);
      }
    }
  }
}
