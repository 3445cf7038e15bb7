/** What the handshake hash covers (RFC 5246 section 7.4.9: all handshake messages up to, but not
    including, the one that carries the proof): message by message, for each end alone and for both
    of them together. */
module TlsTranscript {
  import opened Words
  import opened TlsHandshake
  import opened TlsAgreement
  import opened TlsServerOrder
  import opened TlsMachines
  import opened TlsJoint
  import opened TlsMessages
  import TlsVerified

  // ------------------------------------------------------------- what a transcript holds

  /** The handshake messages on the connection; a ChangeCipherSpec is none. */
  function Messages(ws: seq<Wire>): seq<Msg> {
    if ws == [] then []
    else if ws[0].Ccs? then Messages(ws[1..])
    else [ws[0].m] + Messages(ws[1..])
  }

  /** Exactly these messages are hashed, or buffered, or both. */
  predicate Holds(t: Transcript, ms: seq<Msg>) {
    && (t.hash.Some? || t.buffer.Some?)
    && (t.hash.Some? ==> t.hash.value == ms)
    && (t.buffer.Some? ==> t.buffer.value == ms)
  }

  lemma {:induction false} MessagesThen(a: seq<Wire>, b: seq<Wire>)
    ensures Messages(a + b) == Messages(a) + Messages(b)
  {
    if a == [] {
      assert a + b == b;
    } else {
      assert (a + b)[1..] == a[1..] + b;
      MessagesThen(a[1..], b);
    }
  }

  lemma {:induction false} OneMessage(m: Msg)
    ensures Messages([Hs(m)]) == [m]
  {
    assert [Hs(m)][1..] == [];
  }

  lemma {:induction false} TwoMessages(a: Msg, b: Msg)
    ensures Messages([Hs(a), Hs(b)]) == [a, b]
  {
    assert [Hs(a), Hs(b)] == [Hs(a)] + [Hs(b)];
    MessagesThen([Hs(a)], [Hs(b)]);
    OneMessage(a);
    OneMessage(b);
  }

  lemma {:induction false} UpdateHolds(t: Transcript, m: Msg, h: seq<Msg>)
    requires Holds(t, h)
    ensures Holds(Update(t, m), h + [m]) && (Update(t, m).hash.Some? <==> t.hash.Some?)
  {
  }

  lemma {:induction false} FreeHolds(t: Transcript, h: seq<Msg>)
    requires Holds(t, h) && t.hash.Some?
    ensures Holds(FreeBuffer(t), h) && FreeBuffer(t).hash.Some?
  {
  }

  lemma {:induction false} InitHolds(t: Transcript, h: seq<Msg>)
    requires Holds(t, h) && t.buffer.Some?
    ensures Holds(InitHash(t), h) && InitHash(t).hash.Some?
  {
  }

  // ------------------------------------------------------------- one step, against any peer

  /** What a step took and sent. */
  function Passed<S>(r: Step<S>, ins: seq<Wire>): seq<Wire>
    requires r.Moved? && r.took ==> ins != []
  {
    if r.Moved? then (if r.took then [ins[0]] else []) + r.sent else []
  }

  /** From the ServerHello on the client has a running hash. */
  predicate ClientHashes(c: Client) { c.state in {StartConnect, EnterEarlyData, ReadServerHello} || c.transcript.hash.Some? }
  predicate ClientHolds(c: Client, h: seq<Msg>) { Holds(c.transcript, h) && ClientHashes(c) }

  lemma {:induction false} ClientTakesHolds(env: Env, c: Client, m: Msg, h: seq<Msg>)
    requires ClientHolds(c, h) && ClientReads(c) && c.state != ReadServerHello
    ensures var r := ClientOnMessage(env, c, m); r.Moved? ==> r.sent == [] && ClientHolds(r.next, if r.took then h + [m] else h)
  {
    hide ClientOnMessage, ClientHolds;
    match c.state {
      case ReadServerCertificate => CertificateHolds(env, c, m, h);
      case ReadCertificateStatus => CertificateHolds(env, c, m, h);
      case ReadServerKeyExchange => KeyExchangeHolds(env, c, m, h);
      case ReadCertificateRequest => RequestHolds(env, c, m, h);
      case ReadServerHelloDone => EndHolds(env, c, m, h);
      case ReadSessionTicket => EndHolds(env, c, m, h);
      case ReadServerFinished => EndHolds(env, c, m, h);
    }
  }

  lemma {:induction false} CertificateHolds(env: Env, c: Client, m: Msg, h: seq<Msg>)
    requires ClientHolds(c, h) && c.state in {ReadServerCertificate, ReadCertificateStatus}
    ensures var r := ClientOnMessage(env, c, m); r.Moved? ==> r.sent == [] && ClientHolds(r.next, if r.took then h + [m] else h)
  {
    hide Update, Holds, KindOf;
    UpdateHolds(c.transcript, m, h);
  }

  lemma {:induction false} KeyExchangeHolds(env: Env, c: Client, m: Msg, h: seq<Msg>)
    requires ClientHolds(c, h) && c.state == ReadServerKeyExchange
    ensures var r := ClientOnMessage(env, c, m); r.Moved? ==> r.sent == [] && ClientHolds(r.next, if r.took then h + [m] else h)
  {
    hide Update, Holds, KindOf, RequiresKeyExchange;
    UpdateHolds(c.transcript, m, h);
  }

  lemma {:induction false} RequestHolds(env: Env, c: Client, m: Msg, h: seq<Msg>)
    requires ClientHolds(c, h) && c.state == ReadCertificateRequest
    ensures var r := ClientOnMessage(env, c, m); r.Moved? ==> r.sent == [] && ClientHolds(r.next, if r.took then h + [m] else h)
  {
    hide Update, FreeBuffer, Holds, KindOf;
    UpdateHolds(c.transcript, m, h);
    FreeHolds(c.transcript, h);
  }

  lemma {:induction false} EndHolds(env: Env, c: Client, m: Msg, h: seq<Msg>)
    requires ClientHolds(c, h) && c.state in {ReadServerHelloDone, ReadSessionTicket, ReadServerFinished}
    ensures var r := ClientOnMessage(env, c, m); r.Moved? ==> r.sent == [] && ClientHolds(r.next, if r.took then h + [m] else h)
  {
    hide Update, Holds, KindOf;
    UpdateHolds(c.transcript, m, h);
  }

  lemma {:induction false} ClientHelloHolds(env: Env, c: Client, m: Msg, h: seq<Msg>)
    requires ClientHolds(c, h) && c.state == ReadServerHello
    ensures var r := ClientOnMessage(env, c, m); r.Moved? ==> r.sent == [] && r.took && ClientHolds(r.next, h + [m])
  {
    hide Update, FreeBuffer, InitHash, Holds, CertAuth;
    if c.transcript.buffer.Some? {
      InitHolds(c.transcript, h);
      UpdateHolds(InitHash(c.transcript), m, h);
      FreeHolds(Update(InitHash(c.transcript), m), h + [m]);
    }
  }

  lemma {:induction false} ClientFinishHolds(env: Env, c: Client, h: seq<Msg>)
    requires Holds(c.transcript, h) && c.transcript.hash.Some?
    ensures var f := ClientFinish(env, c);
      f.Some? && f.value.0.hash.Some? && Holds(f.value.0, h + Messages([Ccs] + f.value.1))
  {
    hide Update, Sign, Holds, Messages;
    var m := Plain(NextProto, false, env.body(false, NextProto));
    var t := if c.npn then Update(c.transcript, m) else c.transcript;
    UpdateHolds(c.transcript, m, h);
    var h1 := if c.npn then h + [m] else h;
    var id := Sign(env, ChannelId, false, t.hash.value);
    var u := if c.channelId then Update(t, id) else t;
    UpdateHolds(t, id, h1);
    var h2 := if c.channelId then h1 + [id] else h1;
    var fin := Sign(env, Finished, false, u.hash.value);
    UpdateHolds(u, fin, h2);
    FinishMessages(c.npn, m, c.channelId, id, fin);
    assert h2 + [fin] == h + ((if c.npn then [m] else []) + (if c.channelId then [id] else []) + [fin]);
  }

  lemma {:induction false} FinishMessages(npn: bool, m: Msg, channelId: bool, id: Msg, fin: Msg)
    ensures var a, b := if npn then [Hs(m)] else [], if channelId then [Hs(id)] else [];
      Messages([Ccs] + (a + b + [Hs(fin)])) == (if npn then [m] else []) + (if channelId then [id] else []) + [fin]
  {
    hide Messages;
    var a, b := if npn then [Hs(m)] else [], if channelId then [Hs(id)] else [];
    MessagesThen([Ccs], a + b + [Hs(fin)]);
    MessagesThen(a + b, [Hs(fin)]);
    MessagesThen(a, b);
    OneMessage(m);
    OneMessage(id);
    OneMessage(fin);
    NoMessage();
  }

  lemma {:induction false} NoMessage()
    ensures Messages([]) == [] == Messages([Ccs])
  {
    assert [Ccs][1..] == [];
  }

  lemma {:induction false} ClientAloneHolds(env: Env, c: Client, h: seq<Msg>)
    requires ClientHolds(c, h)
    ensures var r := ClientAlone(env, c); r.Moved? ==> !r.took && ClientHolds(r.next, h + Messages(r.sent))
  {
    hide ClientAlone, Holds, Messages, ClientFinish;
    NoMessage();
    assert h + [] == h;
    if c.state == SendClientFinished {
      ClientFinishHolds(env, c, h);
      FinishSends(env, c);
    } else if c.state in {StartConnect, SendClientCertificate, SendClientKeyExchange, SendClientCertificateVerify} {
      ClientSendsHolds(env, c, h);
    } else {
      ClientSkips(env, c);
    }
  }

  lemma {:induction false} FinishSends(env: Env, c: Client)
    requires c.state == SendClientFinished
    ensures var f := ClientFinish(env, c);
      f.Some? ==> ClientAlone(env, c) == Moved(c.(state := FinishFlight, transcript := f.value.0), false, [Ccs] + f.value.1)
  {
    hide ClientFinish;
  }

  /** In the other states the client only goes on. */
  lemma {:induction false} ClientSkips(env: Env, c: Client)
    requires c.state !in {StartConnect, SendClientCertificate, SendClientKeyExchange, SendClientCertificateVerify, SendClientFinished}
    ensures var r := ClientAlone(env, c);
      r.Moved? ==>
        && !r.took && r.sent == [] && r.next.transcript == c.transcript && c.state != ReadServerHello
        && (c.state == EnterEarlyData ==> r.next.state == ReadServerHello)
  {
    hide ClientAlone;
    if c.state == EnterEarlyData { ClientEarly(env, c); }
    else if c.state in {ReadServerCertificate, ReadCertificateStatus, VerifyServerCertificate, ReadCertificateRequest} { ClientSkipsFirst(env, c); }
    else if c.state in {FinishFlight, ReadSessionTicket, ProcessServerCcs, FinishClientHandshake} { ClientSkipsLast(env, c); }
    else { ClientWaits(env, c); }
  }

  lemma {:induction false} ClientEarly(env: Env, c: Client)
    requires c.state in {EnterEarlyData}
    ensures var r := ClientAlone(env, c); r.Moved? && !r.took && r.sent == [] && r.next.transcript == c.transcript && r.next.state == ReadServerHello
  {
    hide Update, FreeBuffer, ClientFinish, Sign;
  }

  lemma {:induction false} ClientSkipsFirst(env: Env, c: Client)
    requires c.state in {ReadServerCertificate, ReadCertificateStatus, VerifyServerCertificate, ReadCertificateRequest}
    ensures var r := ClientAlone(env, c); r.Moved? && !r.took && r.sent == [] && r.next.transcript == c.transcript
  {
    hide Update, FreeBuffer, ClientFinish, Sign;
  }

  lemma {:induction false} ClientSkipsLast(env: Env, c: Client)
    requires c.state in {FinishFlight, ReadSessionTicket, ProcessServerCcs, FinishClientHandshake}
    ensures var r := ClientAlone(env, c); r.Moved? && !r.took && r.sent == [] && r.next.transcript == c.transcript
  {
    hide Update, FreeBuffer, ClientFinish, Sign;
  }

  lemma {:induction false} ClientWaits(env: Env, c: Client)
    requires c.state in {ReadServerHello, ReadServerKeyExchange, ReadServerHelloDone, ReadServerFinished, ClientDone}
    ensures ClientAlone(env, c).Blocked?
  {
    hide Update, FreeBuffer, ClientFinish, Sign;
  }

  lemma {:induction false} ClientSendsHolds(env: Env, c: Client, h: seq<Msg>)
    requires ClientHolds(c, h)
        && c.state in {StartConnect, SendClientCertificate, SendClientKeyExchange, SendClientCertificateVerify}
    ensures var r := ClientAlone(env, c); r.Moved? ==> !r.took && ClientHolds(r.next, h + Messages(r.sent))
  {
    hide Update, FreeBuffer, Holds, Messages, ClientFinish, Sign;
    NoMessage();
    assert h + [] == h;
    var r := ClientAlone(env, c);
    if r.Moved? && r.sent != [] {
      var m := r.sent[0].m;
      OneMessage(m);
      UpdateHolds(c.transcript, m, h);
      if c.transcript.hash.Some? {
        FreeHolds(c.transcript, h);
        UpdateHolds(FreeBuffer(c.transcript), m, h);
        FreeHolds(Update(c.transcript, m), h + [m]);
      }
    }
  }

  /** Against any peer: a step of the client hashes every message that it takes or sends, and nothing else. */
  lemma {:induction false} ClientStepHolds(env: Env, c: Client, ins: seq<Wire>, h: seq<Msg>)
    requires ClientHolds(c, h)
    ensures var r := ClientStep(env, c, ins);
      (r.Moved? && r.took ==> ins != []) && (r.Moved? ==> ClientHolds(r.next, h + Messages(Passed(r, ins))))
  {
    hide ClientOnMessage, ClientAlone, Holds, Messages;
    NoMessage();
    assert h + [] == h;
    if c.needCcs {
      if ins != [] && ins[0].Ccs? { assert [ins[0]] + [] == [Ccs]; }
    } else if ClientReads(c) {
      if ins != [] && ins[0].Hs? {
        assert [ins[0]] + [] == [Hs(ins[0].m)];
        var none: seq<Wire> := [];
        assert none + none == none;
        OneMessage(ins[0].m);
        if c.state == ReadServerHello { ClientHelloHolds(env, c, ins[0].m, h); } else { ClientTakesHolds(env, c, ins[0].m, h); }
      }
    } else {
      ClientAloneHolds(env, c, h);
      var r := ClientAlone(env, c);
      if r.Moved? { assert [] + r.sent == r.sent; }
    }
  }

  /** The server has its running hash once it has chosen the parameters. */
  predicate ServerHashes(s: Server) { s.state in {StartAccept, ReadClientHello, SelectCertificate, SelectParameters} || s.transcript.hash.Some? }
  predicate ServerHolds(s: Server, h: seq<Msg>) { Holds(s.transcript, h) && ServerHashes(s) }

  lemma {:induction false} ServerTakesHolds(env: Env, s: Server, m: Msg, h: seq<Msg>)
    requires ServerHolds(s, h) && ServerReads(env, s)
        && s.state !in {SelectParameters, ReadClientCertificate, ReadClientCertificateVerify}
    ensures var r := ServerOnMessage(env, s, m); r.Moved? ==> r.sent == [] && ServerHolds(r.next, if r.took then h + [m] else h)
  {
    hide ServerOnMessage, ServerHolds;
    if s.state in {ReadClientHello, SelectCertificate} { WaitingHolds(env, s, m, h); }
    else if s.state in {ReadClientKeyExchange, ReadNextProto} { NamedHolds(env, s, m, h); }
    else { ProofHolds(env, s, m, h); }
  }

  /** The ClientHello is left in place until the parameters are chosen. */
  lemma {:induction false} WaitingHolds(env: Env, s: Server, m: Msg, h: seq<Msg>)
    requires ServerHolds(s, h) && s.state in {ReadClientHello, SelectCertificate}
    ensures var r := ServerOnMessage(env, s, m); r.Moved? ==> r.sent == [] && !r.took && ServerHolds(r.next, h)
  {
    hide Update, FreeBuffer, InitHash, Holds, KindOf;
  }

  lemma {:induction false} NamedHolds(env: Env, s: Server, m: Msg, h: seq<Msg>)
    requires ServerHolds(s, h) && s.state in {ReadClientKeyExchange, ReadNextProto}
    ensures var r := ServerOnMessage(env, s, m); r.Moved? ==> r.sent == [] && r.took && ServerHolds(r.next, h + [m])
  {
    hide Update, FreeBuffer, InitHash, Holds, KindOf;
    UpdateHolds(s.transcript, m, h);
  }

  lemma {:induction false} ProofHolds(env: Env, s: Server, m: Msg, h: seq<Msg>)
    requires ServerHolds(s, h) && s.state in {ReadChannelId, ReadClientFinished}
    ensures var r := ServerOnMessage(env, s, m); r.Moved? ==> r.sent == [] && r.took && ServerHolds(r.next, h + [m])
  {
    hide Update, FreeBuffer, InitHash, Holds, KindOf;
    UpdateHolds(s.transcript, m, h);
  }

  lemma {:induction false} ServerChoosesHolds(env: Env, s: Server, m: Msg, h: seq<Msg>)
    requires ServerHolds(s, h) && s.state in {SelectParameters, ReadClientCertificate, ReadClientCertificateVerify}
    ensures var r := ServerOnMessage(env, s, m); r.Moved? ==> r.sent == [] && r.took && ServerHolds(r.next, h + [m])
  {
    hide Update, FreeBuffer, InitHash, Holds, KindOf, CertAuth;
    if s.state == SelectParameters {
      if s.transcript.buffer.Some? {
        InitHolds(s.transcript, h);
        UpdateHolds(InitHash(s.transcript), m, h);
        FreeHolds(Update(InitHash(s.transcript), m), h + [m]);
      }
    } else {
      UpdateHolds(s.transcript, m, h);
      FreeHolds(Update(s.transcript, m), h + [m]);
      FreeHolds(s.transcript, h);
      UpdateHolds(FreeBuffer(s.transcript), m, h);
    }
  }

  lemma {:induction false} ServerFinishHolds(env: Env, s: Server, h: seq<Msg>)
    requires Holds(s.transcript, h) && s.transcript.hash.Some?
    ensures var f := ServerFinish(env, s); f.Some? && f.value.0.hash.Some? && Holds(f.value.0, h + Messages(f.value.1))
  {
    hide Update, Sign, Holds, Messages;
    var m := Plain(NewSessionTicket, env.emptyTicket, env.body(true, NewSessionTicket));
    var t := if s.ticketExpected then Update(s.transcript, m) else s.transcript;
    UpdateHolds(s.transcript, m, h);
    var h1 := if s.ticketExpected then h + [m] else h;
    var fin := Sign(env, Finished, true, t.hash.value);
    UpdateHolds(t, fin, h1);
    var a := if s.ticketExpected then [Hs(m)] else [];
    MessagesThen(a, [Ccs, Hs(fin)]);
    assert [Ccs, Hs(fin)] == [Ccs] + [Hs(fin)];
    MessagesThen([Ccs], [Hs(fin)]);
    OneMessage(m);
    OneMessage(fin);
    NoMessage();
    assert h1 + [fin] == h + ((if s.ticketExpected then [m] else []) + ([] + [fin]));
  }

  lemma {:induction false} ServerSendsHolds(env: Env, s: Server, h: seq<Msg>)
    requires ServerHolds(s, h) && s.state in {SendServerHello, SendServerKeyExchange}
    ensures var r := ServerAlone(env, s); r.Moved? ==> !r.took && ServerHolds(r.next, h + Messages(r.sent))
  {
    hide Update, FreeBuffer, Holds, Messages, ServerFinish, ServerFlags, CertAuth;
    NoMessage();
    assert h + [] == h;
    var r := ServerAlone(env, s);
    if r.Moved? && r.sent != [] {
      OneMessage(r.sent[0].m);
      UpdateHolds(s.transcript, r.sent[0].m, h);
    }
  }

  lemma {:induction false} ServerSendsTwoHolds(env: Env, s: Server, h: seq<Msg>)
    requires ServerHolds(s, h) && s.state in {SendServerCertificate, SendServerHelloDone}
    ensures var r := ServerAlone(env, s); r.Moved? ==> !r.took && ServerHolds(r.next, h + Messages(r.sent))
  {
    hide Update, FreeBuffer, Holds, Messages, ServerFinish, CertAuth, RequiresKeyExchange;
    NoMessage();
    assert h + [] == h;
    var r := ServerAlone(env, s);
    if r.Moved? && r.sent != [] {
      var m := r.sent[0].m;
      OneMessage(m);
      UpdateHolds(s.transcript, m, h);
      if |r.sent| == 2 {
        TwoMessages(m, r.sent[1].m);
        UpdateHolds(Update(s.transcript, m), r.sent[1].m, h + [m]);
        assert h + [m] + [r.sent[1].m] == h + [m, r.sent[1].m];
      }
    }
  }

  lemma {:induction false} ServerAloneHolds(env: Env, s: Server, h: seq<Msg>)
    requires ServerHolds(s, h)
    ensures var r := ServerAlone(env, s); r.Moved? ==> !r.took && ServerHolds(r.next, h + Messages(r.sent))
  {
    hide ServerAlone, FreeBuffer, Holds, Messages, ServerFinish;
    NoMessage();
    assert h + [] == h;
    if s.state == SendServerFinished {
      ServerFinishHolds(env, s, h);
      ServerFinishSends(env, s);
    } else if s.state in {SendServerHello, SendServerKeyExchange} {
      ServerSendsHolds(env, s, h);
    } else if s.state in {SendServerCertificate, SendServerHelloDone} {
      ServerSendsTwoHolds(env, s, h);
    } else if s.state == ReadClientCertificateVerify {
      FreeHolds(s.transcript, h);
      NoSignature(env, s);
    } else {
      ServerSkips(env, s);
    }
  }

  lemma {:induction false} ServerFinishSends(env: Env, s: Server)
    requires s.state == SendServerFinished
    ensures var f := ServerFinish(env, s); var r := ServerAlone(env, s);
      f.Some? ==> r.Moved? && !r.took && r.sent == f.value.1 && r.next.transcript == f.value.0
  {
    hide ServerFinish;
  }

  lemma {:induction false} NoSignature(env: Env, s: Server)
    requires s.state == ReadClientCertificateVerify
    ensures ServerAlone(env, s) == GoS(s.(transcript := FreeBuffer(s.transcript)), ReadClientCcs)
  {
    hide FreeBuffer;
  }

  /** In the other states the server only goes on. */
  lemma {:induction false} ServerSkips(env: Env, s: Server)
    requires s.state !in {SendServerHello, SendServerCertificate, SendServerKeyExchange, SendServerHelloDone, ReadClientCertificateVerify, SendServerFinished}
    ensures var r := ServerAlone(env, s);
      r.Moved? ==>
        && !r.took && r.sent == [] && r.next.transcript == s.transcript
        && (s.state == StartAccept ==> r.next.state == ReadClientHello)
        && s.state !in {ReadClientHello, SelectCertificate, SelectParameters}
  {
    hide ServerAlone;
    if s.state == StartAccept { ServerEarly(env, s); }
    else if s.state in {ReadClientCertificate, VerifyClientCertificate, ReadClientCcs, ProcessClientCcs} { ServerSkipsFirst(env, s); }
    else if s.state in {ReadNextProto, ReadChannelId, FinishServerHandshake} { ServerSkipsLast(env, s); }
    else { ServerWaits(env, s); }
  }

  lemma {:induction false} ServerEarly(env: Env, s: Server)
    requires s.state in {StartAccept}
    ensures var r := ServerAlone(env, s); r.Moved? && !r.took && r.sent == [] && r.next.transcript == s.transcript && r.next.state == ReadClientHello
  {
    hide Update, FreeBuffer, ServerFinish, ServerFlags, CertAuth, RequiresKeyExchange;
  }

  lemma {:induction false} ServerSkipsFirst(env: Env, s: Server)
    requires s.state in {ReadClientCertificate, VerifyClientCertificate, ReadClientCcs, ProcessClientCcs}
    ensures var r := ServerAlone(env, s); r.Moved? && !r.took && r.sent == [] && r.next.transcript == s.transcript
  {
    hide Update, FreeBuffer, ServerFinish, ServerFlags, CertAuth, RequiresKeyExchange;
  }

  lemma {:induction false} ServerSkipsLast(env: Env, s: Server)
    requires s.state in {ReadNextProto, ReadChannelId, FinishServerHandshake}
    ensures var r := ServerAlone(env, s); r.Moved? && !r.took && r.sent == [] && r.next.transcript == s.transcript
  {
    hide Update, FreeBuffer, ServerFinish, ServerFlags, CertAuth, RequiresKeyExchange;
  }

  lemma {:induction false} ServerWaits(env: Env, s: Server)
    requires s.state in {ReadClientHello, SelectCertificate, SelectParameters, ReadClientKeyExchange, ReadClientFinished, ServerDone}
    ensures ServerAlone(env, s).Blocked?
  {
    hide Update, FreeBuffer, ServerFinish, ServerFlags, CertAuth, RequiresKeyExchange;
  }

  /** Against any peer: a step of the server hashes every message that it takes or sends, and nothing else. */
  lemma {:induction false} ServerStepHolds(env: Env, s: Server, ins: seq<Wire>, h: seq<Msg>)
    requires ServerHolds(s, h)
    ensures var r := ServerStep(env, s, ins);
      (r.Moved? && r.took ==> ins != []) && (r.Moved? ==> ServerHolds(r.next, h + Messages(Passed(r, ins))))
  {
    hide ServerOnMessage, ServerAlone, Holds, Messages;
    NoMessage();
    assert h + [] == h;
    if s.needCcs {
      if ins != [] && ins[0].Ccs? { assert [ins[0]] + [] == [Ccs]; }
    } else if ServerReads(env, s) {
      if ins != [] && ins[0].Hs? {
        assert [ins[0]] + [] == [Hs(ins[0].m)];
        var none: seq<Wire> := [];
        assert none + none == none;
        OneMessage(ins[0].m);
        if s.state in {SelectParameters, ReadClientCertificate, ReadClientCertificateVerify} { ServerChoosesHolds(env, s, ins[0].m, h); }
        else { ServerTakesHolds(env, s, ins[0].m, h); }
      }
    } else {
      ServerAloneHolds(env, s, h);
      var r := ServerAlone(env, s);
      if r.Moved? { assert [] + r.sent == r.sent; }
    }
  }

  // ------------------------------------------------------------- whole runs, against any peer

  /** What the driver takes and sends on its input, in the order in which it does. */
  function ClientLog(env: Env, c: Client, ins: seq<Wire>): seq<Wire>
    decreases ClientMeasure(c)
  {
    ClientStepSmaller(env, c, ins);
    var r := ClientStep(env, c, ins);
    if r.Moved? then Passed(r, ins) + ClientLog(env, r.next, Rest(ins, r.took)) else []
  }

  function ServerLog(env: Env, s: Server, ins: seq<Wire>): seq<Wire>
    decreases ServerMeasure(s)
  {
    ServerStepSmaller(env, s, ins);
    var r := ServerStep(env, s, ins);
    if r.Moved? then Passed(r, ins) + ServerLog(env, r.next, Rest(ins, r.took)) else []
  }

  /** The same over calls whenever something has arrived. */
  function ClientLogs(env: Env, c: Client, left: seq<Wire>, feeds: seq<seq<Wire>>): seq<Wire>
    decreases |feeds|
  {
    if feeds == [] then []
    else
      var ins := left + feeds[0];
      var d := DriveClient(env, c, ins);
      ClientLog(env, c, ins) + ClientLogs(env, d.state, ins[d.took..], feeds[1..])
  }

  function ServerLogs(env: Env, s: Server, left: seq<Wire>, feeds: seq<seq<Wire>>): seq<Wire>
    decreases |feeds|
  {
    if feeds == [] then []
    else
      var ins := left + feeds[0];
      var d := DriveServer(env, s, ins);
      ServerLog(env, s, ins) + ServerLogs(env, d.state, ins[d.took..], feeds[1..])
  }

  lemma {:induction false} ClientDriveHolds(env: Env, c: Client, ins: seq<Wire>, h: seq<Msg>)
    requires ClientHolds(c, h)
    ensures ClientHolds(DriveClient(env, c, ins).state, h + Messages(ClientLog(env, c, ins)))
    decreases ClientMeasure(c)
  {
    hide ClientStep, Messages, ClientMeasure, ClientHolds, Passed;
    NoMessage();
    assert h + [] == h;
    ClientStepHolds(env, c, ins, h);
    ClientStepSmaller(env, c, ins);
    var r := ClientStep(env, c, ins);
    if r.Moved? {
      var rest := ClientLog(env, r.next, Rest(ins, r.took));
      ClientDriveHolds(env, r.next, Rest(ins, r.took), h + Messages(Passed(r, ins)));
      MessagesThen(Passed(r, ins), rest);
      assert h + Messages(Passed(r, ins)) + Messages(rest) == h + (Messages(Passed(r, ins)) + Messages(rest));
    }
  }

  lemma {:induction false} ServerDriveHolds(env: Env, s: Server, ins: seq<Wire>, h: seq<Msg>)
    requires ServerHolds(s, h)
    ensures ServerHolds(DriveServer(env, s, ins).state, h + Messages(ServerLog(env, s, ins)))
    decreases ServerMeasure(s)
  {
    hide ServerStep, Messages, ServerMeasure, ServerHolds, Passed;
    NoMessage();
    assert h + [] == h;
    ServerStepHolds(env, s, ins, h);
    ServerStepSmaller(env, s, ins);
    var r := ServerStep(env, s, ins);
    if r.Moved? {
      var rest := ServerLog(env, r.next, Rest(ins, r.took));
      ServerDriveHolds(env, r.next, Rest(ins, r.took), h + Messages(Passed(r, ins)));
      MessagesThen(Passed(r, ins), rest);
      assert h + Messages(Passed(r, ins)) + Messages(rest) == h + (Messages(Passed(r, ins)) + Messages(rest));
    }
  }

  lemma {:induction false} ClientFeedHolds(env: Env, c: Client, left: seq<Wire>, feeds: seq<seq<Wire>>, h: seq<Msg>)
    requires ClientHolds(c, h)
    ensures var r := TlsVerified.FeedClient(env, c, left, feeds); r.Some? ==> ClientHolds(r.value, h + Messages(ClientLogs(env, c, left, feeds)))
    decreases |feeds|
  {
    hide Messages, ClientHolds, DriveClient, ClientLog;
    NoMessage();
    assert h + [] == h;
    if feeds != [] {
      var ins := left + feeds[0];
      var d := DriveClient(env, c, ins);
      var first, rest := ClientLog(env, c, ins), ClientLogs(env, d.state, ins[d.took..], feeds[1..]);
      ClientDriveHolds(env, c, ins, h);
      ClientFeedHolds(env, d.state, ins[d.took..], feeds[1..], h + Messages(first));
      MessagesThen(first, rest);
      assert h + Messages(first) + Messages(rest) == h + (Messages(first) + Messages(rest));
    }
  }

  lemma {:induction false} ServerFeedHolds(env: Env, s: Server, left: seq<Wire>, feeds: seq<seq<Wire>>, h: seq<Msg>)
    requires ServerHolds(s, h)
    ensures var r := TlsVerified.FeedServer(env, s, left, feeds); r.Some? ==> ServerHolds(r.value, h + Messages(ServerLogs(env, s, left, feeds)))
    decreases |feeds|
  {
    hide Messages, ServerHolds, DriveServer, ServerLog;
    NoMessage();
    assert h + [] == h;
    if feeds != [] {
      var ins := left + feeds[0];
      var d := DriveServer(env, s, ins);
      var first, rest := ServerLog(env, s, ins), ServerLogs(env, d.state, ins[d.took..], feeds[1..]);
      ServerDriveHolds(env, s, ins, h);
      ServerFeedHolds(env, d.state, ins[d.took..], feeds[1..], h + Messages(first));
      MessagesThen(first, rest);
      assert h + Messages(first) + Messages(rest) == h + (Messages(first) + Messages(rest));
    }
  }

  /** Against any peer and over any calls: the hash of either end is over every handshake message it
      has taken or sent, in that order, and over nothing else. */
  lemma {:induction false} HashedExactly(env: Env, feeds: seq<seq<Wire>>)
    ensures var c := TlsVerified.FeedClient(env, NEW_CLIENT, [], feeds);
      c.Some? && c.value.transcript.hash.Some? ==> c.value.transcript.hash.value == Messages(ClientLogs(env, NEW_CLIENT, [], feeds))
    ensures var s := TlsVerified.FeedServer(env, NEW_SERVER, [], feeds);
      s.Some? && s.value.transcript.hash.Some? ==> s.value.transcript.hash.value == Messages(ServerLogs(env, NEW_SERVER, [], feeds))
  {
    hide TlsVerified.FeedClient, TlsVerified.FeedServer, ClientLogs, ServerLogs, Messages;
    ClientFeedHolds(env, NEW_CLIENT, [], feeds, []);
    ServerFeedHolds(env, NEW_SERVER, [], feeds, []);
    assert [] + Messages(ClientLogs(env, NEW_CLIENT, [], feeds)) == Messages(ClientLogs(env, NEW_CLIENT, [], feeds));
    assert [] + Messages(ServerLogs(env, NEW_SERVER, [], feeds)) == Messages(ServerLogs(env, NEW_SERVER, [], feeds));
  }

  // ------------------------------------------------------------- both ends together

  function Wires(es: seq<Event>): seq<Wire> { if es == [] then [] else [es[0].wire] + Wires(es[1..]) }

  lemma {:induction false} WiresThen(a: seq<Event>, b: seq<Event>)
    ensures Wires(a + b) == Wires(a) + Wires(b)
  {
    if a == [] {
      assert a + b == b;
    } else {
      assert (a + b)[1..] == a[1..] + b;
      WiresThen(a[1..], b);
    }
  }

  lemma {:induction false} WiresTagged(fromClient: bool, ws: seq<Wire>)
    ensures Wires(Tagged(fromClient, ws)) == ws
  {
    if ws != [] {
      assert Tagged(fromClient, ws)[1..] == Tagged(fromClient, ws[1..]);
      WiresTagged(fromClient, ws[1..]);
    }
  }

  /** What an end has hashed and what it still has to hash make up the whole handshake. */
  ghost predicate Adds(h: seq<Msg>, left: seq<Event>, all: seq<Msg>) { h + Messages(Wires(left)) == all }

  lemma {:induction false} StepAdds(mine: bool, h: seq<Msg>, left: seq<Event>, left': seq<Event>, ins: seq<Wire>,
      took: bool, sent: seq<Wire>, all: seq<Msg>)
    requires took ==> ins != []
    requires left == (if took then [Event(!mine, ins[0])] else []) + (Tagged(mine, sent) + left') && Adds(h, left, all)
    ensures Adds(h + Messages((if took then [ins[0]] else []) + sent), left', all)
  {
    hide Messages;
    var a, t := if took then [Event(!mine, ins[0])] else [], if took then [ins[0]] else [];
    WiresThen(a, Tagged(mine, sent) + left');
    WiresThen(Tagged(mine, sent), left');
    WiresTagged(mine, sent);
    assert Wires(a) == t;
    assert t + (sent + Wires(left')) == (t + sent) + Wires(left');
    MessagesThen(t + sent, Wires(left'));
    assert h + Messages(t + sent) + Messages(Wires(left')) == h + (Messages(t + sent) + Messages(Wires(left')));
  }

  ghost predicate Along(env: Env, j: Joint, hc: seq<Msg>, hs: seq<Msg>, all: seq<Msg>) {
    && ClientHolds(j.client, hc) && Adds(hc, ClientLeft(env, j.client), all)
    && ServerHolds(j.server, hs) && Adds(hs, ServerLeft(env, j.server), all)
  }

  lemma {:induction false} TurnAlong(env: Env, j: Joint, clients: bool, hc: seq<Msg>, hs: seq<Msg>,
      all: seq<Msg>) returns (hc': seq<Msg>, hs': seq<Msg>)
    requires Inv(env, j) && Along(env, j, hc, hs, all)
    ensures Turn(env, j, clients).Some? && Inv(env, Turn(env, j, clients).value)
        && Along(env, Turn(env, j, clients).value, hc', hs', all)
  {
    hide ClientStep, ServerStep, ClientOk, ServerOk, ClientLeft, ServerLeft, EnvOk, ClientMeasure, ServerMeasure,
         Tagged, Adds, ClientHolds, ServerHolds;
    TurnInv(env, j, clients);
    QueueNext(env, j);
    hc', hs' := hc, hs;
    if clients {
      ClientKeepsOrder(env, j.client, j.toClient);
      ClientStepHolds(env, j.client, j.toClient, hc);
      var r := ClientStep(env, j.client, j.toClient);
      if r.Moved? {
        StepAdds(true, hc, ClientLeft(env, j.client), ClientLeft(env, r.next), j.toClient, r.took, r.sent, all);
        hc' := hc + Messages(Passed(r, j.toClient));
      }
    } else {
      ServerKeepsOrder(env, j.server, j.toServer);
      ServerStepHolds(env, j.server, j.toServer, hs);
      var r := ServerStep(env, j.server, j.toServer);
      if r.Moved? {
        StepAdds(false, hs, ServerLeft(env, j.server), ServerLeft(env, r.next), j.toServer, r.took, r.sent, all);
        hs' := hs + Messages(Passed(r, j.toServer));
      }
    }
  }

  lemma {:induction false} RunAlong(env: Env, j: Joint, schedule: seq<bool>, hc: seq<Msg>, hs: seq<Msg>,
      all: seq<Msg>) returns (hc': seq<Msg>, hs': seq<Msg>)
    requires Inv(env, j) && Along(env, j, hc, hs, all)
    ensures Run(env, j, schedule).Some? && Inv(env, Run(env, j, schedule).value)
        && Along(env, Run(env, j, schedule).value, hc', hs', all)
    decreases |schedule|
  {
    hide Inv, Turn, Along;
    hc', hs' := hc, hs;
    if schedule != [] {
      hc', hs' := TurnAlong(env, j, schedule[0], hc, hs, all);
      hc', hs' := RunAlong(env, Turn(env, j, schedule[0]).value, schedule[1..], hc', hs', all);
    }
  }

  /** The list without the ChangeCipherSpecs. */
  function Spoken(items: seq<TlsHandshake.Item>): seq<TlsHandshake.Item> {
    if items == [] then [] else (if items[0].what.Some? then [items[0]] else []) + Spoken(items[1..])
  }

  /** Message k by its name; a Finished, CertificateVerify or Channel ID carries its sender's MAC or
      signature over exactly the messages before it. */
  predicate SpelledAt(env: Env, i: TlsHandshake.Item, all: seq<Msg>, k: nat)
    requires k < |all|
  {
    && Name(Hs(all[k])) == i.what
    && (i.what in {Some(Finished), Some(CertificateVerify), Some(ChannelId)} ==>
          all[k].Proof? && all[k].mac == env.mac(i.what.value, !i.fromClient, all[..k]))
  }

  ghost predicate Spelled(env: Env, items: seq<TlsHandshake.Item>, all: seq<Msg>, from: nat) {
    |all| == from + |items| && forall k :: 0 <= k < |items| ==> SpelledAt(env, items[k], all, from + k)
  }

  lemma {:induction false} EventsSpelled(env: Env, items: seq<TlsHandshake.Item>, heard: seq<Msg>)
    ensures Spelled(env, Spoken(items), heard + Messages(Wires(Events(env, items, heard))), |heard|)
  {
    hide WireOf, SpelledAt;
    if items != [] {
      var i, w := items[0], WireOf(env, items[0], heard);
      var later := After(heard, w);
      var es := Events(env, items[1..], later);
      var all := later + Messages(Wires(es));
      EventsSpelled(env, items[1..], later);
      assert Events(env, items, heard)[1..] == es && Wires([Event(i.fromClient, w)] + es) == [w] + Wires(es);
      assert ([w] + Wires(es))[1..] == Wires(es);
      ItemSpelled(env, i, heard, Messages(Wires(es)));
      assert heard + Messages(Wires(Events(env, items, heard))) == all;
      if i.what.Some? { Shifted(env, i, Spoken(items[1..]), all, |heard|); }
      else { assert [] + Spoken(items[1..]) == Spoken(items[1..]); }
    }
  }

  lemma {:induction false} ItemSpelled(env: Env, i: TlsHandshake.Item, heard: seq<Msg>, more: seq<Msg>)
    ensures var w := WireOf(env, i, heard);
      && (w.Ccs? <==> i.what.None?)
      && (w.Hs? ==> SpelledAt(env, i, heard + [w.m] + more, |heard|))
  {
    var w := WireOf(env, i, heard);
    if w.Hs? {
      var all := heard + [w.m] + more;
      assert all[|heard|] == w.m && all[..|heard|] == heard;
    }
  }

  lemma {:induction false} Shifted(env: Env, i: TlsHandshake.Item, items: seq<TlsHandshake.Item>, all: seq<Msg>,
      from: nat)
    requires Spelled(env, items, all, from + 1) && SpelledAt(env, i, all, from)
    ensures Spelled(env, [i] + items, all, from)
  {
    hide SpelledAt;
    forall k | 0 <= k < |[i] + items| ensures SpelledAt(env, ([i] + items)[k], all, from + k) {
      if k > 0 {
        assert ([i] + items)[k] == items[k - 1];
        assert SpelledAt(env, items[k - 1], all, from + 1 + (k - 1));
      }
    }
  }

  /** Whatever is negotiated and however the turns fall: there is one transcript, which consists of the
      handshake messages of the list in its order, each proof in it being over exactly the messages
      before it.  At any time each end has hashed (or buffered) a part of it from the start, and all
      of it once it is done. */
  lemma {:induction false} TranscriptSpelled(env: Env, schedule: seq<bool>)
    returns (all: seq<Msg>, hc: seq<Msg>, hs: seq<Msg>)
    requires EnvOk(env)
    ensures Run(env, START, schedule).Some?
    ensures Spelled(env, Spoken(Handshake(env)), all, 0)
    ensures var j := Run(env, START, schedule).value;
      && Holds(j.client.transcript, hc) && hc <= all && (j.client.state == ClientDone ==> hc == all)
      && Holds(j.server.transcript, hs) && hs <= all && (j.server.state == ServerDone ==> hs == all)
  {
    hide Inv, Along, Handshake, Spelled, Spoken, Run;
    StartInv(env);
    all := StartAlong(env);
    hc, hs := RunAlong(env, START, schedule, [], [], all);
    AlongParts(env, Run(env, START, schedule).value, hc, hs, all);
  }

  lemma {:induction false} StartAlong(env: Env) returns (all: seq<Msg>)
    requires EnvOk(env)
    ensures Along(env, START, [], [], all) && Spelled(env, Spoken(Handshake(env)), all, 0)
  {
    hide Handshake, Spelled, Spoken, Events, ClientRest, ServerRest, Messages, Wires;
    SameOrder(env);
    OrderIs(env);
    var items := Handshake(env);
    EventsSpelled(env, items, []);
    all := Messages(Wires(Events(env, items, [])));
    assert [] + items == items && [] + all == all;
  }

  lemma {:induction false} AlongParts(env: Env, j: Joint, hc: seq<Msg>, hs: seq<Msg>, all: seq<Msg>)
    requires Inv(env, j) && Along(env, j, hc, hs, all)
    ensures Holds(j.client.transcript, hc) && hc <= all && (j.client.state == ClientDone ==> hc == all)
    ensures Holds(j.server.transcript, hs) && hs <= all && (j.server.state == ServerDone ==> hs == all)
  {
    hide ClientLeft, ServerLeft, ClientOk, ServerOk, EnvOk, InStep, Holds;
    DoneLeft(env, j);
    assert hc + [] == hc && hs + [] == hs;
  }
}
