/** ssl_server_handshake: the server machine updated in place, and its driver loop. */
module TlsServer {
  import opened Words
  import opened TlsHandshake
  import opened TlsServerOrder
  import opened TlsMachines

  /** SSL_HANDSHAKE of a server, what has come in and not been read, and what it has sent. */
  class ServerHandshake {
    const env: Env
    var hs: Server
    var inbox: seq<Wire>
    var outbox: seq<Wire>

    constructor (env: Env)
      ensures this.env == env && hs == NEW_SERVER && inbox == [] && outbox == []
    {
      this.env, hs, inbox, outbox := env, NEW_SERVER, [], [];
    }

    /** The machine is where a step from `s` leads, and says so. */
    ghost predicate Stepped(s: Server, ins: seq<Wire>, outs: seq<Wire>, w: Wait)
      reads this
    {
      match ServerStep(env, s, ins)
      case Moved(n, took, sent) => w == Done && hs == n && inbox == Rest(ins, took) && outbox == outs + sent
      case Blocked => w == Waits && hs == s && inbox == ins && outbox == outs
      case Failed => w == Error
    }

    function GetMessage(): Peeked
      reads this
    {
      if inbox == [] then Stop(Waits) else if inbox[0].Ccs? then Stop(Error) else Message(inbox[0].m)
    }

    /** ssl_hash_message and next_message, and on to the next state. */
    method HashAndTake(m: Msg, state: ServerState)
      requires inbox != []
      modifies `hs, `inbox
      ensures hs == old(hs).(transcript := Update(old(hs).transcript, m), state := state) && inbox == old(inbox)[1..]
    {
      hs := hs.(transcript := Update(hs.transcript, m), state := state);
      inbox := inbox[1..];
    }

    /** Add a message to the flight and the transcript, and on to the next state. */
    method AddMessage(m: Msg, state: ServerState)
      modifies `hs, `outbox
      ensures hs == old(hs).(transcript := Update(old(hs).transcript, m), state := state) && outbox == old(outbox) + [Hs(m)]
    {
      hs := hs.(transcript := Update(hs.transcript, m), state := state);
      outbox := outbox + [Hs(m)];
    }

    /** The ClientHello is parsed here, and left in place until the parameters are chosen. */
    method GetClientHello() returns (w: Wait)
      requires hs.state == ReadClientHello && !hs.needCcs
      modifies this
      ensures Stepped(old(hs), old(inbox), old(outbox), w)
    {
      hide KindOf;
      var m :- GetMessage();
      if KindOf(m) != ClientHello { return Error; }
      hs := hs.(channelId := env.channelIdOffered, state := SelectCertificate);
      return Done;
    }

    method PickCertificate() returns (w: Wait)
      requires hs.state == SelectCertificate && !hs.needCcs
      modifies this
      ensures Stepped(old(hs), old(inbox), old(outbox), w)
    {
      var m :- GetMessage();
      hs := hs.(state := SelectParameters);
      return Done;
    }

    method PickParameters() returns (w: Wait)
      requires hs.state == SelectParameters && !hs.needCcs
      modifies this
      ensures Stepped(old(hs), old(inbox), old(outbox), w)
    {
      hide Update, InitHash, FreeBuffer, CertAuth;
      var m :- GetMessage();
      var certRequest := !env.resumed && env.verifyPeer;
      if certRequest && env.unlessChannelId && hs.channelId { certRequest := false; }
      if !CertAuth(env.cipher) { certRequest := false; }
      if hs.transcript.buffer.None? { return Error; }
      var t := Update(InitHash(hs.transcript), m);
      if !certRequest { t := FreeBuffer(t); }
      hs := hs.(resumed := env.resumed, ticketExpected := env.ticket, certRequest := certRequest, transcript := t, state := SendServerHello);
      inbox := inbox[1..];
      return Done;
    }

    method PutServerHello() returns (w: Wait)
      requires hs.state == SendServerHello && !hs.needCcs
      modifies this
      ensures Stepped(old(hs), old(inbox), old(outbox), w)
    {
      hide Update, CertAuth, ServerFinish, ServerOnMessage, ServerReads, RequiresKeyExchange, FreeBuffer;
      SendsAlone(env, hs);
      var channelId := hs.channelId;
      if !env.cipher.kx.Ecdhe? || (hs.resumed && !env.hashRecorded) { channelId := false; }
      hs := hs.(channelId := channelId, statusExpected := env.stapling && !hs.resumed && CertAuth(env.cipher));
      AddMessage(Hello(ServerFlags(env, hs)), if hs.resumed then SendServerFinished else SendServerCertificate);
      return Done;
    }

    method PutServerCertificate() returns (w: Wait)
      requires hs.state == SendServerCertificate && !hs.needCcs
      modifies this
      ensures Stepped(old(hs), old(inbox), old(outbox), w)
    {
      hide Update, CertAuth, RequiresKeyExchange;
      var t, flight := hs.transcript, [];
      if CertAuth(env.cipher) {
        var cert := Plain(Certificate, false, env.body(true, Certificate));
        t, flight := Update(t, cert), [Hs(cert)];
        if hs.statusExpected {
          var status := Plain(CertificateStatus, false, env.body(true, CertificateStatus));
          t, flight := Update(t, status), flight + [Hs(status)];
        }
      }
      var params := RequiresKeyExchange(env.cipher) || (env.cipher.psk && env.pskHint);
      hs := hs.(transcript := t, state := SendServerKeyExchange, hasParams := params);
      outbox := outbox + flight;
      return Done;
    }

    method PutServerKeyExchange() returns (w: Wait)
      requires hs.state == SendServerKeyExchange && !hs.needCcs
      modifies this
      ensures Stepped(old(hs), old(inbox), old(outbox), w)
    {
      hide Update;
      if !hs.hasParams {
        hs := hs.(state := SendServerHelloDone);
        return Done;
      }
      AddMessage(Plain(ServerKeyExchange, false, env.body(true, ServerKeyExchange)), SendServerHelloDone);
      hs := hs.(hasParams := false);
      return Done;
    }

    method PutServerHelloDone() returns (w: Wait)
      requires hs.state == SendServerHelloDone && !hs.needCcs
      modifies this
      ensures Stepped(old(hs), old(inbox), old(outbox), w)
    {
      hide Update;
      if hs.certRequest { AddMessage(Plain(CertificateRequest, false, env.body(true, CertificateRequest)), SendServerHelloDone); }
      AddMessage(Plain(ServerHelloDone, false, env.body(true, ServerHelloDone)), ReadClientCertificate);
      return Done;
    }

    method GetClientCertificate() returns (w: Wait)
      requires hs.state == ReadClientCertificate && !hs.needCcs
      modifies this
      ensures Stepped(old(hs), old(inbox), old(outbox), w)
    {
      hide Update, FreeBuffer, KindOf;
      if !hs.certRequest {
        hs := hs.(state := VerifyClientCertificate);
        return Done;
      }
      var m :- GetMessage();
      if KindOf(m) != Certificate || !m.Plain? { return Error; }
      var t := Update(hs.transcript, m);
      if m.empty { t := FreeBuffer(t); }
      hs := hs.(transcript := t, peerKey := !m.empty, state := VerifyClientCertificate);
      inbox := inbox[1..];
      return Done;
    }

    method GetClientKeyExchange() returns (w: Wait)
      requires hs.state == ReadClientKeyExchange && !hs.needCcs
      modifies this
      ensures Stepped(old(hs), old(inbox), old(outbox), w)
    {
      hide Update, KindOf;
      var m :- GetMessage();
      if KindOf(m) != ClientKeyExchange { return Error; }
      HashAndTake(m, ReadClientCertificateVerify);
      return Done;
    }

    /** The signature is checked over the buffered messages, which are then released. */
    method GetCertificateVerify() returns (w: Wait)
      requires hs.state == ReadClientCertificateVerify && !hs.needCcs
      modifies this
      ensures Stepped(old(hs), old(inbox), old(outbox), w)
      ensures w == Done <==> (old(hs).peerKey ==>
        old(inbox) != [] && old(inbox)[0].Hs? && Proves(env, old(inbox)[0].m, CertificateVerify, false, old(hs).transcript.buffer))
      ensures w == Done ==> hs.transcript.buffer == None
    {
      if !hs.peerKey {
        hs := hs.(transcript := FreeBuffer(hs.transcript), state := ReadClientCcs);
        return Done;
      }
      var m :- GetMessage();
      if KindOf(m) != CertificateVerify || !m.Proof? || hs.transcript.buffer.None? { return Error; }
      var mac := env.mac(CertificateVerify, false, hs.transcript.buffer.value);
      if m.mac != mac { return Error; }
      hs := hs.(transcript := Update(FreeBuffer(hs.transcript), m), state := ReadClientCcs);
      inbox := inbox[1..];
      return Done;
    }

    method AwaitCcs() returns (w: Wait)
      requires hs.state == ReadClientCcs && !hs.needCcs
      modifies this
      ensures Stepped(old(hs), old(inbox), old(outbox), w)
    {
      hs := hs.(state := ProcessClientCcs, needCcs := true);
      return Done;
    }

    method GetNextProto() returns (w: Wait)
      requires hs.state == ReadNextProto && !hs.needCcs
      modifies this
      ensures Stepped(old(hs), old(inbox), old(outbox), w)
    {
      hide Update, KindOf;
      if !env.npn {
        hs := hs.(state := ReadChannelId);
        return Done;
      }
      var m :- GetMessage();
      if KindOf(m) != NextProto { return Error; }
      HashAndTake(m, ReadChannelId);
      return Done;
    }

    method GetChannelId() returns (w: Wait)
      requires hs.state == ReadChannelId && !hs.needCcs
      modifies this
      ensures Stepped(old(hs), old(inbox), old(outbox), w)
      ensures w == Done <==> (old(hs).channelId ==>
        old(inbox) != [] && old(inbox)[0].Hs? && Proves(env, old(inbox)[0].m, ChannelId, false, old(hs).transcript.hash))
    {
      hide Update;
      if !hs.channelId {
        hs := hs.(state := ReadClientFinished);
        return Done;
      }
      var m :- GetMessage();
      if KindOf(m) != ChannelId || !m.Proof? || hs.transcript.hash.None? { return Error; }
      var mac := env.mac(ChannelId, false, hs.transcript.hash.value);
      if m.mac != mac { return Error; }
      HashAndTake(m, ReadClientFinished);
      return Done;
    }

    /** ssl_get_finished: the MAC is taken before the message is hashed. */
    method GetFinished() returns (w: Wait)
      requires hs.state == ReadClientFinished && !hs.needCcs
      modifies this
      ensures Stepped(old(hs), old(inbox), old(outbox), w)
      ensures w == Done <==> old(inbox) != [] && old(inbox)[0].Hs? && Proves(env, old(inbox)[0].m, Finished, false, old(hs).transcript.hash)
    {
      hide Update;
      var m :- GetMessage();
      if KindOf(m) != Finished || !m.Proof? || hs.transcript.hash.None? { return Error; }
      var mac := env.mac(Finished, false, hs.transcript.hash.value);
      if m.mac != mac { return Error; }
      HashAndTake(m, if hs.resumed then FinishServerHandshake else SendServerFinished);
      return Done;
    }

    method PutFinished() returns (w: Wait)
      requires hs.state == SendServerFinished && !hs.needCcs
      modifies this
      ensures Stepped(old(hs), old(inbox), old(outbox), w)
    {
      hide Update, Sign, FreeBuffer, CertAuth, RequiresKeyExchange, ServerFlags, ServerOnMessage, ServerReads;
      SendsAlone(env, hs);
      if hs.ticketExpected { AddMessage(Plain(NewSessionTicket, env.emptyTicket, env.body(true, NewSessionTicket)), SendServerFinished); }
      outbox := outbox + [Ccs];
      if hs.transcript.hash.None? { return Error; }
      AddMessage(Sign(env, Finished, true, hs.transcript.hash.value), if hs.resumed then ReadClientCcs else FinishServerHandshake);
      return Done;
    }

    /** The states that only choose the next one. */
    method Skip(to: ServerState) returns (w: Wait)
      requires !hs.needCcs && !ServerReads(env, hs) && ServerAlone(env, hs) == GoS(hs, to)
      modifies this
      ensures Stepped(old(hs), old(inbox), old(outbox), w)
    {
      hs := hs.(state := to);
      return Done;
    }

    /** The switch of ssl_server_handshake. */
    method Turn() returns (w: Wait)
      requires !hs.needCcs && hs.state != ServerDone
      modifies this
      ensures Stepped(old(hs), old(inbox), old(outbox), w)
    {
      hide ServerStep, ServerAlone, ServerReads, Stepped;
      SkipFacts(env, hs);
      match hs.state {
        case StartAccept => w := Skip(ReadClientHello);
        case ReadClientHello => w := GetClientHello();
        case SelectCertificate => w := PickCertificate();
        case SelectParameters => w := PickParameters();
        case SendServerHello => w := PutServerHello();
        case SendServerCertificate => w := PutServerCertificate();
        case SendServerKeyExchange => w := PutServerKeyExchange();
        case SendServerHelloDone => w := PutServerHelloDone();
        case ReadClientCertificate => w := GetClientCertificate();
        case VerifyClientCertificate => w := Skip(ReadClientKeyExchange);
        case ReadClientKeyExchange => w := GetClientKeyExchange();
        case ReadClientCertificateVerify => w := GetCertificateVerify();
        case ReadClientCcs => w := AwaitCcs();
        case ProcessClientCcs => w := Skip(ReadNextProto);
        case ReadNextProto => w := GetNextProto();
        case ReadChannelId => w := GetChannelId();
        case ReadClientFinished => w := GetFinished();
        case SendServerFinished => w := PutFinished();
        case FinishServerHandshake => w := Skip(ServerDone);
      }
    }

    /** A ChangeCipherSpec that the machine waits for. */
    method TakeCcs() returns (w: Wait)
      requires hs.needCcs
      modifies this
      ensures Stepped(old(hs), old(inbox), old(outbox), w)
    {
      if inbox == [] { return Waits; }
      if !inbox[0].Ccs? { return Error; }
      hs := hs.(needCcs := false);
      inbox := inbox[1..];
      return Done;
    }

    /** ssl_run_handshake around ssl_server_handshake: it goes on until it waits for input that is
        not there, fails or is done. */
    method Drive() returns (w: Wait)
      modifies this
      ensures var d := DriveServer(env, old(hs), old(inbox));
        if d.failed then w == Error
        else w == (if hs.state == ServerDone && !hs.needCcs then Done else Waits) && hs == d.state && inbox == old(inbox)[d.took..] && outbox == old(outbox) + d.sent
    {
      hide ServerStep, ServerMeasure, DriveServer, StillTo;
      ghost var ins, outs := inbox, outbox;
      ghost var all := DriveServer(env, hs, ins);
      StartTo(env, hs, ins, outs);
      w := Done;
      while hs.needCcs || hs.state != ServerDone
        invariant w == Done && StillTo(env, all, ins, outs, hs, inbox, outbox)
        decreases ServerMeasure(hs)
      {
        ghost var s, i, o := hs, inbox, outbox;
        ServerStepSmaller(env, s, i);
        StepTo(env, all, ins, outs, s, i, o);
        if hs.needCcs { w := TakeCcs(); } else { w := Turn(); }
        if w != Done { return; }
      }
      ServerDoneBlocks(env, hs, inbox);
      StepTo(env, all, ins, outs, hs, inbox, outbox);
    }
  }

  /** From here the machine still gets to where the whole run gets. */
  ghost predicate StillTo(env: Env, all: Driven<Server>, ins: seq<Wire>, outs: seq<Wire>, s: Server, i: seq<Wire>,
      o: seq<Wire>)
    requires all.took <= |ins|
  {
    var d := DriveServer(env, s, i);
    if all.failed then d.failed
    else !d.failed && d.state == all.state && i[d.took..] == ins[all.took..] && o + d.sent == outs + all.sent
  }

  lemma {:induction false} StartTo(env: Env, s: Server, ins: seq<Wire>, outs: seq<Wire>)
    ensures StillTo(env, DriveServer(env, s, ins), ins, outs, s, ins, outs)
  {
    hide DriveServer;
  }

  lemma {:induction false} StepTo(env: Env, all: Driven<Server>, ins: seq<Wire>, outs: seq<Wire>, s: Server,
      i: seq<Wire>, o: seq<Wire>)
    requires all.took <= |ins| && StillTo(env, all, ins, outs, s, i, o)
    ensures match ServerStep(env, s, i)
      case Failed => all.failed
      case Blocked => !all.failed && all.state == s && i == ins[all.took..] && o == outs + all.sent
      case Moved(n, took, sent) => StillTo(env, all, ins, outs, n, Rest(i, took), o + sent)
  {
    hide ServerStep, DriveServer;
    DriveOnce(env, s, i);
    var r := ServerStep(env, s, i);
    if r.Moved? {
      var e := DriveServer(env, r.next, Rest(i, r.took));
      assert o + (r.sent + e.sent) == (o + r.sent) + e.sent;
    } else if r.Blocked? {
      assert i[0..] == i && o + [] == o;
    }
  }

  lemma {:induction false} ServerDoneBlocks(env: Env, s: Server, ins: seq<Wire>)
    requires s.state == ServerDone && !s.needCcs
    ensures ServerStep(env, s, ins) == Blocked
  {
  }

  lemma {:induction false} SendsAlone(env: Env, s: Server)
    ensures s.state == SendServerHello || s.state == SendServerFinished ==> !ServerReads(env, s)
  {
  }

  lemma {:induction false} SkipFacts(env: Env, s: Server)
    ensures s.state == StartAccept ==> !ServerReads(env, s) && ServerAlone(env, s) == GoS(s, ReadClientHello)
    ensures s.state == VerifyClientCertificate ==>
        !ServerReads(env, s) && ServerAlone(env, s) == GoS(s, ReadClientKeyExchange)
    ensures s.state == ProcessClientCcs ==> !ServerReads(env, s) && ServerAlone(env, s) == GoS(s, ReadNextProto)
    ensures s.state == FinishServerHandshake ==> !ServerReads(env, s) && ServerAlone(env, s) == GoS(s, ServerDone)
  {
  }

  /** One step of the loop, and the rest of it. */
  lemma {:induction false} DriveOnce(env: Env, s: Server, ins: seq<Wire>)
    ensures var r := ServerStep(env, s, ins); var d := DriveServer(env, s, ins);
      match r
      case Failed => d.failed
      case Blocked => d == Driven(s, 0, [], false)
      case Moved(n, took, sent) =>
        var e := DriveServer(env, n, Rest(ins, took));
        && d.failed == e.failed && d.state == e.state && d.sent == sent + e.sent
        && ins[d.took..] == Rest(ins, took)[e.took..]
  {
    hide ServerStep, ServerMeasure;
    ServerStepSmaller(env, s, ins);
  }
}
