/** ssl_client_handshake: the client machine updated in place, and its driver loop. */
module TlsClient {
  import opened Words
  import opened TlsHandshake
  import opened TlsAgreement
  import opened TlsMachines

  /** SSL_HANDSHAKE of a client, what has come in and not been read, and what it has sent. */
  class ClientHandshake {
    const env: Env
    var hs: Client
    var inbox: seq<Wire>
    var outbox: seq<Wire>

    constructor (env: Env)
      ensures this.env == env && hs == NEW_CLIENT && inbox == [] && outbox == []
    {
      this.env, hs, inbox, outbox := env, NEW_CLIENT, [], [];
    }

    /** The machine is where a step from `c` leads, and says so. */
    ghost predicate Stepped(c: Client, ins: seq<Wire>, outs: seq<Wire>, w: Wait)
      reads this
    {
      match ClientStep(env, c, ins)
      case Moved(n, took, sent) => w == Done && hs == n && inbox == Rest(ins, took) && outbox == outs + sent
      case Blocked => w == Waits && hs == c && inbox == ins && outbox == outs
      case Failed => w == Error
    }

    function GetMessage(): Peeked
      reads this
    {
      if inbox == [] then Stop(Waits) else if inbox[0].Ccs? then Stop(Error) else Message(inbox[0].m)
    }

    /** ssl_hash_message and next_message, and on to the next state. */
    method HashAndTake(m: Msg, state: ClientState)
      requires inbox != []
      modifies `hs, `inbox
      ensures hs == old(hs).(transcript := Update(old(hs).transcript, m), state := state) && inbox == old(inbox)[1..]
    {
      hs := hs.(transcript := Update(hs.transcript, m), state := state);
      inbox := inbox[1..];
    }

    /** Add a message to the flight and the transcript, and on to the next state. */
    method AddMessage(m: Msg, state: ClientState)
      modifies `hs, `outbox
      ensures hs == old(hs).(transcript := Update(old(hs).transcript, m), state := state) && outbox == old(outbox) + [Hs(m)]
    {
      hs := hs.(transcript := Update(hs.transcript, m), state := state);
      outbox := outbox + [Hs(m)];
    }

    method Start() returns (w: Wait)
      requires hs.state == StartConnect && !hs.needCcs
      modifies this
      ensures Stepped(old(hs), old(inbox), old(outbox), w)
    {
      hide Update;
      AddMessage(Plain(ClientHello, false, env.body(false, ClientHello)), EnterEarlyData);
      return Done;
    }

    method GetServerHello() returns (w: Wait)
      requires hs.state == ReadServerHello && !hs.needCcs
      modifies this
      ensures Stepped(old(hs), old(inbox), old(outbox), w)
    {
      hide Update, InitHash, FreeBuffer, CertAuth;
      var m :- GetMessage();
      if !m.Hello? || hs.transcript.buffer.None? { return Error; }
      var f := m.flags;
      var t := Update(InitHash(hs.transcript), m);
      if f.resumed || !CertAuth(f.cipher) { t := FreeBuffer(t); }
      hs := hs.(resumed := f.resumed, cipher := f.cipher, transcript := t, statusExpected := f.status, ticketExpected := f.ticket,
                npn := f.npn, channelId := f.channelId, state := if f.resumed then ReadSessionTicket else ReadServerCertificate);
      inbox := inbox[1..];
      return Done;
    }

    method GetServerCertificate() returns (w: Wait)
      requires hs.state == ReadServerCertificate && !hs.needCcs
      modifies this
      ensures Stepped(old(hs), old(inbox), old(outbox), w)
    {
      hide Update, KindOf;
      if !CertAuth(hs.cipher) {
        hs := hs.(state := ReadCertificateStatus);
        return Done;
      }
      var m :- GetMessage();
      if KindOf(m) != Certificate { return Error; }
      HashAndTake(m, ReadCertificateStatus);
      return Done;
    }

    method GetCertificateStatus() returns (w: Wait)
      requires hs.state == ReadCertificateStatus && !hs.needCcs
      modifies this
      ensures Stepped(old(hs), old(inbox), old(outbox), w)
    {
      hide Update, KindOf;
      if !hs.statusExpected {
        hs := hs.(state := VerifyServerCertificate);
        return Done;
      }
      var m :- GetMessage();
      if KindOf(m) != CertificateStatus {
        // a server may send no status after all
        hs := hs.(state := VerifyServerCertificate);
        return Done;
      }
      HashAndTake(m, VerifyServerCertificate);
      return Done;
    }

    method GetServerKeyExchange() returns (w: Wait)
      requires hs.state == ReadServerKeyExchange && !hs.needCcs
      modifies this
      ensures Stepped(old(hs), old(inbox), old(outbox), w)
    {
      hide Update, KindOf, RequiresKeyExchange;
      var m :- GetMessage();
      if KindOf(m) != ServerKeyExchange {
        if RequiresKeyExchange(hs.cipher) { return Error; }
        hs := hs.(state := ReadCertificateRequest);
        return Done;
      }
      if hs.cipher.kx.Rsa? { return Error; }
      HashAndTake(m, ReadCertificateRequest);
      return Done;
    }

    method GetCertificateRequest() returns (w: Wait)
      requires hs.state == ReadCertificateRequest && !hs.needCcs
      modifies this
      ensures Stepped(old(hs), old(inbox), old(outbox), w)
    {
      hide Update, FreeBuffer, KindOf;
      if !CertAuth(hs.cipher) {
        hs := hs.(state := ReadServerHelloDone);
        return Done;
      }
      var m :- GetMessage();
      if KindOf(m) == ServerHelloDone {
        // without a request, the buffered messages are not needed any more
        hs := hs.(transcript := FreeBuffer(hs.transcript), state := ReadServerHelloDone);
        return Done;
      }
      if KindOf(m) != CertificateRequest { return Error; }
      hs := hs.(certRequest := true, transcript := Update(hs.transcript, m), state := ReadServerHelloDone);
      inbox := inbox[1..];
      return Done;
    }

    method GetServerHelloDone() returns (w: Wait)
      requires hs.state == ReadServerHelloDone && !hs.needCcs
      modifies this
      ensures Stepped(old(hs), old(inbox), old(outbox), w)
    {
      hide Update, KindOf;
      var m :- GetMessage();
      if KindOf(m) != ServerHelloDone { return Error; }
      HashAndTake(m, SendClientCertificate);
      return Done;
    }

    method PutClientCertificate() returns (w: Wait)
      requires hs.state == SendClientCertificate && !hs.needCcs
      modifies this
      ensures Stepped(old(hs), old(inbox), old(outbox), w)
    {
      hide Update, FreeBuffer;
      if !hs.certRequest {
        hs := hs.(state := SendClientKeyExchange);
        return Done;
      }
      if !env.clientCert { hs := hs.(transcript := FreeBuffer(hs.transcript)); }
      AddMessage(Plain(Certificate, !env.clientCert, env.body(false, Certificate)), SendClientKeyExchange);
      return Done;
    }

    method PutClientKeyExchange() returns (w: Wait)
      requires hs.state == SendClientKeyExchange && !hs.needCcs
      modifies this
      ensures Stepped(old(hs), old(inbox), old(outbox), w)
    {
      hide Update;
      AddMessage(Plain(ClientKeyExchange, false, env.body(false, ClientKeyExchange)), SendClientCertificateVerify);
      return Done;
    }

    method PutCertificateVerify() returns (w: Wait)
      requires hs.state == SendClientCertificateVerify && !hs.needCcs
      modifies this
      ensures Stepped(old(hs), old(inbox), old(outbox), w)
    {
      hide Update, FreeBuffer, Sign;
      if !hs.certRequest || !env.clientCert {
        hs := hs.(state := SendClientFinished);
        return Done;
      }
      if hs.transcript.buffer.None? { return Error; }
      AddMessage(Sign(env, CertificateVerify, false, hs.transcript.buffer.value), SendClientFinished);
      hs := hs.(transcript := FreeBuffer(hs.transcript));
      return Done;
    }

    /** Each message of the flight goes into the transcript that the next one is computed over. */
    method PutFinished() returns (w: Wait)
      requires hs.state == SendClientFinished && !hs.needCcs
      modifies this
      ensures Stepped(old(hs), old(inbox), old(outbox), w)
    {
      hide Update, Sign;
      outbox := outbox + [Ccs];
      if hs.npn { AddMessage(Plain(NextProto, false, env.body(false, NextProto)), SendClientFinished); }
      if hs.transcript.hash.None? { return Error; }
      if hs.channelId {
        AddMessage(Sign(env, ChannelId, false, hs.transcript.hash.value), SendClientFinished);
        if hs.transcript.hash.None? { return Error; }
      }
      AddMessage(Sign(env, Finished, false, hs.transcript.hash.value), FinishFlight);
      return Done;
    }

    method GetSessionTicket() returns (w: Wait)
      requires hs.state == ReadSessionTicket && !hs.needCcs
      modifies this
      ensures Stepped(old(hs), old(inbox), old(outbox), w)
    {
      hide Update, KindOf;
      if !hs.ticketExpected {
        hs := hs.(state := ProcessServerCcs, needCcs := true);
        return Done;
      }
      var m :- GetMessage();
      if KindOf(m) != NewSessionTicket || !m.Plain? { return Error; }
      hs := hs.(ticketExpected := !m.empty, needCcs := true, transcript := Update(hs.transcript, m), state := ProcessServerCcs);
      inbox := inbox[1..];
      return Done;
    }

    /** ssl_get_finished: the MAC is taken before the message is hashed. */
    method GetFinished() returns (w: Wait)
      requires hs.state == ReadServerFinished && !hs.needCcs
      modifies this
      ensures Stepped(old(hs), old(inbox), old(outbox), w)
      ensures w == Done <==> old(inbox) != [] && old(inbox)[0].Hs? && Proves(env, old(inbox)[0].m, Finished, true, old(hs).transcript.hash)
    {
      hide Update;
      var m :- GetMessage();
      if KindOf(m) != Finished || !m.Proof? || hs.transcript.hash.None? { return Error; }
      var mac := env.mac(Finished, true, hs.transcript.hash.value);
      if m.mac != mac { return Error; }
      HashAndTake(m, if hs.resumed then SendClientFinished else FinishClientHandshake);
      return Done;
    }

    /** The states that only choose the next one. */
    method Skip(to: ClientState) returns (w: Wait)
      requires !hs.needCcs && !ClientReads(hs) && ClientAlone(env, hs) == Go(hs, to)
      modifies this
      ensures Stepped(old(hs), old(inbox), old(outbox), w)
    {
      hs := hs.(state := to);
      return Done;
    }

    /** The switch of ssl_client_handshake. */
    method Turn() returns (w: Wait)
      requires !hs.needCcs && hs.state != ClientDone
      modifies this
      ensures Stepped(old(hs), old(inbox), old(outbox), w)
    {
      hide ClientStep, ClientAlone, ClientReads, Stepped;
      SkipFacts(env, hs);
      match hs.state {
        case StartConnect => w := Start();
        case EnterEarlyData => w := Skip(ReadServerHello);
        case ReadServerHello => w := GetServerHello();
        case ReadServerCertificate => w := GetServerCertificate();
        case ReadCertificateStatus => w := GetCertificateStatus();
        case VerifyServerCertificate => w := Skip(ReadServerKeyExchange);
        case ReadServerKeyExchange => w := GetServerKeyExchange();
        case ReadCertificateRequest => w := GetCertificateRequest();
        case ReadServerHelloDone => w := GetServerHelloDone();
        case SendClientCertificate => w := PutClientCertificate();
        case SendClientKeyExchange => w := PutClientKeyExchange();
        case SendClientCertificateVerify => w := PutCertificateVerify();
        case SendClientFinished => w := PutFinished();
        case FinishFlight => w := Skip(if hs.resumed then FinishClientHandshake else ReadSessionTicket);
        case ReadSessionTicket => w := GetSessionTicket();
        case ProcessServerCcs => w := Skip(ReadServerFinished);
        case ReadServerFinished => w := GetFinished();
        case FinishClientHandshake => w := Skip(ClientDone);
      }
    }

    /** A ChangeCipherSpec that the machine waits for. */
    method TakeCcs() returns (w: Wait)
      requires hs.needCcs
      modifies this
      ensures Stepped(old(hs), old(inbox), old(outbox), w)
    {
      if inbox == [] { return Waits; }
      if !inbox[0].Ccs? { return Error; }
      hs := hs.(needCcs := false);
      inbox := inbox[1..];
      return Done;
    }

    /** ssl_run_handshake around ssl_client_handshake: it goes on until it waits for input that is
        not there, fails or is done. */
    method Drive() returns (w: Wait)
      modifies this
      ensures var d := DriveClient(env, old(hs), old(inbox));
        if d.failed then w == Error
        else w == (if hs.state == ClientDone && !hs.needCcs then Done else Waits) && hs == d.state && inbox == old(inbox)[d.took..] && outbox == old(outbox) + d.sent
    {
      hide ClientStep, ClientMeasure, DriveClient, StillTo;
      ghost var ins, outs := inbox, outbox;
      ghost var all := DriveClient(env, hs, ins);
      StartTo(env, hs, ins, outs);
      w := Done;
      while hs.needCcs || hs.state != ClientDone
        invariant w == Done && StillTo(env, all, ins, outs, hs, inbox, outbox)
        decreases ClientMeasure(hs)
      {
        ghost var c, i, o := hs, inbox, outbox;
        ClientStepSmaller(env, c, i);
        StepTo(env, all, ins, outs, c, i, o);
        if hs.needCcs { w := TakeCcs(); } else { w := Turn(); }
        if w != Done { return; }
      }
      ClientDoneBlocks(env, hs, inbox);
      StepTo(env, all, ins, outs, hs, inbox, outbox);
    }
  }

  /** From here the machine still gets to where the whole run gets. */
  ghost predicate StillTo(env: Env, all: Driven<Client>, ins: seq<Wire>, outs: seq<Wire>, c: Client, i: seq<Wire>,
      o: seq<Wire>)
    requires all.took <= |ins|
  {
    var d := DriveClient(env, c, i);
    if all.failed then d.failed
    else !d.failed && d.state == all.state && i[d.took..] == ins[all.took..] && o + d.sent == outs + all.sent
  }

  lemma {:induction false} StartTo(env: Env, c: Client, ins: seq<Wire>, outs: seq<Wire>)
    ensures StillTo(env, DriveClient(env, c, ins), ins, outs, c, ins, outs)
  {
    hide DriveClient;
  }

  lemma {:induction false} StepTo(env: Env, all: Driven<Client>, ins: seq<Wire>, outs: seq<Wire>, c: Client,
      i: seq<Wire>, o: seq<Wire>)
    requires all.took <= |ins| && StillTo(env, all, ins, outs, c, i, o)
    ensures match ClientStep(env, c, i)
      case Failed => all.failed
      case Blocked => !all.failed && all.state == c && i == ins[all.took..] && o == outs + all.sent
      case Moved(n, took, sent) => StillTo(env, all, ins, outs, n, Rest(i, took), o + sent)
  {
    hide ClientStep, DriveClient;
    DriveOnce(env, c, i);
    var r := ClientStep(env, c, i);
    if r.Moved? {
      var e := DriveClient(env, r.next, Rest(i, r.took));
      assert o + (r.sent + e.sent) == (o + r.sent) + e.sent;
    } else if r.Blocked? {
      assert i[0..] == i && o + [] == o;
    }
  }

  lemma {:induction false} ClientDoneBlocks(env: Env, c: Client, ins: seq<Wire>)
    requires c.state == ClientDone && !c.needCcs
    ensures ClientStep(env, c, ins) == Blocked
  {
  }

  lemma {:induction false} SkipFacts(env: Env, c: Client)
    ensures c.state == EnterEarlyData ==> !ClientReads(c) && ClientAlone(env, c) == Go(c, ReadServerHello)
    ensures c.state == VerifyServerCertificate ==>
        !ClientReads(c) && ClientAlone(env, c) == Go(c, ReadServerKeyExchange)
    ensures c.state == FinishFlight ==> !ClientReads(c) && ClientAlone(env, c) == Go(c, if c.resumed then FinishClientHandshake else ReadSessionTicket)
    ensures c.state == ProcessServerCcs ==> !ClientReads(c) && ClientAlone(env, c) == Go(c, ReadServerFinished)
    ensures c.state == FinishClientHandshake ==> !ClientReads(c) && ClientAlone(env, c) == Go(c, ClientDone)
  {
  }

  /** One step of the loop, and the rest of it. */
  lemma {:induction false} DriveOnce(env: Env, c: Client, ins: seq<Wire>)
    ensures var r := ClientStep(env, c, ins); var d := DriveClient(env, c, ins);
      match r
      case Failed => d.failed
      case Blocked => d == Driven(c, 0, [], false)
      case Moved(n, took, sent) =>
        var e := DriveClient(env, n, Rest(ins, took));
        && d.failed == e.failed && d.state == e.state && d.sent == sent + e.sent
        && ins[d.took..] == Rest(ins, took)[e.took..]
  {
    hide ClientStep, ClientMeasure;
    ClientStepSmaller(env, c, ins);
  }
}
