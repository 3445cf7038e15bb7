/** The handshake machines as they are updated in place, and their driver loops. */
module TlsMachines {
  import opened Words
  import opened TlsHandshake
  import opened TlsAgreement
  import opened TlsServerOrder

  // ------------------------------------------------------------- the loops end

  lemma {:induction false} ClientHelloSmaller(env: Env, c: Client, m: Msg)
    requires !c.needCcs && c.state == ReadServerHello
    ensures var r := ClientOnMessage(env, c, m); r.Moved? ==> ClientMeasure(r.next) < ClientMeasure(c)
  {
    hide Update, InitHash, FreeBuffer, CertAuth;
  }

  lemma {:induction false} ClientCertificateSmaller(env: Env, c: Client, m: Msg)
    requires !c.needCcs && (c.state == ReadServerCertificate || c.state == ReadCertificateStatus)
    ensures var r := ClientOnMessage(env, c, m); r.Moved? ==> ClientMeasure(r.next) < ClientMeasure(c)
  {
    hide Update, KindOf;
    match c.state {
      case ReadServerCertificate =>
      case ReadCertificateStatus =>
    }
  }

  lemma {:induction false} ClientKeyExchangeSmaller(env: Env, c: Client, m: Msg)
    requires !c.needCcs && (c.state == ReadServerKeyExchange || c.state == ReadServerHelloDone)
    ensures var r := ClientOnMessage(env, c, m); r.Moved? ==> ClientMeasure(r.next) < ClientMeasure(c)
  {
    hide Update, KindOf, RequiresKeyExchange;
    match c.state {
      case ReadServerKeyExchange =>
      case ReadServerHelloDone =>
    }
  }

  lemma {:induction false} ClientRequestSmaller(env: Env, c: Client, m: Msg)
    requires !c.needCcs && c.state == ReadCertificateRequest
    ensures var r := ClientOnMessage(env, c, m); r.Moved? ==> ClientMeasure(r.next) < ClientMeasure(c)
  {
    hide Update, FreeBuffer, KindOf;
  }

  lemma {:induction false} ClientLastSmaller(env: Env, c: Client, m: Msg)
    requires !c.needCcs && (c.state == ReadSessionTicket || c.state == ReadServerFinished)
    ensures var r := ClientOnMessage(env, c, m); r.Moved? ==> ClientMeasure(r.next) < ClientMeasure(c)
  {
    hide Update, KindOf;
    match c.state {
      case ReadSessionTicket =>
      case ReadServerFinished =>
    }
  }

  lemma {:induction false} ClientMessageSmaller(env: Env, c: Client, m: Msg)
    requires !c.needCcs && ClientReads(c)
    ensures var r := ClientOnMessage(env, c, m); r.Moved? ==> ClientMeasure(r.next) < ClientMeasure(c)
  {
    hide ClientOnMessage, ClientRank, CertAuth;
    match c.state {
      case ReadServerHello => ClientHelloSmaller(env, c, m);
      case ReadServerCertificate => ClientCertificateSmaller(env, c, m);
      case ReadCertificateStatus => ClientCertificateSmaller(env, c, m);
      case ReadServerKeyExchange => ClientKeyExchangeSmaller(env, c, m);
      case ReadServerHelloDone => ClientKeyExchangeSmaller(env, c, m);
      case ReadCertificateRequest => ClientRequestSmaller(env, c, m);
      case ReadSessionTicket => ClientLastSmaller(env, c, m);
      case ReadServerFinished => ClientLastSmaller(env, c, m);
    }
  }

  lemma {:induction false} ClientStartSmaller(env: Env, c: Client)
    requires !c.needCcs && (c.state == StartConnect || c.state == EnterEarlyData)
    ensures var r := ClientAlone(env, c); r.Moved? ==> ClientMeasure(r.next) < ClientMeasure(c) && !r.took
  {
    hide Update;
    match c.state {
      case StartConnect =>
      case EnterEarlyData =>
    }
  }

  lemma {:induction false} ClientSkipsSmaller(env: Env, c: Client)
    requires !c.needCcs && (c.state == ReadServerCertificate || c.state == ReadCertificateStatus || c.state == VerifyServerCertificate || c.state == ReadCertificateRequest)
    ensures var r := ClientAlone(env, c); r.Moved? ==> ClientMeasure(r.next) < ClientMeasure(c) && !r.took
  {
    match c.state {
      case ReadServerCertificate =>
      case ReadCertificateStatus =>
      case VerifyServerCertificate =>
      case ReadCertificateRequest =>
    }
  }

  lemma {:induction false} ClientSecondSmaller(env: Env, c: Client)
    requires !c.needCcs && (c.state == SendClientCertificate || c.state == SendClientKeyExchange)
    ensures var r := ClientAlone(env, c); r.Moved? ==> ClientMeasure(r.next) < ClientMeasure(c) && !r.took
  {
    hide Update, FreeBuffer;
    match c.state {
      case SendClientCertificate =>
      case SendClientKeyExchange =>
    }
  }

  lemma {:induction false} ClientVerifySmaller(env: Env, c: Client)
    requires !c.needCcs && c.state == SendClientCertificateVerify
    ensures var r := ClientAlone(env, c); r.Moved? ==> ClientMeasure(r.next) < ClientMeasure(c) && !r.took
  {
    hide Update, FreeBuffer, Sign;
  }

  lemma {:induction false} ClientFinishSmaller(env: Env, c: Client)
    requires !c.needCcs && (c.state == SendClientFinished || c.state == FinishFlight)
    ensures var r := ClientAlone(env, c); r.Moved? ==> ClientMeasure(r.next) < ClientMeasure(c) && !r.took
  {
    hide ClientFinish;
    match c.state {
      case SendClientFinished =>
      case FinishFlight =>
    }
  }

  lemma {:induction false} ClientEndSmaller(env: Env, c: Client)
    requires !c.needCcs && (c.state == ReadSessionTicket || c.state == ProcessServerCcs || c.state == FinishClientHandshake)
    ensures var r := ClientAlone(env, c); r.Moved? ==> ClientMeasure(r.next) < ClientMeasure(c) && !r.took
  {
    match c.state {
      case ReadSessionTicket =>
      case ProcessServerCcs =>
      case FinishClientHandshake =>
    }
  }

  lemma {:induction false} ClientWaits(env: Env, c: Client)
    requires c.state == ReadServerHello || c.state == ReadServerKeyExchange || c.state == ReadServerHelloDone || c.state == ReadServerFinished || c.state == ClientDone
    ensures ClientAlone(env, c).Blocked?
  {
  }

  lemma {:induction false} ClientAloneSmaller(env: Env, c: Client)
    requires !c.needCcs
    ensures var r := ClientAlone(env, c); r.Moved? ==> ClientMeasure(r.next) < ClientMeasure(c) && !r.took
  {
    hide ClientAlone, ClientRank;
    match c.state {
      case StartConnect => ClientStartSmaller(env, c);
      case EnterEarlyData => ClientStartSmaller(env, c);
      case ReadServerCertificate => ClientSkipsSmaller(env, c);
      case ReadCertificateStatus => ClientSkipsSmaller(env, c);
      case VerifyServerCertificate => ClientSkipsSmaller(env, c);
      case ReadCertificateRequest => ClientSkipsSmaller(env, c);
      case SendClientCertificate => ClientSecondSmaller(env, c);
      case SendClientKeyExchange => ClientSecondSmaller(env, c);
      case SendClientCertificateVerify => ClientVerifySmaller(env, c);
      case SendClientFinished => ClientFinishSmaller(env, c);
      case FinishFlight => ClientFinishSmaller(env, c);
      case ReadSessionTicket => ClientEndSmaller(env, c);
      case ProcessServerCcs => ClientEndSmaller(env, c);
      case FinishClientHandshake => ClientEndSmaller(env, c);
      case _ => ClientWaits(env, c);
    }
  }

  /** Every client step makes the measure smaller, whatever it is sent: the driver loop ends,
      although the resumed order visits the states out of the order of their numbers. */
  lemma {:induction false} ClientStepSmaller(env: Env, c: Client, inbox: seq<Wire>)
    ensures ClientStep(env, c, inbox).Moved? ==> ClientMeasure(ClientStep(env, c, inbox).next) < ClientMeasure(c)
    ensures ClientStep(env, c, inbox).Moved? && ClientStep(env, c, inbox).took ==> inbox != []
  {
    hide ClientOnMessage, ClientAlone, ClientRank;
    if !c.needCcs {
      if ClientReads(c) && inbox != [] && inbox[0].Hs? { ClientMessageSmaller(env, c, inbox[0].m); }
      ClientAloneSmaller(env, c);
    }
  }

  lemma {:induction false} ServerHelloSmaller(env: Env, s: Server, m: Msg)
    requires !s.needCcs && (s.state == ReadClientHello || s.state == SelectCertificate)
    ensures var r := ServerOnMessage(env, s, m); r.Moved? ==> ServerMeasure(r.next) < ServerMeasure(s)
  {
    hide KindOf;
    match s.state {
      case ReadClientHello =>
      case SelectCertificate =>
    }
  }

  lemma {:induction false} ServerSelectsSmaller(env: Env, s: Server, m: Msg)
    requires !s.needCcs && s.state == SelectParameters
    ensures var r := ServerOnMessage(env, s, m); r.Moved? ==> ServerMeasure(r.next) < ServerMeasure(s)
  {
    hide Update, InitHash, FreeBuffer, CertAuth;
  }

  lemma {:induction false} ServerSecondSmaller(env: Env, s: Server, m: Msg)
    requires !s.needCcs && (s.state == ReadClientCertificate || s.state == ReadClientKeyExchange)
    ensures var r := ServerOnMessage(env, s, m); r.Moved? ==> ServerMeasure(r.next) < ServerMeasure(s)
  {
    hide Update, FreeBuffer, KindOf;
    match s.state {
      case ReadClientCertificate =>
      case ReadClientKeyExchange =>
    }
  }

  lemma {:induction false} ServerVerifySmaller(env: Env, s: Server, m: Msg)
    requires !s.needCcs && s.state == ReadClientCertificateVerify
    ensures var r := ServerOnMessage(env, s, m); r.Moved? ==> ServerMeasure(r.next) < ServerMeasure(s)
  {
    hide Update, FreeBuffer, KindOf;
  }

  lemma {:induction false} ServerIdSmaller(env: Env, s: Server, m: Msg)
    requires !s.needCcs && (s.state == ReadNextProto || s.state == ReadChannelId)
    ensures var r := ServerOnMessage(env, s, m); r.Moved? ==> ServerMeasure(r.next) < ServerMeasure(s)
  {
    hide Update, KindOf;
    match s.state {
      case ReadNextProto =>
      case ReadChannelId =>
    }
  }

  lemma {:induction false} ServerLastSmaller(env: Env, s: Server, m: Msg)
    requires !s.needCcs && s.state == ReadClientFinished
    ensures var r := ServerOnMessage(env, s, m); r.Moved? ==> ServerMeasure(r.next) < ServerMeasure(s)
  {
    hide Update, KindOf;
  }

  lemma {:induction false} ServerMessageSmaller(env: Env, s: Server, m: Msg)
    requires !s.needCcs && ServerReads(env, s)
    ensures var r := ServerOnMessage(env, s, m); r.Moved? ==> ServerMeasure(r.next) < ServerMeasure(s)
  {
    hide ServerOnMessage, ServerRank;
    match s.state {
      case ReadClientHello => ServerHelloSmaller(env, s, m);
      case SelectCertificate => ServerHelloSmaller(env, s, m);
      case SelectParameters => ServerSelectsSmaller(env, s, m);
      case ReadClientCertificate => ServerSecondSmaller(env, s, m);
      case ReadClientKeyExchange => ServerSecondSmaller(env, s, m);
      case ReadClientCertificateVerify => ServerVerifySmaller(env, s, m);
      case ReadNextProto => ServerIdSmaller(env, s, m);
      case ReadChannelId => ServerIdSmaller(env, s, m);
      case ReadClientFinished => ServerLastSmaller(env, s, m);
    }
  }

  lemma {:induction false} ServerStartSmaller(env: Env, s: Server)
    requires !s.needCcs && (s.state == StartAccept || s.state == SendServerHello)
    ensures var r := ServerAlone(env, s); r.Moved? ==> ServerMeasure(r.next) < ServerMeasure(s) && !r.took
  {
    hide Update, ServerFlags, CertAuth;
    match s.state {
      case StartAccept =>
      case SendServerHello =>
    }
  }

  lemma {:induction false} ServerCertificateSmaller(env: Env, s: Server)
    requires !s.needCcs && s.state == SendServerCertificate
    ensures var r := ServerAlone(env, s); r.Moved? ==> ServerMeasure(r.next) < ServerMeasure(s) && !r.took
  {
    hide Update, CertAuth, RequiresKeyExchange;
    if CertAuth(env.cipher) { if s.statusExpected { } }
  }

  lemma {:induction false} ServerFlightSmaller(env: Env, s: Server)
    requires !s.needCcs && (s.state == SendServerKeyExchange || s.state == SendServerHelloDone)
    ensures var r := ServerAlone(env, s); r.Moved? ==> ServerMeasure(r.next) < ServerMeasure(s) && !r.took
  {
    hide Update;
    match s.state {
      case SendServerKeyExchange =>
      case SendServerHelloDone =>
    }
  }

  lemma {:induction false} ServerSkipsSmaller(env: Env, s: Server)
    requires !s.needCcs && (s.state == ReadClientCertificate || s.state == VerifyClientCertificate || s.state == ReadClientCertificateVerify)
    ensures var r := ServerAlone(env, s); r.Moved? ==> ServerMeasure(r.next) < ServerMeasure(s) && !r.took
  {
    hide FreeBuffer;
    match s.state {
      case ReadClientCertificate =>
      case VerifyClientCertificate =>
      case ReadClientCertificateVerify =>
    }
  }

  lemma {:induction false} ServerCcsSmaller(env: Env, s: Server)
    requires !s.needCcs && (s.state == ReadClientCcs || s.state == ProcessClientCcs)
    ensures var r := ServerAlone(env, s); r.Moved? ==> ServerMeasure(r.next) < ServerMeasure(s) && !r.took
  {
    match s.state {
      case ReadClientCcs =>
      case ProcessClientCcs =>
    }
  }

  lemma {:induction false} ServerNoIdSmaller(env: Env, s: Server)
    requires !s.needCcs && (s.state == ReadNextProto || s.state == ReadChannelId)
    ensures var r := ServerAlone(env, s); r.Moved? ==> ServerMeasure(r.next) < ServerMeasure(s) && !r.took
  {
    match s.state {
      case ReadNextProto =>
      case ReadChannelId =>
    }
  }

  lemma {:induction false} ServerFinishSmaller(env: Env, s: Server)
    requires !s.needCcs && (s.state == SendServerFinished || s.state == FinishServerHandshake)
    ensures var r := ServerAlone(env, s); r.Moved? ==> ServerMeasure(r.next) < ServerMeasure(s) && !r.took
  {
    hide ServerFinish;
    match s.state {
      case SendServerFinished =>
      case FinishServerHandshake =>
    }
  }

  lemma {:induction false} ServerWaits(env: Env, s: Server)
    requires s.state == ReadClientHello || s.state == SelectCertificate || s.state == SelectParameters || s.state == ReadClientKeyExchange || s.state == ReadClientFinished || s.state == ServerDone
    ensures ServerAlone(env, s).Blocked?
  {
  }

  lemma {:induction false} ServerAloneSmaller(env: Env, s: Server)
    requires !s.needCcs
    ensures var r := ServerAlone(env, s); r.Moved? ==> ServerMeasure(r.next) < ServerMeasure(s) && !r.took
  {
    hide ServerAlone, ServerRank;
    match s.state {
      case StartAccept => ServerStartSmaller(env, s);
      case SendServerHello => ServerStartSmaller(env, s);
      case SendServerCertificate => ServerCertificateSmaller(env, s);
      case SendServerKeyExchange => ServerFlightSmaller(env, s);
      case SendServerHelloDone => ServerFlightSmaller(env, s);
      case ReadClientCertificate => ServerSkipsSmaller(env, s);
      case VerifyClientCertificate => ServerSkipsSmaller(env, s);
      case ReadClientCertificateVerify => ServerSkipsSmaller(env, s);
      case ReadClientCcs => ServerCcsSmaller(env, s);
      case ProcessClientCcs => ServerCcsSmaller(env, s);
      case ReadNextProto => ServerNoIdSmaller(env, s);
      case ReadChannelId => ServerNoIdSmaller(env, s);
      case SendServerFinished => ServerFinishSmaller(env, s);
      case FinishServerHandshake => ServerFinishSmaller(env, s);
      case _ => ServerWaits(env, s);
    }
  }

  lemma {:induction false} ServerStepSmaller(env: Env, s: Server, inbox: seq<Wire>)
    ensures ServerStep(env, s, inbox).Moved? ==> ServerMeasure(ServerStep(env, s, inbox).next) < ServerMeasure(s)
    ensures ServerStep(env, s, inbox).Moved? && ServerStep(env, s, inbox).took ==> inbox != []
  {
    hide ServerOnMessage, ServerAlone, ServerReads, ServerRank;
    if !s.needCcs {
      if ServerReads(env, s) && inbox != [] && inbox[0].Hs? { ServerMessageSmaller(env, s, inbox[0].m); }
      ServerAloneSmaller(env, s);
    }
  }

  /** What a state function tells its driver: go on, wait for input, or give up. */
  datatype Wait = Done | Waits | Error

  /** The next message, or why there is none to read. */
  datatype Peeked = Message(m: Msg) | Stop(why: Wait) {
    predicate IsFailure() { Stop? }
    function PropagateFailure(): Wait
      requires Stop?
    {
      why
    }
    function Extract(): Msg
      requires Message?
    {
      m
    }
  }

  function Rest(inbox: seq<Wire>, took: bool): seq<Wire> {
    if took && inbox != [] then inbox[1..] else inbox
  }

  /** Where a driver loop stops on the input it has: the state, how much input it took, what it
      sent, and whether it failed. */
  datatype Driven<+S> = Driven(state: S, took: nat, sent: seq<Wire>, failed: bool)

  function DriveClient(env: Env, c: Client, inbox: seq<Wire>): (d: Driven<Client>)
    ensures d.took <= |inbox|
    decreases ClientMeasure(c)
  {
    ClientStepSmaller(env, c, inbox);
    match ClientStep(env, c, inbox)
    case Failed => Driven(c, 0, [], true)
    case Blocked => Driven(c, 0, [], false)
    case Moved(n, took, sent) =>
      var k := if took then 1 else 0;
      var d := DriveClient(env, n, Rest(inbox, took));
      Driven(d.state, k + d.took, sent + d.sent, d.failed)
  }

  function DriveServer(env: Env, s: Server, inbox: seq<Wire>): (d: Driven<Server>)
    ensures d.took <= |inbox|
    decreases ServerMeasure(s)
  {
    ServerStepSmaller(env, s, inbox);
    match ServerStep(env, s, inbox)
    case Failed => Driven(s, 0, [], true)
    case Blocked => Driven(s, 0, [], false)
    case Moved(n, took, sent) =>
      var k := if took then 1 else 0;
      var d := DriveServer(env, n, Rest(inbox, took));
      Driven(d.state, k + d.took, sent + d.sent, d.failed)
  }
}
