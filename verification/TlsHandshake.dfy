/** The client and server handshake machines of TLS 1.0 to 1.2 (RFC 5246 section 7.3): which
    message each reads, sends or hashes in each state, and the state it goes to next. */
module TlsHandshake {
  import opened Words

  // ------------------------------------------------------------- messages

  datatype Kind =
    | ClientHello | ServerHello | Certificate | CertificateStatus | ServerKeyExchange | CertificateRequest
    | ServerHelloDone | ClientKeyExchange | CertificateVerify | NextProto | ChannelId | NewSessionTicket | Finished

  datatype KeyExchange = Rsa | Ecdhe | PlainPsk

  /** A cipher: its key exchange, and whether it authenticates with a pre-shared key. */
  datatype Cipher = Cipher(kx: KeyExchange, psk: bool)

  predicate CertAuth(c: Cipher) { !c.psk }
  predicate RequiresKeyExchange(c: Cipher) { c.kx.Ecdhe? }

  /** What a ServerHello settles. */
  datatype Flags = Flags(resumed: bool, cipher: Cipher, status: bool, ticket: bool, npn: bool, channelId: bool)

  /** A handshake message.  `empty` says that a Certificate has no certificates, or a ticket no
      bytes.  A proof is computed over a transcript, which is kept along with it. */
  datatype Msg =
    | Plain(kind: Kind, empty: bool, body: nat)
    | Hello(flags: Flags)
    | Proof(what: Kind, mac: nat, over: seq<Msg>)

  function KindOf(m: Msg): Kind {
    match m
    case Plain(k, _, _) => k
    case Hello(_) => ServerHello
    case Proof(k, _, _) => k
  }

  /** What goes over the connection: a message, or a ChangeCipherSpec. */
  datatype Wire = Hs(m: Msg) | Ccs

  /** The inputs of a handshake.  The server picks the session and cipher, and has or has not a
      stapled response, a ticket to issue, NPN, Channel ID and so on; the contents of messages and
      the values of signatures and MACs are arbitrary functions. */
  datatype Env = Env(
    resumed: bool, cipher: Cipher, stapling: bool, ticket: bool, emptyTicket: bool, npn: bool,
    channelIdOffered: bool, hashRecorded: bool, verifyPeer: bool, unlessChannelId: bool, pskHint: bool, clientCert: bool,
    body: (bool, Kind) -> nat, mac: (Kind, bool, seq<Msg>) -> nat)

  predicate EnvOk(env: Env) {
    (env.cipher.kx.PlainPsk? ==> env.cipher.psk) && (env.cipher.kx.Rsa? ==> !env.cipher.psk)
  }

  // ------------------------------------------------------------- transcripts

  /** SSLTranscript: the buffered messages until they are released, and the running hash once it
      is set up. */
  datatype Transcript = Transcript(buffer: Option<seq<Msg>>, hash: Option<seq<Msg>>)

  const NEW_TRANSCRIPT := Transcript(Some([]), None)

  function Update(t: Transcript, m: Msg): Transcript {
    Transcript(if t.buffer.None? then None else Some(t.buffer.value + [m]), if t.hash.None? then None else Some(t.hash.value + [m]))
  }

  /** InitHash starts the hash with what is in the buffer. */
  function InitHash(t: Transcript): Transcript {
    t.(hash := t.buffer)
  }

  function FreeBuffer(t: Transcript): Transcript {
    t.(buffer := None)
  }

  // ------------------------------------------------------------- the client

  datatype ClientState =
    | StartConnect | EnterEarlyData | ReadServerHello | ReadServerCertificate | ReadCertificateStatus | VerifyServerCertificate
    | ReadServerKeyExchange | ReadCertificateRequest | ReadServerHelloDone | SendClientCertificate | SendClientKeyExchange
    | SendClientCertificateVerify | SendClientFinished | FinishFlight | ReadSessionTicket | ProcessServerCcs
    | ReadServerFinished | FinishClientHandshake | ClientDone

  datatype Client = Client(
    state: ClientState, needCcs: bool, resumed: bool, cipher: Cipher, statusExpected: bool, certRequest: bool,
    ticketExpected: bool, npn: bool, channelId: bool, transcript: Transcript)

  const NEW_CLIENT := Client(StartConnect, false, false, Cipher(Rsa, false), false, false, false, false, false, NEW_TRANSCRIPT)

  /** What one state function does: move on, after taking the next input or not, with some
      output; wait for input; or fail. */
  datatype Step<+S> = Moved(next: S, took: bool, sent: seq<Wire>) | Blocked | Failed

  function Go(c: Client, state: ClientState): Step<Client> {
    Moved(c.(state := state), false, [])
  }

  /** Hash the message, take it, and go on. */
  function Hashed(c: Client, m: Msg, state: ClientState): Step<Client> {
    Moved(c.(transcript := Update(c.transcript, m), state := state), true, [])
  }

  /** The states in which a message has to be there. */
  predicate ClientReads(c: Client) {
    match c.state
    case ReadServerHello => true
    case ReadServerCertificate => CertAuth(c.cipher)
    case ReadCertificateStatus => c.statusExpected
    case ReadServerKeyExchange => true
    case ReadCertificateRequest => CertAuth(c.cipher)
    case ReadServerHelloDone => true
    case ReadSessionTicket => c.ticketExpected
    case ReadServerFinished => true
    case _ => false
  }

  /** The states in which the client reads a message, given that message. */
  function ClientOnMessage(env: Env, c: Client, m: Msg): Step<Client> {
    match c.state
    case ReadServerHello =>
      if !m.Hello? || c.transcript.buffer.None? then Failed
      else
        var f := m.flags;
        var t := Update(InitHash(c.transcript), m);
        Moved(c.(resumed := f.resumed, cipher := f.cipher, statusExpected := f.status, ticketExpected := f.ticket, npn := f.npn,
                 channelId := f.channelId, transcript := if f.resumed || !CertAuth(f.cipher) then FreeBuffer(t) else t,
                 state := if f.resumed then ReadSessionTicket else ReadServerCertificate), true, [])
    case ReadServerCertificate =>
      if KindOf(m) != Certificate then Failed else Hashed(c, m, ReadCertificateStatus)
    case ReadCertificateStatus =>
      // the server may have changed its mind
      if KindOf(m) != CertificateStatus then Go(c, VerifyServerCertificate) else Hashed(c, m, VerifyServerCertificate)
    case ReadServerKeyExchange =>
      if KindOf(m) != ServerKeyExchange then if RequiresKeyExchange(c.cipher) then Failed else Go(c, ReadCertificateRequest)
      else if c.cipher.kx.Rsa? then Failed
      else Hashed(c, m, ReadCertificateRequest)
    case ReadCertificateRequest =>
      if KindOf(m) == ServerHelloDone then Go(c.(transcript := FreeBuffer(c.transcript)), ReadServerHelloDone)
      else if KindOf(m) != CertificateRequest then Failed
      else Hashed(c.(certRequest := true), m, ReadServerHelloDone)
    case ReadServerHelloDone =>
      if KindOf(m) != ServerHelloDone then Failed else Hashed(c, m, SendClientCertificate)
    case ReadSessionTicket =>
      if KindOf(m) != NewSessionTicket || !m.Plain? then Failed
      else Hashed(c.(ticketExpected := !m.empty, needCcs := true), m, ProcessServerCcs)
    case ReadServerFinished =>
      // the MAC is taken before the message is hashed
      if KindOf(m) != Finished || !m.Proof? || c.transcript.hash.None? || m.mac != env.mac(Finished, true, c.transcript.hash.value) then Failed
      else Hashed(c, m, if c.resumed then SendClientFinished else FinishClientHandshake)
    case _ => Failed
  }

  function Sign(env: Env, what: Kind, fromServer: bool, over: seq<Msg>): Msg {
    Proof(what, env.mac(what, fromServer, over), over)
  }

  /** The message is a MAC or signature over exactly these messages. */
  predicate Proves(env: Env, m: Msg, what: Kind, fromServer: bool, over: Option<seq<Msg>>) {
    over.Some? && m.Proof? && m.what == what && m.mac == env.mac(what, fromServer, over.value)
  }

  /** The flight of do_send_client_finished after the ChangeCipherSpec, with its transcript. */
  function ClientFinish(env: Env, c: Client): Option<(Transcript, seq<Wire>)> {
    var m := Plain(NextProto, false, env.body(false, NextProto));
    var t := if c.npn then Update(c.transcript, m) else c.transcript;
    var a := if c.npn then [Hs(m)] else [];
    if t.hash.None? then None
    else
      var id := Sign(env, ChannelId, false, t.hash.value);
      var u := if c.channelId then Update(t, id) else t;
      var b := if c.channelId then [Hs(id)] else [];
      if u.hash.None? then None
      else
        var fin := Sign(env, Finished, false, u.hash.value);
        Some((Update(u, fin), a + b + [Hs(fin)]))
  }

  /** The states in which the client needs no input. */
  function ClientAlone(env: Env, c: Client): Step<Client> {
    match c.state
    case StartConnect =>
      var m := Plain(ClientHello, false, env.body(false, ClientHello));
      Moved(c.(state := EnterEarlyData, transcript := Update(c.transcript, m)), false, [Hs(m)])
    case EnterEarlyData => Go(c, ReadServerHello)
    case ReadServerCertificate => Go(c, ReadCertificateStatus)
    case ReadCertificateStatus => Go(c, VerifyServerCertificate)
    case VerifyServerCertificate => Go(c, ReadServerKeyExchange)
    case ReadCertificateRequest => Go(c, ReadServerHelloDone)
    case SendClientCertificate =>
      if !c.certRequest then Go(c, SendClientKeyExchange)
      else
        var m := Plain(Certificate, !env.clientCert, env.body(false, Certificate));
        var t := if env.clientCert then c.transcript else FreeBuffer(c.transcript);
        Moved(c.(state := SendClientKeyExchange, transcript := Update(t, m)), false, [Hs(m)])
    case SendClientKeyExchange =>
      var m := Plain(ClientKeyExchange, false, env.body(false, ClientKeyExchange));
      Moved(c.(state := SendClientCertificateVerify, transcript := Update(c.transcript, m)), false, [Hs(m)])
    case SendClientCertificateVerify =>
      if !c.certRequest || !env.clientCert then Go(c, SendClientFinished)
      else if c.transcript.buffer.None? then Failed
      else
        var m := Sign(env, CertificateVerify, false, c.transcript.buffer.value);
        Moved(c.(state := SendClientFinished, transcript := FreeBuffer(Update(c.transcript, m))), false, [Hs(m)])
    case SendClientFinished =>
      var f := ClientFinish(env, c);
      if f.None? then Failed else Moved(c.(state := FinishFlight, transcript := f.value.0), false, [Ccs] + f.value.1)
    case FinishFlight => Go(c, if c.resumed then FinishClientHandshake else ReadSessionTicket)
    case ReadSessionTicket => Moved(c.(state := ProcessServerCcs, needCcs := true), false, [])
    case ProcessServerCcs => Go(c, ReadServerFinished)
    case FinishClientHandshake => Go(c, ClientDone)
    case _ => Blocked
  }

  /** One turn of the client: a ChangeCipherSpec it waits for, or one state function. */
  function ClientStep(env: Env, c: Client, inbox: seq<Wire>): Step<Client> {
    if c.needCcs then
      if inbox == [] then Blocked else if inbox[0].Ccs? then Moved(c.(needCcs := false), true, []) else Failed
    else if ClientReads(c) then
      if inbox == [] then Blocked else if inbox[0].Ccs? then Failed else ClientOnMessage(env, c, inbox[0].m)
    else ClientAlone(env, c)
  }

  // ------------------------------------------------------------- the server

  datatype ServerState =
    | StartAccept | ReadClientHello | SelectCertificate | SelectParameters | SendServerHello | SendServerCertificate
    | SendServerKeyExchange | SendServerHelloDone | ReadClientCertificate | VerifyClientCertificate | ReadClientKeyExchange
    | ReadClientCertificateVerify | ReadClientCcs | ProcessClientCcs | ReadNextProto | ReadChannelId | ReadClientFinished
    | SendServerFinished | FinishServerHandshake | ServerDone

  datatype Server = Server(
    state: ServerState, needCcs: bool, resumed: bool, certRequest: bool, ticketExpected: bool, statusExpected: bool,
    channelId: bool, hasParams: bool, peerKey: bool, transcript: Transcript)

  const NEW_SERVER := Server(StartAccept, false, false, false, false, false, false, false, false, NEW_TRANSCRIPT)

  function GoS(s: Server, state: ServerState): Step<Server> {
    Moved(s.(state := state), false, [])
  }

  function HashedS(s: Server, m: Msg, state: ServerState): Step<Server> {
    Moved(s.(transcript := Update(s.transcript, m), state := state), true, [])
  }

  predicate ServerReads(env: Env, s: Server) {
    match s.state
    case ReadClientHello => true
    case SelectCertificate => true
    case SelectParameters => true
    case ReadClientCertificate => s.certRequest
    case ReadClientKeyExchange => true
    case ReadClientCertificateVerify => s.peerKey
    case ReadNextProto => env.npn
    case ReadChannelId => s.channelId
    case ReadClientFinished => true
    case _ => false
  }

  function ServerOnMessage(env: Env, s: Server, m: Msg): Step<Server> {
    match s.state
    case ReadClientHello =>
      // parsed here, but left in place until the parameters are chosen
      if KindOf(m) != ClientHello then Failed else GoS(s.(channelId := env.channelIdOffered), SelectCertificate)
    case SelectCertificate => GoS(s, SelectParameters)
    case SelectParameters =>
      var certRequest := !env.resumed && env.verifyPeer && !(env.unlessChannelId && s.channelId) && CertAuth(env.cipher);
      if s.transcript.buffer.None? then Failed
      else
        var t := Update(InitHash(s.transcript), m);
        Moved(s.(resumed := env.resumed, ticketExpected := env.ticket, certRequest := certRequest,
                 transcript := if certRequest then t else FreeBuffer(t), state := SendServerHello), true, [])
    case ReadClientCertificate =>
      if KindOf(m) != Certificate || !m.Plain? then Failed
      else
        var t := Update(s.transcript, m);
        Moved(s.(transcript := if m.empty then FreeBuffer(t) else t, peerKey := !m.empty, state := VerifyClientCertificate), true, [])
    case ReadClientKeyExchange =>
      if KindOf(m) != ClientKeyExchange then Failed else HashedS(s, m, ReadClientCertificateVerify)
    case ReadClientCertificateVerify =>
      // the signature is checked over the buffered messages before this one
      if KindOf(m) != CertificateVerify || !m.Proof? || s.transcript.buffer.None?
         || m.mac != env.mac(CertificateVerify, false, s.transcript.buffer.value) then Failed
      else HashedS(s.(transcript := FreeBuffer(s.transcript)), m, ReadClientCcs)
    case ReadNextProto =>
      if KindOf(m) != NextProto then Failed else HashedS(s, m, ReadChannelId)
    case ReadChannelId =>
      if KindOf(m) != ChannelId || !m.Proof? || s.transcript.hash.None? || m.mac != env.mac(ChannelId, false, s.transcript.hash.value) then Failed
      else HashedS(s, m, ReadClientFinished)
    case ReadClientFinished =>
      if KindOf(m) != Finished || !m.Proof? || s.transcript.hash.None? || m.mac != env.mac(Finished, false, s.transcript.hash.value) then Failed
      else HashedS(s, m, if s.resumed then FinishServerHandshake else SendServerFinished)
    case _ => Failed
  }

  /** Sending a message adds it to the transcript. */
  function SentS(s: Server, m: Msg, state: ServerState): Step<Server> {
    Moved(s.(transcript := Update(s.transcript, m), state := state), false, [Hs(m)])
  }

  function ServerFlags(env: Env, s: Server): Flags {
    Flags(s.resumed, env.cipher, s.statusExpected, s.ticketExpected, env.npn, s.channelId)
  }

  function ServerFinish(env: Env, s: Server): Option<(Transcript, seq<Wire>)> {
    var m := Plain(NewSessionTicket, env.emptyTicket, env.body(true, NewSessionTicket));
    var t := if s.ticketExpected then Update(s.transcript, m) else s.transcript;
    if t.hash.None? then None
    else
      var fin := Sign(env, Finished, true, t.hash.value);
      Some((Update(t, fin), (if s.ticketExpected then [Hs(m)] else []) + [Ccs, Hs(fin)]))
  }

  function ServerAlone(env: Env, s: Server): Step<Server> {
    match s.state
    case StartAccept => GoS(s, ReadClientHello)
    case SendServerHello =>
      // Channel ID needs ECDHE, and on resumption the hashes of the original handshake
      var channelId := s.channelId && env.cipher.kx.Ecdhe? && (s.resumed ==> env.hashRecorded);
      var status := env.stapling && !s.resumed && CertAuth(env.cipher);
      var u := s.(channelId := channelId, statusExpected := status);
      SentS(u, Hello(ServerFlags(env, u)), if s.resumed then SendServerFinished else SendServerCertificate)
    case SendServerCertificate =>
      var cert := Plain(Certificate, false, env.body(true, Certificate));
      var status := Plain(CertificateStatus, false, env.body(true, CertificateStatus));
      var params := RequiresKeyExchange(env.cipher) || (env.cipher.psk && env.pskHint);
      if !CertAuth(env.cipher) then Moved(s.(state := SendServerKeyExchange, hasParams := params), false, [])
      else if !s.statusExpected then
        Moved(s.(state := SendServerKeyExchange, hasParams := params, transcript := Update(s.transcript, cert)), false, [Hs(cert)])
      else
        Moved(s.(state := SendServerKeyExchange, hasParams := params, transcript := Update(Update(s.transcript, cert), status)),
              false, [Hs(cert), Hs(status)])
    case SendServerKeyExchange =>
      if !s.hasParams then GoS(s, SendServerHelloDone)
      else SentS(s.(hasParams := false), Plain(ServerKeyExchange, false, env.body(true, ServerKeyExchange)), SendServerHelloDone)
    case SendServerHelloDone =>
      var req := Plain(CertificateRequest, false, env.body(true, CertificateRequest));
      var done := Plain(ServerHelloDone, false, env.body(true, ServerHelloDone));
      if !s.certRequest then SentS(s, done, ReadClientCertificate)
      else Moved(s.(state := ReadClientCertificate, transcript := Update(Update(s.transcript, req), done)), false, [Hs(req), Hs(done)])
    case ReadClientCertificate => GoS(s, VerifyClientCertificate)
    case VerifyClientCertificate => GoS(s, ReadClientKeyExchange)
    case ReadClientCertificateVerify => GoS(s.(transcript := FreeBuffer(s.transcript)), ReadClientCcs)
    case ReadClientCcs => Moved(s.(state := ProcessClientCcs, needCcs := true), false, [])
    case ProcessClientCcs => GoS(s, ReadNextProto)
    case ReadNextProto => GoS(s, ReadChannelId)
    case ReadChannelId => GoS(s, ReadClientFinished)
    case SendServerFinished =>
      var f := ServerFinish(env, s);
      if f.None? then Failed
      else Moved(s.(state := if s.resumed then ReadClientCcs else FinishServerHandshake, transcript := f.value.0), false, f.value.1)
    case FinishServerHandshake => GoS(s, ServerDone)
    case _ => Blocked
  }

  function ServerStep(env: Env, s: Server, inbox: seq<Wire>): Step<Server> {
    if s.needCcs then
      if inbox == [] then Blocked else if inbox[0].Ccs? then Moved(s.(needCcs := false), true, []) else Failed
    else if ServerReads(env, s) then
      if inbox == [] then Blocked else if inbox[0].Ccs? then Failed else ServerOnMessage(env, s, inbox[0].m)
    else ServerAlone(env, s)
  }

  // ------------------------------------------------------------- the order of messages

  /** One message or ChangeCipherSpec of the handshake, by sender. */
  datatype Item = Item(fromClient: bool, what: Option<Kind>)

  function Opt(b: bool, i: Item): seq<Item> { if b then [i] else [] }
  function C(k: Kind): Item { Item(true, Some(k)) }
  function S(k: Kind): Item { Item(false, Some(k)) }

  // what the server will have decided
  function Status(env: Env): bool { env.stapling && !env.resumed && CertAuth(env.cipher) }
  function Requests(env: Env): bool { !env.resumed && env.verifyPeer && !(env.unlessChannelId && env.channelIdOffered) && CertAuth(env.cipher) }
  function Identified(env: Env): bool { env.channelIdOffered && env.cipher.kx.Ecdhe? && (env.resumed ==> env.hashRecorded) }
  function KeyMessage(env: Env): bool { RequiresKeyExchange(env.cipher) || (env.cipher.psk && env.pskHint) }

  /** How far a client state is from the end: the resumed order visits the states of the finished
      messages differently. */
  function ClientRank(resumed: bool, state: ClientState): nat {
    match state
    case StartConnect => 20
    case EnterEarlyData => 19
    case ReadServerHello => 18
    case ReadServerCertificate => 17
    case ReadCertificateStatus => 16
    case VerifyServerCertificate => 15
    case ReadServerKeyExchange => 14
    case ReadCertificateRequest => 13
    case ReadServerHelloDone => 12
    case SendClientCertificate => 11
    case SendClientKeyExchange => 10
    case SendClientCertificateVerify => 9
    case SendClientFinished => if resumed then 3 else 8
    case FinishFlight => if resumed then 2 else 7
    case ReadSessionTicket => 6
    case ProcessServerCcs => 5
    case ReadServerFinished => 4
    case FinishClientHandshake => 1
    case ClientDone => 0
  }

  function FinishItems(env: Env): seq<Item> {
    [Item(true, None)] + Opt(env.npn, C(NextProto)) + Opt(Identified(env), C(ChannelId)) + [C(Finished)]
  }

  /** What is still to be exchanged when the client is in this state. */
  function ClientRest(env: Env, state: ClientState): seq<Item>
    decreases ClientRank(env.resumed, state)
  {
    match state
    case StartConnect => [C(ClientHello)] + ClientRest(env, EnterEarlyData)
    case EnterEarlyData => ClientRest(env, ReadServerHello)
    case ReadServerHello => [S(ServerHello)] + ClientRest(env, if env.resumed then ReadSessionTicket else ReadServerCertificate)
    case ReadServerCertificate => Opt(CertAuth(env.cipher), S(Certificate)) + ClientRest(env, ReadCertificateStatus)
    case ReadCertificateStatus => Opt(Status(env), S(CertificateStatus)) + ClientRest(env, VerifyServerCertificate)
    case VerifyServerCertificate => ClientRest(env, ReadServerKeyExchange)
    case ReadServerKeyExchange => Opt(KeyMessage(env), S(ServerKeyExchange)) + ClientRest(env, ReadCertificateRequest)
    case ReadCertificateRequest => Opt(Requests(env), S(CertificateRequest)) + ClientRest(env, ReadServerHelloDone)
    case ReadServerHelloDone => [S(ServerHelloDone)] + ClientRest(env, SendClientCertificate)
    case SendClientCertificate => Opt(Requests(env), C(Certificate)) + ClientRest(env, SendClientKeyExchange)
    case SendClientKeyExchange => [C(ClientKeyExchange)] + ClientRest(env, SendClientCertificateVerify)
    case SendClientCertificateVerify => Opt(Requests(env) && env.clientCert, C(CertificateVerify)) + ClientRest(env, SendClientFinished)
    case SendClientFinished => FinishItems(env) + ClientRest(env, FinishFlight)
    case FinishFlight => ClientRest(env, if env.resumed then FinishClientHandshake else ReadSessionTicket)
    case ReadSessionTicket => Opt(env.ticket, S(NewSessionTicket)) + ([Item(false, None)] + ClientRest(env, ProcessServerCcs))
    case ProcessServerCcs => ClientRest(env, ReadServerFinished)
    case ReadServerFinished => [S(Finished)] + ClientRest(env, if env.resumed then SendClientFinished else FinishClientHandshake)
    case FinishClientHandshake => []
    case ClientDone => []
  }

  function ServerRank(resumed: bool, state: ServerState): nat {
    match state
    case StartAccept => 20
    case ReadClientHello => 19
    case SelectCertificate => 18
    case SelectParameters => 17
    case SendServerHello => 16
    case SendServerCertificate => 15
    case SendServerKeyExchange => 14
    case SendServerHelloDone => 13
    case ReadClientCertificate => 12
    case VerifyClientCertificate => 11
    case ReadClientKeyExchange => 10
    case ReadClientCertificateVerify => 9
    case ReadClientCcs => 7
    case ProcessClientCcs => 6
    case ReadNextProto => 5
    case ReadChannelId => 4
    case ReadClientFinished => 3
    case SendServerFinished => if resumed then 8 else 2
    case FinishServerHandshake => 1
    case ServerDone => 0
  }

  function ServerRest(env: Env, state: ServerState): seq<Item>
    decreases ServerRank(env.resumed, state)
  {
    match state
    case StartAccept => ServerRest(env, ReadClientHello)
    case ReadClientHello => ServerRest(env, SelectCertificate)
    case SelectCertificate => ServerRest(env, SelectParameters)
    case SelectParameters => [C(ClientHello)] + ServerRest(env, SendServerHello)
    case SendServerHello => [S(ServerHello)] + ServerRest(env, if env.resumed then SendServerFinished else SendServerCertificate)
    case SendServerCertificate =>
      Opt(CertAuth(env.cipher), S(Certificate)) + (Opt(Status(env), S(CertificateStatus)) + ServerRest(env, SendServerKeyExchange))
    case SendServerKeyExchange => Opt(KeyMessage(env), S(ServerKeyExchange)) + ServerRest(env, SendServerHelloDone)
    case SendServerHelloDone =>
      Opt(Requests(env), S(CertificateRequest)) + ([S(ServerHelloDone)] + ServerRest(env, ReadClientCertificate))
    case ReadClientCertificate => Opt(Requests(env), C(Certificate)) + ServerRest(env, VerifyClientCertificate)
    case VerifyClientCertificate => ServerRest(env, ReadClientKeyExchange)
    case ReadClientKeyExchange => [C(ClientKeyExchange)] + ServerRest(env, ReadClientCertificateVerify)
    case ReadClientCertificateVerify => Opt(Requests(env) && env.clientCert, C(CertificateVerify)) + ServerRest(env, ReadClientCcs)
    case ReadClientCcs => [Item(true, None)] + ServerRest(env, ProcessClientCcs)
    case ProcessClientCcs => ServerRest(env, ReadNextProto)
    case ReadNextProto => Opt(env.npn, C(NextProto)) + ServerRest(env, ReadChannelId)
    case ReadChannelId => Opt(Identified(env), C(ChannelId)) + ServerRest(env, ReadClientFinished)
    case ReadClientFinished => [C(Finished)] + ServerRest(env, if env.resumed then FinishServerHandshake else SendServerFinished)
    case SendServerFinished =>
      Opt(env.ticket, S(NewSessionTicket)) + ([Item(false, None), S(Finished)]
                                              + ServerRest(env, if env.resumed then ReadClientCcs else FinishServerHandshake))
    case FinishServerHandshake => []
    case ServerDone => []
  }
}
