/** What has been checked when a handshake ends, whatever the peer sent: the machines against an
    arbitrary input, not against each other. */
module TlsVerified {
  import opened Words
  import opened TlsHandshake
  import opened TlsAgreement
  import opened TlsServerOrder
  import opened TlsMachines

  /** Message k of the hashed transcript h has come in, and is a proof computed over exactly the
      messages before it. */
  predicate ProofAt(env: Env, what: Kind, fromServer: bool, seen: seq<Wire>, h: seq<Msg>, k: nat)
    requires k < |h|
  {
    Hs(h[k]) in seen && Proves(env, h[k], what, fromServer, Some(h[..k]))
  }

  ghost predicate Proven(env: Env, what: Kind, fromServer: bool, seen: seq<Wire>, t: Transcript) {
    t.hash.Some? && exists k :: 0 <= k < |t.hash.value| && ProofAt(env, what, fromServer, seen, t.hash.value, k)
  }

  lemma {:induction false} StaysProven(env: Env, what: Kind, fromServer: bool, seen: seq<Wire>, t: Transcript, m: Msg)
    requires Proven(env, what, fromServer, seen, t)
    ensures Proven(env, what, fromServer, seen, Update(t, m))
  {
    var h := t.hash.value;
    var k :| 0 <= k < |h| && ProofAt(env, what, fromServer, seen, h, k);
    assert (h + [m])[..k] == h[..k];
    assert ProofAt(env, what, fromServer, seen, h + [m], k);
  }

  lemma {:induction false} NowProven(env: Env, what: Kind, fromServer: bool, seen: seq<Wire>, t: Transcript, m: Msg)
    requires Hs(m) in seen && Proves(env, m, what, fromServer, t.hash)
    ensures Proven(env, what, fromServer, seen, Update(t, m))
  {
    var h := t.hash.value;
    assert (h + [m])[..|h|] == h;
    assert ProofAt(env, what, fromServer, seen, h + [m], |h|);
  }

  // ------------------------------------------------------------- the client

  /** The server's Finished has been read. */
  predicate ClientPast(c: Client) {
    c.state == FinishClientHandshake || c.state == ClientDone || (c.resumed && (c.state == SendClientFinished || c.state == FinishFlight))
  }

  /** The states that only a full handshake visits. */
  predicate OnlyFull(state: ClientState) {
    8 < ClientRank(false, state) < 18
  }

  ghost predicate ClientChecked(env: Env, c: Client, seen: seq<Wire>) {
    (ClientPast(c) ==> Proven(env, Finished, true, seen, c.transcript)) && (OnlyFull(c.state) ==> !c.resumed)
  }

  lemma {:induction false} ClientHelloChecked(env: Env, c: Client, m: Msg, seen: seq<Wire>)
    requires c.state == ReadServerHello
    ensures var r := ClientOnMessage(env, c, m); r.Moved? ==> ClientChecked(env, r.next, seen)
  {
    hide Update, Proven, InitHash, FreeBuffer, CertAuth;
  }

  lemma {:induction false} ClientCertificateChecked(env: Env, c: Client, m: Msg, seen: seq<Wire>)
    requires ClientChecked(env, c, seen) && c.state in {ReadServerCertificate, ReadCertificateStatus}
    ensures var r := ClientOnMessage(env, c, m); r.Moved? ==> ClientChecked(env, r.next, seen)
  {
    hide Update, Proven, KindOf;
  }

  lemma {:induction false} ClientKeyExchangeChecked(env: Env, c: Client, m: Msg, seen: seq<Wire>)
    requires ClientChecked(env, c, seen) && c.state == ReadServerKeyExchange
    ensures var r := ClientOnMessage(env, c, m); r.Moved? ==> ClientChecked(env, r.next, seen)
  {
    hide Update, Proven, KindOf, RequiresKeyExchange;
  }

  lemma {:induction false} ClientRequestChecked(env: Env, c: Client, m: Msg, seen: seq<Wire>)
    requires ClientChecked(env, c, seen) && c.state in {ReadCertificateRequest, ReadServerHelloDone}
    ensures var r := ClientOnMessage(env, c, m); r.Moved? ==> ClientChecked(env, r.next, seen)
  {
    hide Update, Proven, KindOf, FreeBuffer;
  }

  lemma {:induction false} ClientTicketChecked(env: Env, c: Client, m: Msg, seen: seq<Wire>)
    requires c.state == ReadSessionTicket
    ensures var r := ClientOnMessage(env, c, m); r.Moved? ==> ClientChecked(env, r.next, seen)
  {
    hide Update, Proven, KindOf;
  }

  lemma {:induction false} ClientFinishedChecked(env: Env, c: Client, m: Msg, seen: seq<Wire>)
    requires c.state == ReadServerFinished && Hs(m) in seen
    ensures var r := ClientOnMessage(env, c, m); r.Moved? ==> ClientChecked(env, r.next, seen)
  {
    hide Update, Proven;
    if ClientOnMessage(env, c, m).Moved? { NowProven(env, Finished, true, seen, c.transcript, m); }
  }

  lemma {:induction false} ClientReadChecked(env: Env, c: Client, m: Msg, seen: seq<Wire>)
    requires ClientChecked(env, c, seen) && ClientReads(c) && Hs(m) in seen
    ensures var r := ClientOnMessage(env, c, m); r.Moved? ==> ClientChecked(env, r.next, seen)
  {
    hide ClientOnMessage, ClientChecked;
    match c.state {
      case ReadServerHello => ClientHelloChecked(env, c, m, seen);
      case ReadServerCertificate => ClientCertificateChecked(env, c, m, seen);
      case ReadCertificateStatus => ClientCertificateChecked(env, c, m, seen);
      case ReadServerKeyExchange => ClientKeyExchangeChecked(env, c, m, seen);
      case ReadCertificateRequest => ClientRequestChecked(env, c, m, seen);
      case ReadServerHelloDone => ClientRequestChecked(env, c, m, seen);
      case ReadSessionTicket => ClientTicketChecked(env, c, m, seen);
      case ReadServerFinished => ClientFinishedChecked(env, c, m, seen);
    }
  }

  lemma {:induction false} ClientAloneChecked(env: Env, c: Client, seen: seq<Wire>)
    requires ClientChecked(env, c, seen) && !ClientReads(c)
    ensures var r := ClientAlone(env, c); r.Moved? ==> ClientChecked(env, r.next, seen)
  {
    hide ClientAlone, ClientChecked;
    match c.state {
      case StartConnect => ClientStartChecked(env, c, seen);
      case EnterEarlyData => ClientStartChecked(env, c, seen);
      case ReadServerCertificate => ClientSkipChecked(env, c, seen);
      case ReadCertificateStatus => ClientSkipChecked(env, c, seen);
      case VerifyServerCertificate => ClientSkipChecked(env, c, seen);
      case ReadCertificateRequest => ClientSkipChecked(env, c, seen);
      case SendClientCertificate => ClientSecondChecked(env, c, seen);
      case SendClientKeyExchange => ClientSecondChecked(env, c, seen);
      case SendClientCertificateVerify => ClientSecondChecked(env, c, seen);
      case SendClientFinished => ClientEndChecked(env, c, seen);
      case FinishFlight => ClientEndChecked(env, c, seen);
      case ReadSessionTicket => ClientStartChecked(env, c, seen);
      case ProcessServerCcs => ClientStartChecked(env, c, seen);
      case FinishClientHandshake => ClientEndChecked(env, c, seen);
      case ClientDone => ClientDoneBlocked(env, c);
    }
  }

  lemma {:induction false} ClientDoneBlocked(env: Env, c: Client)
    requires c.state == ClientDone
    ensures ClientAlone(env, c).Blocked?
  {
  }

  lemma {:induction false} ClientStartChecked(env: Env, c: Client, seen: seq<Wire>)
    requires c.state in {StartConnect, EnterEarlyData, ReadSessionTicket, ProcessServerCcs}
    ensures var r := ClientAlone(env, c); r.Moved? ==> ClientChecked(env, r.next, seen)
  {
    hide Update, Proven;
    match c.state {
      case StartConnect =>
      case EnterEarlyData =>
      case ReadSessionTicket =>
      case ProcessServerCcs =>
    }
  }

  lemma {:induction false} ClientSkipChecked(env: Env, c: Client, seen: seq<Wire>)
    requires ClientChecked(env, c, seen)
        && c.state in {ReadServerCertificate, ReadCertificateStatus, VerifyServerCertificate, ReadCertificateRequest}
    ensures var r := ClientAlone(env, c); r.Moved? ==> ClientChecked(env, r.next, seen)
  {
    hide Proven;
    match c.state {
      case ReadServerCertificate =>
      case ReadCertificateStatus =>
      case VerifyServerCertificate =>
      case ReadCertificateRequest =>
    }
  }

  lemma {:induction false} ClientSecondChecked(env: Env, c: Client, seen: seq<Wire>)
    requires ClientChecked(env, c, seen)
        && c.state in {SendClientCertificate, SendClientKeyExchange, SendClientCertificateVerify}
    ensures var r := ClientAlone(env, c); r.Moved? ==> ClientChecked(env, r.next, seen)
  {
    hide Update, Proven, FreeBuffer, Sign, ClientFinish;
  }

  lemma {:induction false} ClientEndChecked(env: Env, c: Client, seen: seq<Wire>)
    requires ClientChecked(env, c, seen) && c.state in {SendClientFinished, FinishFlight, FinishClientHandshake}
    ensures var r := ClientAlone(env, c); r.Moved? ==> ClientChecked(env, r.next, seen)
  {
    hide Update, Proven, FreeBuffer, Sign, ClientFinish;
    if c.state == SendClientFinished && c.resumed { FinishProven(env, c, seen); }
  }

  /** The client's own messages leave the proof where it is. */
  lemma {:induction false} FinishProven(env: Env, c: Client, seen: seq<Wire>)
    requires Proven(env, Finished, true, seen, c.transcript)
    ensures var f := ClientFinish(env, c); f.Some? ==> Proven(env, Finished, true, seen, f.value.0)
  {
    hide Update, Proven, Sign;
    var m := Plain(NextProto, false, env.body(false, NextProto));
    var t := if c.npn then Update(c.transcript, m) else c.transcript;
    if c.npn { StaysProven(env, Finished, true, seen, c.transcript, m); }
    if t.hash.Some? {
      var id := Sign(env, ChannelId, false, t.hash.value);
      var u := if c.channelId then Update(t, id) else t;
      if c.channelId { StaysProven(env, Finished, true, seen, t, id); }
      if u.hash.Some? { StaysProven(env, Finished, true, seen, u, Sign(env, Finished, false, u.hash.value)); }
    }
  }

  lemma {:induction false} ClientStepChecked(env: Env, c: Client, ins: seq<Wire>, seen: seq<Wire>)
    requires ClientChecked(env, c, seen) && forall x :: x in ins ==> x in seen
    ensures var r := ClientStep(env, c, ins); r.Moved? ==> ClientChecked(env, r.next, seen)
  {
    hide ClientOnMessage, ClientAlone, Proven, ClientReads;
    if !c.needCcs {
      if !ClientReads(c) { ClientAloneChecked(env, c, seen); }
      else if ins != [] && ins[0].Hs? {
        assert ins[0] in ins;
        ClientReadChecked(env, c, ins[0].m, seen);
      }
    }
  }

  lemma {:induction false} DriveClientChecked(env: Env, c: Client, ins: seq<Wire>, seen: seq<Wire>)
    requires ClientChecked(env, c, seen) && forall x :: x in ins ==> x in seen
    ensures var d := DriveClient(env, c, ins); !d.failed ==> ClientChecked(env, d.state, seen)
    decreases ClientMeasure(c)
  {
    hide ClientStep, ClientChecked, ClientMeasure;
    ClientStepChecked(env, c, ins, seen);
    ClientStepSmaller(env, c, ins);
    var r := ClientStep(env, c, ins);
    if r.Moved? { DriveClientChecked(env, r.next, Rest(ins, r.took), seen); }
  }

  /** The driver called whenever something has arrived, with what was left over before it; None if
      one of the calls fails. */
  function FeedClient(env: Env, c: Client, left: seq<Wire>, feeds: seq<seq<Wire>>): Option<Client>
    decreases |feeds|
  {
    if feeds == [] then Some(c)
    else
      var ins := left + feeds[0];
      var d := DriveClient(env, c, ins);
      if d.failed then None else FeedClient(env, d.state, ins[d.took..], feeds[1..])
  }

  /** Everything that has arrived. */
  function Arrived(feeds: seq<seq<Wire>>): seq<Wire> {
    if feeds == [] then [] else feeds[0] + Arrived(feeds[1..])
  }

  lemma {:induction false} FeedClientChecked(env: Env, c: Client, left: seq<Wire>, feeds: seq<seq<Wire>>,
      seen: seq<Wire>)
    requires ClientChecked(env, c, seen) && forall x :: x in left + Arrived(feeds) ==> x in seen
    ensures var r := FeedClient(env, c, left, feeds); r.Some? ==> ClientChecked(env, r.value, seen)
    decreases |feeds|
  {
    hide DriveClient, ClientChecked;
    if feeds != [] {
      var ins := left + feeds[0];
      assert left + Arrived(feeds) == ins + Arrived(feeds[1..]);
      DriveClientChecked(env, c, ins, seen);
      var d := DriveClient(env, c, ins);
      if !d.failed {
        assert ins == ins[..d.took] + ins[d.took..];
        FeedClientChecked(env, d.state, ins[d.took..], feeds[1..], seen);
      }
    }
  }

  /** RFC 5246 section 7.4.9, against any peer: a client whose handshake is done has read a Finished
      message that carries the server's MAC over exactly the messages it had hashed before. */
  lemma {:induction false} ClientVerifies(env: Env, feeds: seq<seq<Wire>>)
    requires FeedClient(env, NEW_CLIENT, [], feeds).Some?
    ensures var c := FeedClient(env, NEW_CLIENT, [], feeds).value;
      c.state == ClientDone ==> Proven(env, Finished, true, Arrived(feeds), c.transcript)
  {
    hide FeedClient, Arrived, Proven;
    assert [] + Arrived(feeds) == Arrived(feeds);
    FeedClientChecked(env, NEW_CLIENT, [], feeds, Arrived(feeds));
  }

  // ------------------------------------------------------------- the server

  /** The states in which the key of a client's certificate is known, but its signature not yet checked. */
  predicate SignaturePending(state: ServerState) {
    state in {VerifyClientCertificate, ReadClientKeyExchange, ReadClientCertificateVerify}
  }

  predicate ServerPast(s: Server) {
    s.state == FinishServerHandshake || s.state == ServerDone || (!s.resumed && s.state == SendServerFinished)
  }

  predicate HelloRead(state: ServerState) {
    state !in {StartAccept, ReadClientHello, SelectCertificate, SelectParameters}
  }

  ghost predicate ServerChecked(env: Env, s: Server, seen: seq<Wire>) {
    && (ServerPast(s) ==> Proven(env, Finished, false, seen, s.transcript))
    && (s.channelId && (ServerPast(s) || s.state == ReadClientFinished) ==> Proven(env, ChannelId, false, seen, s.transcript))
    && (s.peerKey && !SignaturePending(s.state) ==> Proven(env, CertificateVerify, false, seen, s.transcript))
    && BuffersHash(s.transcript) && (HelloRead(s.state) ==> s.transcript.hash.Some?)
  }

  /** The messages buffered for a signature are the hashed ones. */
  predicate BuffersHash(t: Transcript) {
    t.buffer.Some? && t.hash.Some? ==> t.buffer == t.hash
  }

  /** u has everything that was checked over t. */
  ghost predicate Keeps(env: Env, seen: seq<Wire>, t: Transcript, u: Transcript) {
    && (t.hash.Some? ==> u.hash.Some?) && (BuffersHash(t) ==> BuffersHash(u))
    && forall what :: what in {Finished, ChannelId, CertificateVerify} && Proven(env, what, false, seen, t) ==> Proven(env, what, false, seen, u)
  }

  lemma {:induction false} UpdateKeeps(env: Env, seen: seq<Wire>, t: Transcript, m: Msg)
    ensures Keeps(env, seen, t, Update(t, m))
  {
    hide Proven;
    forall what | what in {Finished, ChannelId, CertificateVerify} && Proven(env, what, false, seen, t)
      ensures Proven(env, what, false, seen, Update(t, m))
    {
      StaysProven(env, what, false, seen, t, m);
    }
  }

  lemma {:induction false} FreeKeeps(env: Env, seen: seq<Wire>, t: Transcript)
    ensures Keeps(env, seen, t, FreeBuffer(t)) && Keeps(env, seen, t, t)
  {
    hide ProofAt;
  }

  lemma {:induction false} KeepsThen(env: Env, seen: seq<Wire>, t: Transcript, u: Transcript, v: Transcript)
    requires Keeps(env, seen, t, u) && Keeps(env, seen, u, v)
    ensures Keeps(env, seen, t, v)
  {
    hide Proven;
  }

  /** A step after which nothing more needs to have been checked than before. */
  predicate Onward(s: Server, n: Server) {
    && (ServerPast(n) ==> ServerPast(s)) && (n.channelId ==> s.channelId) && n.peerKey == s.peerKey
    && (n.channelId && n.state == ReadClientFinished ==> s.state == ReadClientFinished)
    && (n.peerKey && SignaturePending(s.state) ==> SignaturePending(n.state))
    && (HelloRead(n.state) ==> HelloRead(s.state))
  }

  lemma {:induction false} OnwardChecked(env: Env, s: Server, n: Server, seen: seq<Wire>)
    requires ServerChecked(env, s, seen) && Onward(s, n) && Keeps(env, seen, s.transcript, n.transcript)
    ensures ServerChecked(env, n, seen)
  {
    hide Proven, BuffersHash, ServerPast, SignaturePending, HelloRead;
  }

  lemma {:induction false} ServerReadChecked(env: Env, s: Server, m: Msg, seen: seq<Wire>)
    requires ServerChecked(env, s, seen) && ServerReads(env, s) && Hs(m) in seen
    ensures var r := ServerOnMessage(env, s, m); r.Moved? ==> ServerChecked(env, r.next, seen)
  {
    hide ServerOnMessage, ServerChecked;
    match s.state {
      case ReadClientHello => WaitingChecked(env, s, m, seen);
      case SelectCertificate => WaitingChecked(env, s, m, seen);
      case SelectParameters => HelloChecked(env, s, m, seen);
      case ReadClientCertificate => CertificateChecked(env, s, m, seen);
      case ReadClientKeyExchange => PassedChecked(env, s, m, seen);
      case ReadClientCertificateVerify => SignatureChecked(env, s, m, seen);
      case ReadNextProto => PassedChecked(env, s, m, seen);
      case ReadChannelId => ChannelIdChecked(env, s, m, seen);
      case ReadClientFinished => FinishedChecked(env, s, m, seen);
    }
  }

  lemma {:induction false} WaitingChecked(env: Env, s: Server, m: Msg, seen: seq<Wire>)
    requires ServerChecked(env, s, seen) && s.state in {ReadClientHello, SelectCertificate}
    ensures var r := ServerOnMessage(env, s, m); r.Moved? ==> ServerChecked(env, r.next, seen)
  {
    hide Proven, KindOf;
  }

  lemma {:induction false} CertificateChecked(env: Env, s: Server, m: Msg, seen: seq<Wire>)
    requires ServerChecked(env, s, seen) && s.state == ReadClientCertificate
    ensures var r := ServerOnMessage(env, s, m); r.Moved? ==> ServerChecked(env, r.next, seen)
  {
    hide Update, Proven, KindOf;
    UpdateKeeps(env, seen, s.transcript, m);
  }

  lemma {:induction false} PassedChecked(env: Env, s: Server, m: Msg, seen: seq<Wire>)
    requires ServerChecked(env, s, seen) && s.state in {ReadClientKeyExchange, ReadNextProto}
    ensures var r := ServerOnMessage(env, s, m); r.Moved? ==> ServerChecked(env, r.next, seen)
  {
    hide Update, Proven, KindOf, ServerChecked, Keeps;
    var r := ServerOnMessage(env, s, m);
    if r.Moved? {
      UpdateKeeps(env, seen, s.transcript, m);
      OnwardChecked(env, s, r.next, seen);
    }
  }

  lemma {:induction false} ChannelIdChecked(env: Env, s: Server, m: Msg, seen: seq<Wire>)
    requires ServerChecked(env, s, seen) && s.state == ReadChannelId && Hs(m) in seen
    ensures var r := ServerOnMessage(env, s, m); r.Moved? ==> ServerChecked(env, r.next, seen)
  {
    hide Update, Proven;
    UpdateKeeps(env, seen, s.transcript, m);
    if ServerOnMessage(env, s, m).Moved? { NowProven(env, ChannelId, false, seen, s.transcript, m); }
  }

  lemma {:induction false} FinishedChecked(env: Env, s: Server, m: Msg, seen: seq<Wire>)
    requires ServerChecked(env, s, seen) && s.state == ReadClientFinished && Hs(m) in seen
    ensures var r := ServerOnMessage(env, s, m); r.Moved? ==> ServerChecked(env, r.next, seen)
  {
    hide Update, Proven;
    UpdateKeeps(env, seen, s.transcript, m);
    if ServerOnMessage(env, s, m).Moved? { NowProven(env, Finished, false, seen, s.transcript, m); }
  }

  lemma {:induction false} HelloChecked(env: Env, s: Server, m: Msg, seen: seq<Wire>)
    requires ServerChecked(env, s, seen) && s.state == SelectParameters
    ensures var r := ServerOnMessage(env, s, m); r.Moved? ==> ServerChecked(env, r.next, seen)
  {
    hide Update, Proven, CertAuth;
    var t := InitHash(s.transcript);
    UpdateKeeps(env, seen, t, m);
    FreeKeeps(env, seen, Update(t, m));
    if s.transcript.hash.Some? && s.transcript.buffer.Some? { assert t == s.transcript; }
    NothingHashed(env, seen, s.transcript);
  }

  lemma {:induction false} NothingHashed(env: Env, seen: seq<Wire>, t: Transcript)
    ensures t.hash.None? ==> forall what :: !Proven(env, what, false, seen, t)
  {
  }

  /** The signature is over the buffered messages, which are the hashed ones. */
  lemma {:induction false} SignatureChecked(env: Env, s: Server, m: Msg, seen: seq<Wire>)
    requires ServerChecked(env, s, seen) && s.state == ReadClientCertificateVerify && Hs(m) in seen
    ensures var r := ServerOnMessage(env, s, m); r.Moved? ==> ServerChecked(env, r.next, seen)
  {
    hide Update, Proven;
    if ServerOnMessage(env, s, m).Moved? {
      var t := FreeBuffer(s.transcript);
      NowProven(env, CertificateVerify, false, seen, t, m);
      UpdateKeeps(env, seen, t, m);
    }
  }

  lemma {:induction false} ServerAloneChecked(env: Env, s: Server, seen: seq<Wire>)
    requires ServerChecked(env, s, seen) && !ServerReads(env, s)
    ensures var r := ServerAlone(env, s); r.Moved? ==> ServerChecked(env, r.next, seen)
  {
    hide ServerAlone, ServerChecked;
    match s.state {
      case SendServerHello => PutHelloChecked(env, s, seen);
      case SendServerCertificate => PutCertificateChecked(env, s, seen);
      case SendServerKeyExchange => PutKeyExchangeChecked(env, s, seen);
      case SendServerHelloDone => PutHelloDoneChecked(env, s, seen);
      case SendServerFinished => PutFinishedChecked(env, s, seen);
      case ReadClientCertificateVerify => NoSignatureChecked(env, s, seen);
      case _ => SkipChecked(env, s, seen);
    }
  }

  lemma {:induction false} PutHelloChecked(env: Env, s: Server, seen: seq<Wire>)
    requires ServerChecked(env, s, seen) && s.state == SendServerHello
    ensures var r := ServerAlone(env, s); r.Moved? ==> ServerChecked(env, r.next, seen)
  {
    hide Update, ServerChecked, Keeps, CertAuth, ServerFlags;
    forall m { UpdateKeeps(env, seen, s.transcript, m); }
    OnwardChecked(env, s, ServerAlone(env, s).next, seen);
  }

  lemma {:induction false} PutCertificateChecked(env: Env, s: Server, seen: seq<Wire>)
    requires ServerChecked(env, s, seen) && s.state == SendServerCertificate
    ensures var r := ServerAlone(env, s); r.Moved? ==> ServerChecked(env, r.next, seen)
  {
    hide Update, ServerChecked, Keeps, ServerAlone;
    var cert := Plain(Certificate, false, env.body(true, Certificate));
    var status := Plain(CertificateStatus, false, env.body(true, CertificateStatus));
    PutCertificateAdds(env, s, cert, status);
    TwoKeep(env, seen, s.transcript, cert, status);
    OnwardChecked(env, s, ServerAlone(env, s).next, seen);
  }

  lemma {:induction false} PutCertificateAdds(env: Env, s: Server, cert: Msg, status: Msg)
    requires s.state == SendServerCertificate
    requires cert == Plain(Certificate, false, env.body(true, Certificate))
        && status == Plain(CertificateStatus, false, env.body(true, CertificateStatus))
    ensures ServerAlone(env, s).Moved?
    ensures var n := ServerAlone(env, s).next; n.state == SendServerKeyExchange && n.channelId == s.channelId && n.peerKey == s.peerKey
    ensures ServerAlone(env, s).next.transcript
         == if !CertAuth(env.cipher) then s.transcript else if !s.statusExpected then Update(s.transcript, cert) else Update(Update(s.transcript, cert), status)
  {
    hide Update, CertAuth, RequiresKeyExchange, ServerFinish, ServerFlags, FreeBuffer;
  }

  lemma {:induction false} TwoKeep(env: Env, seen: seq<Wire>, t: Transcript, a: Msg, b: Msg)
    ensures Keeps(env, seen, t, t) && Keeps(env, seen, t, Update(t, a)) && Keeps(env, seen, t, Update(t, b))
    ensures Keeps(env, seen, t, Update(Update(t, a), b))
  {
    hide Update, Keeps;
    FreeKeeps(env, seen, t);
    UpdateKeeps(env, seen, t, a);
    UpdateKeeps(env, seen, t, b);
    UpdateKeeps(env, seen, Update(t, a), b);
    KeepsThen(env, seen, t, Update(t, a), Update(Update(t, a), b));
  }

  lemma {:induction false} PutKeyExchangeChecked(env: Env, s: Server, seen: seq<Wire>)
    requires ServerChecked(env, s, seen) && s.state == SendServerKeyExchange
    ensures var r := ServerAlone(env, s); r.Moved? ==> ServerChecked(env, r.next, seen)
  {
    hide Update, ServerChecked, Keeps;
    var m := Plain(ServerKeyExchange, false, env.body(true, ServerKeyExchange));
    TwoKeep(env, seen, s.transcript, m, m);
    OnwardChecked(env, s, ServerAlone(env, s).next, seen);
  }

  lemma {:induction false} PutHelloDoneChecked(env: Env, s: Server, seen: seq<Wire>)
    requires ServerChecked(env, s, seen) && s.state == SendServerHelloDone
    ensures var r := ServerAlone(env, s); r.Moved? ==> ServerChecked(env, r.next, seen)
  {
    hide Update, ServerChecked, Keeps;
    var req := Plain(CertificateRequest, false, env.body(true, CertificateRequest));
    var done := Plain(ServerHelloDone, false, env.body(true, ServerHelloDone));
    TwoKeep(env, seen, s.transcript, req, done);
    OnwardChecked(env, s, ServerAlone(env, s).next, seen);
  }

  lemma {:induction false} PutFinishedChecked(env: Env, s: Server, seen: seq<Wire>)
    requires ServerChecked(env, s, seen) && s.state == SendServerFinished
    ensures var r := ServerAlone(env, s); r.Moved? ==> ServerChecked(env, r.next, seen)
  {
    hide ServerChecked, Keeps, ServerFinish;
    if ServerFinish(env, s).Some? {
      ServerFinishKeeps(env, s, seen);
      OnwardChecked(env, s, ServerAlone(env, s).next, seen);
    }
  }

  lemma {:induction false} ServerFinishKeeps(env: Env, s: Server, seen: seq<Wire>)
    requires ServerFinish(env, s).Some?
    ensures Keeps(env, seen, s.transcript, ServerFinish(env, s).value.0)
  {
    hide Update, Keeps, Sign;
    var m := Plain(NewSessionTicket, env.emptyTicket, env.body(true, NewSessionTicket));
    var t := if s.ticketExpected then Update(s.transcript, m) else s.transcript;
    TwoKeep(env, seen, s.transcript, m, Sign(env, Finished, true, t.hash.value));
  }

  lemma {:induction false} NoSignatureChecked(env: Env, s: Server, seen: seq<Wire>)
    requires ServerChecked(env, s, seen) && s.state == ReadClientCertificateVerify && !s.peerKey
    ensures var r := ServerAlone(env, s); r.Moved? ==> ServerChecked(env, r.next, seen)
  {
    hide FreeBuffer, ServerChecked, Keeps;
    FreeKeeps(env, seen, s.transcript);
    OnwardChecked(env, s, ServerAlone(env, s).next, seen);
  }

  /** The steps that leave the transcript alone. */
  lemma {:induction false} SkipChecked(env: Env, s: Server, seen: seq<Wire>)
    requires ServerChecked(env, s, seen) && !ServerReads(env, s)
    requires s.state !in {SendServerHello, SendServerCertificate, SendServerKeyExchange, SendServerHelloDone, SendServerFinished, ReadClientCertificateVerify}
    ensures var r := ServerAlone(env, s); r.Moved? ==> ServerChecked(env, r.next, seen)
  {
    hide ServerChecked, Keeps, ServerAlone, ServerReads, Onward;
    var r := ServerAlone(env, s);
    SkipOnward(env, s);
    if r.Moved? {
      FreeKeeps(env, seen, s.transcript);
      OnwardChecked(env, s, r.next, seen);
    }
  }

  lemma {:induction false} SkipOnward(env: Env, s: Server)
    requires !ServerReads(env, s)
    requires s.state !in {SendServerHello, SendServerCertificate, SendServerKeyExchange, SendServerHelloDone, SendServerFinished, ReadClientCertificateVerify}
    ensures var r := ServerAlone(env, s); r.Moved? ==> r.next.transcript == s.transcript && Onward(s, r.next)
  {
    hide ServerAlone;
    SkipsTo(env, s);
    match s.state {
      case StartAccept =>
      case ReadClientCertificate =>
      case VerifyClientCertificate =>
      case ReadClientCcs =>
      case ProcessClientCcs =>
      case ReadNextProto =>
      case ReadChannelId =>
      case FinishServerHandshake =>
      case ServerDone =>
    }
  }

  lemma {:induction false} SkipsTo(env: Env, s: Server)
    ensures s.state == StartAccept ==> ServerAlone(env, s) == GoS(s, ReadClientHello)
    ensures s.state == ReadClientCertificate ==> ServerAlone(env, s) == GoS(s, VerifyClientCertificate)
    ensures s.state == VerifyClientCertificate ==> ServerAlone(env, s) == GoS(s, ReadClientKeyExchange)
    ensures s.state == ReadClientCcs ==> ServerAlone(env, s) == GoS(s.(needCcs := true), ProcessClientCcs)
    ensures s.state == ProcessClientCcs ==> ServerAlone(env, s) == GoS(s, ReadNextProto)
    ensures s.state == ReadNextProto ==> ServerAlone(env, s) == GoS(s, ReadChannelId)
    ensures s.state == ReadChannelId ==> ServerAlone(env, s) == GoS(s, ReadClientFinished)
    ensures s.state == FinishServerHandshake ==> ServerAlone(env, s) == GoS(s, ServerDone)
    ensures s.state == ServerDone ==> ServerAlone(env, s) == Blocked
  {
    hide Update, FreeBuffer, ServerFinish, CertAuth, RequiresKeyExchange, ServerFlags;
  }

  lemma {:induction false} ServerStepChecked(env: Env, s: Server, ins: seq<Wire>, seen: seq<Wire>)
    requires ServerChecked(env, s, seen) && forall x :: x in ins ==> x in seen
    ensures var r := ServerStep(env, s, ins); r.Moved? ==> ServerChecked(env, r.next, seen)
  {
    hide ServerOnMessage, ServerAlone, Proven, ServerReads;
    if !s.needCcs {
      if !ServerReads(env, s) { ServerAloneChecked(env, s, seen); }
      else if ins != [] && ins[0].Hs? {
        assert ins[0] in ins;
        ServerReadChecked(env, s, ins[0].m, seen);
      }
    }
  }

  lemma {:induction false} DriveServerChecked(env: Env, s: Server, ins: seq<Wire>, seen: seq<Wire>)
    requires ServerChecked(env, s, seen) && forall x :: x in ins ==> x in seen
    ensures var d := DriveServer(env, s, ins); !d.failed ==> ServerChecked(env, d.state, seen)
    decreases ServerMeasure(s)
  {
    hide ServerStep, ServerChecked, ServerMeasure;
    ServerStepChecked(env, s, ins, seen);
    ServerStepSmaller(env, s, ins);
    var r := ServerStep(env, s, ins);
    if r.Moved? { DriveServerChecked(env, r.next, Rest(ins, r.took), seen); }
  }

  function FeedServer(env: Env, s: Server, left: seq<Wire>, feeds: seq<seq<Wire>>): Option<Server>
    decreases |feeds|
  {
    if feeds == [] then Some(s)
    else
      var ins := left + feeds[0];
      var d := DriveServer(env, s, ins);
      if d.failed then None else FeedServer(env, d.state, ins[d.took..], feeds[1..])
  }

  lemma {:induction false} FeedServerChecked(env: Env, s: Server, left: seq<Wire>, feeds: seq<seq<Wire>>,
      seen: seq<Wire>)
    requires ServerChecked(env, s, seen) && forall x :: x in left + Arrived(feeds) ==> x in seen
    ensures var r := FeedServer(env, s, left, feeds); r.Some? ==> ServerChecked(env, r.value, seen)
    decreases |feeds|
  {
    hide DriveServer, ServerChecked;
    if feeds != [] {
      var ins := left + feeds[0];
      assert left + Arrived(feeds) == ins + Arrived(feeds[1..]);
      DriveServerChecked(env, s, ins, seen);
      var d := DriveServer(env, s, ins);
      if !d.failed {
        assert ins == ins[..d.took] + ins[d.took..];
        FeedServerChecked(env, d.state, ins[d.took..], feeds[1..], seen);
      }
    }
  }

  /** RFC 5246 sections 7.4.8 and 7.4.9, against any peer: a server whose handshake is done has read
      a Finished message with the client's MAC over exactly the messages it had hashed before; if it
      accepted a Channel ID, a proof of that; and if it has the key of a client certificate, a
      signature of the messages before it. */
  lemma {:induction false} ServerVerifies(env: Env, feeds: seq<seq<Wire>>)
    requires FeedServer(env, NEW_SERVER, [], feeds).Some?
    ensures var s := FeedServer(env, NEW_SERVER, [], feeds).value;
      s.state == ServerDone ==>
        && Proven(env, Finished, false, Arrived(feeds), s.transcript)
        && (s.channelId ==> Proven(env, ChannelId, false, Arrived(feeds), s.transcript))
        && (s.peerKey ==> Proven(env, CertificateVerify, false, Arrived(feeds), s.transcript))
  {
    hide FeedServer, Arrived, Proven;
    assert [] + Arrived(feeds) == Arrived(feeds);
    FeedServerChecked(env, NEW_SERVER, [], feeds, Arrived(feeds));
  }
}
