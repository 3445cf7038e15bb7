/** Driving the two machines in turn, each as far as its input lets it, completes the handshake. */
module TlsComplete {
  import opened Words
  import opened TlsHandshake
  import opened TlsAgreement
  import opened TlsServerOrder
  import opened TlsMachines
  import opened TlsJoint

  /** The client's driver loop on what has arrived; None if it fails. */
  function RunClient(env: Env, j: Joint): Option<Joint> {
    var d := DriveClient(env, j.client, j.toClient);
    if d.failed then None else Some(Joint(d.state, j.server, j.toServer + d.sent, j.toClient[d.took..]))
  }

  function RunServer(env: Env, j: Joint): Option<Joint> {
    var d := DriveServer(env, j.server, j.toServer);
    if d.failed then None else Some(Joint(j.client, d.state, j.toServer[d.took..], j.toClient + d.sent))
  }

  lemma {:induction false} RunClientTurn(env: Env, j: Joint)
    ensures var r := ClientStep(env, j.client, j.toClient);
      match r
      case Failed => RunClient(env, j) == None
      case Blocked => RunClient(env, j) == Some(j)
      case Moved(_, _, _) => Turn(env, j, true).Some? && RunClient(env, j) == RunClient(env, Turn(env, j, true).value)
  {
    hide ClientStep, ClientMeasure;
    ClientStepSmaller(env, j.client, j.toClient);
    match ClientStep(env, j.client, j.toClient)
    case Failed =>
    case Blocked => assert j.toServer + [] == j.toServer && j.toClient[0..] == j.toClient;
    case Moved(n, took, sent) =>
      var d := DriveClient(env, n, Rest(j.toClient, took));
      assert Rest(j.toClient, took) == Drop(j.toClient, took);
      assert (j.toServer + sent) + d.sent == j.toServer + (sent + d.sent);
  }

  lemma {:induction false} RunServerTurn(env: Env, j: Joint)
    ensures var r := ServerStep(env, j.server, j.toServer);
      match r
      case Failed => RunServer(env, j) == None
      case Blocked => RunServer(env, j) == Some(j)
      case Moved(_, _, _) => Turn(env, j, false).Some? && RunServer(env, j) == RunServer(env, Turn(env, j, false).value)
  {
    hide ServerStep, ServerMeasure;
    ServerStepSmaller(env, j.server, j.toServer);
    match ServerStep(env, j.server, j.toServer)
    case Failed =>
    case Blocked => assert j.toClient + [] == j.toClient && j.toServer[0..] == j.toServer;
    case Moved(n, took, sent) =>
      var d := DriveServer(env, n, Rest(j.toServer, took));
      assert Rest(j.toServer, took) == Drop(j.toServer, took);
      assert (j.toClient + sent) + d.sent == j.toClient + (sent + d.sent);
  }

  /** A driver loop fails nothing, keeps the invariant, and stops only for want of input. */
  lemma {:induction false} RunKeeps(env: Env, j: Joint, clients: bool)
    requires Inv(env, j)
    ensures var r := if clients then RunClient(env, j) else RunServer(env, j);
      && r.Some? && Inv(env, r.value) && (r.value == j || Measure(env, r.value) < Measure(env, j))
      && (r.value == j ==> if clients then ClientStep(env, j.client, j.toClient).Blocked? else ServerStep(env, j.server, j.toServer).Blocked?)
    decreases Measure(env, j)
  {
    hide ClientStep, ServerStep, Inv, RunClient, RunServer, Measure;
    TurnInv(env, j, clients);
    StepMoves(env, j, clients);
    if clients { RunClientTurn(env, j); } else { RunServerTurn(env, j); }
    var n := Turn(env, j, clients).value;
    if n != j { RunKeeps(env, n, clients); }
  }

  /** A step that is taken changes something. */
  lemma {:induction false} StepMoves(env: Env, j: Joint, clients: bool)
    ensures clients && ClientStep(env, j.client, j.toClient).Moved? ==> Turn(env, j, true) != Some(j)
    ensures !clients && ServerStep(env, j.server, j.toServer).Moved? ==> Turn(env, j, false) != Some(j)
  {
    hide ClientStep, ServerStep, ClientMeasure, ServerMeasure;
    ClientStepSmaller(env, j.client, j.toClient);
    ServerStepSmaller(env, j.server, j.toServer);
  }

  /** The client and the server driven in turn, so many times. */
  function Rounds(env: Env, j: Joint, n: nat): Option<Joint>
    decreases n
  {
    if n == 0 then Some(j)
    else
      var a :- RunClient(env, j);
      var b :- RunServer(env, a);
      Rounds(env, b, n - 1)
  }

  predicate Complete(j: Joint) {
    j.client.state == ClientDone && j.server.state == ServerDone && j.toServer == [] && j.toClient == []
  }

  lemma {:induction false} CompletesFrom(env: Env, j: Joint) returns (n: nat)
    requires Inv(env, j)
    ensures Rounds(env, j, n).Some? && Complete(Rounds(env, j, n).value)
    decreases Measure(env, j)
  {
    hide ClientStep, ServerStep, Inv, RunClient, RunServer, Measure, ClientMeasure, ServerMeasure;
    RunKeeps(env, j, true);
    var a := RunClient(env, j).value;
    RunKeeps(env, a, false);
    var b := RunServer(env, a).value;
    if b == j {
      StuckIsDone(env, j);
      n := 0;
    } else {
      var k := CompletesFrom(env, b);
      n := k + 1;
    }
  }

  /** Whatever is negotiated, driving the client and the server in turn often enough ends with both
      done and nothing left on the way, and neither fails on the way there. */
  lemma {:induction false} HandshakeCompletes(env: Env)
    requires EnvOk(env)
    ensures exists n: nat :: Rounds(env, START, n).Some? && Complete(Rounds(env, START, n).value)
  {
    hide *;
    StartInv(env);
    var n := CompletesFrom(env, START);
  }
}
