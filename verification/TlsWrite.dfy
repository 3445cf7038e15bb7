/** The TLS write path: sealed records go through the pending flight and the write buffer to a
    transport that may write less than it is given, or fail. */
module TlsWrite {
  import opened Words

  const MAX_PLAIN_LENGTH: nat := 16384
  const MAX_BUFFER: nat := 0xffff
  const INT_MAX: nat := 0x7fff_ffff
  const CHANGE_CIPHER_SPEC: Byte := 20
  const ALERT: Byte := 21
  const HANDSHAKE: Byte := 22
  const APPLICATION_DATA: Byte := 23
  const FATAL: Byte := 2

  /** What the write path does not control.  writes(k) is what the transport would answer to its
      k-th write, flushes(k) whether its k-th flush succeeds; seal(k, ...) is the k-th call of
      tls_seal_record, which may fail. */
  datatype Env = Env(
    writes: nat -> int, flushes: nat -> bool,
    seal: (nat, Byte, seq<Byte>) -> Option<seq<Byte>>, overhead: nat,
    maxFragment: nat, partialWrite: bool, movingBuffer: bool)

  ghost predicate EnvOk(env: Env) {
    forall k, t, p :: env.seal(k, t, p).Some? ==> |env.seal(k, t, p).value| <= |p| + env.overhead
  }

  /** A record that was sealed. */
  datatype Sealed = Sealed(recordType: Byte, plain: seq<Byte>, bytes: seq<Byte>)

  /** Where some plaintext lies in the caller's memory. */
  datatype Pointer = Pointer(base: nat, off: nat)

  /** wpend_*: a record that is sealed but not completely written. */
  datatype Pending = Pending(len: nat, at: Pointer, recordType: Byte)

  /** wire and log are histories: the bytes the transport took, and the records sealed; `ahead`
      counts the records that are not part of the pending flight. */
  datatype State = State(
    wire: seq<Byte>, log: seq<Sealed>, ahead: nat,
    writeCalls: nat, flushCalls: nat, sealCalls: nat,
    buffer: seq<Byte>, flight: Option<seq<Byte>>, flightOffset: nat,
    pending: Option<Pending>, wnum: nat,
    shutdown: bool, alert: seq<Byte>, alertDispatch: bool)

  const NEW := State([], [], 0, 0, 0, 0, [], None, 0, None, 0, false, [], false)

  function Unsent(s: State): seq<Byte>
    requires s.flight.Some? ==> s.flightOffset <= |s.flight.value|
  {
    if s.flight.None? then [] else s.flight.value[s.flightOffset..]
  }

  /** The answer of the transport to a write of len bytes. */
  function WriteAnswer(env: Env, k: nat, len: nat): int {
    if env.writes(k) > len then len else env.writes(k)
  }

  /** tls_write_buffer_flush. */
  function FlushBuffer(env: Env, s: State): (res: (State, int))
    ensures res.1 > 0 ==> res.0.buffer == []
    decreases |s.buffer|
  {
    if s.buffer == [] then (s, 1)
    else
      var ret := WriteAnswer(env, s.writeCalls, |s.buffer|);
      var t := s.(writeCalls := s.writeCalls + 1);
      if ret <= 0 then (t, ret)
      else FlushBuffer(env, Took(s, ret))
  }

  /** One write of the buffer that took n bytes. */
  function Took(s: State, n: nat): State
    requires n <= |s.buffer|
  {
    s.(writeCalls := s.writeCalls + 1, wire := s.wire + s.buffer[..n], buffer := s.buffer[n..])
  }

  /** ssl3_write_pending. */
  function WritePending(env: Env, s: State, recordType: Byte, at: Pointer, len: nat): (State, int)
    requires s.pending.Some?
  {
    var p := s.pending.value;
    if p.len > len || (!env.movingBuffer && p.at != at) || p.recordType != recordType then (s, -1)
    else
      var r := FlushBuffer(env, s);
      if r.1 <= 0 then r else (r.0.(pending := None), p.len)
  }

  function Flat(log: seq<Sealed>): seq<Byte> {
    if log == [] then [] else Flat(log[..|log| - 1]) + log[|log| - 1].bytes
  }

  /** The unsent part of the pending flight goes in front of new data. */
  function TakeFlight(s: State): State
    requires s.flight.Some? ==> s.flightOffset <= |s.flight.value|
  {
    s.(buffer := s.buffer + Unsent(s), flight := None, flightOffset := 0, ahead := |s.log|)
  }

  /** A sealed record goes behind what is in the buffer, and is pending. */
  function Appended(t: State, r: Sealed, p: Pending): State {
    t.(buffer := t.buffer + r.bytes, log := t.log + [r], ahead := |t.log| + 1, pending := Some(p))
  }

  /** do_ssl3_write. */
  function DoWrite(env: Env, s: State, recordType: Byte, at: Pointer, plain: seq<Byte>): (res: (State, int))
    requires Shape(s)
  {
    if s.pending.Some? then WritePending(env, s, recordType, at, |plain|)
    else if |plain| > MAX_PLAIN_LENGTH || s.buffer != [] then (s, -1)
    else if plain == [] then (s, 0)
    else if |plain| + env.overhead + |Unsent(s)| > MAX_BUFFER then (s, -1)
    else
      var t := TakeFlight(s).(sealCalls := s.sealCalls + 1);
      var sealed := env.seal(s.sealCalls, recordType, plain);
      if sealed.None? then (t, -1)
      else
        WritePending(env, Appended(t, Sealed(recordType, plain, sealed.value), Pending(|plain|, at, recordType)), recordType, at, |plain|)
  }

  /** The loop of ssl3_write_app_data, with tot bytes done (early data is not modelled). */
  function AppLoop(env: Env, s: State, base: nat, input: seq<Byte>, tot: nat): (State, int)
    requires Shape(s) && tot <= |input|
    decreases |input| - tot
  {
    var n := |input| - tot;
    var nw := if n > env.maxFragment then env.maxFragment else n;
    DoWriteShape(env, s, APPLICATION_DATA, Pointer(base, tot), input[tot..tot + nw]);
    var r := DoWrite(env, s, APPLICATION_DATA, Pointer(base, tot), input[tot..tot + nw]);
    if r.1 <= 0 then (r.0.(wnum := tot), r.1)
    else if r.1 == n || env.partialWrite then (r.0, tot + r.1)
    else AppLoop(env, r.0, base, input, tot + r.1)
  }

  /** ssl3_write_app_data. */
  function WriteApp(env: Env, s: State, base: nat, input: seq<Byte>): (State, int)
    requires Shape(s)
  {
    if s.shutdown then (s, -1)
    else if |input| < s.wnum then (s.(wnum := 0), -1)
    else AppLoop(env, s.(wnum := 0), base, input, s.wnum)
  }

  /** What the fields always satisfy: an offset only inside a flight, and only while the write
      buffer is empty. */
  predicate Shape(s: State) {
    && (s.flight.None? ==> s.flightOffset == 0)
    && (s.flight.Some? ==> s.flightOffset <= |s.flight.value|)
    && (s.flightOffset > 0 ==> s.buffer == [])
  }

  lemma {:induction false} FlushBufferShape(env: Env, s: State)
    ensures var t := FlushBuffer(env, s).0;
      && t == s.(wire := t.wire, writeCalls := t.writeCalls, buffer := t.buffer)
      && t.wire + t.buffer == s.wire + s.buffer
      && (s.buffer == [] ==> t == s)
      && s.wire <= t.wire
    decreases |s.buffer|
  {
    if s.buffer != [] {
      var ret := WriteAnswer(env, s.writeCalls, |s.buffer|);
      if ret > 0 {
        FlushBufferShape(env, Took(s, ret));
        MoveFront(s.wire, s.buffer, ret);
      }
    }
  }

  lemma {:induction false} MoveFront(wire: seq<Byte>, bs: seq<Byte>, n: nat)
    requires n <= |bs|
    ensures wire + bs[..n] + bs[n..] == wire + bs && wire <= wire + bs[..n]
  {
  }

  lemma {:induction false} DoWriteShape(env: Env, s: State, recordType: Byte, at: Pointer, plain: seq<Byte>)
    requires Shape(s)
    ensures Shape(DoWrite(env, s, recordType, at, plain).0)
    ensures DoWrite(env, s, recordType, at, plain).1 <= |plain|
  {
    hide FlushBuffer;
    if s.pending.Some? { FlushBufferShape(env, s); }
    else {
      var t := TakeFlight(s).(sealCalls := s.sealCalls + 1);
      var sealed := env.seal(s.sealCalls, recordType, plain);
      if sealed.Some? {
        FlushBufferShape(env, Appended(t, Sealed(recordType, plain, sealed.value), Pending(|plain|, at, recordType)));
      }
    }
  }

  // ------------------------------------------------------------- flights and alerts

  /** add_record_to_flight. */
  function AddRecord(env: Env, s: State, recordType: Byte, plain: seq<Byte>): (State, bool) {
    var was := if s.flight.None? then [] else s.flight.value;
    var t := s.(flight := Some(was), sealCalls := s.sealCalls + 1);
    var sealed := env.seal(s.sealCalls, recordType, plain);
    if sealed.None? then (t, false)
    else (t.(flight := Some(was + sealed.value), log := s.log + [Sealed(recordType, plain, sealed.value)]), true)
  }

  /** ssl3_add_message: at least one record, each of at most maxFragment bytes. */
  function AddMessage(env: Env, s: State, message: seq<Byte>): (State, bool)
    requires env.maxFragment > 0
    decreases |message|
  {
    var n := if |message| > env.maxFragment then env.maxFragment else |message|;
    var r := AddRecord(env, s, HANDSHAKE, message[..n]);
    if !r.1 || n == |message| then r else AddMessage(env, r.0, message[n..])
  }

  /** The loop of ssl3_flush_flight. */
  function FlightLoop(env: Env, s: State): (State, int)
    requires s.flight.Some?
    decreases |s.flight.value| - s.flightOffset
  {
    if s.flightOffset >= |s.flight.value| then (s, 1)
    else
      var ret := WriteAnswer(env, s.writeCalls, |s.flight.value| - s.flightOffset);
      var t := s.(writeCalls := s.writeCalls + 1);
      if ret <= 0 then (t, ret)
      else FlightLoop(env, AfterStep(s, ret))
  }

  /** One write of the pending flight that took n bytes. */
  function AfterStep(s: State, n: nat): State
    requires s.flight.Some? && s.flightOffset + n <= |s.flight.value|
  {
    s.(writeCalls := s.writeCalls + 1, wire := s.wire + s.flight.value[s.flightOffset..s.flightOffset + n], flightOffset := s.flightOffset + n)
  }

  /** ssl3_flush_flight. */
  function FlushFlight(env: Env, s: State): (State, int) {
    if s.flight.None? then (s, 1)
    else if s.shutdown || |s.flight.value| > INT_MAX then (s, -1)
    else
      var r := FlushBuffer(env, s);
      if r.1 <= 0 then r
      else
        FlushBufferShape(env, s);
        var q := FlightLoop(env, r.0);
        if q.1 <= 0 then q
        else
          var t := q.0.(flushCalls := q.0.flushCalls + 1);
          if !env.flushes(q.0.flushCalls) then (t, -1)
          else (t.(flight := None, flightOffset := 0, ahead := |t.log|), 1)
  }

  /** ssl3_dispatch_alert; the two bytes of the alert are at a place of their own. */
  const ALERT_BASE: nat := 0

  function DispatchAlert(env: Env, s: State): (State, int)
    requires Shape(s)
  {
    var r := DoWrite(env, s, ALERT, Pointer(ALERT_BASE, 0), s.alert);
    if r.1 <= 0 then r
    else (r.0.(alertDispatch := false, flushCalls := if s.alert != [] && s.alert[0] == FATAL then r.0.flushCalls + 1 else r.0.flushCalls), 1)
  }

  /** ssl_send_alert: dispatched at once only if nothing is being written. */
  function SendAlert(env: Env, s: State, level: Byte, desc: Byte): (State, int)
    requires Shape(s)
  {
    if s.shutdown then (s, -1)
    else
      var t := s.(shutdown := true, alert := [level, desc], alertDispatch := true);
      if t.buffer == [] then DispatchAlert(env, t) else (t, -1)
  }

  // ------------------------------------------------------------- conservation

  /** The bytes on the wire, in the write buffer and still to be sent from the pending flight. */
  function Everything(s: State): seq<Byte>
    requires Shape(s)
  {
    s.wire + s.buffer + Unsent(s)
  }

  /** Nothing is lost, repeated or reordered; and what is not in the pending flight is exactly
      the first `ahead` records. */
  predicate Conserved(s: State) {
    && Shape(s) && Everything(s) == Flat(s.log)
    && s.ahead <= |s.log|
    && (s.flight.None? ==> s.ahead == |s.log|)
    && s.wire + s.buffer == Flat(s.log[..s.ahead]) + Begun(s)
    && (forall k :: s.ahead <= k < |s.log| ==> s.log[k].recordType != APPLICATION_DATA)
  }

  /** The part of the pending flight that is already on the wire. */
  function Begun(s: State): seq<Byte>
    requires Shape(s)
  {
    if s.flight.None? then [] else s.flight.value[..s.flightOffset]
  }

  lemma {:induction false} FlushBufferConserves(env: Env, s: State)
    requires Conserved(s)
    ensures Conserved(FlushBuffer(env, s).0)
  {
    hide FlushBuffer, Flat;
    FlushBufferShape(env, s);
    var t := FlushBuffer(env, s).0;
    assert Unsent(t) == Unsent(s) && Begun(t) == Begun(s);
    if s.flightOffset > 0 { assert t == s; }
  }

  lemma {:induction false} WritePendingConserves(env: Env, s: State, recordType: Byte, at: Pointer, len: nat)
    requires Conserved(s) && s.pending.Some?
    ensures Conserved(WritePending(env, s, recordType, at, len).0)
  {
    hide FlushBuffer, Flat;
    FlushBufferConserves(env, s);
  }

  lemma {:induction false} FlatMore(log: seq<Sealed>, r: Sealed)
    ensures Flat(log + [r]) == Flat(log) + r.bytes
  {
    assert (log + [r])[..|log|] == log;
  }

  lemma {:induction false} TakeFlightConserves(s: State)
    requires Conserved(s) && s.buffer == []
    ensures Conserved(TakeFlight(s)) && TakeFlight(s).wire + TakeFlight(s).buffer == Flat(s.log)
  {
    hide Flat;
    var t := TakeFlight(s);
    assert t.buffer == Unsent(s) && s.wire + [] == s.wire;
    assert Everything(t) == t.wire + t.buffer;
    assert s.log[..|s.log|] == s.log;
    assert Begun(t) == [] && Flat(s.log) + [] == Flat(s.log);
  }

  lemma {:induction false} AppendConserves(t: State, r: Sealed, p: Pending)
    requires Conserved(t) && t.flight.None?
    ensures Conserved(Appended(t, r, p))
  {
    hide Flat;
    var u := Appended(t, r, p);
    FlatMore(t.log, r);
    assert t.log[..|t.log|] == t.log && u.log[..|u.log|] == u.log;
    assert t.wire + (t.buffer + r.bytes) == t.wire + t.buffer + r.bytes;
    assert Everything(t) == t.wire + t.buffer && Everything(u) == u.wire + u.buffer;
    assert Flat(u.log) + [] == Flat(u.log);
  }

  lemma {:induction false} DoWriteConserves(env: Env, s: State, recordType: Byte, at: Pointer, plain: seq<Byte>)
    requires Conserved(s)
    ensures Conserved(DoWrite(env, s, recordType, at, plain).0)
  {
    hide FlushBuffer, Flat, Conserved, TakeFlight, WritePending;
    ConservedShape(s);
    if s.pending.Some? {
      WritePendingConserves(env, s, recordType, at, |plain|);
    } else if s.buffer == [] {
      TakeFlightConserves(s);
      CountersAlone(TakeFlight(s));
      var t := TakeFlight(s).(sealCalls := s.sealCalls + 1);
      var sealed := env.seal(s.sealCalls, recordType, plain);
      if sealed.Some? {
        var r, p := Sealed(recordType, plain, sealed.value), Pending(|plain|, at, recordType);
        NoFlight(s);
        AppendConserves(t, r, p);
        WritePendingConserves(env, Appended(t, r, p), recordType, at, |plain|);
      }
    }
  }

  lemma {:induction false} NoFlight(s: State)
    requires Shape(s)
    ensures TakeFlight(s).flight.None?
  {
  }

  lemma {:induction false} ConservedShape(s: State)
    requires Conserved(s)
    ensures Shape(s)
  {
  }

  /** Fields that conservation does not speak of. */
  lemma {:induction false} CountersAlone(s: State)
    requires Conserved(s)
    ensures forall n, c, f, w, a, d, h :: Conserved(s.(writeCalls := n, sealCalls := c, flushCalls := f, wnum := w, alert := a, alertDispatch := d, shutdown := h))
  {
    hide Flat;
  }

  lemma {:induction false} AppLoopConserves(env: Env, s: State, base: nat, input: seq<Byte>, tot: nat)
    requires Conserved(s) && Shape(s) && tot <= |input|
    ensures Conserved(AppLoop(env, s, base, input, tot).0)
    decreases |input| - tot
  {
    hide DoWrite, Conserved, Shape;
    var n := |input| - tot;
    var nw := if n > env.maxFragment then env.maxFragment else n;
    var at, plain := Pointer(base, tot), input[tot..tot + nw];
    DoWriteShape(env, s, APPLICATION_DATA, at, plain);
    DoWriteConserves(env, s, APPLICATION_DATA, at, plain);
    var r := DoWrite(env, s, APPLICATION_DATA, at, plain);
    CountersAlone(r.0);
    if r.1 > 0 && r.1 != n && !env.partialWrite { AppLoopConserves(env, r.0, base, input, tot + r.1); }
  }

  lemma {:induction false} AddRecordConserves(env: Env, s: State, recordType: Byte, plain: seq<Byte>)
    requires Conserved(s) && recordType != APPLICATION_DATA
    ensures Conserved(AddRecord(env, s, recordType, plain).0)
  {
    hide Conserved, Flat;
    NewFlightConserves(s);
    var t := s.(flight := Some(if s.flight.None? then [] else s.flight.value));
    CountersAlone(t);
    var sealed := env.seal(s.sealCalls, recordType, plain);
    if sealed.Some? { GrowFlightConserves(t.(sealCalls := s.sealCalls + 1), Sealed(recordType, plain, sealed.value)); }
  }

  lemma {:induction false} NewFlightConserves(s: State)
    requires Conserved(s)
    ensures Conserved(s.(flight := Some(if s.flight.None? then [] else s.flight.value)))
  {
    hide Flat;
    var t := s.(flight := Some(if s.flight.None? then [] else s.flight.value));
    assert Unsent(t) == Unsent(s) && Begun(t) == Begun(s);
  }

  lemma {:induction false} GrowFlightConserves(t: State, r: Sealed)
    requires Conserved(t) && t.flight.Some? && r.recordType != APPLICATION_DATA
    ensures Conserved(t.(flight := Some(t.flight.value + r.bytes), log := t.log + [r]))
  {
    hide Flat;
    var u := t.(flight := Some(t.flight.value + r.bytes), log := t.log + [r]);
    FlatMore(t.log, r);
    assert Unsent(u) == Unsent(t) + r.bytes && Begun(u) == Begun(t);
    assert Everything(u) == Everything(t) + r.bytes;
    assert u.log[..u.ahead] == t.log[..t.ahead];
  }

  lemma {:induction false} AddMessageConserves(env: Env, s: State, message: seq<Byte>)
    requires Conserved(s) && env.maxFragment > 0
    ensures Conserved(AddMessage(env, s, message).0)
    decreases |message|
  {
    hide AddRecord, Conserved;
    var n := if |message| > env.maxFragment then env.maxFragment else |message|;
    AddRecordConserves(env, s, HANDSHAKE, message[..n]);
    var r := AddRecord(env, s, HANDSHAKE, message[..n]);
    if r.1 && n < |message| { AddMessageConserves(env, r.0, message[n..]); }
  }

  lemma {:induction false} FlightLoopConserves(env: Env, s: State)
    requires Conserved(s) && s.flight.Some? && s.buffer == []
    ensures var t := FlightLoop(env, s).0;
      Conserved(t) && t.flight == s.flight && t.log == s.log && (FlightLoop(env, s).1 > 0 ==> t.flightOffset == |t.flight.value|)
    decreases |s.flight.value| - s.flightOffset
  {
    hide Flat, Conserved;
    ConservedShape(s);
    CountersAlone(s);
    if s.flightOffset < |s.flight.value| {
      var ret := WriteAnswer(env, s.writeCalls, |s.flight.value| - s.flightOffset);
      if ret > 0 {
        FlightStepConserves(s, ret);
        FlightLoopConserves(env, AfterStep(s, ret));
      }
    }
  }

  lemma {:induction false} FlightStepConserves(s: State, n: nat)
    requires Conserved(s) && s.flight.Some? && s.buffer == [] && s.flightOffset + n <= |s.flight.value|
    ensures Conserved(AfterStep(s, n))
  {
    hide Flat, AfterStep;
    StepFields(s, n);
    var f, o, t := s.flight.value, s.flightOffset, AfterStep(s, n);
    StepParts(s.wire, f, o, n, Flat(s.log[..s.ahead]));
    assert Everything(t) == s.wire + f[o..o + n] + [] + f[o + n..];
    assert t.wire + t.buffer == s.wire + f[o..o + n] + [] && Begun(t) == f[..o + n];
  }

  lemma {:induction false} StepFields(s: State, n: nat)
    requires s.flight.Some? && s.flightOffset + n <= |s.flight.value|
    ensures var t := AfterStep(s, n);
      && t.wire == s.wire + s.flight.value[s.flightOffset..s.flightOffset + n] && t.flightOffset == s.flightOffset + n
      && t.flight == s.flight && t.buffer == s.buffer && t.log == s.log && t.ahead == s.ahead
  {
  }

  lemma {:induction false} StepParts(wire: seq<Byte>, f: seq<Byte>, o: nat, n: nat, front: seq<Byte>)
    requires o + n <= |f| && wire + [] == front + f[..o]
    ensures wire + f[o..o + n] + [] + f[o + n..] == wire + [] + f[o..]
    ensures wire + f[o..o + n] + [] == front + f[..o + n]
  {
    var part := f[o..o + n];
    assert f[o..] == part + f[o + n..] && f[..o + n] == f[..o] + part;
    assert wire == front + f[..o];
    assert front + f[..o] + part == front + (f[..o] + part);
    assert wire + part + [] == wire + part;
  }

  lemma {:induction false} FlightDone(s: State)
    requires Conserved(s) && s.flight.Some? && s.flightOffset == |s.flight.value| && s.buffer == []
    ensures Conserved(s.(flight := None, flightOffset := 0, ahead := |s.log|))
  {
    hide Flat;
    var t := s.(flight := None, flightOffset := 0, ahead := |s.log|);
    assert Unsent(s) == [] == Unsent(t) && Begun(t) == [];
    assert t.log[..t.ahead] == s.log;
    assert Everything(s) == s.wire + s.buffer;
    assert Flat(s.log) + [] == Flat(s.log);
  }

  lemma {:induction false} FlushFlightConserves(env: Env, s: State)
    requires Conserved(s)
    ensures Conserved(FlushFlight(env, s).0)
  {
    hide FlushBuffer, FlightLoop, Conserved;
    if s.flight.Some? && !s.shutdown && |s.flight.value| <= INT_MAX {
      FlushBufferShape(env, s);
      FlushBufferConserves(env, s);
      var r := FlushBuffer(env, s);
      if r.1 > 0 {
        FlightLoopConserves(env, r.0);
        var q := FlightLoop(env, r.0);
        CountersAlone(q.0);
        FlightKeepsBuffer(env, r.0);
        if q.1 > 0 { FlightDone(q.0.(flushCalls := q.0.flushCalls + 1)); }
      }
    }
  }

  lemma {:induction false} FlightKeepsBuffer(env: Env, s: State)
    requires s.flight.Some?
    ensures var t := FlightLoop(env, s).0; t == s.(wire := t.wire, writeCalls := t.writeCalls, flightOffset := t.flightOffset) && s.wire <= t.wire
    decreases |s.flight.value| - s.flightOffset
  {
    if s.flightOffset < |s.flight.value| {
      var ret := WriteAnswer(env, s.writeCalls, |s.flight.value| - s.flightOffset);
      if ret > 0 {
        FlightKeepsBuffer(env, AfterStep(s, ret));
      }
    }
  }

  // ------------------------------------------------------------- whole runs

  datatype Action =
    | App(base: nat, input: seq<Byte>)
    | Handshake(message: seq<Byte>)
    | ChangeCipherSpec
    | FlightAlert(level: Byte, desc: Byte)
    | Flush
    | Send(level: Byte, desc: Byte)
    | Dispatch

  /** One call, and what it returns (1 or 0 for the calls that return a bool). */
  function Apply(env: Env, s: State, a: Action): (State, int)
    requires Shape(s) && env.maxFragment > 0
  {
    match a
    case App(base, input) => WriteApp(env, s, base, input)
    case Handshake(m) => var r := AddMessage(env, s, m); (r.0, if r.1 then 1 else 0)
    case ChangeCipherSpec => var r := AddRecord(env, s, CHANGE_CIPHER_SPEC, [1]); (r.0, if r.1 then 1 else 0)
    case FlightAlert(level, desc) => var r := AddRecord(env, s, ALERT, [level, desc]); (r.0, if r.1 then 1 else 0)
    case Flush => FlushFlight(env, s)
    case Send(level, desc) => SendAlert(env, s, level, desc)
    case Dispatch => DispatchAlert(env, s)
  }

  lemma {:induction false} DispatchConserves(env: Env, s: State)
    requires Conserved(s) && Shape(s)
    ensures Conserved(DispatchAlert(env, s).0)
  {
    hide Conserved, DoWrite;
    DoWriteConserves(env, s, ALERT, Pointer(ALERT_BASE, 0), s.alert);
    CountersAlone(DoWrite(env, s, ALERT, Pointer(ALERT_BASE, 0), s.alert).0);
  }

  lemma {:induction false} ApplyConserves(env: Env, s: State, a: Action)
    requires Conserved(s) && Shape(s) && env.maxFragment > 0
    ensures Conserved(Apply(env, s, a).0)
  {
    hide Conserved, Shape, AppLoop, AddRecord, AddMessage, FlushFlight, DispatchAlert;
    CountersAlone(s);
    match a {
      case App(base, input) =>
        if !s.shutdown && s.wnum <= |input| {
          ConservedShape(s.(wnum := 0));
          AppLoopConserves(env, s.(wnum := 0), base, input, s.wnum);
        }
      case Handshake(m) => AddMessageConserves(env, s, m);
      case ChangeCipherSpec => AddRecordConserves(env, s, CHANGE_CIPHER_SPEC, [1]);
      case FlightAlert(level, desc) => AddRecordConserves(env, s, ALERT, [level, desc]);
      case Flush => FlushFlightConserves(env, s);
      case Send(level, desc) =>
        var t := s.(shutdown := true, alert := [level, desc], alertDispatch := true);
        ConservedShape(t);
        if !s.shutdown && t.buffer == [] { DispatchConserves(env, t); }
      case Dispatch => DispatchConserves(env, s);
    }
  }

  function Run(env: Env, s: State, actions: seq<Action>): State
    requires Conserved(s) && env.maxFragment > 0
    decreases |actions|
  {
    if actions == [] then s
    else
      ConservedShape(s);
      ApplyConserves(env, s, actions[0]);
      Run(env, Apply(env, s, actions[0]).0, actions[1..])
  }

  function Start(): (s: State)
    ensures Conserved(s)
  {
    NEW
  }

  lemma {:induction false} RunConserves(env: Env, s: State, actions: seq<Action>)
    requires Conserved(s) && env.maxFragment > 0
    ensures Conserved(Run(env, s, actions))
    decreases |actions|
  {
    hide Conserved, Apply;
    if actions != [] {
      ConservedShape(s);
      ApplyConserves(env, s, actions[0]);
      RunConserves(env, Apply(env, s, actions[0]).0, actions[1..]);
    }
  }

  /** Across any sequence of calls, with transport writes however short or failing, the bytes on
      the wire, then those in the write buffer, then the unsent ones of the pending flight, are
      exactly the sealed records in the order they were sealed. */
  lemma {:induction false} WireOrder(env: Env, actions: seq<Action>)
    requires env.maxFragment > 0
    ensures var s := Run(env, Start(), actions);
      Shape(s) && s.wire + s.buffer + Unsent(s) == Flat(s.log)
  {
    hide Run, Flat;
    RunConserves(env, Start(), actions);
  }
}
