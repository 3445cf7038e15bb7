/** What each call of the write path seals, and that it succeeds when sealing and the transport do:
    record types and plaintexts as the caller gave them (RFC 5246 section 6.2.1). */
module TlsSealed {
  import opened Words
  import opened TlsWrite
  import TlsRetry

  /** The plaintexts of some records, put together. */
  function Joined(log: seq<Sealed>): seq<Byte> {
    if log == [] then [] else log[0].plain + Joined(log[1..])
  }

  /** Records of one type, none longer than the limit. */
  predicate Of(log: seq<Sealed>, recordType: Byte, limit: nat) {
    forall k :: 0 <= k < |log| ==> log[k].recordType == recordType && |log[k].plain| <= limit
  }

  /** The records sealed between two states. */
  predicate Adds(s: State, t: State, more: seq<Sealed>) { t.log == s.log + more }

  lemma {:induction false} JoinedThen(r: Sealed, more: seq<Sealed>)
    ensures Joined([r] + more) == r.plain + Joined(more)
  {
    assert ([r] + more)[1..] == more;
  }

  // ------------------------------------------------------------- what is sealed

  /** A handshake message is cut into records of type 22: all of it when the call succeeds, a proper
      part of it from its start when sealing fails on the way. */
  lemma {:induction false} MessageSealed(env: Env, s: State, message: seq<Byte>) returns (more: seq<Sealed>)
    requires env.maxFragment > 0
    ensures var r := AddMessage(env, s, message);
      && Adds(s, r.0, more) && Of(more, 22, env.maxFragment) && Joined(more) <= message
      && (r.1 ==> more != [] && Joined(more) == message)
      && (!r.1 ==> message == [] || |Joined(more)| < |message|)
      && r.0.flight == Some((if s.flight.None? then [] else s.flight.value) + Bytes(more))
      && r.0.sealCalls == s.sealCalls + |more| + (if r.1 then 0 else 1)
    decreases |message|
  {
    var n := if |message| > env.maxFragment then env.maxFragment else |message|;
    var first := message[..n];
    more := RecordSealed(env, s, 22, first);
    var r := AddRecord(env, s, 22, first);
    assert message == first + message[n..];
    if r.1 {
      var one := more[0];
      assert more == [one] + [] && [one][1..] == [];
      JoinedThen(one, []);
      if n < |message| {
        var rest := MessageSealed(env, r.0, message[n..]);
        more := [one] + rest;
        JoinedThen(one, rest);
        BytesThen(one, rest);
        BytesOne(one);
        assert s.log + [one] + rest == s.log + ([one] + rest);
        var was := if s.flight.None? then [] else s.flight.value;
        assert was + one.bytes + Bytes(rest) == was + (one.bytes + Bytes(rest));
        assert first + message[n..] == message;
      } else {
        assert first == message;
      }
    }
  }

  /** The bytes of some records, in order. */
  function Bytes(log: seq<Sealed>): seq<Byte> {
    if log == [] then [] else log[0].bytes + Bytes(log[1..])
  }

  lemma {:induction false} BytesThen(r: Sealed, more: seq<Sealed>)
    ensures Bytes([r] + more) == r.bytes + Bytes(more)
  {
    assert ([r] + more)[1..] == more;
  }

  lemma {:induction false} BytesOne(r: Sealed)
    ensures Bytes([r]) == r.bytes
  {
    BytesThen(r, []);
    assert [r] + [] == [r] && r.bytes + [] == r.bytes;
  }

  /** One record for the flight: sealed as it is, or nothing. */
  lemma {:induction false} RecordSealed(env: Env, s: State, recordType: Byte,
      plain: seq<Byte>) returns (more: seq<Sealed>)
    ensures var r := AddRecord(env, s, recordType, plain);
      && Adds(s, r.0, more) && r.1 == env.seal(s.sealCalls, recordType, plain).Some?
      && more == (if r.1 then [Sealed(recordType, plain, env.seal(s.sealCalls, recordType, plain).value)] else [])
      && r.0.flight == Some((if s.flight.None? then [] else s.flight.value) + Bytes(more))
      && r.0.sealCalls == s.sealCalls + 1
  {
    var r := AddRecord(env, s, recordType, plain);
    more := if r.1 then [Sealed(recordType, plain, env.seal(s.sealCalls, recordType, plain).value)] else [];
    if r.1 { BytesOne(more[0]); }
    var was := if s.flight.None? then [] else s.flight.value;
    assert was + [] == was;
  }

  /** One do_ssl3_write seals the plaintext as it is, and only if nothing is pending. */
  lemma {:induction false} WriteSealed(env: Env, s: State, recordType: Byte, at: Pointer,
      plain: seq<Byte>) returns (more: seq<Sealed>)
    requires Shape(s)
    ensures var r := DoWrite(env, s, recordType, at, plain);
      && Adds(s, r.0, more) && Shape(r.0) && r.0.alert == s.alert
      && (more == [] || (s.pending.None? && |more| == 1 && more[0].recordType == recordType && more[0].plain == plain))
      && (r.1 > 0 ==> r.0.pending.None? && r.0.buffer == [] && (s.pending.None? ==> more != []))
      && (s.pending.None? && r.1 > 0 ==> r.1 == |plain|)
  {
    hide FlushBuffer, TakeFlight;
    DoWriteShape(env, s, recordType, at, plain);
    FlushBufferShape(env, s);
    more := [];
    if s.pending.None? && |plain| <= 16384 && s.buffer == [] && plain != [] && |plain| + env.overhead + |Unsent(s)| <= 0xffff {
      TakeFlightKeeps(s);
      var t := TakeFlight(s).(sealCalls := s.sealCalls + 1);
      var sealed := env.seal(s.sealCalls, recordType, plain);
      if sealed.Some? {
        more := [Sealed(recordType, plain, sealed.value)];
        FlushBufferShape(env, Appended(t, more[0], Pending(|plain|, at, recordType)));
      }
    }
  }

  lemma {:induction false} TakeFlightKeeps(s: State)
    requires Shape(s)
    ensures var t := TakeFlight(s); t.log == s.log && t.pending == s.pending && t.alert == s.alert && t.flight.None? && t.buffer == s.buffer + Unsent(s)
  {
  }

  lemma {:induction false} FlushSealed(env: Env, s: State)
    ensures FlushFlight(env, s).0.log == s.log
  {
    hide FlushBuffer, FlightLoop;
    FlushBufferShape(env, s);
    var r := FlushBuffer(env, s);
    if r.0.flight.Some? { FlightKeepsBuffer(env, r.0); }
  }

  lemma {:induction false} AppSealed(env: Env, s: State, base: nat, input: seq<Byte>,
      tot: nat) returns (more: seq<Sealed>)
    requires Shape(s) && tot <= |input|
    ensures Adds(s, AppLoop(env, s, base, input, tot).0, more) && Of(more, 23, env.maxFragment)
    decreases |input| - tot
  {
    hide DoWrite, Shape;
    var n := |input| - tot;
    var nw := if n > env.maxFragment then env.maxFragment else n;
    var at, plain := Pointer(base, tot), input[tot..tot + nw];
    more := WriteSealed(env, s, 23, at, plain);
    DoWriteShape(env, s, 23, at, plain);
    var r := DoWrite(env, s, 23, at, plain);
    if r.1 > 0 && r.1 != n && !env.partialWrite {
      var rest := AppSealed(env, r.0, base, input, tot + r.1);
      assert s.log + more + rest == s.log + (more + rest);
      more := more + rest;
    }
  }

  /** The alert is sealed as two bytes under type 21, at once or by a later dispatch. */
  lemma {:induction false} DispatchSealed(env: Env, s: State) returns (more: seq<Sealed>)
    requires Shape(s)
    ensures var r := DispatchAlert(env, s);
      && Adds(s, r.0, more) && r.0.alert == s.alert
      && (more == [] || (s.pending.None? && |more| == 1 && more[0].recordType == 21 && more[0].plain == s.alert))
      && (r.1 > 0 && s.pending.None? ==> more != [] && r.0.buffer == [] && !r.0.alertDispatch)
      && (r.1 <= 0 ==> r.0.alertDispatch == s.alertDispatch)
  {
    hide DoWrite;
    more := WriteSealed(env, s, 21, Pointer(ALERT_BASE, 0), s.alert);
    DispatchFlag(env, s);
  }

  lemma {:induction false} DispatchFlag(env: Env, s: State)
    requires Shape(s)
    ensures DoWrite(env, s, 21, Pointer(ALERT_BASE, 0), s.alert).0.alertDispatch == s.alertDispatch
  {
    hide FlushBuffer;
    FlushBufferShape(env, s);
    if s.pending.None? {
      var t := TakeFlight(s).(sealCalls := s.sealCalls + 1);
      var sealed := env.seal(s.sealCalls, 21, s.alert);
      if sealed.Some? { FlushBufferShape(env, Appended(t, Sealed(21, s.alert, sealed.value), Pending(|s.alert|, Pointer(ALERT_BASE, 0), 21))); }
    }
  }

  /** What the records sealed by one call are: of the type of the call, and together what the caller
      gave, or the part of it up to where sealing failed. */
  ghost predicate Seals(env: Env, s: State, a: Action, ret: int, more: seq<Sealed>) {
    match a
    case App(_, input) => Of(more, 23, env.maxFragment)
    case Handshake(m) =>
      Of(more, 22, env.maxFragment) && (ret == 1 || ret == 0) && (if ret == 1 then more != [] && Joined(more) == m else Joined(more) <= m)
    case ChangeCipherSpec =>
      (ret == 1 && |more| == 1 && more[0].recordType == 20 && more[0].plain == [1]) || (ret == 0 && more == [])
    case FlightAlert(level, desc) =>
      (ret == 1 && |more| == 1 && more[0].recordType == 21 && more[0].plain == [level, desc]) || (ret == 0 && more == [])
    case Flush => more == []
    case Send(level, desc) =>
      && (more == [] || (!s.shutdown && s.pending.None? && |more| == 1 && more[0].recordType == 21 && more[0].plain == [level, desc]))
      && (ret > 0 && s.pending.None? ==> more != [])
    case Dispatch =>
      && (more == [] || (s.pending.None? && |more| == 1 && more[0].recordType == 21 && more[0].plain == s.alert))
      && (ret > 0 && s.pending.None? ==> more != [])
  }

  /** Every call only adds records, and those are what it was given. */
  lemma {:induction false} ApplySeals(env: Env, s: State, a: Action) returns (more: seq<Sealed>)
    requires Shape(s) && env.maxFragment > 0
    ensures var r := Apply(env, s, a); Adds(s, r.0, more) && Seals(env, s, a, r.1, more)
    ensures a.Send? && !s.shutdown ==> Apply(env, s, a).0.alert == [a.level, a.desc]
  {
    hide AppLoop, AddRecord, AddMessage, FlushFlight, DispatchAlert, Shape, Joined;
    more := [];
    assert s.log + [] == s.log;
    match a {
      case App(base, input) =>
        if !s.shutdown && s.wnum <= |input| {
          ShapeAlone(s);
          more := AppSealed(env, s.(wnum := 0), base, input, s.wnum);
        }
      case Handshake(m) => more := MessageSealed(env, s, m);
      case ChangeCipherSpec => more := RecordSealed(env, s, 20, [1]);
      case FlightAlert(level, desc) => more := RecordSealed(env, s, 21, [level, desc]);
      case Flush => FlushSealed(env, s);
      case Send(level, desc) =>
        var t := s.(shutdown := true, alert := [level, desc], alertDispatch := true);
        ShapeAlone(s);
        if !s.shutdown && t.buffer == [] { more := DispatchSealed(env, t); }
      case Dispatch => more := DispatchSealed(env, s);
    }
  }

  lemma {:induction false} ShapeAlone(s: State)
    requires Shape(s)
    ensures forall w, h, a, d :: Shape(s.(wnum := w)) && Shape(s.(shutdown := h, alert := a, alertDispatch := d))
  {
  }

  // ------------------------------------------------------------- when nothing goes wrong

  /** Every record gets sealed, and the transport takes at least one byte at a time. */
  ghost predicate Reliable(env: Env) {
    && (forall k :: env.writes(k) > 0) && (forall k :: env.flushes(k))
    && (forall k, t, p :: env.seal(k, t, p).Some? && |env.seal(k, t, p).value| <= |p| + env.overhead)
    && 0 < env.maxFragment <= 16384
  }

  lemma {:induction false} BufferGoesOut(env: Env, s: State)
    requires Reliable(env)
    ensures FlushBuffer(env, s).1 > 0 && FlushBuffer(env, s).0.buffer == []
    decreases |s.buffer|
  {
    hide Reliable;
    if s.buffer != [] {
      Takes(env, s.writeCalls, |s.buffer|);
      BufferGoesOut(env, Took(s, WriteAnswer(env, s.writeCalls, |s.buffer|)));
    }
  }

  lemma {:induction false} Takes(env: Env, k: nat, len: nat)
    requires Reliable(env) && len > 0
    ensures 0 < WriteAnswer(env, k, len) <= len
  {
  }

  lemma {:induction false} FlightGoesOut(env: Env, s: State)
    requires Reliable(env) && s.flight.Some?
    ensures FlightLoop(env, s).1 > 0
    decreases |s.flight.value| - s.flightOffset
  {
    hide Reliable;
    if s.flightOffset < |s.flight.value| {
      var len := |s.flight.value| - s.flightOffset;
      Takes(env, s.writeCalls, len);
      FlightGoesOut(env, AfterStep(s, WriteAnswer(env, s.writeCalls, len)));
    }
  }

  lemma {:induction false} MessageAdded(env: Env, s: State, message: seq<Byte>)
    requires Reliable(env)
    ensures AddMessage(env, s, message).1
    decreases |message|
  {
    var n := if |message| > env.maxFragment then env.maxFragment else |message|;
    assert env.seal(s.sealCalls, HANDSHAKE, message[..n]).Some?;
    var r := AddRecord(env, s, HANDSHAKE, message[..n]);
    if n < |message| { MessageAdded(env, r.0, message[n..]); }
  }

  /** Flushing a flight puts everything sealed so far on the wire. */
  lemma {:induction false} FlightFlushed(env: Env, s: State)
    requires Reliable(env) && Conserved(s) && s.flight.Some? && !s.shutdown && |s.flight.value| <= 0x7fff_ffff
    ensures var r := FlushFlight(env, s); r.1 == 1 && r.0.flight.None? && r.0.buffer == [] && r.0.wire == Flat(s.log)
  {
    hide FlushBuffer, FlightLoop, Conserved, Flat;
    ConservedShape(s);
    BufferGoesOut(env, s);
    FlushBufferShape(env, s);
    var b := FlushBuffer(env, s).0;
    FlightGoesOut(env, b);
    FlightKeepsBuffer(env, b);
    assert env.flushes(FlightLoop(env, b).0.flushCalls) by { Flushes(env, FlightLoop(env, b).0.flushCalls); }
    FlushFlightConserves(env, s);
    FlushSealed(env, s);
    NothingLeft(FlushFlight(env, s).0);
  }

  lemma {:induction false} Flushes(env: Env, k: nat)
    requires Reliable(env)
    ensures env.flushes(k)
  {
  }

  lemma {:induction false} NothingLeft(s: State)
    requires Conserved(s) && s.flight.None? && s.buffer == []
    ensures s.wire == Flat(s.log)
  {
    hide Flat;
    assert s.wire + [] + [] == s.wire;
  }

  /** With room in the buffer, do_ssl3_write seals its plaintext and gets it all on the wire. */
  lemma {:induction false} RecordWritten(env: Env, s: State, recordType: Byte, at: Pointer, plain: seq<Byte>)
    requires Reliable(env) && Conserved(s) && Shape(s) && s.pending.None? && s.buffer == []
    requires 0 < |plain| <= 16384 && |plain| + env.overhead + |Unsent(s)| <= 0xffff
    ensures var r := DoWrite(env, s, recordType, at, plain);
      && r.1 == |plain| && r.0.pending.None? && r.0.buffer == [] && r.0.flight.None? && Conserved(r.0) && r.0.wire == Flat(r.0.log)
      && r.0.shutdown == s.shutdown && r.0.wnum == s.wnum
  {
    hide FlushBuffer, Conserved, Flat, TakeFlight;
    TakeFlightKeeps(s);
    TakeFlightFields(s);
    var t := TakeFlight(s).(sealCalls := s.sealCalls + 1);
    var sealed := env.seal(s.sealCalls, recordType, plain);
    assert sealed.Some? by { SealsAll(env, s.sealCalls, recordType, plain); }
    var u := Appended(t, Sealed(recordType, plain, sealed.value), Pending(|plain|, at, recordType));
    BufferGoesOut(env, u);
    FlushBufferShape(env, u);
    DoWriteConserves(env, s, recordType, at, plain);
    NothingLeft(DoWrite(env, s, recordType, at, plain).0);
  }

  lemma {:induction false} TakeFlightFields(s: State)
    requires Shape(s)
    ensures TakeFlight(s).shutdown == s.shutdown && TakeFlight(s).wnum == s.wnum
  {
  }

  lemma {:induction false} SealsAll(env: Env, k: nat, recordType: Byte, plain: seq<Byte>)
    requires Reliable(env)
    ensures env.seal(k, recordType, plain).Some?
  {
  }

  lemma {:induction false} AppWritten(env: Env, s: State, base: nat, input: seq<Byte>, tot: nat)
    requires Reliable(env) && Conserved(s) && Shape(s) && s.pending.None? && s.buffer == []
    requires tot < |input| && env.maxFragment + env.overhead + |Unsent(s)| <= 0xffff
    ensures var r := AppLoop(env, s, base, input, tot);
      && r.1 == (if env.partialWrite then tot + TlsRetry.Share(env, input, tot) else |input|)
      && r.0.buffer == [] && r.0.flight.None? && r.0.wire == Flat(r.0.log)
    decreases |input| - tot
  {
    hide DoWrite, Conserved, Flat;
    assert 0 < env.maxFragment <= 16384;
    var n := |input| - tot;
    var nw := TlsRetry.Share(env, input, tot);
    RecordWritten(env, s, APPLICATION_DATA, Pointer(base, tot), input[tot..tot + nw]);
    var r := DoWrite(env, s, APPLICATION_DATA, Pointer(base, tot), input[tot..tot + nw]);
    if r.1 != n && !env.partialWrite {
      ConservedShape(r.0);
      AppWritten(env, r.0, base, input, tot + r.1);
    }
  }

  /** When sealing works and the transport fails nothing, every call does its whole work: messages
      and alerts join the flight, a flush or a write leaves every byte sealed so far on the wire,
      and a write takes all of its input, or one record of it if partial writes are on. */
  lemma {:induction false} ReliableSucceeds(env: Env, s: State, a: Action)
    requires Reliable(env) && Conserved(s) && Shape(s) && !s.shutdown && s.wnum == 0 && s.buffer == []
        && s.pending.None?
    requires env.maxFragment + env.overhead + |Unsent(s)| <= 0xffff && env.overhead + 2 + |Unsent(s)| <= 0xffff
    requires s.flight.Some? ==> |s.flight.value| <= 0x7fff_ffff
    ensures var r := Apply(env, s, a);
      match a
      case App(_, input) =>
        r.1 == (if env.partialWrite && |input| > env.maxFragment then env.maxFragment else |input|)
        && (input != [] ==> r.0.flight.None? && r.0.wire == Flat(r.0.log))
      case Flush => r.1 == 1 && r.0.flight.None? && (s.flight.Some? ==> r.0.wire == Flat(s.log))
      case Send(_, _) => r.1 == 1 && r.0.wire == Flat(r.0.log) && r.0.shutdown && !r.0.alertDispatch
      case Dispatch => 0 < |s.alert| <= 2 ==> r.1 == 1 && r.0.wire == Flat(r.0.log) && !r.0.alertDispatch
      case _ => r.1 == 1
  {
    hide AppLoop, AddRecord, AddMessage, FlushFlight, DispatchAlert, Conserved, Flat, Reliable;
    match a {
      case App(base, input) =>
        assert s.(wnum := 0) == s;
        if input != [] { AppWritten(env, s, base, input, 0); } else { NoInput(env, s, base); }
      case Handshake(m) => MessageAdded(env, s, m);
      case ChangeCipherSpec => SealsAll(env, s.sealCalls, 20, [1]); var _ := RecordSealed(env, s, 20, [1]);
      case FlightAlert(level, desc) => SealsAll(env, s.sealCalls, 21, [level, desc]); var _ := RecordSealed(env, s, 21, [level, desc]);
      case Flush => if s.flight.Some? { FlightFlushed(env, s); } else { NoFlush(env, s); }
      case Send(level, desc) =>
        var t := s.(shutdown := true, alert := [level, desc], alertDispatch := true);
        CountersAlone(s);
        AlertWritten(env, t);
      case Dispatch => if 0 < |s.alert| <= 2 { AlertWritten(env, s); }
    }
  }

  lemma {:induction false} NoFlush(env: Env, s: State)
    requires s.flight.None?
    ensures FlushFlight(env, s) == (s, 1)
  {
  }

  lemma {:induction false} NoInput(env: Env, s: State, base: nat)
    requires Shape(s) && s.pending.None? && s.buffer == []
    ensures AppLoop(env, s, base, [], 0).1 == 0
  {
    var none: seq<Byte> := [];
    assert none[0..0] == [];
  }

  lemma {:induction false} AlertWritten(env: Env, s: State)
    requires Reliable(env) && Conserved(s) && Shape(s) && s.pending.None? && s.buffer == []
    requires 0 < |s.alert| <= 2 && env.overhead + 2 + |Unsent(s)| <= 0xffff
    ensures var r := DispatchAlert(env, s); r.1 == 1 && r.0.wire == Flat(r.0.log) && !r.0.alertDispatch && r.0.shutdown == s.shutdown
  {
    hide DoWrite, Conserved, Flat, Reliable;
    RecordWritten(env, s, ALERT, Pointer(ALERT_BASE, 0), s.alert);
  }
}
