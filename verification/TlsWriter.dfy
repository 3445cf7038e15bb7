/** The TLS write path as it is updated in place. */
module TlsWriter {
  import opened Words
  import opened TlsWrite
  import opened TlsBuffer

  class Writer {
    const env: Env
    const buffer: SslBuffer
    var writeCalls: nat
    var flushCalls: nat
    var sealCalls: nat
    var flight: Option<seq<Byte>>
    var flightOffset: nat
    var pending: Option<Pending>
    var wnum: nat
    var shutdown: bool
    var alert: seq<Byte>
    var alertDispatch: bool
    ghost var wire: seq<Byte>
    ghost var log: seq<Sealed>
    ghost var ahead: nat

    ghost predicate Valid()
      reads this, buffer
    {
      EnvOk(env) && env.maxFragment > 0 && buffer.Valid()
    }

    /** The state without the write buffer. */
    ghost function Rest(): State
      reads this
    {
      State(wire, log, ahead, writeCalls, flushCalls, sealCalls, [], flight, flightOffset, pending, wnum, shutdown, alert, alertDispatch)
    }

    ghost function Abs(): State
      requires Valid()
      reads this, buffer, buffer.buf
    {
      Rest().(buffer := buffer.Contents())
    }

    lemma {:induction false} Parts()
      requires Valid()
      ensures var s := Abs();
        && s.pending == pending && s.wnum == wnum && s.shutdown == shutdown && s.alert == alert && |s.buffer| == buffer.size
        && s.flight == flight && s.flightOffset == flightOffset && s.sealCalls == sealCalls && s.flushCalls == flushCalls
    {
      hide SslBuffer.Valid, EnvOk;
    }

    constructor (env: Env)
      requires EnvOk(env) && env.maxFragment > 0
      ensures Valid() && Abs() == NEW && this.env == env && fresh(buffer) && buffer.buf == null
    {
      this.env := env;
      this.writeCalls, this.flushCalls, this.sealCalls := 0, 0, 0;
      this.flight, this.flightOffset, this.pending, this.wnum := None, 0, None, 0;
      this.shutdown, this.alert, this.alertDispatch := false, [], false;
      this.wire, this.log, this.ahead := [], [], 0;
      this.buffer := new SslBuffer();
    }

    /** BIO_write. */
    method TransportWrite(bytes: seq<Byte>) returns (ret: int)
      modifies this`writeCalls, this`wire
      ensures ret == WriteAnswer(env, old(writeCalls), |bytes|) && writeCalls == old(writeCalls) + 1
      ensures ret <= |bytes| && wire == old(wire) + if ret > 0 then bytes[..ret] else []
    {
      ret := WriteAnswer(env, writeCalls, |bytes|);
      writeCalls := writeCalls + 1;
      if ret > 0 { wire := wire + bytes[..ret]; }
    }

    /** tls_write_buffer_flush. */
    method FlushBuffer() returns (ret: int)
      requires Valid()
      modifies this`writeCalls, this`wire, buffer
      ensures Valid() && (buffer.buf == old(buffer.buf) || buffer.buf == null)
      ensures (Abs(), ret) == TlsWrite.FlushBuffer(env, old(Abs()))
    {
      hide TlsWrite.FlushBuffer, Took, WriteAnswer, EnvOk;
      while buffer.size > 0
        invariant Valid() && buffer.buf == old(buffer.buf)
        invariant TlsWrite.FlushBuffer(env, Abs()) == TlsWrite.FlushBuffer(env, old(Abs()))
        decreases buffer.size
      {
        FlushBufferStep(env, Abs());
        ret := WriteFront();
        if ret <= 0 { return; }
      }
      FlushBufferStep(env, Abs());
      buffer.Clear();
      ret := 1;
    }

    method WriteFront() returns (ret: int)
      requires Valid() && buffer.size > 0
      modifies this`writeCalls, this`wire, buffer
      ensures Valid() && buffer.buf == old(buffer.buf)
      ensures ret == WriteAnswer(env, old(writeCalls), old(buffer.size)) && ret <= old(buffer.size)
      ensures buffer.size == old(buffer.size) - if ret > 0 then ret else 0
      ensures Abs() == if ret <= 0 then old(Abs()).(writeCalls := old(writeCalls) + 1) else Took(old(Abs()), ret)
    {
      ghost var s := Abs();
      ret := TransportWrite(buffer.buf[buffer.offset..buffer.offset + buffer.size]);
      if ret > 0 { buffer.Consume(ret); }
    }

    /** ssl3_write_pending. */
    method WritePending(recordType: Byte, at: Pointer, len: nat) returns (ret: int)
      requires Valid() && pending.Some?
      modifies this`writeCalls, this`wire, this`pending, buffer
      ensures Valid() && (buffer.buf == old(buffer.buf) || buffer.buf == null)
      ensures (Abs(), ret) == TlsWrite.WritePending(env, old(Abs()), recordType, at, len)
    {
      hide TlsWrite.FlushBuffer, EnvOk;
      var p := pending.value;
      if p.len > len || (!env.movingBuffer && p.at != at) || p.recordType != recordType { return -1; }
      ret := FlushBuffer();
      if ret <= 0 { return; }
      pending := None;
      ret := p.len;
    }

    /** do_ssl3_write; alignPrefix and address only matter for where the bytes are placed. */
    method DoWrite(recordType: Byte, at: Pointer, plain: seq<Byte>, alignPrefix: nat, address: nat) returns (ret: int)
      requires Valid() && Shape(Abs())
      modifies this, buffer, buffer.buf
      ensures Valid() && (buffer.buf == old(buffer.buf) || buffer.buf == null || fresh(buffer.buf))
      ensures (Abs(), ret) == TlsWrite.DoWrite(env, old(Abs()), recordType, at, plain)
    {
      hide TlsWrite.WritePending, SslBuffer.Valid, SslBuffer.Contents, TakeFlight, Appended, Shape, EnvOk, Writer.Abs,
           Writer.Rest, Unsent;
      Parts();
      if pending.Some? {
        ret := WritePending(recordType, at, |plain|);
        return;
      }
      if |plain| > MAX_PLAIN_LENGTH || buffer.size > 0 { return -1; }
      if plain == [] { return 0; }
      ghost var s := Abs();
      var ok := MakeRoom(|plain|, alignPrefix, address);
      if !ok { return -1; }
      var sealed := CallSeal(recordType, plain);
      if sealed.None? { return -1; }
      AddPending(Sealed(recordType, plain, sealed.value), Pending(|plain|, at, recordType));
      ret := WritePending(recordType, at, |plain|);
    }

    /** tls_seal_record. */
    method CallSeal(recordType: Byte, plain: seq<Byte>) returns (sealed: Option<seq<Byte>>)
      requires Valid()
      modifies this`sealCalls
      ensures Valid() && sealed == env.seal(old(sealCalls), recordType, plain) && Abs() == old(Abs()).(sealCalls := old(sealCalls) + 1)
      ensures sealed.Some? ==> |sealed.value| <= |plain| + env.overhead
    {
      hide SslBuffer.Valid, SslBuffer.Contents;
      sealed := env.seal(sealCalls, recordType, plain);
      sealCalls := sealCalls + 1;
    }

    /** Room for the unsent part of the flight, which is moved into the buffer, and a record. */
    method MakeRoom(len: nat, alignPrefix: nat, address: nat) returns (ok: bool)
      requires Valid() && Shape(Abs()) && buffer.size == 0
      modifies this`flight, this`flightOffset, this`ahead, buffer, buffer.buf
      ensures Valid() && (buffer.buf == old(buffer.buf) || fresh(buffer.buf))
      ensures ok <==> len + env.overhead + |Unsent(old(Abs()))| <= MAX_BUFFER
      ensures Abs() == if ok then TakeFlight(old(Abs())) else old(Abs())
      ensures ok ==> buffer.size + len + env.overhead <= buffer.cap
      ensures sealCalls == old(sealCalls)
    {
      hide SslBuffer.Valid, SslBuffer.Contents, EnvOk;
      var unsent := if flight.Some? then flight.value[flightOffset..] else [];
      ok := buffer.EnsureCap(|unsent| + alignPrefix, len + env.overhead + |unsent|, address);
      if !ok { return; }
      buffer.Append(unsent);
      flight, flightOffset := None, 0;
      ahead := |log|;
    }

    method AddPending(r: Sealed, p: Pending)
      requires Valid() && buffer.size + |r.bytes| <= buffer.cap
      modifies this`log, this`ahead, this`pending, buffer`size, buffer.buf
      ensures Valid() && Abs() == Appended(old(Abs()), r, p) && pending == Some(p)
    {
      hide SslBuffer.Valid, SslBuffer.Contents, EnvOk;
      buffer.Append(r.bytes);
      log := log + [r];
      ahead := |log|;
      pending := Some(p);
    }

    method SetWnum(n: nat)
      requires Valid()
      modifies this`wnum
      ensures Valid() && Abs() == old(Abs()).(wnum := n)
    {
      hide SslBuffer.Valid, SslBuffer.Contents, EnvOk;
      wnum := n;
    }

    /** ssl3_write_app_data. */
    method WriteAppData(base: nat, input: seq<Byte>, alignPrefix: nat, addresses: nat -> nat) returns (ret: int)
      requires Valid() && Shape(Abs())
      modifies this, buffer, buffer.buf
      ensures Valid()
      ensures (Abs(), ret) == WriteApp(env, old(Abs()), base, input)
    {
      hide TlsWrite.DoWrite, Shape, SslBuffer.Valid, SslBuffer.Contents, EnvOk, Writer.Abs, Writer.Rest;
      Parts();
      if shutdown { return -1; }
      var tot := wnum;
      SetWnum(0);
      if |input| < tot { return -1; }
      ShapeAlone(old(Abs()));
      ghost var start := Abs();
      ghost var first := tot;
      var n := |input| - tot;
      while true
        invariant Valid() && Shape(Abs()) && tot <= |input| && n == |input| - tot
        invariant AppLoop(env, Abs(), base, input, tot) == AppLoop(env, start, base, input, first)
        invariant buffer.buf == old(buffer.buf) || buffer.buf == null || fresh(buffer.buf)
        decreases n
      {
        var nw := if n > env.maxFragment then env.maxFragment else n;
        DoWriteShape(env, Abs(), APPLICATION_DATA, Pointer(base, tot), input[tot..tot + nw]);
        ret := DoWrite(APPLICATION_DATA, Pointer(base, tot), input[tot..tot + nw], alignPrefix, addresses(tot));
        if ret <= 0 {
          SetWnum(tot);
          return;
        }
        if ret == n || env.partialWrite { return tot + ret; }
        n := n - ret;
        tot := tot + ret;
      }
    }

    /** add_record_to_flight. */
    method AddRecord(recordType: Byte, plain: seq<Byte>) returns (ok: bool)
      requires Valid()
      modifies this`flight, this`sealCalls, this`log
      ensures Valid() && (Abs(), ok) == TlsWrite.AddRecord(env, old(Abs()), recordType, plain)
    {
      hide SslBuffer.Valid, SslBuffer.Contents;
      if flight.None? { flight := Some([]); }
      var sealed := env.seal(sealCalls, recordType, plain);
      sealCalls := sealCalls + 1;
      if sealed.None? { return false; }
      flight := Some(flight.value + sealed.value);
      log := log + [Sealed(recordType, plain, sealed.value)];
      ok := true;
    }

    /** ssl3_add_message. */
    method AddMessage(message: seq<Byte>) returns (ok: bool)
      requires Valid()
      modifies this`flight, this`sealCalls, this`log
      ensures Valid() && (Abs(), ok) == TlsWrite.AddMessage(env, old(Abs()), message)
    {
      hide TlsWrite.AddRecord, SslBuffer.Valid, SslBuffer.Contents;
      var rest := message;
      var more := true;
      while more
        invariant Valid()
        invariant more ==> TlsWrite.AddMessage(env, Abs(), rest) == TlsWrite.AddMessage(env, old(Abs()), message)
        invariant !more ==> (Abs(), true) == TlsWrite.AddMessage(env, old(Abs()), message)
        decreases if more then 1 else 0, |rest|
      {
        var chunk := rest[..if |rest| > env.maxFragment then env.maxFragment else |rest|];
        ghost var was := rest;
        rest := rest[|chunk|..];
        ok := AddRecord(HANDSHAKE, chunk);
        if !ok { return; }
        more := rest != [];
      }
      ok := true;
    }

    /** ssl3_flush_flight. */
    method FlushFlight() returns (ret: int)
      requires Valid() && Shape(Abs())
      modifies this, buffer
      ensures Valid() && (buffer.buf == old(buffer.buf) || buffer.buf == null)
      ensures (Abs(), ret) == TlsWrite.FlushFlight(env, old(Abs()))
    {
      hide TlsWrite.FlushBuffer, FlightLoop, SslBuffer.Valid, SslBuffer.Contents, EnvOk, Writer.Abs, Writer.Rest;
      Parts();
      if flight.None? { return 1; }
      if shutdown || |flight.value| > INT_MAX { return -1; }
      FlushBufferShape(env, Abs());
      EmptyFlush(env, Abs());
      ret := 1;
      if buffer.size > 0 {
        ret := FlushBuffer();
        if ret <= 0 { return; }
      }
      Parts();
      ret := WriteFlight();
      if ret <= 0 { return; }
      ret := FinishFlight();
    }

    /** BIO_flush, after which the flight is gone. */
    method FinishFlight() returns (ret: int)
      requires Valid()
      modifies this`flushCalls, this`flight, this`flightOffset, this`ahead
      ensures Valid()
      ensures var t := old(Abs()).(flushCalls := old(flushCalls) + 1);
        (Abs(), ret) == if !env.flushes(old(flushCalls)) then (t, -1) else (t.(flight := None, flightOffset := 0, ahead := |t.log|), 1)
      ensures old(flushCalls) == old(Abs()).flushCalls
    {
      hide SslBuffer.Valid, SslBuffer.Contents, EnvOk;
      flushCalls := flushCalls + 1;
      if !env.flushes(flushCalls - 1) { return -1; }
      flight, flightOffset, ahead := None, 0, |log|;
      ret := 1;
    }

    /** The loop of ssl3_flush_flight. */
    method WriteFlight() returns (ret: int)
      requires Valid() && flight.Some? && flightOffset <= |flight.value|
      modifies this`writeCalls, this`wire, this`flightOffset
      ensures Valid() && flight == old(flight) && (Abs(), ret) == FlightLoop(env, old(Abs()))
    {
      hide FlightLoop, AfterStep, WriteAnswer, SslBuffer.Valid, SslBuffer.Contents, EnvOk;
      while flightOffset < |flight.value|
        invariant Valid() && flight == old(flight) && flightOffset <= |flight.value|
        invariant FlightLoop(env, Abs()) == FlightLoop(env, old(Abs()))
        decreases |flight.value| - flightOffset
      {
        FlightLoopStep(env, Abs());
        ret := WriteFlightFront();
        if ret <= 0 { return; }
      }
      FlightLoopStep(env, Abs());
      ret := 1;
    }

    method WriteFlightFront() returns (ret: int)
      requires Valid() && flight.Some? && flightOffset < |flight.value|
      modifies this`writeCalls, this`wire, this`flightOffset
      ensures Valid() && ret == WriteAnswer(env, old(writeCalls), |flight.value| - old(flightOffset))
          && ret <= |flight.value| - old(flightOffset)
      ensures flightOffset == old(flightOffset) + if ret > 0 then ret else 0
      ensures Abs() == if ret <= 0 then old(Abs()).(writeCalls := old(writeCalls) + 1) else AfterStep(old(Abs()), ret)
    {
      hide SslBuffer.Valid, SslBuffer.Contents, EnvOk;
      ret := TransportWrite(flight.value[flightOffset..]);
      if ret > 0 {
        assert flight.value[flightOffset..][..ret] == flight.value[flightOffset..flightOffset + ret];
        flightOffset := flightOffset + ret;
      }
    }

    /** ssl3_dispatch_alert. */
    method DispatchAlert(alignPrefix: nat, address: nat) returns (ret: int)
      requires Valid() && Shape(Abs())
      modifies this, buffer, buffer.buf
      ensures Valid()
      ensures (Abs(), ret) == TlsWrite.DispatchAlert(env, old(Abs()))
    {
      hide TlsWrite.DoWrite, Shape, SslBuffer.Valid, SslBuffer.Contents, EnvOk;
      AlertKept(env, Abs(), ALERT, Pointer(ALERT_BASE, 0), alert);
      ret := DoWrite(ALERT, Pointer(ALERT_BASE, 0), alert, alignPrefix, address);
      if ret <= 0 { return; }
      alertDispatch := false;
      if alert != [] && alert[0] == FATAL { flushCalls := flushCalls + 1; }
      ret := 1;
    }

    /** ssl_send_alert. */
    method SendAlert(level: Byte, desc: Byte, alignPrefix: nat, address: nat) returns (ret: int)
      requires Valid() && Shape(Abs())
      modifies this, buffer, buffer.buf
      ensures Valid()
      ensures (Abs(), ret) == TlsWrite.SendAlert(env, old(Abs()), level, desc)
    {
      hide TlsWrite.DispatchAlert, SslBuffer.Valid, SslBuffer.Contents;
      if shutdown { return -1; }
      shutdown, alert, alertDispatch := true, [level, desc], true;
      if buffer.size == 0 {
        ret := DispatchAlert(alignPrefix, address);
      } else {
        ret := -1;
      }
    }
  }

  lemma {:induction false} ShapeAlone(s: State)
    requires Shape(s)
    ensures Shape(s.(wnum := 0))
  {
  }

  lemma {:induction false} FlushBufferStep(env: Env, s: State)
    ensures var ret := WriteAnswer(env, s.writeCalls, |s.buffer|);
      TlsWrite.FlushBuffer(env, s) ==
        if s.buffer == [] then (s, 1)
        else if ret <= 0 then (s.(writeCalls := s.writeCalls + 1), ret)
        else TlsWrite.FlushBuffer(env, Took(s, ret))
  {
  }

  lemma {:induction false} FlightLoopStep(env: Env, s: State)
    requires s.flight.Some?
    ensures
      FlightLoop(env, s) ==
        if s.flightOffset >= |s.flight.value| then (s, 1)
        else
          var ret := WriteAnswer(env, s.writeCalls, |s.flight.value| - s.flightOffset);
          if ret <= 0 then (s.(writeCalls := s.writeCalls + 1), ret) else FlightLoop(env, AfterStep(s, ret))
  {
  }

  lemma {:induction false} EmptyFlush(env: Env, s: State)
    ensures s.buffer == [] ==> TlsWrite.FlushBuffer(env, s) == (s, 1)
  {
  }

  /** Writing a record leaves the stored alert alone. */
  lemma {:induction false} AlertKept(env: Env, s: State, recordType: Byte, at: Pointer, plain: seq<Byte>)
    requires Shape(s)
    ensures TlsWrite.DoWrite(env, s, recordType, at, plain).0.alert == s.alert
  {
    hide TlsWrite.FlushBuffer;
    FlushBufferShape(env, s);
    if s.pending.None? && s.buffer == [] {
      var sealed := env.seal(s.sealCalls, recordType, plain);
      if sealed.Some? {
        var t := TakeFlight(s).(sealCalls := s.sealCalls + 1);
        FlushBufferShape(env, Appended(t, Sealed(recordType, plain, sealed.value), Pending(|plain|, at, recordType)));
      }
    }
  }
}
