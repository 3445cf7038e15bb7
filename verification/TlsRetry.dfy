/** Retried writes of application data lose and repeat nothing. */
module TlsRetry {
  import opened Words
  import opened TlsWrite

  /** The plaintexts of the application data records from index `from` on, put together. */
  function AppPlain(log: seq<Sealed>, from: nat): seq<Byte> {
    if |log| <= from then []
    else
      var last := log[|log| - 1];
      AppPlain(log[..|log| - 1], from) + if last.recordType == APPLICATION_DATA then last.plain else []
  }

  /** How much of the caller's data is sealed but maybe not yet written. */
  function PendingApp(s: State): nat {
    if s.pending.Some? && s.pending.value.recordType == APPLICATION_DATA then s.pending.value.len else 0
  }

  function Share(env: Env, input: seq<Byte>, tot: nat): nat
    requires tot <= |input|
  {
    if |input| - tot > env.maxFragment then env.maxFragment else |input| - tot
  }

  /** While the caller keeps offering `input`, with tot bytes done: the records since `from` hold
      exactly the bytes done and the pending ones, in pieces within the fragment limit. */
  ghost predicate At(env: Env, s: State, base: nat, input: seq<Byte>, from: nat, tot: nat) {
    && Conserved(s) && from <= |s.log|
    && tot + PendingApp(s) <= |input|
    && AppPlain(s.log, from) == input[..tot + PendingApp(s)]
    && (forall k :: from <= k < |s.log| && s.log[k].recordType == APPLICATION_DATA ==> 0 < |s.log[k].plain| <= env.maxFragment)
    && (s.pending.Some? && s.pending.value.recordType == APPLICATION_DATA
        ==> Share(env, input, tot) > 0 && s.pending.value == Pending(Share(env, input, tot), Pointer(base, tot), APPLICATION_DATA))
  }

  lemma {:induction false} PlainMore(log: seq<Sealed>, from: nat, r: Sealed)
    requires from <= |log|
    ensures AppPlain(log + [r], from) == AppPlain(log, from) + if r.recordType == APPLICATION_DATA then r.plain else []
  {
    assert (log + [r])[..|log|] == log;
  }

  /** Flushing changes neither the log nor what is pending. */
  lemma {:induction false} FlushKeeps(env: Env, s: State, base: nat, input: seq<Byte>, from: nat, tot: nat)
    requires At(env, s, base, input, from, tot)
    ensures At(env, FlushBuffer(env, s).0, base, input, from, tot)
  {
    hide FlushBuffer, Conserved, AppPlain;
    FlushBufferShape(env, s);
    FlushBufferConserves(env, s);
  }

  /** When the pending record goes out, it counts as done. */
  lemma {:induction false} PendingDone(env: Env, s: State, base: nat, input: seq<Byte>, from: nat, tot: nat)
    requires At(env, s, base, input, from, tot) && PendingApp(s) > 0
    ensures At(env, s.(pending := None), base, input, from, tot + PendingApp(s))
  {
    hide AppPlain, Flat;
    assert Conserved(s.(pending := None));
  }

  lemma {:induction false} AppPending(env: Env, s: State, base: nat, input: seq<Byte>, from: nat, tot: nat)
    requires At(env, s, base, input, from, tot) && s.pending.Some? && tot <= |input|
    ensures var r := WritePending(env, s, APPLICATION_DATA, Pointer(base, tot), Share(env, input, tot));
      && (r.1 <= 0 ==> At(env, r.0, base, input, from, tot))
      && (r.1 > 0 ==> At(env, r.0, base, input, from, tot + r.1) && r.0.pending.None? && r.0.buffer == []
                      && r.1 == Share(env, input, tot) == PendingApp(s))
  {
    hide FlushBuffer, Conserved, AppPlain, At;
    AtParts(env, s, base, input, from, tot);
    FlushBufferShape(env, s);
    FlushKeeps(env, s, base, input, from, tot);
    var r := FlushBuffer(env, s);
    if PendingApp(s) > 0 { PendingDone(env, r.0, base, input, from, tot); }
  }

  lemma {:induction false} AtParts(env: Env, s: State, base: nat, input: seq<Byte>, from: nat, tot: nat)
    requires At(env, s, base, input, from, tot)
    ensures Shape(s) && Conserved(s) && tot + PendingApp(s) <= |input|
    ensures s.pending.Some? && s.pending.value.recordType == APPLICATION_DATA
        ==> Share(env, input, tot) > 0 && s.pending.value == Pending(Share(env, input, tot), Pointer(base, tot), APPLICATION_DATA)
  {
    hide AppPlain, Flat;
  }

  /** Sealing the next share of the input. */
  lemma {:induction false} SealedShare(env: Env, t: State, base: nat, input: seq<Byte>, from: nat, tot: nat,
      bytes: seq<Byte>)
    requires At(env, t, base, input, from, tot) && t.pending.None? && t.flight.None? && Share(env, input, tot) > 0
    ensures var n := Share(env, input, tot);
      At(env, Appended(t, Sealed(APPLICATION_DATA, input[tot..tot + n], bytes), Pending(n, Pointer(base, tot), APPLICATION_DATA)),
         base, input, from, tot)
  {
    hide Conserved, AppPlain;
    var n := Share(env, input, tot);
    var r := Sealed(APPLICATION_DATA, input[tot..tot + n], bytes);
    AppendConserves(t, r, Pending(n, Pointer(base, tot), APPLICATION_DATA));
    PlainMore(t.log, from, r);
    assert input[..tot] + input[tot..tot + n] == input[..tot + n];
  }

  lemma {:induction false} TakeFlightAt(env: Env, s: State, base: nat, input: seq<Byte>, from: nat, tot: nat, c: nat)
    requires At(env, s, base, input, from, tot) && s.buffer == [] && Shape(s)
    ensures At(env, TakeFlight(s).(sealCalls := c), base, input, from, tot)
  {
    hide Conserved, AppPlain;
    TakeFlightConserves(s);
    CountersAlone(TakeFlight(s));
  }

  /** One do_ssl3_write for the next share of the input. */
  lemma {:induction false} WriteShare(env: Env, s: State, base: nat, input: seq<Byte>, from: nat, tot: nat)
    requires At(env, s, base, input, from, tot) && Shape(s) && tot <= |input|
    ensures var n := Share(env, input, tot);
      var r := DoWrite(env, s, APPLICATION_DATA, Pointer(base, tot), input[tot..tot + n]);
      && (r.1 <= 0 ==> At(env, r.0, base, input, from, tot))
      && (r.1 > 0 ==> At(env, r.0, base, input, from, tot + n) && r.0.pending.None? && r.0.buffer == [] && r.1 == n)
  {
    hide FlushBuffer, Conserved, AppPlain, At, WritePending, TakeFlight;
    var n := Share(env, input, tot);
    var plain := input[tot..tot + n];
    if s.pending.Some? {
      AppPending(env, s, base, input, from, tot);
    } else if s.buffer == [] && plain != [] {
      var t := TakeFlight(s).(sealCalls := s.sealCalls + 1);
      TakeFlightAt(env, s, base, input, from, tot, s.sealCalls + 1);
      TakeFlightParts(s);
      var sealed := env.seal(s.sealCalls, APPLICATION_DATA, plain);
      if sealed.Some? {
        SealedShare(env, t, base, input, from, tot, sealed.value);
        var u := Appended(t, Sealed(APPLICATION_DATA, plain, sealed.value), Pending(n, Pointer(base, tot), APPLICATION_DATA));
        AppPending(env, u, base, input, from, tot);
      }
    }
  }

  lemma {:induction false} TakeFlightParts(s: State)
    requires Shape(s)
    ensures TakeFlight(s).flight.None? && TakeFlight(s).pending == s.pending && TakeFlight(s).log == s.log
  {
  }

  lemma {:induction false} WnumAlone(env: Env, s: State, base: nat, input: seq<Byte>, from: nat, tot: nat)
    requires At(env, s, base, input, from, tot)
    ensures forall w, f, a, d, h :: At(env, s.(wnum := w, flushCalls := f, alert := a, alertDispatch := d, shutdown := h), base, input, from, tot)
  {
    hide Conserved, AppPlain;
    CountersAlone(s);
  }

  lemma {:induction false} AppLoopAt(env: Env, s: State, base: nat, input: seq<Byte>, from: nat, tot: nat)
    requires At(env, s, base, input, from, tot) && Shape(s) && tot <= |input| && s.wnum == 0
    ensures var r := AppLoop(env, s, base, input, tot);
      && (r.1 <= 0 ==> At(env, r.0, base, input, from, r.0.wnum))
      && (r.1 > 0 ==> At(env, r.0, base, input, from, r.1) && r.0.pending.None? && r.0.buffer == [] && r.0.wnum == 0
                      && (r.1 == |input| || env.partialWrite))
    decreases |input| - tot
  {
    hide DoWrite, At, Shape;
    var n := Share(env, input, tot);
    var at, plain := Pointer(base, tot), input[tot..tot + n];
    DoWriteShape(env, s, APPLICATION_DATA, at, plain);
    DoWriteWnum(env, s, APPLICATION_DATA, at, plain);
    WriteShare(env, s, base, input, from, tot);
    var r := DoWrite(env, s, APPLICATION_DATA, at, plain);
    if r.1 <= 0 {
      WnumAlone(env, r.0, base, input, from, tot);
    } else if r.1 != |input| - tot && !env.partialWrite {
      AppLoopAt(env, r.0, base, input, from, tot + r.1);
    }
  }

  lemma {:induction false} DoWriteWnum(env: Env, s: State, recordType: Byte, at: Pointer, plain: seq<Byte>)
    requires Shape(s)
    ensures DoWrite(env, s, recordType, at, plain).0.wnum == s.wnum
        && DoWrite(env, s, recordType, at, plain).0.shutdown == s.shutdown
  {
    hide FlushBuffer;
    FlushBufferShape(env, s);
    if s.pending.None? && s.buffer == [] {
      var sealed := env.seal(s.sealCalls, recordType, plain);
      if sealed.Some? {
        var t := TakeFlight(s).(sealCalls := s.sealCalls + 1);
        FlushBufferShape(env, Appended(t, Sealed(recordType, plain, sealed.value), Pending(|plain|, at, recordType)));
      }
    }
  }

  // ------------------------------------------------------------- the other calls in between

  lemma {:induction false} AddRecordAt(env: Env, s: State, base: nat, input: seq<Byte>, from: nat, tot: nat,
      recordType: Byte, plain: seq<Byte>)
    requires At(env, s, base, input, from, tot) && recordType != APPLICATION_DATA
    ensures At(env, AddRecord(env, s, recordType, plain).0, base, input, from, tot)
        && AddRecord(env, s, recordType, plain).0.wnum == s.wnum
  {
    hide Conserved, AppPlain;
    AddRecordConserves(env, s, recordType, plain);
    var sealed := env.seal(s.sealCalls, recordType, plain);
    if sealed.Some? { PlainMore(s.log, from, Sealed(recordType, plain, sealed.value)); }
  }

  lemma {:induction false} AddMessageAt(env: Env, s: State, base: nat, input: seq<Byte>, from: nat, tot: nat,
      message: seq<Byte>)
    requires At(env, s, base, input, from, tot) && env.maxFragment > 0
    ensures At(env, AddMessage(env, s, message).0, base, input, from, tot)
        && AddMessage(env, s, message).0.wnum == s.wnum
    decreases |message|
  {
    hide AddRecord, At;
    var n := if |message| > env.maxFragment then env.maxFragment else |message|;
    AddRecordAt(env, s, base, input, from, tot, HANDSHAKE, message[..n]);
    var r := AddRecord(env, s, HANDSHAKE, message[..n]);
    if r.1 && n < |message| { AddMessageAt(env, r.0, base, input, from, tot, message[n..]); }
  }

  lemma {:induction false} FlushFlightAt(env: Env, s: State, base: nat, input: seq<Byte>, from: nat, tot: nat)
    requires At(env, s, base, input, from, tot)
    ensures At(env, FlushFlight(env, s).0, base, input, from, tot) && FlushFlight(env, s).0.wnum == s.wnum
  {
    hide Conserved, AppPlain, FlushBuffer, FlightLoop;
    FlushFlightConserves(env, s);
    FlushBufferShape(env, s);
    if FlushBuffer(env, s).0.flight.Some? { FlightKeepsBuffer(env, FlushBuffer(env, s).0); }
  }

  /** An alert never touches application data that is pending, and is refused while it is. */
  lemma {:induction false} DispatchAt(env: Env, s: State, base: nat, input: seq<Byte>, from: nat, tot: nat)
    requires At(env, s, base, input, from, tot) && Shape(s)
    ensures At(env, DispatchAlert(env, s).0, base, input, from, tot) && DispatchAlert(env, s).0.wnum == s.wnum
  {
    hide DoWrite, At;
    AlertAt(env, s, base, input, from, tot, Pointer(ALERT_BASE, 0), s.alert);
    DoWriteWnum(env, s, ALERT, Pointer(ALERT_BASE, 0), s.alert);
    WnumAlone(env, DoWrite(env, s, ALERT, Pointer(ALERT_BASE, 0), s.alert).0, base, input, from, tot);
  }

  lemma {:induction false} AlertAt(env: Env, s: State, base: nat, input: seq<Byte>, from: nat, tot: nat, at: Pointer,
      plain: seq<Byte>)
    requires At(env, s, base, input, from, tot) && Shape(s)
    ensures At(env, DoWrite(env, s, ALERT, at, plain).0, base, input, from, tot)
  {
    hide Conserved, AppPlain, FlushBuffer;
    DoWriteConserves(env, s, ALERT, at, plain);
    if s.pending.Some? {
      FlushBufferShape(env, s);
    } else if s.buffer == [] {
      var t := TakeFlight(s).(sealCalls := s.sealCalls + 1);
      var sealed := env.seal(s.sealCalls, ALERT, plain);
      if sealed.Some? {
        PlainMore(s.log, from, Sealed(ALERT, plain, sealed.value));
        FlushBufferShape(env, Appended(t, Sealed(ALERT, plain, sealed.value), Pending(|plain|, at, ALERT)));
      }
    }
  }

  /** Any other call, or a write that does not succeed, leaves the caller where it was. */
  lemma {:induction false} ApplyAt(env: Env, s: State, base: nat, input: seq<Byte>, from: nat, a: Action)
    requires At(env, s, base, input, from, s.wnum) && Shape(s) && env.maxFragment > 0
    requires a.App? ==> a == App(base, input) && Apply(env, s, a).1 <= 0
    ensures var t := Apply(env, s, a).0; At(env, t, base, input, from, t.wnum)
  {
    hide At, Shape, AppLoop, AddRecord, AddMessage, FlushFlight, DispatchAlert;
    AtParts(env, s, base, input, from, s.wnum);
    WnumAlone(env, s, base, input, from, s.wnum);
    match a {
      case App(_, _) =>
        if !s.shutdown {
          AtParts(env, s.(wnum := 0), base, input, from, s.wnum);
          AppLoopAt(env, s.(wnum := 0), base, input, from, s.wnum);
        }
      case Handshake(m) => AddMessageAt(env, s, base, input, from, s.wnum, m);
      case ChangeCipherSpec => AddRecordAt(env, s, base, input, from, s.wnum, CHANGE_CIPHER_SPEC, [1]);
      case FlightAlert(level, desc) => AddRecordAt(env, s, base, input, from, s.wnum, ALERT, [level, desc]);
      case Flush => FlushFlightAt(env, s, base, input, from, s.wnum);
      case Send(level, desc) =>
        var t := s.(shutdown := true, alert := [level, desc], alertDispatch := true);
        AtParts(env, t, base, input, from, s.wnum);
        if !s.shutdown && t.buffer == [] { DispatchAt(env, t, base, input, from, s.wnum); }
      case Dispatch => DispatchAt(env, s, base, input, from, s.wnum);
    }
  }

  /** Every write among the actions offers `input` again, and none of them succeeds. */
  ghost predicate OnlyRetries(env: Env, s: State, base: nat, input: seq<Byte>, actions: seq<Action>)
    requires Conserved(s) && env.maxFragment > 0
    decreases |actions|
  {
    actions == [] ||
    (&& (actions[0].App? ==> actions[0] == App(base, input) && Apply(env, s, actions[0]).1 <= 0)
     && (ApplyConserves(env, s, actions[0]); OnlyRetries(env, Apply(env, s, actions[0]).0, base, input, actions[1..])))
  }

  lemma {:induction false} RunAt(env: Env, s: State, base: nat, input: seq<Byte>, from: nat, actions: seq<Action>)
    requires At(env, s, base, input, from, s.wnum) && Conserved(s) && env.maxFragment > 0
        && OnlyRetries(env, s, base, input, actions)
    ensures var t := Run(env, s, actions); At(env, t, base, input, from, t.wnum)
    decreases |actions|
  {
    hide At, Conserved, Apply;
    if actions != [] {
      ConservedShape(s);
      ApplyConserves(env, s, actions[0]);
      ApplyAt(env, s, base, input, from, actions[0]);
      RunAt(env, Apply(env, s, actions[0]).0, base, input, from, actions[1..]);
    }
  }

  lemma {:induction false} Begin(env: Env, s: State, base: nat, input: seq<Byte>)
    requires Conserved(s) && s.wnum == 0 && PendingApp(s) == 0
        && (s.pending.Some? ==> s.pending.value.recordType != APPLICATION_DATA)
    ensures At(env, s, base, input, |s.log|, 0)
  {
    hide Conserved;
    assert input[..0] == [];
  }

  /** However many writes of the same data fail, with whatever calls in between, the next one
      has sealed exactly a prefix of the data, in order, without gaps or overlaps and in records
      within the limit.  If it returns r > 0, that prefix is input[..r], it is all of the input
      unless partial writes are on, and every record of it is completely on the wire. */
  lemma {:induction false} RetriesLoseNothing(env: Env, s: State, base: nat, input: seq<Byte>, actions: seq<Action>)
    requires Conserved(s) && env.maxFragment > 0 && s.wnum == 0
    requires s.pending.Some? ==> s.pending.value.recordType != APPLICATION_DATA
    requires OnlyRetries(env, s, base, input, actions)
    ensures var t := Run(env, s, actions);
      Shape(t) &&
      var r := WriteApp(env, t, base, input); var u := r.0; var from := |s.log|;
      && from <= |u.log|
      && AppPlain(u.log, from) <= input
      && (forall k :: from <= k < |u.log| && u.log[k].recordType == APPLICATION_DATA ==> 0 < |u.log[k].plain| <= env.maxFragment)
      && (r.1 > 0 ==>
            && r.1 <= |input| && AppPlain(u.log, from) == input[..r.1] && (env.partialWrite || r.1 == |input|)
            && u.wnum == 0 && u.pending.None?
            && u.ahead <= |u.log| && Flat(u.log[..u.ahead]) <= u.wire
            && (forall k :: u.ahead <= k < |u.log| ==> u.log[k].recordType != APPLICATION_DATA))
  {
    hide Run, Flat, AppLoop, Conserved;
    var from := |s.log|;
    Begin(env, s, base, input);
    RunAt(env, s, base, input, from, actions);
    var t := Run(env, s, actions);
    AtParts(env, t, base, input, from, t.wnum);
    WnumAlone(env, t, base, input, from, t.wnum);
    if !t.shutdown { AppLoopAt(env, t.(wnum := 0), base, input, from, t.wnum); }
    var r := WriteApp(env, t, base, input);
    if r.1 > 0 { OnTheWire(r.0); }
  }

  lemma {:induction false} OnTheWire(s: State)
    requires Conserved(s) && s.buffer == []
    ensures s.ahead <= |s.log| && Flat(s.log[..s.ahead]) <= s.wire
    ensures forall k :: s.ahead <= k < |s.log| ==> s.log[k].recordType != APPLICATION_DATA
  {
    hide Flat;
    assert s.wire + s.buffer == s.wire;
  }
}
