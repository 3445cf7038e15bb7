/** The last message number: with the order of the records a sender ever made, delivery stays a
    prefix up to and including 65536 messages. */
module DtlsHistory {
  import opened Words
  import opened SslAead
  import DtlsWindow
  import opened DtlsRecord
  import opened DtlsMessage
  import opened DtlsReceive
  import opened DtlsSend
  import opened DtlsRun

  /** The number in the header of a fragment. */
  function NumberIn(plain: seq<Byte>): nat {
    var p := ParseFragment(plain);
    if p.Some? then p.value.fragment.seqNum else 0
  }

  // ------------------------------------------------------------- the records of one flight

  /** The records ds were made, one after the other, while the counters went from c to e. */
  ghost predicate Rising(c: Counters, ds: seq<Desc>, e: Counters) {
    && e.changes == c.changes && c.next <= e.next && c.lastNext <= e.lastNext
    && (forall k :: 0 <= k < |ds| ==> Between(c, ds[k], e))
    && (forall a, b :: 0 <= a < b < |ds| && ds[a].key == ds[b].key ==> ds[a].seqNum < ds[b].seqNum)
  }

  predicate Between(c: Counters, d: Desc, e: Counters) {
    (d.key == c.changes && c.next <= d.seqNum < e.next) || (d.key + 1 == c.changes && c.lastNext <= d.seqNum < e.lastNext)
  }

  lemma {:induction false} RisingThen(c: Counters, a: seq<Desc>, e: Counters, b: seq<Desc>, f: Counters)
    requires Rising(c, a, e) && Rising(e, b, f)
    ensures Rising(c, a + b, f)
  {
    var ds := a + b;
    forall k | 0 <= k < |ds| ensures Between(c, ds[k], f) {
      if k < |a| { assert Between(c, a[k], e); } else { assert Between(e, b[k - |a|], f); }
    }
    forall i, j | 0 <= i < j < |ds| && ds[i].key == ds[j].key ensures ds[i].seqNum < ds[j].seqNum {
      if i < |a| <= j { assert Between(c, a[i], e) && Between(e, b[j - |a|], f); }
    }
  }

  lemma {:induction false} RisingNone(c: Counters, ds: seq<Desc>, e: Counters)
    requires Rising(c, ds, e)
    ensures Rising(c, [], e)
  {
  }

  lemma {:induction false} SealNextRises(keys: nat -> Key, s: Sender, maxOut: nat)
    requires KeysOk(keys) && s.written < |s.flight| && s.records.changes < DtlsRecord.TWO16
    ensures var r := SealNext(keys, s, maxOut);
      !r.0.records.wrapped ==> Rising(s.records, if r.1.Sealed? then [r.1.desc] else [], r.0.records)
  {
    hide KeysOk, Bytes, ParseFragment, FragmentBytes, MaxOverhead, RecordVersion, Whole;
  }

  lemma {:induction false} FillPacketRises(keys: nat -> Key, s: Sender, maxOut: nat)
    requires KeysOk(keys) && s.written <= |s.flight| && s.records.changes < DtlsRecord.TWO16
    ensures var r := FillPacket(keys, s, maxOut);
      !r.0.records.wrapped ==> Rising(s.records, if r.1.Some? then r.1.value.descs else [], r.0.records)
    decreases |s.flight| - s.written
  {
    hide KeysOk, SealNext, Bytes, Rising;
    if s.written == |s.flight| {
      RisingStill(s.records);
    } else {
      SealNextRises(keys, s, maxOut);
      SealNextGrows(keys, s, maxOut);
      RisingStill(s.records);
      var r := SealNext(keys, s, maxOut);
      if r.1.Sealed? && r.1.done {
        var t, m := r.0.(written := s.written + 1), maxOut - |Bytes(keys, r.1.desc)|;
        FillPacketRises(keys, t, m);
        FillPacketGrows(keys, t, m);
        var rest := FillPacket(keys, t, m);
        if !rest.0.records.wrapped {
          RisingThen(s.records, [r.1.desc], t.records, if rest.1.Some? then rest.1.value.descs else [], rest.0.records);
          if rest.1.None? { RisingNone(s.records, [r.1.desc] + [], rest.0.records); }
        }
      }
    }
  }

  lemma {:induction false} RisingStill(c: Counters)
    ensures Rising(c, [], c)
  {
  }

  lemma {:induction false} SendLoopRises(keys: nat -> Key, s: Sender, mtu: nat, writes: seq<bool>)
    requires KeysOk(keys) && AtPlace(s) && s.records.changes < DtlsRecord.TWO16
    ensures var r := SendLoop(keys, s, mtu, writes);
      !r.sender.records.wrapped ==> Rising(s.records, AllDescs(r.packets), r.sender.records)
    decreases |s.flight| - s.written, if s.written < |s.flight| then BodyLen(s.flight[s.written]) - s.offset else 0
  {
    hide KeysOk, FillPacket, BodyLen, Rising;
    RisingStill(s.records);
    if s.written < |s.flight| {
      FillPacketRises(keys, s, mtu);
      FillPacketPlace(keys, s, mtu);
      FillPacketGrows(keys, s, mtu);
      var r := SealPacket(keys, s, mtu);
      var f := FillPacket(keys, s, mtu);
      if !f.0.records.wrapped { RisingNone(s.records, if f.1.Some? then f.1.value.descs else [], f.0.records); }
      if r.1.Some? && writes != [] && writes[0] {
        FillPacketLeads(keys, s, mtu);
        PathAdvances(s.flight, s.written, s.offset, r.1.value.items, r.0.written, r.0.offset);
        SendLoopRises(keys, r.0, mtu, writes[1..]);
        SendLoopGrows(keys, r.0, mtu, writes[1..]);
        var rest := SendLoop(keys, r.0, mtu, writes[1..]);
        assert ([r.1.value] + rest.packets)[1..] == rest.packets;
        if !rest.sender.records.wrapped {
          RisingThen(s.records, r.1.value.descs, r.0.records, AllDescs(rest.packets), rest.sender.records);
        }
      }
    }
  }

  /** Every record carries something of the flight. */
  ghost predicate Carried(flight: seq<Outgoing>, ds: seq<Desc>) {
    forall k :: 0 <= k < |ds| ==> IsCarried(flight, ds[k])
  }

  ghost predicate IsCarried(flight: seq<Outgoing>, d: Desc) {
    exists i :: Carries(flight, d, i)
  }

  lemma {:induction false} SendLoopCarries(keys: nat -> Key, s: Sender, mtu: nat, writes: seq<bool>)
    requires KeysOk(keys) && AtPlace(s)
    ensures Carried(s.flight, AllDescs(SendLoop(keys, s, mtu, writes).packets))
    decreases |s.flight| - s.written, if s.written < |s.flight| then BodyLen(s.flight[s.written]) - s.offset else 0
  {
    hide KeysOk, FillPacket, PacketBytes, BodyLen, IsCarried, Carries;
    if s.written < |s.flight| {
      var r := SealPacket(keys, s, mtu);
      if r.1.Some? && writes != [] && writes[0] {
        FillPacketLeads(keys, s, mtu);
        PathAdvances(s.flight, s.written, s.offset, r.1.value.items, r.0.written, r.0.offset);
        SendLoopCarries(keys, r.0, mtu, writes[1..]);
        var rest := SendLoop(keys, r.0, mtu, writes[1..]);
        assert ([r.1.value] + rest.packets)[1..] == rest.packets;
        PacketCarried(keys, s, r.1.value, r.0, mtu);
        CarriedThen(s.flight, r.1.value.descs, AllDescs(rest.packets));
      }
    }
  }

  lemma {:induction false} PacketCarried(keys: nat -> Key, s: Sender, p: Packet, t: Sender, mtu: nat)
    requires KeysOk(keys) && Leads(keys, s, p, t, mtu)
    ensures Carried(s.flight, p.descs)
  {
    hide KeysOk, PacketBytes, Carries, AtPlace, Path;
    forall k | 0 <= k < |p.descs| ensures IsCarried(s.flight, p.descs[k]) {
      assert Carries(s.flight, p.descs[k], p.items[k]);
    }
  }

  lemma {:induction false} CarriedThen(flight: seq<Outgoing>, a: seq<Desc>, b: seq<Desc>)
    requires Carried(flight, a) && Carried(flight, b)
    ensures Carried(flight, a + b)
  {
    hide IsCarried;
  }

  // ------------------------------------------------------------- what the sender has done

  /** Messages are added under later and later keys. */
  predicate AddedOk(added: seq<nat>, c: Counters) {
    && (forall i, j :: 0 <= i <= j < |added| ==> added[i] <= added[j])
    && (forall i :: 0 <= i < |added| ==> added[i] <= c.changes)
  }

  /** The flight holds the last messages, under the keys with which they were added. */
  predicate FlightNumbered(added: seq<nat>, flight: seq<Outgoing>) {
    && |flight| <= MAX_FLIGHT
    && forall k :: 0 <= k < |flight| && !flight[k].isCcs ==> Numbered(added, flight[k], |flight| - k)
  }

  predicate Numbered(added: seq<nat>, m: Outgoing, back: nat) {
    var i := NumberIn(m.data);
    i < |added| <= i + back && m.epoch == added[i]
  }

  predicate IsPiece(d: Desc, key: nat, i: nat) {
    d.recordType == HANDSHAKE && d.key == key && NumberIn(d.plain) == i
  }

  /** A record made earlier: its number is used up, and it was sealed under the key of its message. */
  predicate Logged(added: seq<nat>, c: Counters, d: Desc) {
    && d.key <= c.changes && (d.key == c.changes ==> d.seqNum < c.next) && (d.key + 1 == c.changes ==> d.seqNum < c.lastNext)
    && (d.recordType == HANDSHAKE ==> NumberIn(d.plain) < |added| && d.key == added[NumberIn(d.plain)])
  }

  predicate AllLogged(added: seq<nat>, c: Counters, log: seq<Desc>) {
    forall a :: 0 <= a < |log| ==> Logged(added, c, log[a])
  }

  /** Of two records the later has the larger number, and at most six messages come before one of
      which something was sent already. */
  predicate Ordered(log: seq<Desc>) {
    forall a, b :: 0 <= a < b < |log| ==> Follows(log[a], log[b])
  }

  predicate Follows(d: Desc, e: Desc) {
    && (d.key == e.key ==> d.seqNum < e.seqNum)
    && (d.recordType == HANDSHAKE && e.recordType == HANDSHAKE ==> NumberIn(d.plain) < NumberIn(e.plain) + MAX_FLIGHT)
  }

  /** A piece that is carried has the number and the key of its message. */
  lemma {:induction false} CarriedNumber(added: seq<nat>, flight: seq<Outgoing>, d: Desc)
    requires FlightNumbered(added, flight) && d.key < DtlsRecord.TWO16 && d.recordType == HANDSHAKE
    requires IsCarried(flight, d)
    ensures var n := NumberIn(d.plain); n < |added| <= n + MAX_FLIGHT && d.key == added[n]
  {
    hide ParseFragment, FragmentBytes;
    var i :| Carries(flight, d, i);
    var m := flight[i.index];
    var p := ParseFragment(m.data).value.fragment;
    ParsedFits(m.data);
    var f := p.(off := i.off, body := p.body[i.off..i.off + i.len]);
    ParseBack(f, []);
    assert FragmentBytes(f) + [] == FragmentBytes(f);
    assert Numbered(added, m, |flight| - i.index);
  }

  lemma {:induction false} LogGrows(added: seq<nat>, flight: seq<Outgoing>, c: Counters, log: seq<Desc>, ds: seq<Desc>,
      e: Counters)
    requires FlightNumbered(added, flight) && AllLogged(added, c, log) && Ordered(log) && c.changes < DtlsRecord.TWO16
    requires Carried(flight, ds) && Rising(c, ds, e)
    ensures AllLogged(added, e, log + ds) && Ordered(log + ds)
  {
    hide NumberIn, IsCarried, FlightNumbered;
    var all := log + ds;
    forall k | 0 <= k < |ds| && ds[k].recordType == HANDSHAKE
      ensures var n := NumberIn(ds[k].plain); n < |added| <= n + MAX_FLIGHT && ds[k].key == added[n]
    {
      assert Between(c, ds[k], e);
      CarriedNumber(added, flight, ds[k]);
    }
    forall a | 0 <= a < |all| ensures Logged(added, e, all[a]) {
      if a < |log| { assert Logged(added, c, log[a]); } else { assert Between(c, ds[a - |log|], e); }
    }
    forall a, b | 0 <= a < b < |all| ensures Follows(all[a], all[b]) {
      if b < |log| { assert Follows(log[a], log[b]); }
      else if a < |log| {
        assert Logged(added, c, log[a]) && Between(c, ds[b - |log|], e);
      } else {
        assert ds[a - |log|] == all[a] && ds[b - |log|] == all[b];
        assert Logged(added, e, all[a]);
      }
    }
  }

  // ------------------------------------------------------------- what the receiver has taken

  /** Message i was delivered, or something of it is in the ring. */
  predicate InHand(delivered: nat, ring: seq<Option<Assembly>>, i: nat) {
    i < delivered || InRing(ring, i)
  }

  predicate InRing(ring: seq<Option<Assembly>>, i: nat) {
    exists k :: 0 <= k < |ring| && ring[k].Some? && ring[k].value.seqNum == i
  }

  /** Some piece of message i, sealed under the reader's key, is behind its window. */
  predicate Seen(log: seq<Desc>, readKey: nat, max: nat, i: nat) {
    exists a :: 0 <= a < |log| && IsPiece(log[a], readKey, i) && DtlsWindow.Combined(readKey % DtlsRecord.TWO16, log[a].seqNum) <= max
  }

  predicate Took(added: seq<nat>, log: seq<Desc>, readKey: nat, max: nat, i: nat) {
    i < |added| && added[i] <= readKey && (added[i] == readKey ==> Seen(log, readKey, max, i))
  }

  ghost predicate TookAll(added: seq<nat>, log: seq<Desc>, readKey: nat, max: nat, delivered: nat,
      ring: seq<Option<Assembly>>) {
    forall i: nat :: InHand(delivered, ring, i) ==> Took(added, log, readKey, max, i)
  }

  ghost predicate Hist(w: World) {
    && |w.added| == |w.sent| && AddedOk(w.added, w.sender.records) && FlightNumbered(w.added, w.sender.flight)
    && AllLogged(w.added, w.sender.records, w.log) && Ordered(w.log)
    && TookAll(w.added, w.log, w.readKey, w.receiver.records.window.max, |w.delivered|, w.receiver.ring)
    && NumbersLast(w) && |w.delivered| <= DtlsMessage.TWO16
  }

  lemma {:induction false} TookGrows(added: seq<nat>, log: seq<Desc>, readKey: nat, max: nat, delivered: nat,
      ring: seq<Option<Assembly>>,
                                     moreAdded: seq<nat>, moreLog: seq<Desc>)
    requires TookAll(added, log, readKey, max, delivered, ring)
    ensures TookAll(added + moreAdded, log + moreLog, readKey, max, delivered, ring)
  {
    hide InHand, IsPiece;
    forall i: nat | InHand(delivered, ring, i) ensures Took(added + moreAdded, log + moreLog, readKey, max, i) {
      assert Took(added, log, readKey, max, i);
      if added[i] == readKey {
        var a :| 0 <= a < |log| && IsPiece(log[a], readKey, i) && DtlsWindow.Combined(readKey % DtlsRecord.TWO16, log[a].seqNum) <= max;
        assert (log + moreLog)[a] == log[a];
      }
    }
  }

  // ------------------------------------------------------------- the sender's steps

  lemma {:induction false} AddNumbered(added: seq<nat>, s: Sender, m: Message)
    requires FlightNumbered(added, s.flight) && AddedOk(added, s.records) && s.records.changes < DtlsRecord.TWO16
    requires |m.body| < TWO24 && s.writeSeq == |added| % DtlsMessage.TWO16
    requires AddOutgoing(s, false, MessageBytes(m, s.writeSeq)).1 ==> |added| < DtlsMessage.TWO16
    ensures var r := AddOutgoing(s, false, MessageBytes(m, s.writeSeq)); var more := if r.1 then [s.records.changes] else [];
      FlightNumbered(added + more, r.0.flight) && AddedOk(added + more, s.records) && r.0.records == s.records
  {
    hide ParseFragment, FragmentBytes;
    var r := AddOutgoing(s, false, MessageBytes(m, s.writeSeq));
    var more := if r.1 then [s.records.changes] else [];
    if r.1 { NumberBack(m, |added|); }
    forall k | 0 <= k < |r.0.flight| && !r.0.flight[k].isCcs ensures Numbered(added + more, r.0.flight[k], |r.0.flight| - k) {
      if !r.1 || k < |r.0.flight| - 1 { assert Numbered(added, s.flight[k], |s.flight| - k); }
    }
  }

  lemma {:induction false} NumberBack(m: Message, n: nat)
    requires |m.body| < TWO24 && n < DtlsMessage.TWO16
    ensures NumberIn(MessageBytes(m, n)) == n
  {
    hide ParseFragment, FragmentBytes;
    var f := Fragment(m.mtype, |m.body|, n, 0, m.body);
    ParseBack(f, []);
    assert FragmentBytes(f) + [] == FragmentBytes(f);
  }

  lemma {:induction false} CcsNumbered(added: seq<nat>, s: Sender)
    requires FlightNumbered(added, s.flight)
    ensures FlightNumbered(added, AddOutgoing(s, true, []).0.flight)
  {
    hide NumberIn;
    var r := AddOutgoing(s, true, []);
    forall k | 0 <= k < |r.0.flight| && !r.0.flight[k].isCcs ensures Numbered(added, r.0.flight[k], |r.0.flight| - k) {
      assert Numbered(added, s.flight[k], |s.flight| - k);
    }
  }

  lemma {:induction false} RekeyLogged(added: seq<nat>, c: Counters, log: seq<Desc>)
    requires AllLogged(added, c, log) && AddedOk(added, c)
    ensures AllLogged(added, WriterNext(c, NewKeys), log) && AddedOk(added, WriterNext(c, NewKeys))
  {
    hide NumberIn;
    forall a | 0 <= a < |log| ensures Logged(added, WriterNext(c, NewKeys), log[a]) {
      assert Logged(added, c, log[a]);
    }
  }

  lemma {:induction false} AddMessageHist(keys: nat -> Key, w: World, m: Message)
    requires KeysOk(keys) && Ready(w) && Inv(keys, w) && Hist(w) && Within(Apply(keys, w, AddMessage(m)))
    ensures Hist(Apply(keys, w, AddMessage(m)))
  {
    hide KeysOk, Good, NetOk, TrueDescs, ReceiverOk, RingOk, AtPlace, WellFormed, MessageBytes, AddedOk,
         FlightNumbered, AllLogged, Ordered, TookAll, NoneInRing;
    if |m.body| < TWO24 {
      AddNumbered(w.added, w.sender, m);
      if AddOutgoing(w.sender, false, MessageBytes(m, w.sender.writeSeq)).1 {
        var more := [w.sender.records.changes];
        LoggedAlso(w.added, more, w.sender.records, w.log);
        TookGrows(w.added, w.log, w.readKey, w.receiver.records.window.max, |w.delivered|, w.receiver.ring, more, []);
        assert w.log + [] == w.log;
      } else {
        assert w.added + [] == w.added;
      }
    }
  }

  lemma {:induction false} LoggedAlso(added: seq<nat>, more: seq<nat>, c: Counters, log: seq<Desc>)
    requires AllLogged(added, c, log)
    ensures AllLogged(added + more, c, log)
  {
    hide NumberIn;
    forall a | 0 <= a < |log| ensures Logged(added + more, c, log[a]) {
      assert Logged(added, c, log[a]);
    }
  }

  lemma {:induction false} SendHist(keys: nat -> Key, w: World, s: Sender, mtu: nat, writes: seq<bool>)
    requires KeysOk(keys) && AtPlace(s) && Hist(w) && s.flight == w.sender.flight && s.records == w.sender.records
    requires s.records.changes < DtlsRecord.TWO16 && !Send(keys, w, s, mtu, writes).sender.records.wrapped
    ensures Hist(Send(keys, w, s, mtu, writes))
  {
    hide KeysOk, SendLoop, AtPlace, FlightNumbered, AllLogged, Ordered, TookAll, NoneInRing, Rising, Carried;
    SendLoopRises(keys, s, mtu, writes);
    SendLoopCarries(keys, s, mtu, writes);
    SendLoopGrows(keys, s, mtu, writes);
    var r := SendLoop(keys, s, mtu, writes);
    var ds := AllDescs(r.packets);
    LogGrows(w.added, s.flight, s.records, w.log, ds, r.sender.records);
    TookGrows(w.added, w.log, w.readKey, w.receiver.records.window.max, |w.delivered|, w.receiver.ring, [], ds);
    assert w.added + [] == w.added;
  }

  // ------------------------------------------------------------- the receiver's steps

  /** What a record leaves in the ring was there before, or is a piece of its own message. */
  lemma {:induction false} TakeRing(keys: nat -> Key, sent: seq<Message>, r: Receiver, d: Desc)
    requires KeysOk(keys) && RingOk(r) && TrueDesc(keys, sent, d)
    ensures var q := TakeRecord(r, d.recordType, d.plain).0;
      && q.records == r.records && q.readSeq == r.readSeq && q.hasMessage == r.hasMessage
      && (d.recordType != HANDSHAKE ==> q.ring == r.ring)
      && (q.ring != r.ring ==> r.readSeq <= NumberIn(d.plain) < r.readSeq + MAX_FLIGHT)
      && (forall i: nat :: InRing(q.ring, i) ==> InRing(r.ring, i) || i == NumberIn(d.plain))
  {
    hide KeysOk, FragmentBytes, ParseFragment, Bytes, Incoming, Complete, Filled;
    TrueContents(keys, sent, d);
    if d.recordType == HANDSHAKE {
      var f :| TrueFragment(sent, f) && d.plain == FragmentBytes(f);
      ParseBack(f, []);
      assert FragmentBytes(f) + [] == FragmentBytes(f);
      TakeFragmentOk(r, f);
      var q := TakeFragment(r, f).0;
      assert TakeAll(q, []).0 == q;
      TakeOne(r, f);
    }
  }

  lemma {:induction false} TakeOne(r: Receiver, f: Fragment)
    requires RingOk(r) && FragmentFits(f)
    ensures var q := TakeFragment(r, f).0;
      && q == r.(ring := q.ring)
      && (q.ring != r.ring ==> r.readSeq <= f.seqNum < r.readSeq + MAX_FLIGHT)
      && (forall i: nat :: InRing(q.ring, i) ==> InRing(r.ring, i) || i == f.seqNum)
  {
    hide Complete;
    var q := TakeFragment(r, f).0;
    forall i: nat | InRing(q.ring, i) ensures InRing(r.ring, i) || i == f.seqNum {
      var k :| 0 <= k < |q.ring| && q.ring[k].Some? && q.ring[k].value.seqNum == i;
      if k != f.seqNum % MAX_FLIGHT { assert q.ring[k] == r.ring[k]; }
    }
  }

  /** The records of messages i, i + 7, i + 14 and so on come one after the other. */
  lemma {:induction false} Chain(w: World, x: nat, m: nat) returns (a: nat)
    requires Hist(w) && x < |w.log| && w.log[x].recordType == HANDSHAKE && w.log[x].key == w.readKey
    requires NumberIn(w.log[x].plain) + MAX_FLIGHT * m < |w.delivered| && m > 0
    ensures x < a < |w.log| && IsPiece(w.log[a], w.readKey, NumberIn(w.log[x].plain) + MAX_FLIGHT * m)
    ensures w.log[a].seqNum >= w.log[x].seqNum + m
    ensures DtlsWindow.Combined(w.readKey % DtlsRecord.TWO16, w.log[a].seqNum) <= w.receiver.records.window.max
  {
    hide FlightNumbered, NumberIn, NoneInRing, NumbersLast, DtlsWindow.Combined;
    var n := NumberIn(w.log[x].plain);
    var i := n + MAX_FLIGHT * m;
    assert InHand(|w.delivered|, w.receiver.ring, i);
    assert Took(w.added, w.log, w.readKey, w.receiver.records.window.max, i);
    assert Logged(w.added, w.sender.records, w.log[x]);
    assert w.added[n] <= w.added[i];
    a :| 0 <= a < |w.log| && IsPiece(w.log[a], w.readKey, i)
         && DtlsWindow.Combined(w.readKey % DtlsRecord.TWO16, w.log[a].seqNum) <= w.receiver.records.window.max;
    var b := x;
    if m > 1 { b := Chain(w, x, m - 1); }
    assert a < b ==> Follows(w.log[a], w.log[b]);
    assert a != b;
    assert Follows(w.log[b], w.log[a]);
  }

  /** When all 65536 numbers are used up, what is left of the first messages is too old. */
  lemma {:induction false} Stale(w: World, d: Desc)
    requires Hist(w) && |w.delivered| == DtlsMessage.TWO16 && d in w.log && d.recordType == HANDSHAKE
        && Opens(w.readKey, w.receiver, d)
    ensures NumberIn(d.plain) >= MAX_FLIGHT
  {
    hide Hist, NumberIn;
    if NumberIn(d.plain) < MAX_FLIGHT {
      var x :| 0 <= x < |w.log| && w.log[x] == d;
      var a := Chain(w, x, DtlsWindow.WINDOW_SIZE);
    }
  }

  lemma {:induction false} OpenHist(keys: nat -> Key, w: World)
    requires KeysOk(keys) && Ready(w) && Inv(keys, w) && Hist(w)
    ensures Hist(Apply(keys, w, Open))
  {
    hide KeysOk, Good, NetOk, FlightOk, MessagesOk, TrueDescs, TrueDesc, DtlsWindow.ShouldDiscard, OpenHandshake,
         TakeRecord, WithNumber, AddedOk, FlightNumbered, AllLogged, Ordered, TookAll, RingOk, WellFormed, AtPlace,
         NumberIn, TrueAssembly;
    var o := OpenTrue(keys, w.sent, w.log, w.readKey, w.receiver, w.input);
    if o.Some? {
      var d := o.value;
      var x :| 0 <= x < |w.log| && w.log[x] == d;
      DescAt(keys, w.sent, w.log, x);
      var r := WithNumber(w.readKey, w.receiver, d);
      WindowForward(w.readKey, w.receiver, d);
      TakeRing(keys, w.sent, r, d);
      TookOpened(w, x, OpenHandshake(w.receiver, w.input).receiver);
      if |w.delivered| == DtlsMessage.TWO16 && d.recordType == HANDSHAKE { Stale(w, d); }
    }
  }

  lemma {:induction false} WindowForward(k: nat, r: Receiver, d: Desc)
    requires RingOk(r)
    ensures var q := WithNumber(k, r, d);
      && q.ring == r.ring && q.readSeq == r.readSeq && q.hasMessage == r.hasMessage
      && q.records.window.max >= r.records.window.max
      && q.records.window.max >= DtlsWindow.Combined(k % DtlsRecord.TWO16, d.seqNum)
  {
    hide RingOk, DtlsWindow.Combined;
  }

  lemma {:induction false} TookOpened(w: World, x: nat, q: Receiver)
    requires TookAll(w.added, w.log, w.readKey, w.receiver.records.window.max, |w.delivered|, w.receiver.ring)
    requires AllLogged(w.added, w.sender.records, w.log) && x < |w.log| && w.log[x].key == w.readKey
    requires q.records.window.max >= w.receiver.records.window.max
    requires q.records.window.max >= DtlsWindow.Combined(w.readKey % DtlsRecord.TWO16, w.log[x].seqNum)
    requires w.log[x].recordType != HANDSHAKE ==> q.ring == w.receiver.ring
    requires forall i: nat :: InRing(q.ring, i) ==> InRing(w.receiver.ring, i) || i == NumberIn(w.log[x].plain)
    ensures TookAll(w.added, w.log, w.readKey, q.records.window.max, |w.delivered|, q.ring)
  {
    hide InRing, NumberIn, DtlsWindow.Combined;
    forall i: nat | InHand(|w.delivered|, q.ring, i) ensures Took(w.added, w.log, w.readKey, q.records.window.max, i) {
      if InHand(|w.delivered|, w.receiver.ring, i) {
        assert Took(w.added, w.log, w.readKey, w.receiver.records.window.max, i);
      } else {
        assert Logged(w.added, w.sender.records, w.log[x]) && IsPiece(w.log[x], w.readKey, i);
      }
    }
  }

  lemma {:induction false} NextHist(keys: nat -> Key, w: World)
    requires KeysOk(keys) && Ready(w) && Inv(keys, w) && Hist(w) && |w.sent| <= DtlsMessage.TWO16
    ensures Hist(Apply(keys, w, Next))
  {
    hide KeysOk, Good, NetOk, FlightOk, MessagesOk, TrueDescs, AddedOk, FlightNumbered, AllLogged, Ordered, TookAll,
         WellFormed, AtPlace, TrueAssembly, RingOk, GetMessage, NoneInRing, NextMessage;
    if w.receiver.hasMessage && GetMessage(w.receiver).Some? {
      var n := |w.delivered|;
      if NoneInRing(w.receiver) { EmptyRing(w.receiver); }
      GetTrue(keys, w.sent, w.readKey, w.receiver);
      NextParts(w.receiver);
      TookNext(w, NextMessage(w.receiver));
      if n + 1 == DtlsMessage.TWO16 { LastGone(w.receiver); }
    }
  }

  lemma {:induction false} TookNext(w: World, q: Receiver)
    requires TookAll(w.added, w.log, w.readKey, w.receiver.records.window.max, |w.delivered|, w.receiver.ring)
    requires RingOk(w.receiver) && w.receiver.readSeq == |w.delivered|
    requires DtlsReceive.Current(w.receiver).Some? && DtlsReceive.Current(w.receiver).value.seqNum == w.receiver.readSeq
    requires |q.ring| == MAX_FLIGHT && forall i :: 0 <= i < MAX_FLIGHT && q.ring[i].Some? ==> q.ring[i] == w.receiver.ring[i]
    ensures TookAll(w.added, w.log, w.readKey, w.receiver.records.window.max, |w.delivered| + 1, q.ring)
  {
    hide Took, InSlot;
    var ring := w.receiver.ring;
    assert InRing(ring, |w.delivered|);
    forall i: nat | InHand(|w.delivered| + 1, q.ring, i) ensures Took(w.added, w.log, w.readKey, w.receiver.records.window.max, i) {
      if InRing(q.ring, i) {
        var k :| 0 <= k < |q.ring| && q.ring[k].Some? && q.ring[k].value.seqNum == i;
        assert ring[k].Some? && ring[k].value.seqNum == i;
      }
      assert InHand(|w.delivered|, ring, i);
    }
  }

  /** The last number of all leaves an empty ring. */
  lemma {:induction false} LastGone(r: Receiver)
    requires RingOk(r) && r.readSeq + 1 == DtlsMessage.TWO16 && GetMessage(r).Some?
    ensures NoneInRing(NextMessage(r))
  {
    var q := NextMessage(r);
    forall i | 0 <= i < |q.ring| ensures q.ring[i].None? {
      assert r.ring[i].Some? ==> InSlot(r.readSeq, i, r.ring[i].value);
    }
  }

  lemma {:induction false} TookRekeyed(added: seq<nat>, log: seq<Desc>, k: nat, max: nat, delivered: nat,
      ring: seq<Option<Assembly>>)
    requires TookAll(added, log, k, max, delivered, ring)
    ensures TookAll(added, log, k + 1, 0, delivered, ring)
  {
    hide InHand, Seen;
    forall i: nat | InHand(delivered, ring, i) ensures Took(added, log, k + 1, 0, i) {
      assert Took(added, log, k, max, i);
    }
  }

  // ------------------------------------------------------------- runs

  lemma {:induction false} StartHist(keys: nat -> Key, maxLen: nat)
    requires KeysOk(keys)
    ensures Hist(Start(keys, maxLen))
  {
    hide KeysOk, Took;
    var w := Start(keys, maxLen);
    assert forall i: nat :: !InRing(w.receiver.ring, i);
  }

  lemma {:induction false} ApplyHist(keys: nat -> Key, w: World, a: Action)
    requires KeysOk(keys) && Ready(w) && Inv(keys, w) && Hist(w) && Within(w) && Within(Apply(keys, w, a))
    requires !Apply(keys, w, a).sender.records.wrapped
    ensures Hist(Apply(keys, w, a))
  {
    hide KeysOk, Inv, RingOk, AtPlace, WellFormed, Send, OpenHandshake, AddOutgoing, Unprocessed, GetMessage,
         AddedOk, FlightNumbered, AllLogged, Ordered, TookAll;
    match a {
      case AddMessage(m) => AddMessageHist(keys, w, m);
      case AddChangeCipherSpec => CcsNumbered(w.added, w.sender); SameRecords(w.sender);
      case Flush(mtu, writes) => SendHist(keys, w, Completed(w.sender), mtu, writes);
      case Retransmit(mtu, writes) => SendHist(keys, w, Rewound(w.sender), mtu, writes);
      case HandshakeComplete => NoFlight(w.added);
      case NewWriteKeys => RekeyLogged(w.added, w.sender.records, w.log);
      case Arrive(i) =>
      case Open => OpenHist(keys, w);
      case Get =>
      case Next => NextHist(keys, w);
      case TakeCcs =>
      case NewReadKeys => TookRekeyed(w.added, w.log, w.readKey, w.receiver.records.window.max, |w.delivered|, w.receiver.ring);
    }
  }

  lemma {:induction false} SameRecords(s: Sender)
    ensures AddOutgoing(s, true, []).0.records == s.records
  {
  }

  lemma {:induction false} NoFlight(added: seq<nat>)
    ensures FlightNumbered(added, [])
  {
  }

  /** Nothing that was ever numbered has come around: at most 65536 messages, and neither the
      sender's epoch nor one of its record numbers. */
  predicate Unwrapped(w: World) {
    |w.sent| <= DtlsMessage.TWO16 && !w.sender.records.wrapped
  }

  lemma {:induction false} RunHist(keys: nat -> Key, w: World, actions: seq<Action>)
    requires KeysOk(keys) && Ready(w) && Inv(keys, w) && Hist(w) && Unwrapped(Run(keys, w, actions))
    ensures Inv(keys, Run(keys, w, actions))
    decreases |actions|
  {
    hide KeysOk, Apply, Inv, Ready, Hist, NumbersLast;
    if actions != [] {
      ApplyReady(keys, w, actions[0]);
      RunGrows(keys, w, actions);
      var v := Apply(keys, w, actions[0]);
      RunGrows(keys, v, actions[1..]);
      HistParts(w);
      FlightBound(keys, w, actions[0]);
      ApplyInv(keys, w, actions[0]);
      ApplyHist(keys, w, actions[0]);
      RunHist(keys, v, actions[1..]);
    }
  }

  lemma {:induction false} HistParts(w: World)
    requires Hist(w)
    ensures NumbersLast(w)
  {
  }

  /** Before its epoch comes around, a sender has changed its keys fewer than 65536 times. */
  lemma {:induction false} FlightBound(keys: nat -> Key, w: World, a: Action)
    requires KeysOk(keys) && Ready(w) && Inv(keys, w) && !Apply(keys, w, a).sender.records.wrapped
    ensures w.sender.records.changes < DtlsRecord.TWO16 && Apply(keys, w, a).sender.records.changes < DtlsRecord.TWO16
  {
    hide KeysOk, Good, NetOk, TrueDescs, ReceiverOk, MessagesOk, SendLoop, OpenHandshake, Unprocessed, GetMessage,
         NextMessage, RingOk, WellFormed, MessageBytes, AtPlace;
    match a {
      case Flush(mtu, writes) => SendLoopGrows(keys, Completed(w.sender), mtu, writes);
      case Retransmit(mtu, writes) => SendLoopGrows(keys, Rewound(w.sender), mtu, writes);
      case _ =>
    }
  }

  /** RFC 6347 section 4.2.3 for as many messages as there are numbers: what is delivered is a prefix
      of what was sent. */
  lemma {:induction false} DeliveryToTheLast(keys: nat -> Key, maxLen: nat, actions: seq<Action>)
    requires KeysOk(keys) && Unwrapped(Run(keys, Start(keys, maxLen), actions))
    ensures var w := Run(keys, Start(keys, maxLen), actions); w.delivered <= w.sent
  {
    hide KeysOk, Run, Start, Ready, Hist;
    StartInv(keys, maxLen);
    StartHist(keys, maxLen);
    RunHist(keys, Start(keys, maxLen), actions);
  }
}
