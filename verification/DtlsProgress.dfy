/** Sending makes progress: a record takes as much of the message as it has room for, and a flight
    of whole messages gets out as soon as enough packets are written. */
module DtlsProgress {
  import opened Words
  import opened SslAead
  import opened DtlsWindow
  import opened DtlsRecord
  import opened DtlsMessage
  import opened DtlsReceive
  import opened DtlsSend

  /** The context under which a message of that epoch is sealed, the current one or the one before. */
  function KeyIndex(c: Counters, epoch: nat): nat
    requires epoch == Epoch(c) || epoch + 1 == Epoch(c)
  {
    if epoch == Epoch(c) then c.changes else c.changes - 1
  }

  predicate Sealable(c: Counters, m: Outgoing) {
    && (m.epoch == Epoch(c) || m.epoch + 1 == Epoch(c))
    && (m.isCcs || Whole(ParseFragment(m.data)))
  }

  function Overhead(keys: nat -> Key, c: Counters, m: Outgoing): nat
    requires Sealable(c, m)
  {
    MaxOverhead(keys(KeyIndex(c, m.epoch)).context, keys(KeyIndex(c, m.epoch)).aead)
  }

  /** As much of the rest of a message as fits behind the two headers and the overhead of the cipher. */
  function Share(keys: nat -> Key, s: Sender, maxOut: nat): int
    requires s.written < |s.flight| && Sealable(s.records, s.flight[s.written])
  {
    var m := s.flight[s.written];
    var left, room := BodyLen(m) - s.offset, maxOut - 13 - Overhead(keys, s.records, m) - 12;
    if m.isCcs then 0 else if left < room then left else room
  }

  predicate NumbersLeft(c: Counters, n: nat) {
    c.next + n < 0x1_0000_0000_0000 && c.lastNext + n < 0x1_0000_0000_0000
  }

  // ------------------------------------------------------------- one record

  lemma {:induction false} StepSeals(keys: nat -> Key, s: Sender, previous: bool, maxOut: nat, recordType: Byte,
      plain: seq<Byte>)
    requires KeysOk(keys) && (previous ==> Epoch(s.records) >= 1) && NumbersLeft(s.records, 1)
    requires var k := keys(if previous then s.records.changes - 1 else s.records.changes);
      |plain| + 13 + MaxOverhead(k.context, k.aead) <= maxOut < 0x1_0000 + 13
    ensures var r := SealStep(keys, s, previous, maxOut, recordType, plain);
      && r.1.Some? && r.0.records.changes == s.records.changes
      && r.0.records.next <= s.records.next + 1 && r.0.records.lastNext <= s.records.lastNext + 1
  {
    hide KeysOk, RecordVersion, MaxOverhead;
    var k := if previous then s.records.changes - 1 else s.records.changes;
    var n := if previous then s.records.lastNext else s.records.next;
    BytesFit(keys, Desc(k, n, RecordVersion(keys(s.records.changes).context, true), recordType, plain));
  }

  lemma {:induction false} BytesFit(keys: nat -> Key, d: Desc)
    requires KeysOk(keys)
    ensures |Bytes(keys, d)| <= 13 + |d.plain| + MaxOverhead(keys(d.key).context, keys(d.key).aead)
  {
    hide SslAead.Sealed, SeqBytes, Ideal, WellFormed, FixedOverhead, MaxOverhead;
    var k := keys(d.key);
    SealedLen(k.context, k.aead, k.iv(d.seqNum), d.recordType, d.version, SeqBytes(d.key % DtlsRecord.TWO16, d.seqNum), d.plain);
  }

  /** With room for its headers and one byte, seal_next_message seals, and takes either all that is
      left of the message or all that fits. */
  lemma {:induction false} SealNextTakes(keys: nat -> Key, s: Sender, maxOut: nat)
    requires KeysOk(keys) && AtPlace(s) && s.written < |s.flight| && Sealable(s.records, s.flight[s.written])
        && NumbersLeft(s.records, 1)
    requires 13 + Overhead(keys, s.records, s.flight[s.written]) + 13 <= maxOut < 0x1_0000 + 13
    ensures var r := SealNext(keys, s, maxOut);
      && r.1.Sealed? && r.1.item == Item(s.written, s.offset, Share(keys, s, maxOut))
      && (r.1.done <==> s.offset + Share(keys, s, maxOut) == BodyLen(s.flight[s.written]))
      && r.0.offset == (if r.1.done then 0 else s.offset + Share(keys, s, maxOut))
      && r.0.records.changes == s.records.changes
      && r.0.records.next <= s.records.next + 1 && r.0.records.lastNext <= s.records.lastNext + 1
  {
    hide Bytes, KeysOk, ParseFragment, FragmentBytes, MaxOverhead, SealStep;
    var m := s.flight[s.written];
    var previous := Epoch(s.records) >= 1 && m.epoch == Epoch(s.records) - 1;
    if m.isCcs {
      StepSeals(keys, s, previous, maxOut, CHANGE_CIPHER_SPEC, [MT_CCS]);
    } else {
      WholeLen(m);
      var hdr := ParseFragment(m.data).value.fragment;
      var todo := Share(keys, s, maxOut);
      var f := Fragment(hdr.mtype, hdr.msgLen, hdr.seqNum, s.offset, hdr.body[s.offset..s.offset + todo]);
      StepSeals(keys, s, previous, maxOut, HANDSHAKE, FragmentBytes(f));
    }
  }

  /** With less room it may also wait for the next packet, but it does not fail. */
  lemma {:induction false} SealNextHolds(keys: nat -> Key, s: Sender, maxOut: nat)
    requires KeysOk(keys) && AtPlace(s) && s.written < |s.flight| && Sealable(s.records, s.flight[s.written])
        && NumbersLeft(s.records, 1)
    requires maxOut < 0x1_0000 + 13
    ensures var r := SealNext(keys, s, maxOut);
      && !r.1.SealError? && r.0.records.changes == s.records.changes
      && r.0.records.next <= s.records.next + 1 && r.0.records.lastNext <= s.records.lastNext + 1
  {
    hide Bytes, KeysOk, ParseFragment, FragmentBytes, MaxOverhead, SealStep;
    var m := s.flight[s.written];
    if 13 + Overhead(keys, s.records, m) + 13 <= maxOut {
      SealNextTakes(keys, s, maxOut);
    } else if m.isCcs {
      var previous := Epoch(s.records) >= 1 && m.epoch == Epoch(s.records) - 1;
      if 13 + Overhead(keys, s.records, m) + 1 <= maxOut { StepSeals(keys, s, previous, maxOut, CHANGE_CIPHER_SPEC, [MT_CCS]); }
    } else {
      WholeLen(m);
    }
  }

  // ------------------------------------------------------------- the whole flight

  /** An upper bound on the number of records still to be made. */
  function LeftFrom(flight: seq<Outgoing>, k: nat): nat
    requires k <= |flight|
    decreases |flight| - k
  {
    if k == |flight| then 0 else BodyLen(flight[k]) + 1 + LeftFrom(flight, k + 1)
  }

  function Left(s: Sender): nat
    requires AtPlace(s)
  {
    LeftFrom(s.flight, s.written) - s.offset
  }

  predicate CanGoOut(s: Sender) {
    && AtPlace(s) && NumbersLeft(s.records, Left(s))
    && forall k :: s.written <= k < |s.flight| ==> Sealable(s.records, s.flight[k])
  }

  lemma {:induction false} LeftEnd(s: Sender)
    requires AtPlace(s)
    ensures s.written < |s.flight| ==> Left(s) > 0
    ensures s.written == |s.flight| ==> Left(s) == 0
  {
  }

  /** Making a record uses up at most one number, and there is one less to make. */
  lemma {:induction false} RecordLess(s: Sender, t: Sender, done: bool, len: nat)
    requires CanGoOut(s) && s.written < |s.flight| && t.flight == s.flight && t.records.changes == s.records.changes
    requires t.records.next <= s.records.next + 1 && t.records.lastNext <= s.records.lastNext + 1
    requires done <==> s.offset + len == BodyLen(s.flight[s.written])
    requires s.offset + len <= BodyLen(s.flight[s.written]) && (!done ==> len > 0)
    requires if done then t.written == s.written + 1 && t.offset == 0 else t.written == s.written && t.offset == s.offset + len
    ensures CanGoOut(t) && Left(t) < Left(s)
  {
    hide BodyLen, ParseFragment, Whole;
    forall k | t.written <= k < |t.flight| ensures Sealable(t.records, t.flight[k]) { assert Sealable(s.records, s.flight[k]); }
  }

  /** A packet gets made, and with room for one record there is one in it. */
  lemma {:induction false} FillPacketMakes(keys: nat -> Key, s: Sender, maxOut: nat)
    requires KeysOk(keys) && CanGoOut(s) && maxOut < 0x1_0000 + 13
    ensures var r := FillPacket(keys, s, maxOut);
      && r.1.Some? && CanGoOut(r.0) && Left(r.0) <= Left(s) && r.0.records.changes == s.records.changes
      && (s.written < |s.flight| && 13 + Overhead(keys, s.records, s.flight[s.written]) + 13 <= maxOut ==> r.1.value.items != [] && Left(r.0) < Left(s))
    decreases |s.flight| - s.written
  {
    hide SealNext, Bytes, KeysOk, Sealable, BodyLen, Left, Overhead;
    if s.written < |s.flight| {
      LeftEnd(s);
      assert Sealable(s.records, s.flight[s.written]);
      SealNextHolds(keys, s, maxOut);
      SealNextAdvances(keys, s, maxOut);
      if 13 + Overhead(keys, s.records, s.flight[s.written]) + 13 <= maxOut { SealNextTakes(keys, s, maxOut); }
      var r := SealNext(keys, s, maxOut);
      if r.1.Sealed? {
        var t := if r.1.done then r.0.(written := s.written + 1) else r.0;
        RecordLess(s, t, r.1.done, r.1.item.len);
        if r.1.done { FillPacketMakes(keys, t, maxOut - |Bytes(keys, r.1.desc)|); }
      }
    }
  }

  /** Every message of the flight finds room for a record. */
  predicate RoomForAll(keys: nat -> Key, s: Sender, mtu: nat) {
    && mtu < 0x1_0000 + 13
    && forall k :: 0 <= k < |s.flight| && Sealable(s.records, s.flight[k]) ==> 13 + Overhead(keys, s.records, s.flight[k]) + 13 <= mtu
  }

  /** Sending finishes when as many packets get written as there are bytes and messages left, or
      earlier. */
  lemma {:induction false} SendLoopFinishes(keys: nat -> Key, s: Sender, mtu: nat, writes: seq<bool>)
    requires KeysOk(keys) && CanGoOut(s) && RoomForAll(keys, s, mtu)
    requires |writes| >= Left(s) && forall i :: 0 <= i < |writes| ==> writes[i]
    ensures SendLoop(keys, s, mtu, writes).end == Finished
    decreases Left(s)
  {
    hide KeysOk, FillPacket, Sealable, BodyLen, Overhead, Left;
    if s.written < |s.flight| {
      LeftEnd(s);
      assert Sealable(s.records, s.flight[s.written]);
      FillPacketMakes(keys, s, mtu);
      FillPacketLeads(keys, s, mtu);
      var r := SealPacket(keys, s, mtu);
      SameRoom(keys, s, r.0, mtu);
      SendLoopFinishes(keys, r.0, mtu, writes[1..]);
    }
  }

  lemma {:induction false} SameRoom(keys: nat -> Key, s: Sender, t: Sender, mtu: nat)
    requires RoomForAll(keys, s, mtu) && t.flight == s.flight && t.records.changes == s.records.changes
    ensures RoomForAll(keys, t, mtu)
  {
    hide Whole, ParseFragment, MaxOverhead;
    forall k | 0 <= k < |t.flight| && Sealable(t.records, t.flight[k]) ensures 13 + Overhead(keys, t.records, t.flight[k]) + 13 <= mtu {
      assert Sealable(s.records, s.flight[k]);
    }
  }

  /** A flight of 3000 bytes and an MTU of 1400, without a cipher: three records, in order. */
  lemma {:induction false} ThreeRecords(keys: nat -> Key, s: Sender)
    requires KeysOk(keys) && CanGoOut(s) && s.written < |s.flight| && s.offset == 0 && !s.flight[s.written].isCcs
        && BodyLen(s.flight[s.written]) == 3000
    requires s.flight[s.written].epoch == 0 && s.records.changes == 0
    ensures var a := SealNext(keys, s, 1400); var b := SealNext(keys, a.0, 1400); var c := SealNext(keys, b.0, 1400);
      && a.1.Sealed? && a.1.item == Item(s.written, 0, 1375) && b.1.Sealed? && b.1.item == Item(s.written, 1375, 1375)
      && c.1.Sealed? && c.1.item == Item(s.written, 2750, 250) && c.1.done
  {
    hide SealNext, Sealable, BodyLen, KeysOk, Left;
    NoOverhead(keys, s);
    LeftBody(s);
    var a := SealNext(keys, s, 1400);
    SealNextTakes(keys, s, 1400);
    RecordLess(s, a.0, false, 1375);
    SameMessage(keys, s, a.0);
    SealNextTakes(keys, a.0, 1400);
    var b := SealNext(keys, a.0, 1400);
    RecordLess(a.0, b.0, false, 1375);
    SameMessage(keys, a.0, b.0);
    SealNextTakes(keys, b.0, 1400);
  }

  lemma {:induction false} NoOverhead(keys: nat -> Key, s: Sender)
    requires KeysOk(keys) && CanGoOut(s) && s.written < |s.flight| && s.flight[s.written].epoch == 0
        && s.records.changes == 0
    ensures Sealable(s.records, s.flight[s.written]) && Overhead(keys, s.records, s.flight[s.written]) == 0
  {
    hide Whole, ParseFragment, Left;
  }

  lemma {:induction false} LeftBody(s: Sender)
    requires AtPlace(s) && s.written < |s.flight| && s.offset == 0
    ensures Left(s) > BodyLen(s.flight[s.written])
  {
    hide BodyLen;
  }

  lemma {:induction false} SameMessage(keys: nat -> Key, s: Sender, t: Sender)
    requires CanGoOut(s) && CanGoOut(t) && t.flight == s.flight && t.written == s.written < |s.flight|
        && t.records.changes == s.records.changes
    ensures Sealable(t.records, t.flight[t.written]) && Sealable(s.records, s.flight[s.written])
    ensures Overhead(keys, t.records, t.flight[t.written]) == Overhead(keys, s.records, s.flight[s.written])
  {
    hide Whole, ParseFragment, Left, MaxOverhead;
  }
}
