/** Sending a flight of DTLS handshake messages: how it is cut into fragments, records and
    packets (RFC 6347 sections 4.2.3 and 4.2.4). */
module DtlsSend {
  import opened Words
  import opened SslAead
  import opened DtlsWindow
  import opened DtlsRecord
  import opened DtlsMessage
  import opened DtlsReceive

  /** DTLS_OUTGOING_MESSAGE. */
  datatype Outgoing = Outgoing(data: seq<Byte>, epoch: nat, isCcs: bool)

  datatype Sender = Sender(
    flight: seq<Outgoing>, written: nat, offset: nat, complete: bool, writeSeq: nat, records: Counters)

  const NEW_SENDER := Sender([], 0, 0, false, 0, FRESH)

  /** What the sender puts into records: the ChangeCipherSpec byte, and fragments. */
  predicate Sendable(recordType: Byte, plain: seq<Byte>) {
    (recordType == CHANGE_CIPHER_SPEC && plain == [MT_CCS]) || (recordType == HANDSHAKE && ParseFragment(plain).Some? && ParseFragment(plain).value.rest == [])
  }

  /** What is sealed under k does not open under the other key.  (Without a key everything opens.) */
  ghost predicate Foreign(k: Key, other: Key, epoch: nat)
    requires KeyOk(k) && KeyOk(other)
  {
    !other.context.isNull ==>
      forall recordType, version: nat, s: nat, plain :: Sendable(recordType, plain) ==>
        Opened(other.context, other.aead, recordType, version, SeqBytes(epoch, s), Body(k, recordType, version, epoch, s, plain)).None?
  }

  /** Keys whose epochs have the same number are different keys. */
  ghost predicate Apart(keys: nat -> Key) {
    forall i: nat, j: nat :: i != j && i % DtlsRecord.TWO16 == j % DtlsRecord.TWO16 ==>
      KeyOk(keys(i)) && KeyOk(keys(j)) && Foreign(keys(i), keys(j), i % DtlsRecord.TWO16)
  }

  /** The cipher contexts, in the order in which they are put to use: only the first is unprotected,
      the others share one version. */
  ghost predicate KeysOk(keys: nat -> Key) {
    && (forall e: nat :: KeyOk(keys(e)))
    && Apart(keys)
    && (forall e: nat :: keys(e).context.isNull <==> e == 0)
    && (forall e: nat :: keys(e).context.version in {DTLS1_VERSION, DTLS1_2_VERSION})
    && (forall d: nat, e: nat :: d > 0 && e > 0 ==> keys(d).context.version == keys(e).context.version)
  }

  /** A sealed record, by what it was made from: the key is given by its place in the order. */
  datatype Desc = Desc(key: nat, seqNum: nat, version: nat, recordType: Byte, plain: seq<Byte>)

  function Bytes(keys: nat -> Key, d: Desc): (bs: seq<Byte>)
    requires KeysOk(keys)
    ensures |bs| >= HEADER_LENGTH
  {
    RecordBytes(keys(d.key), d.recordType, d.version, d.key % DtlsRecord.TWO16, d.seqNum, d.plain)
  }

  /** The part of a message that a fragment carries; for a ChangeCipherSpec, just its place. */
  datatype Item = Item(index: nat, off: nat, len: nat)

  datatype SealResult = SealError | NoProgress | Sealed(desc: Desc, item: Item, done: bool)

  function SealStep(keys: nat -> Key, s: Sender, previous: bool, maxOut: nat, recordType: Byte,
      plain: seq<Byte>): (res: (Sender, Option<Desc>))
    requires KeysOk(keys) && (previous ==> Epoch(s.records) >= 1)
    ensures res.0 == s.(records := res.0.records)
    ensures res.1.Some? ==> |Bytes(keys, res.1.value)| <= maxOut
  {
    var k := if previous then s.records.changes - 1 else s.records.changes;
    var n := if previous then s.records.lastNext else s.records.next;
    var d := Desc(k, n, RecordVersion(keys(s.records.changes).context, true), recordType, plain);
    var len := |Bytes(keys, d)|;
    var fits, short := len <= maxOut, len - HEADER_LENGTH < DtlsRecord.TWO16;
    (s.(records := WriterNext(s.records, SealOne(previous, fits, short))),
     if fits && short && n + 1 < TWO48 then Some(d) else None)
  }

  /** A message as seal_next_message finds it in the flight. */
  predicate Whole(p: Option<Parsed>) {
    p.Some? && p.value.fragment.off == 0 && p.value.fragment.msgLen == |p.value.fragment.body| && p.value.rest == []
  }

  /** seal_next_message. */
  function SealNext(keys: nat -> Key, s: Sender, maxOut: nat): (res: (Sender, SealResult))
    requires KeysOk(keys) && s.written < |s.flight|
    ensures res.0.flight == s.flight && res.0.written == s.written
    ensures res.1.Sealed? ==> |Bytes(keys, res.1.desc)| <= maxOut
  {
    var msg := s.flight[s.written];
    var epoch := Epoch(s.records);
    var previous := epoch >= 1 && msg.epoch == epoch - 1;
    if !previous && msg.epoch != epoch then (s, SealError)
    else
      var key := keys(if previous then s.records.changes - 1 else s.records.changes);
      var overhead := HEADER_LENGTH + MaxOverhead(key.context, key.aead);
      if msg.isCcs then
        if maxOut < 1 + overhead then (s, NoProgress)
        else
          var r := SealStep(keys, s, previous, maxOut, CHANGE_CIPHER_SPEC, [MT_CCS]);
          (r.0, if r.1.None? then SealError else Sealed(r.1.value, Item(s.written, 0, 0), true))
      else
        var p := ParseFragment(msg.data);
        if !Whole(p) || s.offset > |p.value.fragment.body| then (s, SealError)
        else if maxOut < HM_HEADER_LENGTH + 1 + overhead then (s, NoProgress)
        else
          var hdr := p.value.fragment;
          var left, room := |hdr.body| - s.offset, maxOut - HM_HEADER_LENGTH - overhead;
          var todo := if left > room then room else left;
          var fragment := Fragment(hdr.mtype, hdr.msgLen, hdr.seqNum, s.offset, hdr.body[s.offset..s.offset + todo]);
          var r := SealStep(keys, s, previous, maxOut, HANDSHAKE, FragmentBytes(fragment));
          if r.1.None? then (r.0, SealError)
          else
            (r.0.(offset := if todo == left then 0 else s.offset + todo),
             Sealed(r.1.value, Item(s.written, s.offset, todo), todo == left))
  }

  /** How many bytes of the body of a message there are to send. */
  function BodyLen(m: Outgoing): nat {
    if m.isCcs || |m.data| < HM_HEADER_LENGTH then 0 else |m.data| - HM_HEADER_LENGTH
  }

  /** A packet and the items in it, or nothing. */
  datatype Packet = Packet(descs: seq<Desc>, items: seq<Item>)

  function Prepend(d: Desc, i: Item, p: Option<Packet>): Option<Packet> {
    if p.None? then None else Some(Packet([d] + p.value.descs, [i] + p.value.items))
  }

  /** The loop of seal_next_packet, once something is in the packet or not. */
  function FillPacket(keys: nat -> Key, s: Sender, maxOut: nat): (res: (Sender, Option<Packet>))
    requires KeysOk(keys) && s.written <= |s.flight|
    ensures res.0.flight == s.flight && s.written <= res.0.written <= |s.flight|
    decreases |s.flight| - s.written
  {
    if s.written == |s.flight| then (s, Some(Packet([], [])))
    else
      var r := SealNext(keys, s, maxOut);
      match r.1
      case SealError => (r.0, None)
      case NoProgress => (s, Some(Packet([], [])))
      case Sealed(d, i, done) =>
        if !done then (r.0, Some(Packet([d], [i])))
        else
          var rest := FillPacket(keys, r.0.(written := s.written + 1), maxOut - |Bytes(keys, d)|);
          (rest.0, Prepend(d, i, rest.1))
  }

  /** seal_next_packet: an empty packet means that the MTU is too small. */
  function SealPacket(keys: nat -> Key, s: Sender, maxOut: nat): (res: (Sender, Option<Packet>))
    requires KeysOk(keys) && s.written < |s.flight|
    ensures res.0.flight == s.flight && s.written <= res.0.written <= |s.flight|
  {
    var r := FillPacket(keys, s, maxOut);
    if r.1.Some? && r.1.value.items == [] then (r.0, None) else r
  }

  function PacketBytes(keys: nat -> Key, ds: seq<Desc>): seq<Byte>
    requires KeysOk(keys)
  {
    if ds == [] then [] else Bytes(keys, ds[0]) + PacketBytes(keys, ds[1..])
  }

  // ------------------------------------------------------------- progress through a flight

  /** The items lead from byte o of message w to byte o2 of message w2, leaving nothing out. */
  predicate Path(flight: seq<Outgoing>, w: nat, o: nat, items: seq<Item>, w2: nat, o2: nat)
    decreases |items|
  {
    if items == [] then w == w2 && o == o2
    else
      var i := items[0];
      && i.index == w && i.off == o && w < |flight| && o + i.len <= BodyLen(flight[w])
      && (if o + i.len == BodyLen(flight[w]) then Path(flight, w + 1, 0, items[1..], w2, o2)
          else i.len > 0 && Path(flight, w, o + i.len, items[1..], w2, o2))
  }

  lemma {:induction false} PathThen(flight: seq<Outgoing>, w: nat, o: nat, a: seq<Item>, w2: nat, o2: nat, b: seq<Item>,
      w3: nat, o3: nat)
    requires Path(flight, w, o, a, w2, o2) && Path(flight, w2, o2, b, w3, o3)
    ensures Path(flight, w, o, a + b, w3, o3)
    decreases |a|
  {
    if a == [] {
      assert a + b == b;
    } else {
      assert (a + b)[1..] == a[1..] + b;
      var i := a[0];
      if o + i.len == BodyLen(flight[w]) { PathThen(flight, w + 1, 0, a[1..], w2, o2, b, w3, o3); }
      else { PathThen(flight, w, o + i.len, a[1..], w2, o2, b, w3, o3); }
    }
  }

  /** The place reached is further on, in the lexicographic order on messages and bytes left. */
  lemma {:induction false} PathAdvances(flight: seq<Outgoing>, w: nat, o: nat, items: seq<Item>, w2: nat, o2: nat)
    requires Path(flight, w, o, items, w2, o2) && items != []
    ensures w < w2 || (w == w2 && o < o2 <= BodyLen(flight[w]))
    decreases |items|
  {
    var i := items[0];
    if |items| > 1 {
      if o + i.len == BodyLen(flight[w]) { PathAdvances(flight, w + 1, 0, items[1..], w2, o2); }
      else { PathAdvances(flight, w, o + i.len, items[1..], w2, o2); }
    }
  }

  /** A place where sending can go on: the start of a message, or inside one. */
  predicate AtPlace(s: Sender) {
    s.written <= |s.flight| && (s.written < |s.flight| ==> s.offset == 0 || s.offset < BodyLen(s.flight[s.written]))
    && (s.written == |s.flight| ==> s.offset == 0)
  }

  /** What is sealed, and under which epoch. */
  lemma {:induction false} SealStepMakes(keys: nat -> Key, s: Sender, previous: bool, maxOut: nat, recordType: Byte,
      plain: seq<Byte>)
    requires KeysOk(keys) && (previous ==> Epoch(s.records) >= 1)
    ensures var d := SealStep(keys, s, previous, maxOut, recordType, plain).1;
      d.Some? ==> d.value.recordType == recordType && d.value.plain == plain
                  && d.value.key % DtlsRecord.TWO16 == if previous then Epoch(s.records) - 1 else Epoch(s.records)
  {
    hide Bytes, KeysOk, WriterNext, RecordVersion;
  }

  lemma {:induction false} WholeLen(m: Outgoing)
    requires !m.isCcs && Whole(ParseFragment(m.data))
    ensures |ParseFragment(m.data).value.fragment.body| == BodyLen(m)
  {
    hide FromBigEndian;
  }

  lemma {:induction false} SealNextAdvances(keys: nat -> Key, s: Sender, maxOut: nat)
    requires KeysOk(keys) && s.written < |s.flight| && AtPlace(s)
    ensures var r := SealNext(keys, s, maxOut);
      && r.0.flight == s.flight && r.0.written == s.written
      && (r.1.Sealed? ==>
            && |Bytes(keys, r.1.desc)| <= maxOut
            && Carries(s.flight, r.1.desc, r.1.item)
            && r.1.item.index == s.written && r.1.item.off == s.offset
            && s.offset + r.1.item.len <= BodyLen(s.flight[s.written])
            && (r.1.done <==> s.offset + r.1.item.len == BodyLen(s.flight[s.written]))
            && (r.1.done ==> r.0.offset == 0)
            && (!r.1.done ==> r.1.item.len > 0 && r.0.offset == s.offset + r.1.item.len))
      && (!r.1.Sealed? ==> r.0.offset == s.offset)
      && (r.1.NoProgress? ==> r.0 == s)
  {
    hide Bytes, KeysOk, ParseFragment, FragmentBytes, MaxOverhead, SealStep;
    var previous := Epoch(s.records) >= 1 && s.flight[s.written].epoch == Epoch(s.records) - 1;
    SealStepMakes(keys, s, previous, maxOut, CHANGE_CIPHER_SPEC, [MT_CCS]);
    forall plain { SealStepMakes(keys, s, previous, maxOut, HANDSHAKE, plain); }
    if !s.flight[s.written].isCcs && Whole(ParseFragment(s.flight[s.written].data)) { WholeLen(s.flight[s.written]); }
  }

  /** The record d carries the item i: the ChangeCipherSpec byte, or a fragment with exactly
      those bytes of the message and its header. */
  predicate Carries(flight: seq<Outgoing>, d: Desc, i: Item) {
    && i.index < |flight| && d.key % DtlsRecord.TWO16 == flight[i.index].epoch
    && if flight[i.index].isCcs then d.recordType == CHANGE_CIPHER_SPEC && d.plain == [MT_CCS]
       else
         var p := ParseFragment(flight[i.index].data);
         && Whole(p) && i.off + i.len <= |p.value.fragment.body| && d.recordType == HANDSHAKE
         && d.plain == FragmentBytes(p.value.fragment.(off := i.off, body := p.value.fragment.body[i.off..i.off + i.len]))
  }

  /** The packet fits, and what it holds leads from the place of s to that of t. */
  ghost predicate Leads(keys: nat -> Key, s: Sender, p: Packet, t: Sender, maxOut: nat)
    requires KeysOk(keys)
  {
    && AtPlace(t) && t.flight == s.flight
    && (forall k :: 0 <= k < |p.descs| && k < |p.items| ==> Carries(s.flight, p.descs[k], p.items[k]))
    && Path(s.flight, s.written, s.offset, p.items, t.written, t.offset)
    && |PacketBytes(keys, p.descs)| <= maxOut
    && |p.descs| == |p.items|
  }

  lemma {:induction false} FillPacketLeads(keys: nat -> Key, s: Sender, maxOut: nat)
    requires KeysOk(keys) && AtPlace(s)
    ensures var r := FillPacket(keys, s, maxOut); r.1.Some? ==> Leads(keys, s, r.1.value, r.0, maxOut)
    decreases |s.flight| - s.written
  {
    hide SealNext, Bytes, KeysOk, Leads, Carries;
    if s.written == |s.flight| {
      EmptyLeads(keys, s, maxOut);
    } else {
      SealNextAdvances(keys, s, maxOut);
      var r := SealNext(keys, s, maxOut);
      match r.1 {
        case SealError =>
        case NoProgress => EmptyLeads(keys, s, maxOut);
        case Sealed(d, i, done) =>
          if done {
            var t := r.0.(written := s.written + 1);
            var m := maxOut - |Bytes(keys, d)|;
            FillPacketLeads(keys, t, m);
            var rest := FillPacket(keys, t, m);
            if rest.1.Some? { PrependLeads(keys, s, d, i, t, rest.1.value, rest.0, maxOut); }
          } else {
            OneLeads(keys, s, d, i, r.0, maxOut);
          }
      }
    }
  }

  lemma {:induction false} EmptyLeads(keys: nat -> Key, s: Sender, maxOut: nat)
    requires KeysOk(keys) && AtPlace(s)
    ensures Leads(keys, s, Packet([], []), s, maxOut)
  {
  }

  lemma {:induction false} PrependLeads(keys: nat -> Key, s: Sender, d: Desc, i: Item, t: Sender, p: Packet, u: Sender,
      maxOut: nat)
    requires KeysOk(keys) && s.written < |s.flight| && t.flight == s.flight
    requires i.index == s.written && i.off == s.offset && s.offset + i.len == BodyLen(s.flight[s.written])
    requires t.written == s.written + 1 && t.offset == 0
    requires |Bytes(keys, d)| <= maxOut && Carries(s.flight, d, i) && Leads(keys, t, p, u, maxOut - |Bytes(keys, d)|)
    ensures Leads(keys, s, Prepend(d, i, Some(p)).value, u, maxOut)
  {
    hide Bytes, KeysOk, Carries;
    assert ([d] + p.descs)[1..] == p.descs && ([i] + p.items)[1..] == p.items;
  }

  lemma {:induction false} OneLeads(keys: nat -> Key, s: Sender, d: Desc, i: Item, t: Sender, maxOut: nat)
    requires KeysOk(keys) && s.written < |s.flight| && AtPlace(s) && t.flight == s.flight && t.written == s.written
    requires i.index == s.written && i.off == s.offset && s.offset + i.len < BodyLen(s.flight[s.written])
    requires i.len > 0 && t.offset == s.offset + i.len && |Bytes(keys, d)| <= maxOut && Carries(s.flight, d, i)
    ensures Leads(keys, s, Packet([d], [i]), t, maxOut)
  {
    hide Bytes, KeysOk, Carries;
    assert [i][1..] == [] && [d][1..] == [];
    assert Path(s.flight, s.written, t.offset, [i][1..], t.written, t.offset);
    assert PacketBytes(keys, [d]) == Bytes(keys, d) + [];
    assert Bytes(keys, d) + [] == Bytes(keys, d);
  }

  // ------------------------------------------------------------- sending the whole flight

  /** How send_flight ends: everything is out, the transport took no more, or a packet could not
      be made. */
  datatype End = Finished | NotWritten | NotSealed

  datatype Sent = Sent(sender: Sender, packets: seq<Packet>, end: End)

  /** The loop of send_flight; writes[0] says whether the first packet gets written, and so on
      (writes past the end of the list fail).  A failed write restores the place. */
  function SendLoop(keys: nat -> Key, s: Sender, mtu: nat, writes: seq<bool>): (res: Sent)
    requires KeysOk(keys) && AtPlace(s)
    ensures res.sender.flight == s.flight
    decreases |s.flight| - s.written, if s.written < |s.flight| then BodyLen(s.flight[s.written]) - s.offset else 0
  {
    if s.written == |s.flight| then Sent(s, [], Finished)
    else
      var r := SealPacket(keys, s, mtu);
      if r.1.None? then Sent(r.0, [], NotSealed)
      else if writes == [] || !writes[0] then Sent(r.0.(written := s.written, offset := s.offset), [], NotWritten)
      else
        FillPacketLeads(keys, s, mtu);
        PathAdvances(s.flight, s.written, s.offset, r.1.value.items, r.0.written, r.0.offset);
        var rest := SendLoop(keys, r.0, mtu, writes[1..]);
        Sent(rest.sender, [r.1.value] + rest.packets, rest.end)
  }

  /** Sending always stops at a place where it can go on, with or without an error. */
  lemma {:induction false} FillPacketPlace(keys: nat -> Key, s: Sender, maxOut: nat)
    requires KeysOk(keys) && AtPlace(s)
    ensures AtPlace(FillPacket(keys, s, maxOut).0)
    decreases |s.flight| - s.written
  {
    hide SealNext, Bytes, KeysOk, Carries;
    if s.written < |s.flight| {
      SealNextAdvances(keys, s, maxOut);
      var r := SealNext(keys, s, maxOut);
      if r.1.Sealed? && r.1.done {
        FillPacketPlace(keys, r.0.(written := s.written + 1), maxOut - |Bytes(keys, r.1.desc)|);
      }
    }
  }

  lemma {:induction false} SendLoopPlace(keys: nat -> Key, s: Sender, mtu: nat, writes: seq<bool>)
    requires KeysOk(keys) && AtPlace(s)
    ensures AtPlace(SendLoop(keys, s, mtu, writes).sender)
    decreases |s.flight| - s.written, if s.written < |s.flight| then BodyLen(s.flight[s.written]) - s.offset else 0
  {
    hide KeysOk, FillPacket, BodyLen;
    if s.written < |s.flight| {
      FillPacketPlace(keys, s, mtu);
      var r := SealPacket(keys, s, mtu);
      if r.1.Some? && writes != [] && writes[0] {
        FillPacketLeads(keys, s, mtu);
        PathAdvances(s.flight, s.written, s.offset, r.1.value.items, r.0.written, r.0.offset);
        SendLoopPlace(keys, r.0, mtu, writes[1..]);
      }
    }
  }

  /** All the items of some packets, in order. */
  function AllItems(packets: seq<Packet>): seq<Item> {
    if packets == [] then [] else packets[0].items + AllItems(packets[1..])
  }

  /** Whatever gets written leads on from the place before without a gap: to the end of the flight if
      everything is out, and to the place where sending goes on if the transport took no more.
      No packet is longer than the MTU. */
  lemma {:induction false} SendLoopLeads(keys: nat -> Key, s: Sender, mtu: nat, writes: seq<bool>)
    returns (w: nat, o: nat)
    requires KeysOk(keys) && AtPlace(s)
    ensures var res := SendLoop(keys, s, mtu, writes);
      && Path(s.flight, s.written, s.offset, AllItems(res.packets), w, o)
      && (res.end.Finished? ==> w == |s.flight| && o == 0)
      && (!res.end.NotSealed? ==> w == res.sender.written && o == res.sender.offset)
      && (forall k :: 0 <= k < |res.packets| ==> |PacketBytes(keys, res.packets[k].descs)| <= mtu)
    decreases |s.flight| - s.written, if s.written < |s.flight| then BodyLen(s.flight[s.written]) - s.offset else 0
  {
    hide KeysOk, FillPacket, PacketBytes, BodyLen, Carries;
    w, o := s.written, s.offset;
    if s.written < |s.flight| {
      var r := SealPacket(keys, s, mtu);
      if r.1.Some? && writes != [] && writes[0] {
        FillPacketLeads(keys, s, mtu);
        PathAdvances(s.flight, s.written, s.offset, r.1.value.items, r.0.written, r.0.offset);
        w, o := SendLoopLeads(keys, r.0, mtu, writes[1..]);
        var rest := SendLoop(keys, r.0, mtu, writes[1..]);
        assert ([r.1.value] + rest.packets)[1..] == rest.packets;
        PathThen(s.flight, s.written, s.offset, r.1.value.items, r.0.written, r.0.offset, AllItems(rest.packets), w, o);
      }
    }
  }

  /** send_flight called again and again, with whatever MTU, as long as the transport takes no
      more: the packets of all the calls. */
  function Resume(keys: nat -> Key, s: Sender, calls: seq<(nat, seq<bool>)>): (res: Sent)
    requires KeysOk(keys) && AtPlace(s) && calls != []
    decreases |calls|
  {
    var r := SendLoop(keys, s, calls[0].0, calls[0].1);
    if !r.end.NotWritten? || |calls| == 1 then r
    else
      SendLoopPlace(keys, s, calls[0].0, calls[0].1);
      var rest := Resume(keys, r.sender, calls[1..]);
      Sent(rest.sender, r.packets + rest.packets, rest.end)
  }

  lemma {:induction false} AllItemsThen(a: seq<Packet>, b: seq<Packet>)
    ensures AllItems(a + b) == AllItems(a) + AllItems(b)
    decreases |a|
  {
    if a == [] { assert a + b == b; }
    else {
      assert (a + b)[1..] == a[1..] + b;
      AllItemsThen(a[1..], b);
    }
  }

  /** What interrupted and resumed calls write leads on from the first place without a gap. */
  lemma {:induction false} ResumeLeads(keys: nat -> Key, s: Sender, calls: seq<(nat, seq<bool>)>)
    returns (w: nat, o: nat)
    requires KeysOk(keys) && AtPlace(s) && calls != []
    ensures var res := Resume(keys, s, calls);
      && res.sender.flight == s.flight && Path(s.flight, s.written, s.offset, AllItems(res.packets), w, o)
      && (res.end.Finished? ==> w == |s.flight| && o == 0)
      && (!res.end.NotSealed? ==> w == res.sender.written && o == res.sender.offset)
    decreases |calls|
  {
    hide KeysOk, SendLoop, Path, AtPlace;
    w, o := SendLoopLeads(keys, s, calls[0].0, calls[0].1);
    var r := SendLoop(keys, s, calls[0].0, calls[0].1);
    if r.end.NotWritten? && |calls| > 1 {
      SendLoopPlace(keys, s, calls[0].0, calls[0].1);
      var w1, o1 := w, o;
      w, o := ResumeLeads(keys, r.sender, calls[1..]);
      var rest := Resume(keys, r.sender, calls[1..]);
      AllItemsThen(r.packets, rest.packets);
      PathThen(s.flight, s.written, s.offset, AllItems(r.packets), w1, o1, AllItems(rest.packets), w, o);
    }
  }

  // ------------------------------------------------------------- the same packet again

  /** How long a sealed record is does not depend on its number. */
  lemma {:induction false} BytesLen(keys: nat -> Key, d: Desc)
    requires KeysOk(keys)
    ensures var k := keys(d.key);
      |Bytes(keys, d)| == HEADER_LENGTH + ExplicitNonceLen(k.context) + |d.plain| + (if k.context.isNull then 0 else k.aead.tagLen(|d.plain|))
  {
    hide SslAead.Sealed, SeqBytes, Ideal, WellFormed, FixedOverhead;
    var k := keys(d.key);
    SealedLen(k.context, k.aead, k.iv(d.seqNum), d.recordType, d.version, SeqBytes(d.key % DtlsRecord.TWO16, d.seqNum), d.plain);
  }

  /** Two packets with the same contents, up to the numbers of their records. */
  predicate SameContents(p: Packet, q: Packet) {
    p.items == q.items && |p.descs| == |q.descs|
    && forall k :: 0 <= k < |p.descs| ==>
         p.descs[k].(seqNum := 0) == q.descs[k].(seqNum := 0)
  }

  lemma {:induction false} SealStepAgain(keys: nat -> Key, s: Sender, t: Sender, previous: bool, maxOut: nat,
      recordType: Byte, plain: seq<Byte>)
    requires KeysOk(keys) && (previous ==> Epoch(s.records) >= 1)
    requires t == s.(records := t.records) && t.records.changes == s.records.changes
    ensures var a, b := SealStep(keys, s, previous, maxOut, recordType, plain), SealStep(keys, t, previous, maxOut, recordType, plain);
      && b.0.records.changes == a.0.records.changes == s.records.changes
      && b.0 == a.0.(records := b.0.records)
      && (a.1.Some? && b.1.Some? ==> a.1.value.(seqNum := 0) == b.1.value.(seqNum := 0))
  {
    hide Bytes, KeysOk, RecordVersion;
  }

  lemma {:induction false} SealNextAgain(keys: nat -> Key, s: Sender, t: Sender, maxOut: nat)
    requires KeysOk(keys) && s.written < |s.flight|
    requires t == s.(records := t.records) && t.records.changes == s.records.changes
    ensures var a, b := SealNext(keys, s, maxOut), SealNext(keys, t, maxOut);
      && b.0.records.changes == a.0.records.changes == s.records.changes
      && (a.1.NoProgress? <==> b.1.NoProgress?)
      && (a.1.Sealed? && b.1.Sealed? ==>
            && b.0 == a.0.(records := b.0.records)
            && a.1.item == b.1.item && a.1.done == b.1.done
            && a.1.desc.(seqNum := 0) == b.1.desc.(seqNum := 0))
  {
    hide Bytes, KeysOk, ParseFragment, FragmentBytes, MaxOverhead, SealStep, Whole;
    var msg := s.flight[s.written];
    var previous := Epoch(s.records) >= 1 && msg.epoch == Epoch(s.records) - 1;
    if msg.isCcs {
      SealStepAgain(keys, s, t, previous, maxOut, CHANGE_CIPHER_SPEC, [MT_CCS]);
    } else {
      forall plain { SealStepAgain(keys, s, t, previous, maxOut, HANDSHAKE, plain); }
    }
  }

  /** After a failed write the same packet is built again: with the same MTU, the place alone
      determines the fragments and how they are packed. */
  lemma {:induction false} SamePacketAgain(keys: nat -> Key, s: Sender, t: Sender, maxOut: nat)
    requires KeysOk(keys) && s.written <= |s.flight|
    requires t == s.(records := t.records) && t.records.changes == s.records.changes
    requires FillPacket(keys, s, maxOut).1.Some? && FillPacket(keys, t, maxOut).1.Some?
    ensures SameContents(FillPacket(keys, s, maxOut).1.value, FillPacket(keys, t, maxOut).1.value)
    decreases |s.flight| - s.written
  {
    hide SealNext, Bytes, KeysOk;
    if s.written < |s.flight| {
      SealNextAgain(keys, s, t, maxOut);
      var a, b := SealNext(keys, s, maxOut), SealNext(keys, t, maxOut);
      if a.1.Sealed? && b.1.Sealed? && a.1.done {
        BytesLen(keys, a.1.desc);
        BytesLen(keys, b.1.desc);
        var m := maxOut - |Bytes(keys, a.1.desc)|;
        var a', b' := a.0.(written := s.written + 1), b.0.(written := s.written + 1);
        SamePacketAgain(keys, a', b', m);
        SameAfter(a.1.desc, b.1.desc, a.1.item, FillPacket(keys, a', m).1, FillPacket(keys, b', m).1);
      }
    }
  }

  lemma {:induction false} SameAfter(d: Desc, e: Desc, i: Item, p: Option<Packet>, q: Option<Packet>)
    requires p.Some? && q.Some? && SameContents(p.value, q.value) && d.(seqNum := 0) == e.(seqNum := 0)
    ensures SameContents(Prepend(d, i, p).value, Prepend(e, i, q).value)
  {
  }

  // ------------------------------------------------------------- fragments tile each message

  /** The pieces of message w that the items carry, put together in the order they were sent. */
  function Pieces(flight: seq<Outgoing>, w: nat, items: seq<Item>): seq<Byte>
    requires w < |flight| && forall k :: 0 <= k < |items| && items[k].index == w ==> items[k].off + items[k].len <= BodyLen(flight[w])
  {
    if items == [] then []
    else (if items[0].index == w then Slice(flight[w], items[0].off, items[0].off + items[0].len) else []) + Pieces(flight, w, items[1..])
  }

  function Slice(m: Outgoing, lo: nat, hi: nat): seq<Byte>
    requires lo <= hi <= BodyLen(m)
  {
    if m.isCcs || |m.data| < HM_HEADER_LENGTH then [] else m.data[HM_HEADER_LENGTH + lo..HM_HEADER_LENGTH + hi]
  }

  lemma {:induction false} PathInside(flight: seq<Outgoing>, w: nat, o: nat, items: seq<Item>, w2: nat, o2: nat)
    requires Path(flight, w, o, items, w2, o2)
    ensures forall k :: 0 <= k < |items| ==>
              w <= items[k].index < |flight| && items[k].off + items[k].len <= BodyLen(flight[items[k].index])
    decreases |items|
  {
    hide BodyLen;
    if items != [] {
      var i := items[0];
      if o + i.len == BodyLen(flight[w]) { PathInside(flight, w + 1, 0, items[1..], w2, o2); }
      else { PathInside(flight, w, o + i.len, items[1..], w2, o2); }
      forall k | 0 <= k < |items|
        ensures w <= items[k].index < |flight| && items[k].off + items[k].len <= BodyLen(flight[items[k].index])
      {
        if k > 0 { assert items[k] == items[1..][k - 1]; }
      }
    }
  }

  /** The items of a complete path carry what is left of the message they start in, and every
      later message whole: adjacent, disjoint and complete. */
  lemma {:induction false} PathTiles(flight: seq<Outgoing>, w: nat, o: nat, items: seq<Item>, v: nat)
    requires Path(flight, w, o, items, |flight|, 0) && v < |flight|
    requires w < |flight| ==> o <= BodyLen(flight[w])
    ensures forall k :: 0 <= k < |items| && items[k].index == v ==> items[k].off + items[k].len <= BodyLen(flight[v])
    ensures Pieces(flight, v, items) ==
      if v < w then [] else if v == w then Slice(flight[v], o, BodyLen(flight[v])) else Slice(flight[v], 0, BodyLen(flight[v]))
    decreases |items|
  {
    hide Slice, BodyLen;
    PathInside(flight, w, o, items, |flight|, 0);
    if items != [] {
      var i := items[0];
      PathInside(flight, if o + i.len == BodyLen(flight[w]) then w + 1 else w, if o + i.len == BodyLen(flight[w]) then 0 else o + i.len,
                 items[1..], |flight|, 0);
      if o + i.len == BodyLen(flight[w]) {
        PathTiles(flight, w + 1, 0, items[1..], v);
        SliceEmpty(flight[v]);
      } else {
        PathTiles(flight, w, o + i.len, items[1..], v);
        if v == w { SliceJoin(flight[w], o, o + i.len, BodyLen(flight[w])); }
      }
    }
  }

  lemma {:induction false} SliceEmpty(m: Outgoing)
    ensures Slice(m, 0, 0) == []
  {
  }

  lemma {:induction false} SliceJoin(m: Outgoing, a: nat, b: nat, c: nat)
    requires a <= b <= c <= BodyLen(m)
    ensures Slice(m, a, b) + Slice(m, b, c) == Slice(m, a, c)
  {
  }

  /** When a flight is out, however many calls it took, the fragments of each message, in the order
      they were written, are exactly its body. */
  lemma {:induction false} FlightTiles(keys: nat -> Key, s: Sender, calls: seq<(nat, seq<bool>)>, v: nat)
    requires KeysOk(keys) && s.written == 0 && s.offset == 0 && v < |s.flight| && calls != []
    requires Resume(keys, s, calls).end.Finished?
    ensures var items := AllItems(Resume(keys, s, calls).packets);
      && Path(s.flight, 0, 0, items, |s.flight|, 0)
      && (forall k :: 0 <= k < |items| && items[k].index == v ==> items[k].off + items[k].len <= BodyLen(s.flight[v]))
      && Pieces(s.flight, v, items) == Slice(s.flight[v], 0, BodyLen(s.flight[v]))
  {
    hide KeysOk, Resume, Path;
    var w, o := ResumeLeads(keys, s, calls);
    PathTiles(s.flight, 0, 0, AllItems(Resume(keys, s, calls).packets), v);
  }
}
