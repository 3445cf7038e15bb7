/** A DTLS sender and receiver joined by a network that drops, duplicates and reorders packets:
    over every run, the receiver takes the messages the sender added, in order and whole. */
module DtlsRun {
  import opened Words
  import opened SslAead
  import opened DtlsWindow
  import opened DtlsRecord
  import opened DtlsMessage
  import opened DtlsReceive
  import opened DtlsSend

  /** sent and delivered are the histories of the two ends; added says under which of its keys the
      sender added each message; net holds every packet ever written, and log the records in them;
      readKey says which of the keys the receiver reads with; input is what is left of the packet
      being read. */
  datatype World = World(
    sender: Sender, sent: seq<Message>, added: seq<nat>, net: seq<seq<Byte>>, log: seq<Desc>,
    receiver: Receiver, readKey: nat, input: seq<Byte>, delivered: seq<Message>)

  datatype Action =
    | AddMessage(message: Message)
    | AddChangeCipherSpec
    | Flush(mtu: nat, writes: seq<bool>)
    | Retransmit(mtu: nat, writes: seq<bool>)
    | HandshakeComplete
    | NewWriteKeys
    | Arrive(packet: nat)
    | Open
    | Get
    | Next
    | TakeCcs
    | NewReadKeys

  function Start(keys: nat -> Key, maxLen: nat): (w: World)
    requires KeysOk(keys)
    ensures Ready(w)
  {
    FirstKey(keys);
    World(NEW_SENDER, [], [], [], [], Initial(maxLen, keys(0)), 0, [], [])
  }

  // ------------------------------------------------------------- the sender's other steps

  /** add_outgoing clears a flight that was flushed, then appends unless the flight is full. */
  function AddOutgoing(s: Sender, isCcs: bool, data: seq<Byte>): (res: (Sender, bool)) {
    var t := if s.complete then s.(flight := [], written := 0, offset := 0, complete := false) else s;
    if |t.flight| >= MAX_FLIGHT then (t, false)
    else (t.(flight := t.flight + [Outgoing(data, Epoch(t.records), isCcs)],
             writeSeq := if isCcs then t.writeSeq else (t.writeSeq + 1) % DtlsMessage.TWO16), true)
  }

  function Send(keys: nat -> Key, w: World, s: Sender, mtu: nat, writes: seq<bool>): World
    requires KeysOk(keys) && AtPlace(s)
  {
    var r := SendLoop(keys, s, mtu, writes);
    w.(sender := r.sender, net := w.net + AllBytes(keys, r.packets), log := w.log + AllDescs(r.packets))
  }

  /** All the records of some packets, in order. */
  function AllDescs(packets: seq<Packet>): seq<Desc> {
    if packets == [] then [] else packets[0].descs + AllDescs(packets[1..])
  }

  function AllBytes(keys: nat -> Key, packets: seq<Packet>): (bs: seq<seq<Byte>>)
    requires KeysOk(keys)
    ensures |bs| == |packets|
    ensures forall k :: 0 <= k < |packets| ==> bs[k] == PacketBytes(keys, packets[k].descs)
  {
    if packets == [] then [] else [PacketBytes(keys, packets[0].descs)] + AllBytes(keys, packets[1..])
  }

  // ------------------------------------------------------------- one step

  /** The shape of a state that every step keeps, whatever the network delivers. */
  predicate Ready(w: World) {
    AtPlace(w.sender) && RingOk(w.receiver) && WellFormed(w.receiver.records.key.context)
  }

  function Apply(keys: nat -> Key, w: World, a: Action): World
    requires KeysOk(keys) && Ready(w)
  {
    match a
    case AddMessage(m) =>
      if |m.body| >= TWO24 then w
      else
        var r := AddOutgoing(w.sender, false, MessageBytes(m, w.sender.writeSeq));
        w.(sender := r.0, sent := if r.1 then w.sent + [m] else w.sent,
           added := if r.1 then w.added + [w.sender.records.changes] else w.added)
    case AddChangeCipherSpec => w.(sender := AddOutgoing(w.sender, true, []).0)
    case Flush(mtu, writes) => Send(keys, w, Completed(w.sender), mtu, writes)
    case Retransmit(mtu, writes) => Send(keys, w, Rewound(w.sender), mtu, writes)
    case HandshakeComplete => w.(sender := w.sender.(flight := [], written := 0, offset := 0, complete := false))
    case NewWriteKeys => w.(sender := w.sender.(records := WriterNext(w.sender.records, NewKeys)))
    case Arrive(i) => if i < |w.net| then w.(input := w.net[i]) else w
    case Open =>
      var o := OpenHandshake(w.receiver, w.input);
      w.(receiver := o.receiver, input := w.input[o.consumed..])
    case Get => if GetMessage(w.receiver).Some? then w.(receiver := w.receiver.(hasMessage := true)) else w
    case Next =>
      if w.receiver.hasMessage && GetMessage(w.receiver).Some? then
        w.(receiver := NextMessage(w.receiver), delivered := w.delivered + [GetMessage(w.receiver).value])
      else w
    case TakeCcs => w.(receiver := w.receiver.(hasCcs := false))
    case NewReadKeys =>
      if Unprocessed(w.receiver) then w
      else w.(readKey := w.readKey + 1, receiver := w.receiver.(records := NewReadState(w.receiver.records, keys(w.readKey + 1))))
  }

  function Rewound(s: Sender): (t: Sender)
    requires AtPlace(s)
    ensures AtPlace(t)
  {
    s.(written := 0, offset := 0)
  }

  function Completed(s: Sender): (t: Sender)
    requires AtPlace(s)
    ensures AtPlace(t)
  {
    s.(complete := true)
  }

  lemma {:induction false} ApplyReady(keys: nat -> Key, w: World, a: Action)
    requires KeysOk(keys) && Ready(w)
    ensures Ready(Apply(keys, w, a))
  {
    hide KeysOk, SendLoop, WellFormed, RingOk, BodyLen, Unprocessed, WriterNext, TakeRecord, OpenRecord, NextMessage,
         GetMessage;
    match a {
      case Flush(mtu, writes) => SendLoopPlace(keys, Completed(w.sender), mtu, writes);
      case Retransmit(mtu, writes) => SendLoopPlace(keys, Rewound(w.sender), mtu, writes);
      case Open => OpenKey(w.receiver, w.input);
      case Get => RingAlone(w.receiver);
      case TakeCcs => RingAlone(w.receiver);
      case NewReadKeys => FirstKey(keys); RingAlone(w.receiver);
      case Next => if w.receiver.hasMessage && GetMessage(w.receiver).Some? { NextParts(w.receiver); }
      case _ =>
    }
  }

  lemma {:induction false} OpenKey(r: Receiver, input: seq<Byte>)
    requires RingOk(r) && WellFormed(r.records.key.context)
    ensures OpenHandshake(r, input).receiver.records.key == r.records.key
  {
    hide WellFormed, RingOk, Opened, ShouldDiscard, TakeAll, Recorded, VersionOk;
    var o := OpenRecord(r.records, input);
    RingAlone(r);
    if o.1.Record? { TakeAllRecords(r.(records := o.0), o.1.plain); }
  }

  lemma {:induction false} TakeAllRecords(r: Receiver, bytes: seq<Byte>)
    requires RingOk(r)
    ensures TakeAll(r, bytes).0.records == r.records
    decreases |bytes|
  {
    hide RingOk, Incoming, ParseFragment;
    if bytes != [] && ParseFragment(bytes).Some? {
      var p := ParseFragment(bytes).value;
      ParsedFits(bytes);
      TakeFragmentOk(r, p.fragment);
      TakeAllRecords(TakeFragment(r, p.fragment).0, p.rest);
    }
  }

  lemma {:induction false} RingAlone(r: Receiver)
    requires RingOk(r)
    ensures forall m, c, o :: RingOk(r.(hasMessage := m, hasCcs := c, records := o))
  {
  }

  // ------------------------------------------------------------- what is true of a run

  /** The fragment is a piece of the message with its number. */
  predicate TrueFragment(sent: seq<Message>, f: Fragment) {
    && FragmentFits(f) && f.seqNum < |sent|
    && f.mtype == sent[f.seqNum].mtype && f.msgLen == |sent[f.seqNum].body|
    && f.off + |f.body| <= f.msgLen && f.body == sent[f.seqNum].body[f.off..f.off + |f.body|]
  }

  /** The record was sealed by the sender, from a ChangeCipherSpec or a true fragment. */
  ghost predicate TrueDesc(keys: nat -> Key, sent: seq<Message>, d: Desc)
    requires KeysOk(keys)
  {
    && d.version < DtlsRecord.TWO16 && d.key < DtlsRecord.TWO16 && d.seqNum < TWO48
    && |Bytes(keys, d)| - HEADER_LENGTH < DtlsRecord.TWO16
    && VersionOk(keys(d.key).context, d.version)
    && ((d.recordType == CHANGE_CIPHER_SPEC && d.plain == [MT_CCS])
        || (d.recordType == HANDSHAKE && exists f :: TrueFragment(sent, f) && d.plain == FragmentBytes(f)))
  }

  ghost predicate TrueDescs(keys: nat -> Key, sent: seq<Message>, ds: seq<Desc>)
    requires KeysOk(keys)
  {
    forall k :: 0 <= k < |ds| ==> TrueDesc(keys, sent, ds[k])
  }

  lemma {:induction false} DescAt(keys: nat -> Key, sent: seq<Message>, ds: seq<Desc>, k: nat)
    requires KeysOk(keys) && k < |ds| && TrueDescs(keys, sent, ds)
    ensures TrueDesc(keys, sent, ds[k]) && TrueDescs(keys, sent, ds[k + 1..])
  {
    hide KeysOk;
  }

  /** The records of a packet are records that the sender put on the network. */
  ghost predicate Good(keys: nat -> Key, log: seq<Desc>, bs: seq<Byte>)
    requires KeysOk(keys)
  {
    exists ds :: bs == PacketBytes(keys, ds) && Among(ds, log)
  }

  predicate Among(ds: seq<Desc>, log: seq<Desc>) {
    forall k :: 0 <= k < |ds| ==> ds[k] in log
  }

  ghost predicate FlightOk(sent: seq<Message>, s: Sender) {
    && AtPlace(s) && s.records.changes < DtlsRecord.TWO16 && s.records.next < TWO48 && s.records.lastNext < TWO48
    && s.writeSeq == |sent| % DtlsMessage.TWO16
    && forall k :: 0 <= k < |s.flight| && !s.flight[k].isCcs ==>
         exists i :: 0 <= i < |sent| && s.flight[k].data == MessageBytes(sent[i], i)
  }

  ghost predicate MessagesOk(sent: seq<Message>) {
    forall i :: 0 <= i < |sent| ==> |sent[i].body| < TWO24
  }

  /** What has been assembled so far agrees with the message of that number. */
  predicate TrueAssembly(sent: seq<Message>, a: Assembly) {
    && a.seqNum < |sent| && a.mtype == sent[a.seqNum].mtype && |a.cells| == |sent[a.seqNum].body|
    && forall j :: 0 <= j < |a.cells| && a.cells[j].Some? ==> a.cells[j].value == sent[a.seqNum].body[j]
  }

  ghost predicate ReceiverOk(keys: nat -> Key, sent: seq<Message>, readKey: nat, r: Receiver)
    requires KeysOk(keys)
  {
    && RingOk(r) && r.records.key == keys(readKey) && r.records.epoch == readKey % DtlsRecord.TWO16 && WellFormed(r.records.key.context)
    && forall i :: 0 <= i < MAX_FLIGHT && r.ring[i].Some? ==> TrueAssembly(sent, r.ring[i].value)
  }

  predicate NoneInRing(r: Receiver) {
    forall i :: 0 <= i < |r.ring| ==> r.ring[i].None?
  }

  ghost predicate Inv(keys: nat -> Key, w: World)
    requires KeysOk(keys)
  {
    && MessagesOk(w.sent) && FlightOk(w.sent, w.sender)
    && TrueDescs(keys, w.sent, w.log) && NetOk(keys, w.log, w.net)
    && Good(keys, w.log, w.input)
    && ReceiverOk(keys, w.sent, w.readKey, w.receiver)
    && |w.delivered| <= |w.sent| && w.delivered == w.sent[..|w.delivered|]
    && w.receiver.readSeq == |w.delivered| % DtlsMessage.TWO16
  }

  ghost predicate NetOk(keys: nat -> Key, log: seq<Desc>, net: seq<seq<Byte>>)
    requires KeysOk(keys)
  {
    forall k :: 0 <= k < |net| ==> Good(keys, log, net[k])
  }

  // ------------------------------------------------------------- sending keeps it

  lemma {:induction false} GoodGrows(keys: nat -> Key, log: seq<Desc>, more: seq<Desc>, bs: seq<Byte>)
    requires KeysOk(keys) && Good(keys, log, bs)
    ensures Good(keys, log + more, bs)
  {
    hide PacketBytes, KeysOk;
    var ds: seq<Desc> :| bs == PacketBytes(keys, ds) && Among(ds, log);
    assert Among(ds, log + more);
  }

  lemma {:induction false} TrueGrows(keys: nat -> Key, sent: seq<Message>, more: seq<Message>, ds: seq<Desc>)
    requires KeysOk(keys) && TrueDescs(keys, sent, ds)
    ensures TrueDescs(keys, sent + more, ds)
  {
    hide Bytes, KeysOk, FragmentBytes, VersionOk;
    forall k | 0 <= k < |ds| ensures TrueDesc(keys, sent + more, ds[k]) {
      DescAt(keys, sent, ds, k);
      if ds[k].recordType == HANDSHAKE {
        var f :| TrueFragment(sent, f) && ds[k].plain == FragmentBytes(f);
        assert TrueFragment(sent + more, f);
      }
    }
  }

  /** The versions of the record header and of the reader's context agree. */
  lemma {:induction false} VersionsAgree(keys: nat -> Key, e: nat, current: nat)
    requires KeysOk(keys) && (e == current || e + 1 == current)
    ensures VersionOk(keys(e).context, RecordVersion(keys(current).context, true))
    ensures RecordVersion(keys(current).context, true) < DtlsRecord.TWO16
  {
    hide KeyOk;
    assert keys(e).context.version in {DTLS1_VERSION, DTLS1_2_VERSION} && keys(current).context.version in {DTLS1_VERSION, DTLS1_2_VERSION};
    assert keys(e).context.isNull <==> e == 0;
    if e > 0 { assert keys(e).context.version == keys(current).context.version; }
  }

  lemma {:induction false} SealNextTrue(keys: nat -> Key, sent: seq<Message>, s: Sender, maxOut: nat)
    requires KeysOk(keys) && MessagesOk(sent) && |sent| <= DtlsMessage.TWO16 && FlightOk(sent, s)
        && s.written < |s.flight|
    ensures var r := SealNext(keys, s, maxOut);
      && (r.1.Sealed? ==> TrueDesc(keys, sent, r.1.desc))
      && (!r.1.Sealed? || !r.1.done ==> FlightOk(sent, r.0))
      && (r.1.Sealed? && r.1.done ==> FlightOk(sent, r.0.(written := s.written + 1)))
  {
    hide Bytes, KeysOk, FragmentBytes, BodyLen, ParseFragment, MaxOverhead, VersionOk;
    SealNextAdvances(keys, s, maxOut);
    SealNextRecord(keys, s, maxOut);
    var r := SealNext(keys, s, maxOut);
    if r.1.Sealed? && r.1.desc.recordType == HANDSHAKE {
      var k := s.written;
      var i :| 0 <= i < |sent| && s.flight[k].data == MessageBytes(sent[i], i);
      CarriedTrue(sent, i, s.flight, r.1.desc, r.1.item);
    }
  }

  lemma {:induction false} CarriedTrue(sent: seq<Message>, i: nat, flight: seq<Outgoing>, d: Desc, item: Item)
    requires i < |sent| <= DtlsMessage.TWO16 && |sent[i].body| < TWO24
    requires Carries(flight, d, item) && !flight[item.index].isCcs
        && flight[item.index].data == MessageBytes(sent[i], i)
    ensures exists f :: TrueFragment(sent, f) && d.plain == FragmentBytes(f)
  {
    hide FragmentBytes, ParseFragment;
    var m := Fragment(sent[i].mtype, |sent[i].body|, i, 0, sent[i].body);
    ParseBack(m, []);
    assert MessageBytes(sent[i], i) + [] == MessageBytes(sent[i], i);
    var f := m.(off := item.off, body := m.body[item.off..item.off + item.len]);
    assert TrueFragment(sent, f) && d.plain == FragmentBytes(f);
  }

  /** The header fields of a sealed record, and the counters after it. */
  lemma {:induction false} SealNextRecord(keys: nat -> Key, s: Sender, maxOut: nat)
    requires KeysOk(keys) && s.written < |s.flight|
    requires s.records.changes < DtlsRecord.TWO16 && s.records.next < TWO48 && s.records.lastNext < TWO48
    ensures var r := SealNext(keys, s, maxOut);
      && r.0.writeSeq == s.writeSeq && r.0.complete == s.complete
      && r.0.records.changes == s.records.changes && r.0.records.next < TWO48 && r.0.records.lastNext < TWO48
      && (r.1.Sealed? ==>
            && r.1.desc.version < DtlsRecord.TWO16 && r.1.desc.key < DtlsRecord.TWO16 && r.1.desc.seqNum < TWO48
            && |Bytes(keys, r.1.desc)| - HEADER_LENGTH < DtlsRecord.TWO16
            && VersionOk(keys(r.1.desc.key).context, r.1.desc.version)
            && (r.1.desc.recordType == HANDSHAKE || (r.1.desc.recordType == CHANGE_CIPHER_SPEC && r.1.desc.plain == [MT_CCS]))
            && (r.1.desc.recordType == HANDSHAKE ==> !s.flight[s.written].isCcs))
  {
    hide Bytes, KeysOk, FragmentBytes, ParseFragment, MaxOverhead, VersionOk, RecordVersion;
    var e := s.records.changes;
    VersionsAgree(keys, e, e);
    if e > 0 { VersionsAgree(keys, e - 1, e); }
  }

  lemma {:induction false} FillPacketTrue(keys: nat -> Key, sent: seq<Message>, s: Sender, maxOut: nat)
    requires KeysOk(keys) && MessagesOk(sent) && |sent| <= DtlsMessage.TWO16 && FlightOk(sent, s)
    ensures var r := FillPacket(keys, s, maxOut);
      FlightOk(sent, r.0) && (r.1.Some? ==> TrueDescs(keys, sent, r.1.value.descs))
    decreases |s.flight| - s.written
  {
    hide SealNext, Bytes, KeysOk, TrueDesc, MessagesOk, FlightOk;
    if s.written < |s.flight| {
      SealNextTrue(keys, sent, s, maxOut);
      var r := SealNext(keys, s, maxOut);
      if r.1.Sealed? && r.1.done {
        FillPacketTrue(keys, sent, r.0.(written := s.written + 1), maxOut - |Bytes(keys, r.1.desc)|);
      }
    }
  }

  lemma {:induction false} PlaceRestored(sent: seq<Message>, s: Sender, t: Sender)
    requires FlightOk(sent, s) && FlightOk(sent, t) && t.flight == s.flight
    ensures FlightOk(sent, t.(written := s.written, offset := s.offset))
  {
  }

  lemma {:induction false} FlightPlace(sent: seq<Message>, s: Sender)
    requires FlightOk(sent, s)
    ensures AtPlace(s)
  {
  }

  lemma {:induction false} SendLoopTrue(keys: nat -> Key, sent: seq<Message>, s: Sender, mtu: nat, writes: seq<bool>)
    requires KeysOk(keys) && MessagesOk(sent) && |sent| <= DtlsMessage.TWO16 && FlightOk(sent, s) && AtPlace(s)
    ensures var r := SendLoop(keys, s, mtu, writes);
      FlightOk(sent, r.sender) && forall k :: 0 <= k < |r.packets| ==> TrueDescs(keys, sent, r.packets[k].descs)
    decreases |s.flight| - s.written, if s.written < |s.flight| then BodyLen(s.flight[s.written]) - s.offset else 0
  {
    hide FillPacket, KeysOk, TrueDescs, MessagesOk, FlightOk, BodyLen, AtPlace;
    if s.written < |s.flight| {
      FillPacketTrue(keys, sent, s, mtu);
      var r := SealPacket(keys, s, mtu);
      if r.1.Some? {
        PlaceRestored(sent, s, r.0);
        if writes != [] && writes[0] {
          FillPacketLeads(keys, s, mtu);
          PathAdvances(s.flight, s.written, s.offset, r.1.value.items, r.0.written, r.0.offset);
          FlightPlace(sent, r.0);
          SendLoopTrue(keys, sent, r.0, mtu, writes[1..]);
        }
      }
    }
  }

  lemma {:induction false} TrueAppend(keys: nat -> Key, sent: seq<Message>, a: seq<Desc>, b: seq<Desc>)
    requires KeysOk(keys) && TrueDescs(keys, sent, a) && TrueDescs(keys, sent, b)
    ensures TrueDescs(keys, sent, a + b)
  {
    hide KeysOk, TrueDesc;
    forall k | 0 <= k < |a + b| ensures TrueDesc(keys, sent, (a + b)[k]) {
      if k < |a| { DescAt(keys, sent, a, k); } else { DescAt(keys, sent, b, k - |a|); }
    }
  }

  lemma {:induction false} AllTrue(keys: nat -> Key, sent: seq<Message>, packets: seq<Packet>)
    requires KeysOk(keys) && forall k :: 0 <= k < |packets| ==> TrueDescs(keys, sent, packets[k].descs)
    ensures TrueDescs(keys, sent, AllDescs(packets))
    ensures forall k :: 0 <= k < |packets| ==> Among(packets[k].descs, AllDescs(packets))
    decreases |packets|
  {
    hide KeysOk, TrueDescs;
    if packets == [] {
      NoneTrue(keys, sent);
    } else {
      AllTrue(keys, sent, packets[1..]);
      TrueAppend(keys, sent, packets[0].descs, AllDescs(packets[1..]));
      forall k | 0 <= k < |packets| ensures Among(packets[k].descs, AllDescs(packets)) {
        if k > 0 { assert Among(packets[1..][k - 1].descs, AllDescs(packets[1..])); }
      }
    }
  }

  lemma {:induction false} NoneTrue(keys: nat -> Key, sent: seq<Message>)
    requires KeysOk(keys)
    ensures TrueDescs(keys, sent, [])
  {
  }

  lemma {:induction false} SendTrue(keys: nat -> Key, w: World, s: Sender, mtu: nat, writes: seq<bool>)
    requires KeysOk(keys) && MessagesOk(w.sent) && |w.sent| <= DtlsMessage.TWO16 && FlightOk(w.sent, s) && AtPlace(s)
    requires TrueDescs(keys, w.sent, w.log) && NetOk(keys, w.log, w.net) && Good(keys, w.log, w.input)
    ensures var v := Send(keys, w, s, mtu, writes);
      FlightOk(v.sent, v.sender) && TrueDescs(keys, v.sent, v.log) && NetOk(keys, v.log, v.net) && Good(keys, v.log, v.input)
  {
    hide SendLoop, KeysOk, MessagesOk, FlightOk, PacketBytes, TrueDescs, Among;
    SendLoopTrue(keys, w.sent, s, mtu, writes);
    var r := SendLoop(keys, s, mtu, writes);
    AllTrue(keys, w.sent, r.packets);
    var more := AllDescs(r.packets);
    TrueAppend(keys, w.sent, w.log, more);
    GoodGrows(keys, w.log, more, w.input);
    var bs := AllBytes(keys, r.packets);
    forall k | 0 <= k < |w.net + bs| ensures Good(keys, w.log + more, (w.net + bs)[k]) {
      if k < |w.net| { GoodGrows(keys, w.log, more, w.net[k]); }
      else {
        assert bs[k - |w.net|] == PacketBytes(keys, r.packets[k - |w.net|].descs);
        AmongMore(r.packets[k - |w.net|].descs, w.log, more);
      }
    }
  }

  lemma {:induction false} AmongMore(ds: seq<Desc>, log: seq<Desc>, more: seq<Desc>)
    requires Among(ds, more)
    ensures Among(ds, log + more)
  {
  }

  lemma {:induction false} AddTrue(sent: seq<Message>, s: Sender, m: Message)
    requires FlightOk(sent, s) && (AddOutgoing(s, false, MessageBytes(m, s.writeSeq)).1 ==> |sent| < DtlsMessage.TWO16)
    ensures var r := AddOutgoing(s, false, MessageBytes(m, s.writeSeq));
      FlightOk(if r.1 then sent + [m] else sent, r.0)
  {
    hide MessageBytes, BodyLen;
    var r := AddOutgoing(s, false, MessageBytes(m, s.writeSeq));
    var sent' := if r.1 then sent + [m] else sent;
    forall k | 0 <= k < |r.0.flight| && !r.0.flight[k].isCcs
      ensures exists i :: 0 <= i < |sent'| && r.0.flight[k].data == MessageBytes(sent'[i], i)
    {
      if r.1 && k == |r.0.flight| - 1 {
        assert |sent| % DtlsMessage.TWO16 == |sent|;
        assert sent'[|sent|] == m && r.0.flight[k].data == MessageBytes(sent'[|sent|], |sent|);
      } else {
        assert r.0.flight[k] == s.flight[k];
        var i :| 0 <= i < |sent| && s.flight[k].data == MessageBytes(sent[i], i);
        assert sent'[i] == sent[i];
      }
    }
  }

  lemma {:induction false} AddCcsTrue(sent: seq<Message>, s: Sender)
    requires FlightOk(sent, s)
    ensures FlightOk(sent, AddOutgoing(s, true, []).0)
  {
    hide MessageBytes, BodyLen;
    var r := AddOutgoing(s, true, []);
    forall k | 0 <= k < |r.0.flight| && !r.0.flight[k].isCcs
      ensures exists i :: 0 <= i < |sent| && r.0.flight[k].data == MessageBytes(sent[i], i)
    {
      assert r.0.flight[k] == s.flight[k];
    }
  }

  // ------------------------------------------------------------- receiving keeps it

  lemma {:induction false} ReceiverGrows(keys: nat -> Key, sent: seq<Message>, more: seq<Message>, k: nat, r: Receiver)
    requires KeysOk(keys) && ReceiverOk(keys, sent, k, r)
    ensures ReceiverOk(keys, sent + more, k, r)
  {
    hide KeysOk;
    forall i | 0 <= i < MAX_FLIGHT && r.ring[i].Some? ensures TrueAssembly(sent + more, r.ring[i].value) {
      assert TrueAssembly(sent, r.ring[i].value);
    }
  }

  /** A true fragment keeps what is being assembled true. */
  lemma {:induction false} TakeTrue(keys: nat -> Key, sent: seq<Message>, k: nat, r: Receiver, f: Fragment)
    requires KeysOk(keys) && ReceiverOk(keys, sent, k, r) && TrueFragment(sent, f)
    ensures ReceiverOk(keys, sent, k, TakeFragment(r, f).0)
  {
    hide KeysOk, InSlot;
    TakeFragmentOk(r, f);
    var q := TakeFragment(r, f).0;
    if q != r {
      var n := f.seqNum % MAX_FLIGHT;
      assert r.ring[n].Some? ==> TrueAssembly(sent, r.ring[n].value);
      FilledTrue(sent, Incoming(r, f).value, f);
      forall i | 0 <= i < MAX_FLIGHT && q.ring[i].Some? ensures TrueAssembly(sent, q.ring[i].value) {
        if i != n { assert TrueAssembly(sent, r.ring[i].value); }
      }
    }
  }

  lemma {:induction false} FilledTrue(sent: seq<Message>, a: Assembly, f: Fragment)
    requires TrueFragment(sent, f) && a.seqNum == f.seqNum && TrueAssembly(sent, a)
    ensures TrueAssembly(sent, Filled(a, f.off, f.body))
  {
    var b := Filled(a, f.off, f.body);
    forall j | 0 <= j < |b.cells| && b.cells[j].Some? ensures b.cells[j].value == sent[a.seqNum].body[j] {
      if f.off <= j < f.off + |f.body| { assert f.body[j - f.off] == sent[f.seqNum].body[j]; }
    }
  }

  /** A record sealed by the sender keeps what is being assembled true. */
  lemma {:induction false} TakeRecordTrue(keys: nat -> Key, sent: seq<Message>, k: nat, r: Receiver, recordType: Byte,
      plain: seq<Byte>)
    requires KeysOk(keys) && ReceiverOk(keys, sent, k, r)
    requires recordType == CHANGE_CIPHER_SPEC || (recordType == HANDSHAKE && exists f :: TrueFragment(sent, f) && plain == FragmentBytes(f))
    ensures ReceiverOk(keys, sent, k, TakeRecord(r, recordType, plain).0)
  {
    hide KeysOk, TakeFragment, FragmentBytes, ParseFragment, RingOk;
    if recordType == HANDSHAKE {
      var f :| TrueFragment(sent, f) && plain == FragmentBytes(f);
      ParseBack(f, []);
      assert FragmentBytes(f) + [] == FragmentBytes(f);
      TakeTrue(keys, sent, k, r, f);
      TakeFragmentOk(r, f);
      assert TakeAll(TakeFragment(r, f).0, []).0 == TakeFragment(r, f).0;
    }
  }

  /** Opening the next record of a packet of the sender's: either nothing happens, or it is the
      record d, not seen before and sealed under the reader's key, and its contents are taken. */
  lemma {:induction false} OpenTrue(keys: nat -> Key, sent: seq<Message>, log: seq<Desc>, k: nat, r: Receiver,
      input: seq<Byte>)
    returns (d: Option<Desc>)
    requires KeysOk(keys) && ReceiverOk(keys, sent, k, r) && TrueDescs(keys, sent, log) && Good(keys, log, input)
    ensures var o := OpenHandshake(r, input);
      && ReceiverOk(keys, sent, k, o.receiver) && Good(keys, log, input[o.consumed..])
      && (d.None? ==> o.receiver == r)
      && (d.Some? ==> d.value in log && Opens(k, r, d.value)
                      && o.receiver == TakeRecord(WithNumber(k, r, d.value), d.value.recordType, d.value.plain).0)
  {
    hide KeysOk, OpenRecord, TakeRecord, Bytes, RingOk, TrueDesc, Opens;
    var ds: seq<Desc> :| input == PacketBytes(keys, ds) && Among(ds, log);
    GoodFrom(keys, log, []);
    if ds == [] {
      assert input == [];
      EmptyInput(r.records);
      assert input[0..] == [];
      d := None;
    } else {
      var x := ds[0];
      var rest := PacketBytes(keys, ds[1..]);
      var i :| 0 <= i < |log| && log[i] == x;
      DescAt(keys, sent, log, i);
      GoodFrom(keys, log, ds[1..]);
      OpenOne(keys, sent, k, r, x, rest);
      assert input[|Bytes(keys, x)|..] == rest;
      assert input[|input|..] == [] && input[0..] == input;
      var v := OpenRecord(r.records, input).1;
      if v.Record? {
        WindowAlone(keys, sent, k, r, OpenRecord(r.records, input).0);
        TrueContents(keys, sent, x);
        TakeRecordTrue(keys, sent, k, WithNumber(k, r, x), v.recordType, v.plain);
        d := Some(x);
      } else {
        d := None;
      }
    }
  }

  /** The reader with this key takes the record for a new one of its own. */
  predicate Opens(k: nat, r: Receiver, d: Desc) {
    d.key == k && !ShouldDiscard(r.records.window, Combined(k % DtlsRecord.TWO16, d.seqNum))
  }

  function WithNumber(k: nat, r: Receiver, d: Desc): (q: Receiver)
    requires RingOk(r)
    ensures RingOk(q)
  {
    RingAlone(r);
    r.(records := r.records.(window := Recorded(r.records.window, Combined(k % DtlsRecord.TWO16, d.seqNum))))
  }

  lemma {:induction false} TrueContents(keys: nat -> Key, sent: seq<Message>, d: Desc)
    requires KeysOk(keys) && TrueDesc(keys, sent, d)
    ensures d.recordType == CHANGE_CIPHER_SPEC || (d.recordType == HANDSHAKE && exists f :: TrueFragment(sent, f) && d.plain == FragmentBytes(f))
    ensures Sendable(d.recordType, d.plain)
  {
    hide KeysOk, FragmentBytes, ParseFragment, Bytes;
    if d.recordType == HANDSHAKE {
      var f :| TrueFragment(sent, f) && d.plain == FragmentBytes(f);
      ParseBack(f, []);
      assert FragmentBytes(f) + [] == FragmentBytes(f);
    }
  }

  lemma {:induction false} WindowAlone(keys: nat -> Key, sent: seq<Message>, k: nat, r: Receiver, o: ReadState)
    requires KeysOk(keys) && ReceiverOk(keys, sent, k, r) && o.key == r.records.key && o.epoch == r.records.epoch
    ensures ReceiverOk(keys, sent, k, r.(records := o))
  {
    hide KeysOk, TrueAssembly, WellFormed;
  }

  lemma {:induction false} EmptyInput(r: ReadState)
    requires WellFormed(r.key.context)
    ensures OpenRecord(r, []) == (r, if r.closed then CloseNotify else Partial)
  {
  }

  lemma {:induction false} GoodFrom(keys: nat -> Key, log: seq<Desc>, ds: seq<Desc>)
    requires KeysOk(keys) && Among(ds, log)
    ensures Good(keys, log, PacketBytes(keys, ds))
  {
    hide KeysOk, PacketBytes;
  }

  /** Keys that are used in epochs of the same number do not open each other's records. */
  lemma {:induction false} ForeignKey(keys: nat -> Key, i: nat, j: nat)
    requires KeysOk(keys) && i < DtlsRecord.TWO16 && i != j && i == j % DtlsRecord.TWO16
    ensures KeyOk(keys(i)) && KeyOk(keys(j)) && Foreign(keys(i), keys(j), i) && !keys(j).context.isNull
  {
    hide KeyOk, Foreign;
    assert j > 0 && i % DtlsRecord.TWO16 == i;
  }

  /** Opening a packet that starts with a record of the sender's. */
  lemma {:induction false} OpenOne(keys: nat -> Key, sent: seq<Message>, k: nat, r: Receiver, d: Desc, rest: seq<Byte>)
    requires KeysOk(keys) && ReceiverOk(keys, sent, k, r) && TrueDesc(keys, sent, d)
    ensures var input := Bytes(keys, d) + rest; var o := OpenRecord(r.records, input);
      && (!o.1.Record? ==> o.0 == r.records)
      && (o.1.Discard? || o.1.TooLong? ==> o.1.consumed == |Bytes(keys, d)| || o.1.consumed == |input|)
      && (o.1.Record? ==> Opens(k, r, d) && o.0 == WithNumber(k, r, d).records && o.1 == Record(d.recordType, d.plain, |Bytes(keys, d)|))
  {
    hide OpenRecord, ShouldDiscard, BigEndian, Body, VersionOk, KeyOk, WellFormed, RingOk, FragmentBytes,
         TrueFragment, Recorded, Combined, Opened, Foreign;
    FirstKey(keys);
    TrueContents(keys, sent, d);
    if d.key != k && d.key == r.records.epoch {
      ForeignKey(keys, d.key, k);
      ForeignSealed(keys(d.key), keys(k), d.key, d.recordType, d.version, d.seqNum, d.plain);
      ForeignRecord(keys(d.key), d.recordType, d.version, d.key, d.seqNum, d.plain, r.records, rest);
    } else {
      RecordBack(keys(d.key), d.recordType, d.version, d.key, d.seqNum, d.plain, r.records, rest);
    }
  }

  lemma {:induction false} ForeignSealed(k: Key, other: Key, epoch: nat, recordType: Byte, version: nat, s: nat,
      plain: seq<Byte>)
    requires KeyOk(k) && KeyOk(other) && Foreign(k, other, epoch) && !other.context.isNull
        && Sendable(recordType, plain)
    ensures Opened(other.context, other.aead, recordType, version, SeqBytes(epoch, s), Body(k, recordType, version, epoch, s, plain)).None?
  {
    hide Opened, Body, SeqBytes, Sendable, KeyOk;
    KeyParts(k);
    KeyParts(other);
  }

  lemma {:induction false} KeyParts(k: Key)
    requires KeyOk(k)
    ensures WellFormed(k.context)
    ensures forall s: nat :: !k.context.isNull && k.context.random ==> |k.iv(s)| == k.context.variableLen
  {
  }

  /** The message the receiver gets is the next one. */
  lemma {:induction false} GetTrue(keys: nat -> Key, sent: seq<Message>, k: nat, r: Receiver)
    requires KeysOk(keys) && ReceiverOk(keys, sent, k, r) && GetMessage(r).Some?
    ensures r.readSeq < |sent| && GetMessage(r).value == sent[r.readSeq]
    ensures DtlsReceive.Current(r).Some? && DtlsReceive.Current(r).value.seqNum == r.readSeq
  {
    hide KeysOk;
    var i := r.readSeq % MAX_FLIGHT;
    var a := r.ring[i].value;
    assert InSlot(r.readSeq, i, a) && TrueAssembly(sent, a);
    SameNumber(r.readSeq, r.readSeq, a.seqNum);
    assert BodyOf(a) == sent[r.readSeq].body;
  }

  /** Once the numbers are used up nothing must be in the ring any more. */
  ghost predicate NumbersLast(w: World) {
    |w.delivered| >= DtlsMessage.TWO16 ==> NoneInRing(w.receiver)
  }

  lemma {:induction false} NextTrue(keys: nat -> Key, w: World)
    requires KeysOk(keys) && Ready(w) && Inv(keys, w) && |w.sent| <= DtlsMessage.TWO16 && NumbersLast(w)
    ensures Inv(keys, Apply(keys, w, Next))
  {
    hide KeysOk, Good, FlightOk, MessagesOk, NextMessage, GetMessage, RingOk, TrueAssembly, NetOk, TrueDescs,
         NoneInRing;
    if w.receiver.hasMessage && GetMessage(w.receiver).Some? {
      GetTrue(keys, w.sent, w.readKey, w.receiver);
      if NoneInRing(w.receiver) { EmptyRing(w.receiver); }
      NextParts(w.receiver);
      var n := |w.delivered|;
      assert w.receiver.readSeq == n;
      assert w.sent[..n + 1] == w.sent[..n] + [w.sent[n]];
    }
  }

  lemma {:induction false} EmptyRing(r: Receiver)
    requires RingOk(r) && NoneInRing(r)
    ensures GetMessage(r).None?
  {
    assert r.ring[r.readSeq % MAX_FLIGHT].None?;
  }

  lemma {:induction false} NextParts(r: Receiver)
    requires RingOk(r) && GetMessage(r).Some?
    ensures var q := NextMessage(r);
      && RingOk(q) && q.records == r.records && q.readSeq == (r.readSeq + 1) % DtlsMessage.TWO16 && |q.ring| == |r.ring| == MAX_FLIGHT
      && (forall i :: 0 <= i < MAX_FLIGHT && q.ring[i].Some? ==> q.ring[i] == r.ring[i])
      && q.ring == r.ring[r.readSeq % MAX_FLIGHT := None]
  {
    hide GetMessage;
  }

  // ------------------------------------------------------------- every step keeps it

  lemma {:induction false} StartInv(keys: nat -> Key, maxLen: nat)
    requires KeysOk(keys)
    ensures Inv(keys, Start(keys, maxLen))
  {
    hide KeysOk;
    GoodFrom(keys, [], []);
    assert KeyOk(keys(0)) by { FirstKey(keys); }
  }

  lemma {:induction false} FirstKey(keys: nat -> Key)
    requires KeysOk(keys)
    ensures forall e: nat :: KeyOk(keys(e))
  {
  }

  lemma {:induction false} InvParts(keys: nat -> Key, w: World)
    requires KeysOk(keys) && Inv(keys, w)
    ensures Ready(w) && NetOk(keys, w.log, w.net)
  {
    hide KeysOk, Good, TrueAssembly, TrueDescs;
  }

  lemma {:induction false} AddMessageInv(keys: nat -> Key, w: World, m: Message)
    requires KeysOk(keys) && Inv(keys, w) && Ready(w) && |Apply(keys, w, AddMessage(m)).sent| <= DtlsMessage.TWO16
    ensures Inv(keys, Apply(keys, w, AddMessage(m)))
  {
    hide KeysOk, Good, NetOk, FlightOk, ReceiverOk, TrueDescs, RingOk, AtPlace, WellFormed, MessageBytes;
    if |m.body| < TWO24 {
      FlightNumbers(w.sent, w.sender);
      AddTrue(w.sent, w.sender, m);
      if AddOutgoing(w.sender, false, MessageBytes(m, w.sender.writeSeq)).1 {
        TrueGrows(keys, w.sent, [m], w.log);
        ReceiverGrows(keys, w.sent, [m], w.readKey, w.receiver);
        assert (w.sent + [m])[..|w.delivered|] == w.sent[..|w.delivered|];
      }
    }
  }

  lemma {:induction false} FlightNumbers(sent: seq<Message>, s: Sender)
    requires FlightOk(sent, s)
    ensures s.writeSeq == |sent| % DtlsMessage.TWO16
  {
  }

  lemma {:induction false} NewReadKeysInv(keys: nat -> Key, sent: seq<Message>, k: nat, r: Receiver)
    requires KeysOk(keys) && ReceiverOk(keys, sent, k, r)
    ensures ReceiverOk(keys, sent, k + 1, r.(records := NewReadState(r.records, keys(k + 1))))
  {
    hide KeysOk, TrueAssembly;
    FirstKey(keys);
    RingAlone(r);
    assert KeyOk(keys(k + 1));
    assert (k % DtlsRecord.TWO16 + 1) % DtlsRecord.TWO16 == (k + 1) % DtlsRecord.TWO16;
  }

  /** What the steps of a run may not exceed: the numbers of messages and of the sender's epochs. */
  predicate Within(w: World) {
    |w.sent| <= DtlsMessage.TWO16 && w.sender.records.changes < DtlsRecord.TWO16
  }

  lemma {:induction false} ApplyInv(keys: nat -> Key, w: World, a: Action)
    requires KeysOk(keys) && Inv(keys, w) && Ready(w) && NumbersLast(w) && Within(w) && Within(Apply(keys, w, a))
    ensures Inv(keys, Apply(keys, w, a))
  {
    hide KeysOk, Good, NetOk, TrueDescs, FlightOk, MessagesOk, ReceiverOk, RingOk, AtPlace, WellFormed, Send,
         OpenHandshake, AddOutgoing, Unprocessed, GetMessage, NumbersLast;
    InvParts(keys, w);
    match a {
      case AddMessage(m) => AddMessageInv(keys, w, m);
      case AddChangeCipherSpec => AddCcsTrue(w.sent, w.sender);
      case Flush(mtu, writes) => SendInv(keys, w, Completed(w.sender), mtu, writes);
      case Retransmit(mtu, writes) => SendInv(keys, w, Rewound(w.sender), mtu, writes);
      case HandshakeComplete => ClearedFlight(w.sent, w.sender);
      case NewWriteKeys => RekeyedFlight(w.sent, w.sender);
      case Arrive(i) => if i < |w.net| { NetAt(keys, w.log, w.net, i); }
      case Open =>
        var d := OpenTrue(keys, w.sent, w.log, w.readKey, w.receiver, w.input);
      case Get => SameRing(keys, w.sent, w.readKey, w.receiver, true, w.receiver.hasCcs);
      case Next => NextTrue(keys, w);
      case TakeCcs => SameRing(keys, w.sent, w.readKey, w.receiver, w.receiver.hasMessage, false);
      case NewReadKeys => NewReadKeysInv(keys, w.sent, w.readKey, w.receiver);
    }
  }

  lemma {:induction false} NetAt(keys: nat -> Key, log: seq<Desc>, net: seq<seq<Byte>>, i: nat)
    requires KeysOk(keys) && NetOk(keys, log, net) && i < |net|
    ensures Good(keys, log, net[i])
  {
    hide KeysOk, Good;
  }

  lemma {:induction false} SendInv(keys: nat -> Key, w: World, s: Sender, mtu: nat, writes: seq<bool>)
    requires KeysOk(keys) && Inv(keys, w) && Within(w) && AtPlace(s)
    requires s == w.sender.(complete := true) || s == w.sender.(written := 0, offset := 0)
    ensures Inv(keys, Send(keys, w, s, mtu, writes))
  {
    hide KeysOk, Good, NetOk, TrueDescs, MessagesOk, ReceiverOk, SendLoop;
    SendTrue(keys, w, s, mtu, writes);
  }

  lemma {:induction false} ClearedFlight(sent: seq<Message>, s: Sender)
    requires FlightOk(sent, s)
    ensures FlightOk(sent, s.(flight := [], written := 0, offset := 0, complete := false))
  {
  }

  lemma {:induction false} RekeyedFlight(sent: seq<Message>, s: Sender)
    requires FlightOk(sent, s) && s.records.changes + 1 < DtlsRecord.TWO16
    ensures FlightOk(sent, s.(records := WriterNext(s.records, NewKeys)))
  {
  }

  lemma {:induction false} SameRing(keys: nat -> Key, sent: seq<Message>, k: nat, r: Receiver, hasMessage: bool,
      hasCcs: bool)
    requires KeysOk(keys) && ReceiverOk(keys, sent, k, r)
    ensures ReceiverOk(keys, sent, k, r.(hasMessage := hasMessage)) && ReceiverOk(keys, sent, k, r.(hasCcs := hasCcs))
  {
    hide KeysOk, TrueAssembly;
  }

  // ------------------------------------------------------------- whole runs

  function Run(keys: nat -> Key, w: World, actions: seq<Action>): World
    requires KeysOk(keys) && Ready(w)
    decreases |actions|
  {
    if actions == [] then w
    else
      ApplyReady(keys, w, actions[0]);
      Run(keys, Apply(keys, w, actions[0]), actions[1..])
  }

  /** Nothing that is counted ever gets less. */
  lemma {:induction false} ApplyGrows(keys: nat -> Key, w: World, a: Action)
    requires KeysOk(keys) && Ready(w)
    ensures var v := Apply(keys, w, a);
      |w.sent| <= |v.sent| && w.sender.records.changes <= v.sender.records.changes && (w.sender.records.wrapped ==> v.sender.records.wrapped)
  {
    hide KeysOk, SendLoop, OpenHandshake, Unprocessed, GetMessage, NextMessage, RingOk, WellFormed, MessageBytes,
         AtPlace;
    match a {
      case Flush(mtu, writes) => SendLoopGrows(keys, Completed(w.sender), mtu, writes);
      case Retransmit(mtu, writes) => SendLoopGrows(keys, Rewound(w.sender), mtu, writes);
      case _ =>
    }
  }

  lemma {:induction false} SealNextGrows(keys: nat -> Key, s: Sender, maxOut: nat)
    requires KeysOk(keys) && s.written < |s.flight|
    ensures var r := SealNext(keys, s, maxOut).0.records;
      r.changes == s.records.changes && (s.records.wrapped ==> r.wrapped)
  {
    hide KeysOk, Bytes, ParseFragment, FragmentBytes, MaxOverhead, RecordVersion, Whole;
  }

  lemma {:induction false} FillPacketGrows(keys: nat -> Key, s: Sender, maxOut: nat)
    requires KeysOk(keys) && s.written <= |s.flight|
    ensures var r := FillPacket(keys, s, maxOut).0.records;
      r.changes == s.records.changes && (s.records.wrapped ==> r.wrapped)
    decreases |s.flight| - s.written
  {
    hide KeysOk, SealNext, Bytes;
    if s.written < |s.flight| {
      SealNextGrows(keys, s, maxOut);
      var r := SealNext(keys, s, maxOut);
      if r.1.Sealed? && r.1.done { FillPacketGrows(keys, r.0.(written := s.written + 1), maxOut - |Bytes(keys, r.1.desc)|); }
    }
  }

  lemma {:induction false} SendLoopGrows(keys: nat -> Key, s: Sender, mtu: nat, writes: seq<bool>)
    requires KeysOk(keys) && AtPlace(s)
    ensures var r := SendLoop(keys, s, mtu, writes).sender.records;
      r.changes == s.records.changes && (s.records.wrapped ==> r.wrapped)
    decreases |s.flight| - s.written, if s.written < |s.flight| then BodyLen(s.flight[s.written]) - s.offset else 0
  {
    hide KeysOk, FillPacket, BodyLen;
    if s.written < |s.flight| {
      FillPacketGrows(keys, s, mtu);
      FillPacketPlace(keys, s, mtu);
      var r := SealPacket(keys, s, mtu);
      if r.1.Some? && writes != [] && writes[0] {
        FillPacketLeads(keys, s, mtu);
        PathAdvances(s.flight, s.written, s.offset, r.1.value.items, r.0.written, r.0.offset);
        SendLoopGrows(keys, r.0, mtu, writes[1..]);
      }
    }
  }

  lemma {:induction false} RunGrows(keys: nat -> Key, w: World, actions: seq<Action>)
    requires KeysOk(keys) && Ready(w)
    ensures var v := Run(keys, w, actions);
      |w.sent| <= |v.sent| && w.sender.records.changes <= v.sender.records.changes && (w.sender.records.wrapped ==> v.sender.records.wrapped)
    decreases |actions|
  {
    hide KeysOk, Apply, Ready;
    if actions != [] {
      ApplyReady(keys, w, actions[0]);
      ApplyGrows(keys, w, actions[0]);
      RunGrows(keys, Apply(keys, w, actions[0]), actions[1..]);
    }
  }

  lemma {:induction false} FewDelivered(keys: nat -> Key, w: World)
    requires KeysOk(keys) && Inv(keys, w) && |w.sent| < DtlsMessage.TWO16
    ensures NumbersLast(w)
  {
  }

  lemma {:induction false} RunInv(keys: nat -> Key, w: World, actions: seq<Action>)
    requires KeysOk(keys) && Ready(w) && Inv(keys, w)
    requires var v := Run(keys, w, actions); |v.sent| < DtlsMessage.TWO16 && v.sender.records.changes < DtlsRecord.TWO16
    ensures Inv(keys, Run(keys, w, actions))
    decreases |actions|
  {
    hide KeysOk, Apply, Inv, Ready, NumbersLast;
    if actions != [] {
      ApplyReady(keys, w, actions[0]);
      RunGrows(keys, w, actions);
      var v := Apply(keys, w, actions[0]);
      RunGrows(keys, v, actions[1..]);
      FewDelivered(keys, w);
      ApplyInv(keys, w, actions[0]);
      RunInv(keys, v, actions[1..]);
    }
  }

  /** RFC 6347 section 4.2.3, over every run in which message numbers and the sender's epochs do not
      come around: whatever the network loses, repeats or reorders, however often flights are
      retransmitted and with whatever MTU, the messages taken out are a prefix of the messages put
      in, byte for byte and in order. */
  lemma {:induction false} DeliveryIsPrefix(keys: nat -> Key, maxLen: nat, actions: seq<Action>)
    requires KeysOk(keys)
    requires var v := Run(keys, Start(keys, maxLen), actions); |v.sent| < DtlsMessage.TWO16 && v.sender.records.changes < DtlsRecord.TWO16
    ensures var w := Run(keys, Start(keys, maxLen), actions); w.delivered <= w.sent
  {
    hide KeysOk, Run, Start, Ready;
    StartInv(keys, maxLen);
    RunInv(keys, Start(keys, maxLen), actions);
  }
}
