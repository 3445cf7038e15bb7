/** The sending end of a DTLS handshake as it is updated in place. */
module DtlsWriter {
  import opened Words
  import opened SslAead
  import opened DtlsWindow
  import opened DtlsRecord
  import opened DtlsState
  import opened DtlsMessage
  import opened DtlsReceive
  import opened DtlsSend
  import opened DtlsRun

  class FlightWriter {
    var flight: seq<Outgoing>
    var written: nat
    var offset: nat
    var complete: bool
    var writeSeq: nat
    const records: RecordWriter
    ghost const keys: nat -> Key

    ghost predicate Valid()
      reads this, records
    {
      && KeysOk(keys) && records.Valid() && records.key == keys(records.changes)
      && (records.epoch >= 1 ==> records.lastKey == keys(records.changes - 1))
    }

    ghost function Abs(): Sender
      requires Valid()
      reads this, records, records.writeSequence, records.lastWriteSequence
    {
      Sender(flight, written, offset, complete, writeSeq, records.Abs())
    }

    constructor (ghost keys: nat -> Key, first: Key)
      requires KeysOk(keys) && first == keys(0)
      ensures Valid() && Abs() == NEW_SENDER && this.keys == keys
      ensures fresh(records) && fresh(records.writeSequence) && fresh(records.lastWriteSequence)
    {
      assert KeyOk(first) by { FirstKey(keys); }
      this.flight, this.written, this.offset, this.complete, this.writeSeq, this.keys := [], 0, 0, false, 0, keys;
      this.records := new RecordWriter(first);
    }

    /** add_outgoing for a message: dtls1_init_message and dtls1_finish_message build it as a
        single fragment, whose length is then copied into the total length. */
    method AddMessage(m: Message) returns (ok: bool)
      requires Valid() && writeSeq < DtlsMessage.TWO16
      modifies this
      ensures Valid()
      ensures if |m.body| >= TWO24 then !ok && Abs() == old(Abs())
              else (Abs(), ok) == AddOutgoing(old(Abs()), false, MessageBytes(m, old(writeSeq)))
    {
      hide BigEndian, KeysOk;
      if |m.body| >= TWO24 { return false; }
      var data := [m.mtype] + BigEndian(0, 3) + BigEndian(writeSeq, 2) + BigEndian(0, 3) + BigEndian(|m.body|, 3) + m.body;
      data := data[..1] + data[HM_HEADER_LENGTH - 3..HM_HEADER_LENGTH] + data[4..];
      assert data == MessageBytes(m, writeSeq);
      ok := Add(false, data);
    }

    method AddChangeCipherSpec() returns (ok: bool)
      requires Valid()
      modifies this
      ensures Valid() && (Abs(), ok) == AddOutgoing(old(Abs()), true, [])
    {
      hide KeysOk;
      ok := Add(true, []);
    }

    /** add_outgoing. */
    method Add(isCcs: bool, data: seq<Byte>) returns (ok: bool)
      requires Valid()
      modifies this
      ensures Valid() && (Abs(), ok) == AddOutgoing(old(Abs()), isCcs, data)
    {
      hide KeysOk;
      if complete {
        flight, written, offset, complete := [], 0, 0, false;
      }
      if |flight| >= MAX_FLIGHT { return false; }
      if !isCcs { writeSeq := (writeSeq + 1) % DtlsMessage.TWO16; }
      flight := flight + [Outgoing(data, records.epoch, isCcs)];
      ok := true;
    }

    method SealStep(previous: bool, maxOut: nat, recordType: Byte, plain: seq<Byte>)
    returns (d: Option<Desc>, record: seq<Byte>)
      requires Valid() && (previous ==> records.epoch >= 1)
      modifies records`log, records`wrapped, records.writeSequence, records.lastWriteSequence
      ensures Valid()
      ensures (Abs(), d) == DtlsSend.SealStep(keys, old(Abs()), previous, maxOut, recordType, plain)
      ensures d.Some? ==> record == Bytes(keys, d.value)
    {
      hide KeyOk, WriterNext, RecordVersion, RecordBytes;
      var k := if previous then records.changes - 1 else records.changes;
      var n := if previous then records.Last() else records.Current();
      var r := records.SealRecord(previous, maxOut, recordType, plain);
      if r.None? { d, record := None, []; }
      else {
        d := Some(Desc(k, n, RecordVersion(records.key.context, true), recordType, plain));
        record := r.value;
      }
    }

    /** seal_next_message. */
    method SealNext(maxOut: nat) returns (r: SealResult, record: seq<Byte>)
      requires Valid() && written < |flight|
      modifies this`offset, records`log, records`wrapped, records.writeSequence, records.lastWriteSequence
      ensures Valid()
      ensures (Abs(), r) == DtlsSend.SealNext(keys, old(Abs()), maxOut)
      ensures r.Sealed? ==> record == Bytes(keys, r.desc)
    {
      hide KeysOk, DtlsSend.SealStep, FragmentBytes, Bytes, ParseFragment, MaxOverhead, RecordWriter.Valid;
      record := [];
      EpochOf(records);
      var msg := flight[written];
      var previous := false;
      if records.epoch >= 1 && msg.epoch == records.epoch - 1 {
        previous := true;
      } else if msg.epoch != records.epoch {
        return SealError, [];
      }
      var key := if previous then records.lastKey else records.key;
      var overhead := HEADER_LENGTH + MaxOverhead(key.context, key.aead);
      var d;
      if msg.isCcs {
        if maxOut < 1 + overhead { return NoProgress, []; }
        d, record := SealStep(previous, maxOut, CHANGE_CIPHER_SPEC, [MT_CCS]);
        r := if d.None? then SealError else Sealed(d.value, Item(written, 0, 0), true);
        return;
      }
      var p := ParseFragment(msg.data);
      if !Whole(p) || offset > |p.value.fragment.body| { return SealError, []; }
      if maxOut < HM_HEADER_LENGTH + 1 + overhead { return NoProgress, []; }
      var hdr := p.value.fragment;
      var left := |hdr.body| - offset;
      var todo := left;
      if todo > maxOut - HM_HEADER_LENGTH - overhead { todo := maxOut - HM_HEADER_LENGTH - overhead; }
      d, record := SealStep(previous, maxOut, HANDSHAKE,
        FragmentBytes(Fragment(hdr.mtype, hdr.msgLen, hdr.seqNum, offset, hdr.body[offset..offset + todo])));
      if d.None? { return SealError, []; }
      r := Sealed(d.value, Item(written, offset, todo), todo == left);
      offset := if todo == left then 0 else offset + todo;
    }

    /** The loop of seal_next_packet. */
    method FillPacket(maxOut: nat) returns (p: Option<Packet>, packet: seq<Byte>)
      requires Valid() && AtPlace(Abs()) && written <= |flight|
      modifies this, records`log, records`wrapped, records.writeSequence, records.lastWriteSequence
      ensures Valid()
      ensures (Abs(), p) == DtlsSend.FillPacket(keys, old(Abs()), maxOut)
      ensures p.Some? ==> packet == PacketBytes(keys, p.value.descs)
    {
      hide DtlsSend.SealNext, DtlsSend.FillPacket, KeysOk, Bytes, BodyLen, RecordWriter.Valid, WriterNext, After,
           Prepend, PacketBytes, AtPlace;
      var done := Packet([], []);
      packet := [];
      var room: nat := maxOut;
      ghost var start := Abs();
      NothingYet(keys, DtlsSend.FillPacket(keys, start, maxOut).1);
      while written < |flight|
        invariant Valid() && flight == start.flight && AtPlace(Abs()) && written <= |flight|
        invariant packet == PacketBytes(keys, done.descs)
        invariant DtlsSend.FillPacket(keys, start, maxOut)
               == (DtlsSend.FillPacket(keys, Abs(), room).0, After(done, DtlsSend.FillPacket(keys, Abs(), room).1))
        decreases |flight| - written
      {
        FillPacketStep(keys, Abs(), room, done);
        var r, record := SealNext(room);
        match r {
          case SealError => return None, [];
          case NoProgress => return Some(done), packet;
          case Sealed(d, i, whole) =>
            AppendBytes(keys, done.descs, d);
            done := Packet(done.descs + [d], done.items + [i]);
            packet := packet + record;
            if !whole { return Some(done), packet; }
            room := room - |record|;
            written := written + 1;
        }
      }
      FillPacketDone(keys, Abs(), room, done);
      p := Some(done);
    }

    /** seal_next_packet: the bytes of one packet. */
    method SealPacket(maxOut: nat) returns (p: Option<Packet>, packet: seq<Byte>)
      requires Valid() && AtPlace(Abs()) && written < |flight|
      modifies this, records`log, records`wrapped, records.writeSequence, records.lastWriteSequence
      ensures Valid()
      ensures (Abs(), p) == DtlsSend.SealPacket(keys, old(Abs()), maxOut)
      ensures p.Some? ==> packet == PacketBytes(keys, p.value.descs)
    {
      hide DtlsSend.FillPacket, KeysOk, RecordWriter.Valid, AtPlace, PacketBytes;
      p, packet := FillPacket(maxOut);
      if p.Some? && p.value.items == [] { return None, []; }
    }

    /** send_flight after the MTU is known: writes[k] says whether the k-th write succeeds, and a
        failed one restores the place. */
    method SendFlight(mtu: nat, writes: seq<bool>) returns (end: End, wire: seq<seq<Byte>>, packets: seq<Packet>)
      requires Valid() && AtPlace(Abs())
      modifies this, records`log, records`wrapped, records.writeSequence, records.lastWriteSequence
      ensures Valid()
      ensures Sent(Abs(), packets, end) == SendLoop(keys, old(Abs()), mtu, writes)
      ensures wire == AllBytes(keys, packets)
    {
      hide DtlsSend.SealPacket, KeysOk, RecordWriter.Valid, BodyLen, PacketBytes, AllBytes, SendLoop, SentAfter,
           AtPlace;
      packets, wire := [], [];
      ghost var start := Abs();
      var left := writes;
      NoPackets(keys, SendLoop(keys, start, mtu, left));
      while written < |flight|
        invariant Valid() && AtPlace(Abs()) && flight == start.flight
        invariant wire == AllBytes(keys, packets)
        invariant SendLoop(keys, start, mtu, writes) == SentAfter(packets, SendLoop(keys, Abs(), mtu, left))
        decreases |flight| - written, if written < |flight| then BodyLen(flight[written]) - offset else 0
      {
        var oldWritten, oldOffset := written, offset;
        SendLoopStep(keys, Abs(), mtu, left);
        AfterLast(packets, Abs());
        var p, packet := SealPacket(mtu);
        AfterLast(packets, Abs());
        if p.None? { return NotSealed, wire, packets; }
        if left == [] || !left[0] {
          written, offset := oldWritten, oldOffset;
          AfterLast(packets, Abs());
          return NotWritten, wire, packets;
        }
        MorePackets(keys, packets, p.value);
        SentMore(packets, p.value, SendLoop(keys, Abs(), mtu, left[1..]));
        packets := packets + [p.value];
        wire := wire + [packet];
        left := left[1..];
      }
      SendLoopDone(keys, Abs(), mtu, left);
      AfterLast(packets, Abs());
      end := Finished;
    }

    /** dtls1_flush_flight. */
    method Flush(mtu: nat, writes: seq<bool>) returns (end: End, wire: seq<seq<Byte>>, packets: seq<Packet>)
      requires Valid() && AtPlace(Abs())
      modifies this, records`log, records`wrapped, records.writeSequence, records.lastWriteSequence
      ensures Valid() && wire == AllBytes(keys, packets)
      ensures Sent(Abs(), packets, end) == SendLoop(keys, Completed(old(Abs())), mtu, writes)
    {
      hide KeysOk, RecordWriter.Valid, SendLoop, AllBytes;
      complete := true;
      end, wire, packets := SendFlight(mtu, writes);
    }

    /** dtls1_retransmit_outgoing_messages. */
    method Retransmit(mtu: nat, writes: seq<bool>) returns (end: End, wire: seq<seq<Byte>>, packets: seq<Packet>)
      requires Valid() && AtPlace(Abs())
      modifies this, records`log, records`wrapped, records.writeSequence, records.lastWriteSequence
      ensures Valid() && wire == AllBytes(keys, packets)
      ensures Sent(Abs(), packets, end) == SendLoop(keys, Rewound(old(Abs())), mtu, writes)
    {
      hide KeysOk, RecordWriter.Valid, SendLoop, AllBytes;
      written, offset := 0, 0;
      end, wire, packets := SendFlight(mtu, writes);
    }
  }

  function SentAfter(done: seq<Packet>, rest: Sent): Sent {
    Sent(rest.sender, done + rest.packets, rest.end)
  }

  lemma {:induction false} SentMore(done: seq<Packet>, p: Packet, rest: Sent)
    ensures SentAfter(done, Sent(rest.sender, [p] + rest.packets, rest.end)) == SentAfter(done + [p], rest)
  {
    assert done + ([p] + rest.packets) == done + [p] + rest.packets;
  }

  lemma {:induction false} AfterLast(packets: seq<Packet>, s: Sender)
    ensures forall end :: SentAfter(packets, Sent(s, [], end)) == Sent(s, packets, end)
  {
    assert packets + [] == packets;
  }

  /** One turn of the loop of send_flight; a packet that is built moves the place forward. */
  lemma {:induction false} SendLoopStep(keys: nat -> Key, s: Sender, mtu: nat, writes: seq<bool>)
    requires KeysOk(keys) && AtPlace(s) && s.written < |s.flight|
    ensures var r := DtlsSend.SealPacket(keys, s, mtu);
      && (r.1.Some? ==>
            && AtPlace(r.0) && r.0.flight == s.flight
            && (r.0.written > s.written || (r.0.written == s.written && s.offset < r.0.offset <= BodyLen(s.flight[s.written]))))
      && SendLoop(keys, s, mtu, writes) ==
           if r.1.None? then Sent(r.0, [], NotSealed)
           else if writes == [] || !writes[0] then Sent(r.0.(written := s.written, offset := s.offset), [], NotWritten)
           else
             var rest := SendLoop(keys, r.0, mtu, writes[1..]);
             Sent(rest.sender, [r.1.value] + rest.packets, rest.end)
  {
    hide KeysOk, DtlsSend.FillPacket, BodyLen, PacketBytes, Carries;
    FillPacketLeads(keys, s, mtu);
    var r := DtlsSend.SealPacket(keys, s, mtu);
    if r.1.Some? { PathAdvances(s.flight, s.written, s.offset, r.1.value.items, r.0.written, r.0.offset); }
  }

  lemma {:induction false} SendLoopDone(keys: nat -> Key, s: Sender, mtu: nat, writes: seq<bool>)
    requires KeysOk(keys) && AtPlace(s) && s.written >= |s.flight|
    ensures SendLoop(keys, s, mtu, writes) == Sent(s, [], Finished)
  {
    hide KeysOk;
  }

  lemma {:induction false} NoPackets(keys: nat -> Key, rest: Sent)
    requires KeysOk(keys)
    ensures AllBytes(keys, []) == [] && SentAfter([], rest) == rest
  {
    hide KeysOk;
    assert [] + rest.packets == rest.packets;
  }

  lemma {:induction false} MorePackets(keys: nat -> Key, packets: seq<Packet>, p: Packet)
    requires KeysOk(keys)
    ensures AllBytes(keys, packets + [p]) == AllBytes(keys, packets) + [PacketBytes(keys, p.descs)]
  {
    hide KeysOk, PacketBytes;
    var all := packets + [p];
    forall k | 0 <= k < |packets| ensures AllBytes(keys, all)[k] == AllBytes(keys, packets)[k] { assert all[k] == packets[k]; }
    assert all[|packets|] == p;
  }

  /** What is in the packet already, and what follows. */
  function After(done: Packet, rest: Option<Packet>): Option<Packet> {
    if rest.None? then None else Some(Packet(done.descs + rest.value.descs, done.items + rest.value.items))
  }

  lemma {:induction false} NothingYet(keys: nat -> Key, p: Option<Packet>)
    requires KeysOk(keys)
    ensures After(Packet([], []), p) == p && PacketBytes(keys, []) == []
  {
    hide KeysOk;
    if p.Some? { assert [] + p.value.descs == p.value.descs && [] + p.value.items == p.value.items; }
  }

  lemma {:induction false} AfterNothing(done: Packet)
    ensures After(done, Some(Packet([], []))) == Some(done) && After(done, None) == None
  {
    assert done.descs + [] == done.descs && done.items + [] == done.items;
  }

  /** One turn of the loop of seal_next_packet, with what is in the packet already. */
  lemma {:induction false} FillPacketStep(keys: nat -> Key, s: Sender, room: nat, done: Packet)
    requires KeysOk(keys) && AtPlace(s) && s.written < |s.flight|
    ensures var r := DtlsSend.SealNext(keys, s, room); var f := DtlsSend.FillPacket(keys, s, room);
      match r.1
      case SealError => f.0 == r.0 && After(done, f.1) == None
      case NoProgress => f.0 == r.0 && After(done, f.1) == Some(done)
      case Sealed(d, i, whole) =>
        var more := Packet(done.descs + [d], done.items + [i]);
        if !whole then f.0 == r.0 && After(done, f.1) == Some(more)
        else
          var t := r.0.(written := s.written + 1);
          var rest := DtlsSend.FillPacket(keys, t, room - |Bytes(keys, d)|);
          AtPlace(t) && f.0 == rest.0 && After(done, f.1) == After(more, rest.1)
  {
    hide DtlsSend.SealNext, KeysOk, Bytes, BodyLen, Carries, After, Prepend;
    SealNextAdvances(keys, s, room);
    AfterNothing(done);
    var r := DtlsSend.SealNext(keys, s, room).1;
    if r.Sealed? {
      if r.done {
        AfterMore(done, r.desc, r.item, DtlsSend.FillPacket(keys, DtlsSend.SealNext(keys, s, room).0.(written := s.written + 1), room - |Bytes(keys, r.desc)|).1);
      } else {
        PrependNothing(r.desc, r.item);
        AfterMore(done, r.desc, r.item, Some(Packet([], [])));
        AfterNothing(Packet(done.descs + [r.desc], done.items + [r.item]));
      }
    }
  }

  lemma {:induction false} FillPacketDone(keys: nat -> Key, s: Sender, room: nat, done: Packet)
    requires KeysOk(keys) && s.written == |s.flight|
    ensures DtlsSend.FillPacket(keys, s, room).0 == s && After(done, DtlsSend.FillPacket(keys, s, room).1) == Some(done)
  {
    hide KeysOk, After;
    AfterNothing(done);
  }

  lemma {:induction false} PrependNothing(d: Desc, i: Item)
    ensures Prepend(d, i, Some(Packet([], []))) == Some(Packet([d], [i]))
  {
    assert [d] + [] == [d] && [i] + [] == [i];
  }

  lemma {:induction false} AfterMore(done: Packet, d: Desc, i: Item, rest: Option<Packet>)
    ensures After(done, Prepend(d, i, rest)) == After(Packet(done.descs + [d], done.items + [i]), rest)
  {
    if rest.Some? {
      assert done.descs + ([d] + rest.value.descs) == done.descs + [d] + rest.value.descs;
      assert done.items + ([i] + rest.value.items) == done.items + [i] + rest.value.items;
    }
  }

  lemma {:induction false} AppendBytes(keys: nat -> Key, ds: seq<Desc>, d: Desc)
    requires KeysOk(keys)
    ensures PacketBytes(keys, ds + [d]) == PacketBytes(keys, ds) + Bytes(keys, d)
  {
    hide KeysOk, Bytes;
    if ds == [] {
      assert ds + [d] == [d] && [d][1..] == [];
      assert PacketBytes(keys, [d]) == Bytes(keys, d) + PacketBytes(keys, []);
    } else {
      assert (ds + [d])[1..] == ds[1..] + [d];
      AppendBytes(keys, ds[1..], d);
    }
  }

  lemma {:induction false} EpochOf(w: RecordWriter)
    requires w.Valid()
    ensures Epoch(w.Abs()) == w.epoch && w.Abs().changes == w.changes
  {
  }
}
