/** The receiving end of a DTLS handshake as it is updated in place. */
module DtlsReader {
  import opened Words
  import opened SslAead
  import opened DtlsMessage
  import opened DtlsFragment
  import opened DtlsRecord
  import opened DtlsState
  import opened DtlsReceive

  class HandshakeReader {
    const incoming: array<HmFragment?>
    const maxLen: nat
    var readSeq: nat
    var hasMessage: bool
    var hasCcs: bool
    const records: RecordReader
    /** The messages under reassembly and their buffers. */
    ghost var owned: set<object>

    ghost predicate Valid()
      reads this, incoming, owned
    {
      && incoming.Length == MAX_FLIGHT
      && this !in owned && incoming !in owned && records !in owned && records.bitmap !in owned
      && (forall i :: 0 <= i < MAX_FLIGHT && incoming[i] != null ==> Owns(incoming[i]))
      && (forall i, j :: 0 <= i < j < MAX_FLIGHT && incoming[i] != null && incoming[j] != null
            ==> incoming[i].Foot() !! incoming[j].Foot())
    }

    ghost predicate Owns(frag: HmFragment)
      reads this, owned
    {
      frag in owned && frag.Foot() <= owned && frag.Valid()
    }

    ghost function Slot(i: nat): Option<Assembly>
      requires Valid() && i < MAX_FLIGHT
      reads this, incoming, owned
    {
      if incoming[i] == null then None else Some(incoming[i].Abs())
    }

    ghost function Ring(): (ring: seq<Option<Assembly>>)
      requires Valid()
      reads this, incoming, owned
      ensures |ring| == MAX_FLIGHT
    {
      seq(MAX_FLIGHT, i requires 0 <= i < MAX_FLIGHT && Valid() reads this, incoming, owned => Slot(i))
    }

    ghost function Abs(): Receiver
      requires Valid()
      reads this, incoming, owned, records, records.bitmap
    {
      Receiver(readSeq, Ring(), hasMessage, hasCcs, maxLen, records.Abs())
    }

    constructor (maxLen: nat, key: Key)
      ensures Valid() && Abs() == Initial(maxLen, key)
      ensures fresh(incoming) && fresh(records) && fresh(records.bitmap) && owned == {}
    {
      this.maxLen, this.readSeq, this.hasMessage, this.hasCcs, this.owned := maxLen, 0, false, false, {};
      this.incoming := new HmFragment?[MAX_FLIGHT](i => null);
      this.records := new RecordReader(key);
      new;
      assert Ring() == Initial(maxLen, key).ring;
    }

    /** One turn of the loop of dtls1_open_handshake. */
    method TakeFragment(f: Fragment) returns (alert: Option<Alert>)
      requires Valid() && RingOk(Abs()) && FragmentFits(f)
      modifies this`owned, incoming, owned
      ensures Valid() && fresh(owned - old(owned))
      ensures (Abs(), alert) == DtlsReceive.TakeFragment(old(Abs()), f)
    {
      hide RingOk, Filled, Complete, Incoming, FragmentFits, Valid;
      if f.off + |f.body| > f.msgLen || f.msgLen > maxLen { return Some(IllegalParameter); }
      if records.epoch == 1 && f.seqNum != readSeq { return Some(UnexpectedMessage); }
      if f.seqNum < readSeq || f.seqNum > readSeq + MAX_FLIGHT { return None; }
      ghost var was := Abs();
      var frag := GetIncoming(f);
      if frag == null { return Some(if f.seqNum - readSeq >= MAX_FLIGHT then InternalError else IllegalParameter); }
      FillSlot(f.seqNum % MAX_FLIGHT, f);
      alert := None;
      assert Abs().ring == DtlsReceive.TakeFragment(was, f).0.ring;
    }

    /** dtls1_get_incoming_message. */
    method GetIncoming(f: Fragment) returns (frag: HmFragment?)
      requires Valid() && RingOk(Abs()) && f.seqNum >= readSeq
      modifies this`owned, incoming
      ensures Valid() && fresh(owned - old(owned)) && old(owned) <= owned
      ensures records.Abs() == old(records.Abs())
      ensures f.seqNum >= readSeq + MAX_FLIGHT ==> frag == null && Ring() == old(Ring())
      ensures f.seqNum < readSeq + MAX_FLIGHT ==>
        match Incoming(old(Abs()), f)
        case None => frag == null && Ring() == old(Ring())
        case Some(a) => frag == incoming[f.seqNum % MAX_FLIGHT] && frag != null && frag.msgLen == f.msgLen
                        && Ring() == old(Ring())[f.seqNum % MAX_FLIGHT := Some(a)]
    {
      hide Complete, Filled;
      if f.seqNum - readSeq >= MAX_FLIGHT { return null; }
      var idx := f.seqNum % MAX_FLIGHT;
      frag := incoming[idx];
      if frag != null {
        assert Ring()[idx] == Some(frag.Abs()) && InSlot(readSeq, idx, frag.Abs());
        SameNumber(readSeq, f.seqNum, frag.seqNum);
        assert frag.seqNum == f.seqNum;
        if frag.mtype != f.mtype || frag.msgLen != f.msgLen { return null; }
        assert Ring() == old(Ring())[idx := Some(frag.Abs())];
      } else {
        assert Ring()[idx] == None;
        frag := new HmFragment(f.mtype, f.msgLen, f.seqNum);
        Insert(idx, frag);
      }
    }

    method Insert(idx: nat, frag: HmFragment)
      requires Valid() && idx < MAX_FLIGHT && incoming[idx] == null
      requires frag.Valid() && frag.Foot() !! owned && {this, incoming, records, records.bitmap} !! frag.Foot()
      modifies this`owned, incoming
      ensures Valid() && owned == old(owned) + frag.Foot()
      ensures incoming[idx] == frag && Ring() == old(Ring())[idx := Some(frag.Abs())]
    {
      hide HmFragment.Valid, HmFragment.Abs;
      ghost var was := Ring();
      incoming[idx] := frag;
      owned := owned + frag.Foot();
      forall j | 0 <= j < MAX_FLIGHT && j != idx ensures Ring()[j] == was[j] { }
    }

    /** Copying and marking, unless the message is already complete. */
    method FillSlot(idx: nat, f: Fragment)
      requires Valid() && idx < MAX_FLIGHT && incoming[idx] != null && f.off + |f.body| <= incoming[idx].msgLen
      modifies owned
      ensures Valid() && incoming[idx] == old(incoming[idx]) && unchanged(this) && records.Abs() == old(records.Abs())
      ensures var a := old(Ring())[idx].value;
        Ring() == old(Ring())[idx := Some(if Complete(a) then a else Filled(a, f.off, f.body))]
    {
      hide BitAt, Header, Complete, Filled, Nothing, HmFragment.Has, HmFragment.Abs, HmFragment.Valid;
      var frag := incoming[idx];
      ghost var was := Ring();
      assert was[idx] == Some(frag.Abs());
      frag.ReleasedWhenComplete();
      if frag.reassembly != null {
        frag.Receive(f.off, f.body);
        forall j | 0 <= j < MAX_FLIGHT && j != idx ensures Ring()[j] == was[j] { }
        assert Ring() == was[idx := Some(frag.Abs())];
      }
    }

    /** The loop of dtls1_open_handshake. */
    method TakeAll(bytes: seq<Byte>) returns (alert: Option<Alert>)
      requires Valid() && RingOk(Abs())
      modifies this`owned, incoming, owned
      ensures Valid() && fresh(owned - old(owned))
      ensures (Abs(), alert) == DtlsReceive.TakeAll(old(Abs()), bytes)
    {
      hide RingOk, DtlsReceive.TakeFragment, ParseFragment, FragmentFits, Valid;
      var rest := bytes;
      while rest != []
        invariant Valid() && fresh(owned - old(owned)) && RingOk(Abs())
        invariant DtlsReceive.TakeAll(Abs(), rest) == DtlsReceive.TakeAll(old(Abs()), bytes)
        decreases |rest|
      {
        var p := ParseFragment(rest);
        if p.None? { return Some(DecodeError); }
        ParsedFits(rest);
        TakeFragmentOk(Abs(), p.value.fragment);
        alert := TakeFragment(p.value.fragment);
        if alert.Some? { return; }
        rest := p.value.rest;
      }
      alert := None;
    }

    /** dtls1_open_handshake. */
    method OpenHandshake(input: seq<Byte>) returns (outcome: Outcome, consumed: nat)
      requires Valid() && RingOk(Abs()) && WellFormed(records.key.context)
      modifies this, incoming, owned, records.bitmap
      ensures Valid() && fresh(owned - old(owned))
      ensures Opening(Abs(), outcome, consumed) == DtlsReceive.OpenHandshake(old(Abs()), input)
    {
      hide DtlsReceive.TakeAll, DtlsRecord.OpenRecord;
      ghost var before := Ring();
      var v := records.OpenRecord(input);
      assert Ring() == before;
      match v {
        case CloseNotify => return Closed, 0;
        case Partial => return NeedPacket, 0;
        case Discard(n) => return Discarded, n;
        case TooLong(n) => return Error(RecordOverflow), n;
        case Record(recordType, plain, n) =>
          consumed := n;
          var isNull := records.key.context.isNull;
          if recordType == ALERT { outcome := Alerted(plain); }
          else if recordType == APPLICATION_DATA { outcome := if isNull then Error(UnexpectedMessage) else Discarded; }
          else if recordType == CHANGE_CIPHER_SPEC {
            if !isNull { outcome := Error(UnexpectedMessage); }
            else if plain != [MT_CCS] { outcome := Error(IllegalParameter); }
            else { hasCcs := true; outcome := Success; }
          }
          else if recordType != HANDSHAKE { outcome := Error(UnexpectedMessage); }
          else {
            var alert := TakeAll(plain);
            outcome := if alert.Some? then Error(alert.value) else Success;
          }
      }
    }

    /** dtls1_get_message: the current message, if it is complete, and the bytes that are hashed,
        which are the message as a single fragment whatever fragments it came in. */
    method GetMessage() returns (m: Option<Message>, raw: seq<Byte>)
      requires Valid() && RingOk(Abs())
      modifies this`hasMessage
      ensures Valid()
      ensures m == DtlsReceive.GetMessage(old(Abs())) && Abs() == old(Abs()).(hasMessage := old(hasMessage) || m.Some?)
      ensures m.Some? ==> raw == MessageBytes(m.value, readSeq)
    {
      hide BitAt, Header;
      var frag := incoming[readSeq % MAX_FLIGHT];
      if frag == null { return None, []; }
      frag.ReleasedWhenComplete();
      assert Ring()[readSeq % MAX_FLIGHT] == Some(frag.Abs());
      if frag.reassembly != null { return None, []; }
      assert InSlot(readSeq, readSeq % MAX_FLIGHT, frag.Abs());
      SameNumber(readSeq, readSeq, frag.seqNum);
      m := Some(Message(frag.mtype, frag.data[HM_HEADER_LENGTH..]));
      raw := frag.data[..];
      assert BodyOf(frag.Abs()) == frag.data[HM_HEADER_LENGTH..];
      assert raw == frag.data[..HM_HEADER_LENGTH] + frag.data[HM_HEADER_LENGTH..];
      hasMessage := true;
    }

    /** dtls1_next_message. */
    method NextMessage()
      requires Valid() && RingOk(Abs()) && hasMessage && DtlsReceive.GetMessage(Abs()).Some?
      modifies this, incoming
      ensures Valid() && owned == old(owned)
      ensures Abs() == DtlsReceive.NextMessage(old(Abs()))
    {
      hide HmFragment.Valid, HmFragment.Abs, DtlsReceive.GetMessage;
      ghost var was := Ring();
      var idx := readSeq % MAX_FLIGHT;
      incoming[idx] := null;
      readSeq := (readSeq + 1) % DtlsMessage.TWO16;
      hasMessage := false;
      assert Ring() == was[idx := None];
    }

    /** dtls_has_unprocessed_handshake_data. */
    method HasUnprocessed() returns (b: bool)
      requires Valid() && RingOk(Abs())
      ensures b == Unprocessed(Abs())
    {
      hide HmFragment.Valid, HmFragment.Abs;
      if hasCcs { return true; }
      var current := readSeq % MAX_FLIGHT;
      for i := 0 to MAX_FLIGHT
        invariant forall j :: 0 <= j < i && Ring()[j].Some? ==> hasMessage && j == current
      {
        if !(hasMessage && i == current) {
          assert Ring()[i].Some? <==> incoming[i] != null;
          if incoming[i] != null { return true; }
        }
      }
      b := false;
    }
  }
}
