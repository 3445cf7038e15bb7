/** Receiving DTLS handshake messages: the ring of messages under reassembly, and the steps that
    fill it and take messages out of it. */
module DtlsReceive {
  import opened Words
  import opened DtlsMessage
  import opened DtlsRecord
  import opened DtlsWindow
  import opened SslAead

  /** SSL_MAX_HANDSHAKE_FLIGHT. */
  const MAX_FLIGHT: nat := 7
  const CHANGE_CIPHER_SPEC: Byte := 20
  const ALERT: Byte := 21
  const HANDSHAKE: Byte := 22
  const APPLICATION_DATA: Byte := 23
  const MT_CCS: Byte := 1

  datatype Alert = IllegalParameter | DecodeError | UnexpectedMessage | InternalError | RecordOverflow

  datatype Outcome = Success | Discarded | Closed | NeedPacket | Alerted(plain: seq<Byte>) | Error(alert: Alert)

  datatype Receiver = Receiver(
    readSeq: nat, ring: seq<Option<Assembly>>, hasMessage: bool, hasCcs: bool, maxLen: nat, records: ReadState)

  function Initial(maxLen: nat, key: Key): Receiver {
    Receiver(0, seq(MAX_FLIGHT, i => None), false, false, maxLen, ReadState(0, EMPTY, key, false))
  }

  /** Every message under reassembly sits in the slot its number says, within the receive window
      [readSeq, readSeq + 7). */
  predicate RingOk(r: Receiver) {
    && |r.ring| == MAX_FLIGHT && r.readSeq < DtlsMessage.TWO16
    && forall i :: 0 <= i < MAX_FLIGHT && r.ring[i].Some? ==> InSlot(r.readSeq, i, r.ring[i].value)
  }

  predicate InSlot(readSeq: nat, i: nat, a: Assembly) {
    readSeq <= a.seqNum < readSeq + MAX_FLIGHT && a.seqNum < DtlsMessage.TWO16 && a.seqNum % MAX_FLIGHT == i
  }

  /** dtls1_get_incoming_message: the assembly for the fragment, a new one if there is none. */
  function Incoming(r: Receiver, f: Fragment): (a: Option<Assembly>)
    requires RingOk(r) && r.readSeq <= f.seqNum < r.readSeq + MAX_FLIGHT
    ensures a.Some? ==> a.value.mtype == f.mtype && |a.value.cells| == f.msgLen && a.value.seqNum == f.seqNum
  {
    var slot := r.ring[f.seqNum % MAX_FLIGHT];
    if slot.None? then Some(Assembly(f.mtype, f.seqNum, Nothing(f.msgLen)))
    else
      SameNumber(r.readSeq, f.seqNum, slot.value.seqNum);
      if slot.value.mtype != f.mtype || |slot.value.cells| != f.msgLen then None else slot
  }

  /** Two numbers of the window in one slot are the same. */
  lemma {:induction false} SameNumber(readSeq: nat, s: nat, t: nat)
    requires readSeq <= s < readSeq + MAX_FLIGHT && readSeq <= t < readSeq + MAX_FLIGHT
    requires s % MAX_FLIGHT == t % MAX_FLIGHT
    ensures s == t
  {
  }

  /** One turn of the loop of dtls1_open_handshake.  The upper test lets readSeq + 7 through,
      and the lookup then refuses it. */
  function TakeFragment(r: Receiver, f: Fragment): (res: (Receiver, Option<Alert>))
    requires RingOk(r) && FragmentFits(f)
  {
    if f.off + |f.body| > f.msgLen || f.msgLen > r.maxLen then (r, Some(IllegalParameter))
    else if r.records.epoch == 1 && f.seqNum != r.readSeq then (r, Some(UnexpectedMessage))
    else if f.seqNum < r.readSeq || f.seqNum > r.readSeq + MAX_FLIGHT then (r, None)
    else if f.seqNum == r.readSeq + MAX_FLIGHT then (r, Some(InternalError))
    else
      var a := Incoming(r, f);
      if a.None? then (r, Some(IllegalParameter))
      else
        var b := if Complete(a.value) then a.value else Filled(a.value, f.off, f.body);
        (r.(ring := r.ring[f.seqNum % MAX_FLIGHT := Some(b)]), None)
  }

  lemma {:induction false} TakeFragmentOk(r: Receiver, f: Fragment)
    requires RingOk(r) && FragmentFits(f)
    ensures RingOk(TakeFragment(r, f).0) && TakeFragment(r, f).0.readSeq == r.readSeq
  {
    var q := TakeFragment(r, f).0;
    forall i | 0 <= i < MAX_FLIGHT && q.ring[i].Some? ensures InSlot(q.readSeq, i, q.ring[i].value) {
      if r.ring[i].Some? { assert InSlot(r.readSeq, i, r.ring[i].value); }
    }
  }

  /** The fragments of one handshake record, in order, up to the first that is refused. */
  function TakeAll(r: Receiver, bytes: seq<Byte>): (res: (Receiver, Option<Alert>))
    requires RingOk(r)
    ensures RingOk(res.0) && res.0.readSeq == r.readSeq
    decreases |bytes|
  {
    if bytes == [] then (r, None)
    else
      var p := ParseFragment(bytes);
      if p.None? then (r, Some(DecodeError))
      else
        ParsedFits(bytes);
        TakeFragmentOk(r, p.value.fragment);
        var q := TakeFragment(r, p.value.fragment);
        if q.1.Some? then q else TakeAll(q.0, p.value.rest)
  }

  /** dtls1_open_handshake after the record is opened. */
  function TakeRecord(r: Receiver, recordType: Byte, plain: seq<Byte>): (res: (Receiver, Outcome))
    requires RingOk(r)
    ensures RingOk(res.0) && res.0.readSeq == r.readSeq
  {
    var isNull := r.records.key.context.isNull;
    if recordType == ALERT then (r, Alerted(plain))
    else if recordType == APPLICATION_DATA then (r, if isNull then Error(UnexpectedMessage) else Discarded)
    else if recordType == CHANGE_CIPHER_SPEC then
      if !isNull then (r, Error(UnexpectedMessage))
      else if plain != [MT_CCS] then (r, Error(IllegalParameter))
      else (r.(hasCcs := true), Success)
    else if recordType != HANDSHAKE then (r, Error(UnexpectedMessage))
    else
      var q := TakeAll(r, plain);
      (q.0, if q.1.Some? then Error(q.1.value) else Success)
  }

  datatype Opening = Opening(receiver: Receiver, outcome: Outcome, consumed: nat)

  /** dtls1_open_handshake. */
  function OpenHandshake(r: Receiver, input: seq<Byte>): (res: Opening)
    requires RingOk(r) && WellFormed(r.records.key.context)
    ensures RingOk(res.receiver) && res.receiver.readSeq == r.readSeq && res.consumed <= |input|
  {
    var o := OpenRecord(r.records, input);
    var q := r.(records := o.0);
    match o.1
    case CloseNotify => Opening(q, Closed, 0)
    case Partial => Opening(q, NeedPacket, 0)
    case Discard(n) => Opening(q, Discarded, n)
    case TooLong(n) => Opening(q, Error(RecordOverflow), n)
    case Record(recordType, plain, n) =>
      var t := TakeRecord(q, recordType, plain);
      Opening(t.0, t.1, n)
  }

  function Current(r: Receiver): Option<Assembly>
    requires RingOk(r)
  {
    r.ring[r.readSeq % MAX_FLIGHT]
  }

  /** dtls1_get_message. */
  function GetMessage(r: Receiver): (m: Option<Message>)
    requires RingOk(r)
  {
    if Current(r).Some? && Complete(Current(r).value)
    then Some(Message(Current(r).value.mtype, BodyOf(Current(r).value))) else None
  }

  /** dtls1_next_message, which its callers only use on a message they got. */
  function NextMessage(r: Receiver): (q: Receiver)
    requires RingOk(r) && GetMessage(r).Some?
    ensures RingOk(q)
  {
    var q := r.(ring := r.ring[r.readSeq % MAX_FLIGHT := None], readSeq := (r.readSeq + 1) % DtlsMessage.TWO16, hasMessage := false);
    NextMessageOk(r, q);
    q
  }

  lemma {:induction false} NextMessageOk(r: Receiver, q: Receiver)
    requires RingOk(r) && q.readSeq == (r.readSeq + 1) % DtlsMessage.TWO16
    requires q.ring == r.ring[r.readSeq % MAX_FLIGHT := None]
    ensures RingOk(q)
  {
    forall i | 0 <= i < MAX_FLIGHT && q.ring[i].Some? ensures InSlot(q.readSeq, i, q.ring[i].value) {
      assert InSlot(r.readSeq, i, r.ring[i].value);
      assert i != r.readSeq % MAX_FLIGHT;
    }
  }

  /** dtls_has_unprocessed_handshake_data. */
  predicate Unprocessed(r: Receiver)
    requires RingOk(r)
  {
    r.hasCcs || exists i :: 0 <= i < MAX_FLIGHT && r.ring[i].Some? && !(r.hasMessage && i == r.readSeq % MAX_FLIGHT)
  }
}
