/** The DTLS record layer: sealing numbered records, and opening them again. */
module DtlsRecord {
  import opened Words
  import opened SslAead
  import opened DtlsWindow

  const HEADER_LENGTH: nat := 13
  const MAX_PLAIN_LENGTH: nat := 16384
  const MAX_ENCRYPTED_LENGTH: nat := 16704
  const VERSION_MAJOR: nat := 0xfe
  const TWO16: nat := 0x1_0000

  /** A cipher context with its AEAD; iv(s) are the random bytes drawn for record number s. */
  datatype Key = Key(context: Context, aead: Aead, iv: nat -> seq<Byte>)

  ghost predicate KeyOk(k: Key) {
    && WellFormed(k.context)
    && Ideal(k.aead)
    && (!k.context.isNull && !k.context.omitLength ==> FixedOverhead(k.aead))
    && (!k.context.isNull && k.context.random ==> forall s: nat :: |k.iv(s)| == k.context.variableLen)
  }

  /** The eight bytes that number a record. */
  function SeqBytes(epoch: nat, s: nat): (bs: seq<Byte>)
    ensures |bs| == 8
  {
    BigEndian(epoch, 2) + BigEndian(s, 6)
  }

  function Body(k: Key, recordType: Byte, version: nat, epoch: nat, s: nat, plain: seq<Byte>): seq<Byte>
    requires WellFormed(k.context) && (!k.context.isNull && k.context.random ==> |k.iv(s)| == k.context.variableLen)
  {
    Sealed(k.context, k.aead, k.iv(s), recordType, version, SeqBytes(epoch, s), plain)
  }

  /** The bytes dtls_seal_record writes. */
  function RecordBytes(k: Key, recordType: Byte, version: nat, epoch: nat, s: nat, plain: seq<Byte>): (bs: seq<Byte>)
    requires WellFormed(k.context) && (!k.context.isNull && k.context.random ==> |k.iv(s)| == k.context.variableLen)
    ensures |bs| >= HEADER_LENGTH
  {
    var body := Body(k, recordType, version, epoch, s, plain);
    [recordType] + BigEndian(version, 2) + SeqBytes(epoch, s) + BigEndian(|body|, 2) + body
  }

  /** dtls_seal_record fails when the record does not fit, is too long, or has the last number. */
  function SealRecord(k: Key, maxOut: nat, recordType: Byte, version: nat, epoch: nat, s: nat,
      plain: seq<Byte>): Option<seq<Byte>>
    requires WellFormed(k.context) && (!k.context.isNull && k.context.random ==> |k.iv(s)| == k.context.variableLen)
  {
    var bs := RecordBytes(k, recordType, version, epoch, s, plain);
    if |bs| > maxOut || |bs| - HEADER_LENGTH >= TWO16 || s + 1 >= TWO48 then None else Some(bs)
  }

  // ------------------------------------------------------------- opening

  datatype Verdict =
    | CloseNotify
    | Partial
    | Discard(consumed: nat)
    | TooLong(consumed: nat)
    | Record(recordType: Byte, plain: seq<Byte>, consumed: nat)

  datatype ReadState = ReadState(epoch: nat, window: Window, key: Key, closed: bool)

  predicate VersionOk(c: Context, version: nat) {
    if c.isNull then version / 256 == VERSION_MAJOR else version == RecordVersion(c, true)
  }

  /** dtls_open_record up to the point where alerts are told apart.  A body too long after
      decryption is an error and is not recorded in the window. */
  function OpenRecord(r: ReadState, input: seq<Byte>): (res: (ReadState, Verdict))
    requires WellFormed(r.key.context)
    ensures res.1.Discard? || res.1.TooLong? || res.1.Record? ==> res.1.consumed <= |input|
    ensures res.1.Record? ==> res.1.consumed >= HEADER_LENGTH
  {
    if r.closed then (r, CloseNotify)
    else if input == [] then (r, Partial)
    else if |input| < HEADER_LENGTH then (r, Discard(|input|))
    else
      var version, seqNum, len := FromBigEndian(input[1..3]), input[3..11], FromBigEndian(input[11..13]);
      if HEADER_LENGTH + len > |input| || len > MAX_ENCRYPTED_LENGTH || !VersionOk(r.key.context, version) then (r, Discard(|input|))
      else
        var consumed := HEADER_LENGTH + len;
        var s := FromBigEndian(seqNum);
        if FromBigEndian(seqNum[..2]) != r.epoch || ShouldDiscard(r.window, s) then (r, Discard(consumed))
        else
          var plain := Opened(r.key.context, r.key.aead, input[0], version, seqNum, input[HEADER_LENGTH..consumed]);
          if plain.None? then (r, Discard(consumed))
          else if |plain.value| > MAX_PLAIN_LENGTH then (r, TooLong(consumed))
          else (r.(window := Recorded(r.window, s)), Record(input[0], plain.value, consumed))
  }

  // ------------------------------------------------------------- round trip

  lemma {:induction false} SeqBytesBack(epoch: nat, s: nat)
    requires epoch < TWO16 && s < TWO48
    ensures FromBigEndian(SeqBytes(epoch, s)[..2]) == epoch && FromBigEndian(SeqBytes(epoch, s)) == Combined(epoch, s)
  {
    var two, six := 2, 6;
    TwoToThe(two); TwoToThe(six);
    assert SeqBytes(epoch, s)[..2] == BigEndian(epoch, two);
    BigEndianBack(epoch, two);
    BigEndianBack(s, six);
    FromBigEndianAppend(BigEndian(epoch, two), BigEndian(s, six));
    Shl48(epoch);
  }

  lemma {:induction false} TwoToThe(n: nat)
    requires n == 2 || n == 6
    ensures Shl(1, 8 * n) == if n == 2 then TWO16 else TWO48
  {
    ShlEight(8 * n - 8);
    ShlEight(8 * n - 16);
    if n == 6 { ShlEight(8 * n - 24); ShlEight(8 * n - 32); ShlEight(8 * n - 40); ShlEight(8 * n - 48); }
    assert Shl(1, 0) == 1;
  }

  lemma {:induction false} FromBigEndianAppend(a: seq<Byte>, b: seq<Byte>)
    ensures FromBigEndian(a + b) == Shl(FromBigEndian(a), 8 * |b|) + FromBigEndian(b)
  {
    if b == [] {
      assert a + b == a;
    } else {
      assert (a + b)[..|a + b| - 1] == a + b[..|b| - 1];
      FromBigEndianAppend(a, b[..|b| - 1]);
      ShlEightOf(FromBigEndian(a), 8 * |b| - 8);
    }
  }

  lemma {:induction false} ShlEightOf(v: nat, k: nat)
    ensures Shl(v, k + 8) == 256 * Shl(v, k)
  {
    assert Shl(v, k + 8) == 2 * Shl(v, k + 7) == 4 * Shl(v, k + 6) == 8 * Shl(v, k + 5) == 16 * Shl(v, k + 4);
    assert Shl(v, k + 4) == 2 * Shl(v, k + 3) == 4 * Shl(v, k + 2) == 8 * Shl(v, k + 1) == 16 * Shl(v, k);
  }

  lemma {:induction false} Shl48(v: nat)
    ensures Shl(v, 48) == v * TWO48
  {
    var k := 48;
    ShlEightOf(v, k - 8); ShlEightOf(v, k - 16); ShlEightOf(v, k - 24);
    ShlEightOf(v, k - 32); ShlEightOf(v, k - 40); ShlEightOf(v, k - 48);
    assert Shl(v, 0) == v;
  }

  /** The verdict on a sealed record, whatever comes after it in the packet. */
  lemma {:induction false} RecordBack(k: Key, recordType: Byte, version: nat, epoch: nat, s: nat, plain: seq<Byte>,
      r: ReadState, rest: seq<Byte>)
    requires KeyOk(k) && WellFormed(r.key.context)
    requires version < TWO16 && epoch < TWO16 && s < TWO48
    requires |Body(k, recordType, version, epoch, s, plain)| < TWO16
    requires r.epoch == epoch ==> r.key == k && VersionOk(k.context, version)
    ensures var bs := RecordBytes(k, recordType, version, epoch, s, plain);
      OpenRecord(r, bs + rest) ==
        if r.closed then (r, CloseNotify)
        else if |bs| - 13 > 16704 || !VersionOk(r.key.context, version) then (r, Discard(|bs + rest|))
        else if r.epoch != epoch || ShouldDiscard(r.window, Combined(epoch, s)) then (r, Discard(|bs|))
        else if |plain| > 16384 then (r, TooLong(|bs|))
        else (r.(window := Recorded(r.window, Combined(epoch, s))), Record(recordType, plain, |bs|))
  {
    hide Sealed, Opened, ShouldDiscard, Recorded, Combined, VersionOk, BigEndian, FromBigEndian, SeqBytes,
         WellFormed, Ideal, FixedOverhead;
    var body := Body(k, recordType, version, epoch, s, plain);
    var input := RecordBytes(k, recordType, version, epoch, s, plain) + rest;
    var n := HEADER_LENGTH + |body|;
    var two := 2;
    TwoToThe(two);
    assert input[1..3] == BigEndian(version, two);
    assert input[3..11] == SeqBytes(epoch, s);
    assert input[11..13] == BigEndian(|body|, two);
    assert input[HEADER_LENGTH..n] == body;
    BigEndianBack(version, two);
    BigEndianBack(|body|, two);
    SeqBytesBack(epoch, s);
    OpenSealed(k.context, k.aead, k.iv(s), recordType, version, SeqBytes(epoch, s), plain);
  }

  /** A record that the reader's key does not open is dropped, whatever comes after it. */
  lemma {:induction false} ForeignRecord(k: Key, recordType: Byte, version: nat, epoch: nat, s: nat, plain: seq<Byte>,
      r: ReadState, rest: seq<Byte>)
    requires KeyOk(k) && WellFormed(r.key.context)
    requires version < TWO16 && epoch < TWO16 && s < TWO48
    requires |Body(k, recordType, version, epoch, s, plain)| < TWO16
    requires Opened(r.key.context, r.key.aead, recordType, version, SeqBytes(epoch, s), Body(k, recordType, version, epoch, s, plain)).None?
    ensures var bs := RecordBytes(k, recordType, version, epoch, s, plain); var o := OpenRecord(r, bs + rest);
      o.0 == r && (o.1.CloseNotify? || o.1 == Discard(|bs + rest|) || o.1 == Discard(|bs|))
  {
    hide Sealed, Opened, ShouldDiscard, Recorded, Combined, VersionOk, BigEndian, FromBigEndian, SeqBytes,
         WellFormed, Ideal, FixedOverhead;
    var body := Body(k, recordType, version, epoch, s, plain);
    var input := RecordBytes(k, recordType, version, epoch, s, plain) + rest;
    var n := HEADER_LENGTH + |body|;
    var two := 2;
    TwoToThe(two);
    assert input[1..3] == BigEndian(version, two);
    assert input[3..11] == SeqBytes(epoch, s);
    assert input[11..13] == BigEndian(|body|, two);
    assert input[HEADER_LENGTH..n] == body;
    BigEndianBack(version, two);
    BigEndianBack(|body|, two);
  }

  // ------------------------------------------------------------- anti-replay of the record reader

  /** What a packet means for the replay window: the number in its header, and whether the record
      opens; nothing if the header is not looked at. */
  function ArrivalOf(r: ReadState, input: seq<Byte>): Option<Event>
    requires WellFormed(r.key.context)
  {
    if r.closed || |input| < HEADER_LENGTH then None
    else
      var version, seqNum, len := FromBigEndian(input[1..3]), input[3..11], FromBigEndian(input[11..13]);
      if HEADER_LENGTH + len > |input| || len > MAX_ENCRYPTED_LENGTH || !VersionOk(r.key.context, version) then None
      else
        var plain := Opened(r.key.context, r.key.aead, input[0], version, seqNum, input[HEADER_LENGTH..HEADER_LENGTH + len]);
        Some(Arrive(FromBigEndian(seqNum[..2]), FromBigEndian(seqNum[2..]), plain.Some? && |plain.value| <= MAX_PLAIN_LENGTH))
  }

  /** dtls1_set_read_state. */
  function NewReadState(r: ReadState, key: Key): ReadState {
    ReadState((r.epoch + 1) % TWO16, EMPTY, key, r.closed)
  }

  /** The reader's epoch and window, with a history of what it accepted. */
  function AsReader(r: ReadState, accepted: seq<(nat, nat)>, from: nat): Reader {
    Reader(r.epoch, r.window, accepted, from)
  }

  lemma {:induction false} SeqNumParts(seqNum: seq<Byte>)
    requires |seqNum| == 8
    ensures FromBigEndian(seqNum) == Combined(FromBigEndian(seqNum[..2]), FromBigEndian(seqNum[2..]))
    ensures FromBigEndian(seqNum[2..]) < TWO48
  {
    var six := |seqNum[2..]|;
    assert seqNum[..2] + seqNum[2..] == seqNum;
    FromBigEndianAppend(seqNum[..2], seqNum[2..]);
    Shl48(FromBigEndian(seqNum[..2]));
    FromBigEndianBack(seqNum[2..]);
    TwoToThe(six);
  }

  /** dtls_open_record acts on epoch and window as the anti-replay runs do, and hands a record out
      exactly when its number is accepted. */
  lemma {:induction false} OpenActs(r: ReadState, input: seq<Byte>, accepted: seq<(nat, nat)>, from: nat)
    requires WellFormed(r.key.context)
    ensures var o := OpenRecord(r, input); var e := ArrivalOf(r, input);
      match e
      case None => o.0 == r && !o.1.Record?
      case Some(a) =>
        && a.Arrive? && a.seqNum < TWO48 && o.0.key == r.key && o.0.closed == r.closed
        && var n := Next(AsReader(r, accepted, from), a);
           n == AsReader(o.0, if o.1.Record? then accepted + [(a.epoch, a.seqNum)] else accepted, from)
  {
    hide Opened, VersionOk, ShouldDiscard, Recorded, FromBigEndian, Combined, WellFormed;
    if |input| >= HEADER_LENGTH { SeqNumParts(input[3..11]); }
  }

  /** dtls1_set_read_state starts a new epoch. */
  lemma {:induction false} NewReadStateActs(r: ReadState, key: Key, accepted: seq<(nat, nat)>, from: nat)
    ensures Next(AsReader(r, accepted, from), NextEpoch) == AsReader(NewReadState(r, key), accepted, |accepted|)
  {
  }

  /** The life of a record reader: packets to be opened, and changes of keys. */
  datatype ReaderStep = Receive(input: seq<Byte>) | Rekey(key: Key)

  ghost predicate StepsOk(steps: seq<ReaderStep>) {
    forall i :: 0 <= i < |steps| && steps[i].Rekey? ==> WellFormed(steps[i].key.context)
  }

  function KeyChanges(steps: seq<ReaderStep>): nat {
    if steps == [] then 0 else (if steps[0].Rekey? then 1 else 0) + KeyChanges(steps[1..])
  }

  /** The reader afterwards, the numbers of the records it handed out, and how many of them it
      handed out before its keys changed last. */
  function ReaderRun(r: ReadState, accepted: seq<(nat, nat)>, from: nat,
      steps: seq<ReaderStep>): (res: (ReadState, seq<(nat, nat)>, nat))
    requires WellFormed(r.key.context) && StepsOk(steps)
    decreases |steps|
  {
    if steps == [] then (r, accepted, from)
    else
      match steps[0]
      case Rekey(key) => ReaderRun(NewReadState(r, key), accepted, |accepted|, steps[1..])
      case Receive(input) =>
        var o := OpenRecord(r, input);
        var a := ArrivalOf(r, input);
        OpenActs(r, input, accepted, from);
        ReaderRun(o.0, if o.1.Record? then accepted + [(a.value.epoch, a.value.seqNum)] else accepted, from, steps[1..])
  }

  /** A run of the record reader is a run of the replay window. */
  lemma {:induction false} ReaderRunActs(r: ReadState, accepted: seq<(nat, nat)>, from: nat,
      steps: seq<ReaderStep>) returns (events: seq<Event>)
    requires WellFormed(r.key.context) && StepsOk(steps)
    ensures EventsOk(events) && Changes(events) == KeyChanges(steps)
    ensures var res := ReaderRun(r, accepted, from, steps); Run(AsReader(r, accepted, from), events) == AsReader(res.0, res.1, res.2)
    decreases |steps|
  {
    hide OpenRecord, ArrivalOf, Next, WellFormed;
    if steps == [] {
      events := [];
    } else {
      match steps[0] {
        case Rekey(key) =>
          NewReadStateActs(r, key, accepted, from);
          var more := ReaderRunActs(NewReadState(r, key), accepted, |accepted|, steps[1..]);
          events := [NextEpoch] + more;
          assert events[1..] == more;
        case Receive(input) =>
          OpenActs(r, input, accepted, from);
          var o, a := OpenRecord(r, input), ArrivalOf(r, input);
          var taken := if o.1.Record? then accepted + [(a.value.epoch, a.value.seqNum)] else accepted;
          var more := ReaderRunActs(o.0, taken, from, steps[1..]);
          events := (if a.Some? then [a.value] else []) + more;
          if a.Some? { assert events[1..] == more; } else { assert events == more; }
      }
    }
  }

  /** No record reader hands out two records with the same epoch and number, whatever arrives, as
      long as its keys change fewer than 65536 times. */
  lemma {:induction false} NoRecordTwice(key: Key, steps: seq<ReaderStep>)
    requires WellFormed(key.context) && StepsOk(steps) && KeyChanges(steps) < TWO16
    ensures Distinct(ReaderRun(ReadState(0, EMPTY, key, false), [], 0, steps).1)
  {
    hide ReaderRun, Run, Distinct, WellFormed, StepsOk, KeyChanges, EventsOk, Changes;
    var events := ReaderRunActs(ReadState(0, EMPTY, key, false), [], 0, steps);
    NeverTwice(events);
  }

  /** The record reader takes a number for a replay exactly if it handed out a record with that
      number, or one with a number at least 64 ahead, since its keys changed last. */
  lemma {:induction false} ReplayExactly(key: Key, steps: seq<ReaderStep>, s: nat)
    requires WellFormed(key.context) && StepsOk(steps) && s < TWO48
    ensures var (r, handed, from) := ReaderRun(ReadState(0, EMPTY, key, false), [], 0, steps);
      ShouldDiscard(r.window, Combined(r.epoch, s))
      <==> exists i :: 0 <= from <= i < |handed| && (handed[i] == (r.epoch, s) || handed[i].1 - s >= 64)
  {
    hide ReaderRun, Run, ShouldDiscard, WellFormed, StepsOk, KeyChanges, EventsOk, Changes, Combined;
    var events := ReaderRunActs(ReadState(0, EMPTY, key, false), [], 0, steps);
    RefusedExactly(events, s);
  }

  // ------------------------------------------------------------- sequence numbers of a writer

  /** `fits`: the record fits the output; `short`: its body is below 2^16 bytes. */
  datatype WriterStep = SealOne(previous: bool, fits: bool, short: bool) | NewKeys

  /** The counters of a writer: how often its keys changed, the next number of the current and of
      the previous epoch, the numbers it has put on records so far, and whether a sequence number
      or the epoch has wrapped around. */
  datatype Counters = Counters(changes: nat, next: nat, lastNext: nat, log: seq<(nat, nat)>, wrapped: bool)

  const FRESH := Counters(0, 0, 0, [], false)

  /** w_epoch. */
  function Epoch(w: Counters): (e: nat)
    ensures e < TWO16
  {
    w.changes % TWO16
  }

  /** One call of dtls_seal_record for the current or the previous epoch, or of
      dtls1_set_write_state.  A call that wraps the counter fails without a record, and so does
      one whose body turns out too long, but only after it used up the number. */
  function WriterNext(w: Counters, step: WriterStep): Counters {
    match step
    case SealOne(false, fits, short) =>
      if !fits then w
      else if w.next + 1 == TWO48 then w.(next := 0, wrapped := true)
      else w.(next := w.next + 1, log := if short then w.log + [(Epoch(w), w.next)] else w.log)
    case SealOne(true, fits, short) =>
      if !fits || Epoch(w) == 0 then w
      else if w.lastNext + 1 == TWO48 then w.(lastNext := 0, wrapped := true)
      else w.(lastNext := w.lastNext + 1, log := if short then w.log + [(Epoch(w) - 1, w.lastNext)] else w.log)
    case NewKeys =>
      Counters(w.changes + 1, 0, w.next, w.log, w.wrapped || Epoch(w) + 1 == TWO16)
  }

  function WriterRun(w: Counters, steps: seq<WriterStep>): Counters
    decreases |steps|
  {
    if steps == [] then w else WriterRun(WriterNext(w, steps[0]), steps[1..])
  }

  ghost predicate WriterInv(w: Counters) {
    !w.wrapped ==>
      && w.changes < TWO16 && w.next < TWO48 && w.lastNext < TWO48
      && (forall i :: 0 <= i < |w.log| ==> Issued(w, w.log[i]))
      && (forall i, j :: 0 <= i < j < |w.log| ==> w.log[i] != w.log[j])
  }

  predicate Issued(w: Counters, p: (nat, nat)) {
    && p.1 < TWO48
    && (p.0 + 1 < w.changes || (p.0 + 1 == w.changes && p.1 < w.lastNext) || (p.0 == w.changes && p.1 < w.next))
  }

  lemma {:induction false} WriterNextInv(w: Counters, step: WriterStep)
    requires WriterInv(w)
    ensures WriterInv(WriterNext(w, step))
  {
    var v := WriterNext(w, step);
    if !v.wrapped {
      forall i | 0 <= i < |v.log| ensures Issued(v, v.log[i]) {
        if i < |w.log| { assert Issued(w, w.log[i]); }
      }
    }
  }

  lemma {:induction false} WriterRunInv(w: Counters, steps: seq<WriterStep>)
    requires WriterInv(w)
    ensures WriterInv(WriterRun(w, steps))
    decreases |steps|
  {
    hide WriterInv, WriterNext;
    if steps != [] {
      WriterNextInv(w, steps[0]);
      WriterRunInv(WriterNext(w, steps[0]), steps[1..]);
    }
  }

  /** Until something wraps around, no number is put on two records, and two records under one
      context, even in two epochs, never share a nonce unless nonces are drawn at random. */
  lemma {:induction false} NumbersAndNoncesUnique(steps: seq<WriterStep>, keys: nat -> Key, i: nat, j: nat)
    requires var w := WriterRun(FRESH, steps); !w.wrapped && i < j < |w.log|
    ensures var w := WriterRun(FRESH, steps); var (e, s) := w.log[i]; var (f, t) := w.log[j]; var c := keys(e).context;
      && (e, s) != (f, t)
      && (c == keys(f).context && WellFormed(c) && !c.isNull && !c.random ==> Nonce(c, SeqBytes(e, s)) != Nonce(c, SeqBytes(f, t)))
  {
    hide Nonce, WriterRun, SeqBytes;
    WriterRunInv(FRESH, steps);
    var w := WriterRun(FRESH, steps);
    var (e, s) := w.log[i]; var (f, t) := w.log[j];
    assert Issued(w, w.log[i]) && Issued(w, w.log[j]);
    var c := keys(e).context;
    if c == keys(f).context && WellFormed(c) && !c.isNull && !c.random && Nonce(c, SeqBytes(e, s)) == Nonce(c, SeqBytes(f, t)) {
      NonceInjective(c, SeqBytes(e, s), SeqBytes(f, t));
      SeqBytesBack(e, s);
      SeqBytesBack(f, t);
    }
  }

  // ------------------------------------------------------------- the in-place forms

  /** ssl_record_sequence_update on the bytes from lo on: adds one, and says whether it fitted. */
  method SequenceUpdate(seqNum: array<Byte>, lo: nat) returns (ok: bool)
    requires lo < seqNum.Length
    modifies seqNum
    ensures seqNum[..lo] == old(seqNum[..lo])
    ensures var n := Shl(1, 8 * (seqNum.Length - lo)); var v := old(FromBigEndian(seqNum[lo..]));
      && ok == (v + 1 < n)
      && FromBigEndian(seqNum[lo..]) == if ok then v + 1 else 0
  {
    hide FromBigEndian, Shl;
    var i := seqNum.Length - 1;
    ghost var was := seqNum[..];
    ghost var v := FromBigEndian(seqNum[lo..]);
    NoBytes(was[lo..]);
    assert was[lo..i + 1] == was[lo..];
    while i >= lo
      invariant lo - 1 <= i < seqNum.Length
      invariant forall j :: 0 <= j <= i ==> seqNum[j] == was[j]
      invariant forall j :: i < j < seqNum.Length ==> seqNum[j] == 0
      invariant v + 1 == Shl(FromBigEndian(was[lo..i + 1]) + 1, 8 * (seqNum.Length - 1 - i))
    {
      FromBigEndianLast(was[lo..i + 1]);
      assert was[lo..i + 1][..i - lo] == was[lo..i];
      seqNum[i] := if seqNum[i] == 255 then 0 else seqNum[i] + 1;
      if seqNum[i] != 0 {
        ok := true;
        Carry(was, seqNum[..], lo, i);
        assert seqNum[..][lo..] == seqNum[lo..];
        FromBigEndianBack(seqNum[lo..]);
        return;
      }
      ShlShift(FromBigEndian(was[lo..i]) + 1, 8 * (seqNum.Length - 1 - i));
      i := i - 1;
    }
    ok := false;
    assert was[lo..lo] == [];
    ZeroBytes(seqNum[lo..]);
    assert seqNum[..lo] == was[..lo];
  }

  lemma {:induction false} NoBytes(bs: seq<Byte>)
    ensures FromBigEndian([]) == 0 && Shl(FromBigEndian(bs) + 1, 0) == FromBigEndian(bs) + 1
  {
  }

  lemma {:induction false} FromBigEndianLast(bs: seq<Byte>)
    requires bs != []
    ensures FromBigEndian(bs) == 256 * FromBigEndian(bs[..|bs| - 1]) + bs[|bs| - 1]
  {
  }

  lemma {:induction false} ShlShift(v: nat, k: nat)
    ensures Shl(v, k + 8) == Shl(256 * v, k)
  {
    ShlShl(v, 8, k);
    ShlEightOf(v, 0);
    assert Shl(v, 0) == v;
  }

  lemma {:induction false} ZeroBytes(bs: seq<Byte>)
    requires forall j :: 0 <= j < |bs| ==> bs[j] == 0
    ensures FromBigEndian(bs) == 0
  {
    if bs != [] { ZeroBytes(bs[..|bs| - 1]); }
  }

  /** The bytes after the carry stops. */
  lemma {:induction false} Carry(was: seq<Byte>, now: seq<Byte>, lo: nat, i: nat)
    requires |was| == |now| && lo <= i < |was| && was[i] < 255 && now[i] == was[i] + 1
    requires forall j :: 0 <= j < i ==> now[j] == was[j]
    requires forall j :: i < j < |now| ==> now[j] == 0
    ensures FromBigEndian(now[lo..]) == Shl(FromBigEndian(was[lo..i + 1]) + 1, 8 * (|now| - 1 - i))
  {
    hide Shl;
    assert now[lo..] == now[lo..i + 1] + now[i + 1..];
    FromBigEndianAppend(now[lo..i + 1], now[i + 1..]);
    ZeroBytes(now[i + 1..]);
    assert now[lo..i + 1][..i - lo] == was[lo..i + 1][..i - lo];
  }
}
