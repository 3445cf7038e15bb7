/** The record layer's state as it is updated in place. */
module DtlsState {
  import opened Words
  import opened SslAead
  import opened DtlsWindow
  import opened DtlsRecord

  class RecordReader {
    var epoch: nat
    const bitmap: Bitmap
    var key: Key
    var closed: bool

    ghost function Abs(): ReadState
      reads this, bitmap
    {
      ReadState(epoch, bitmap.Abs(), key, closed)
    }

    constructor (key: Key)
      ensures Abs() == ReadState(0, EMPTY, key, false) && fresh(bitmap)
    {
      this.epoch, this.key, this.closed := 0, key, false;
      this.bitmap := new Bitmap();
    }

    /** dtls_open_record. */
    method OpenRecord(input: seq<Byte>) returns (v: Verdict)
      requires WellFormed(key.context)
      modifies bitmap
      ensures (Abs(), v) == DtlsRecord.OpenRecord(old(Abs()), input)
    {
      hide Opened, VersionOk, ShouldDiscard, Recorded, FromBigEndian, BigEndian;
      if closed { return CloseNotify; }
      if input == [] { return Partial; }
      if |input| < HEADER_LENGTH { return Discard(|input|); }
      var version, seqNum, len := FromBigEndian(input[1..3]), input[3..11], FromBigEndian(input[11..13]);
      if HEADER_LENGTH + len > |input| || len > MAX_ENCRYPTED_LENGTH || !VersionOk(key.context, version) {
        return Discard(|input|);
      }
      var consumed := HEADER_LENGTH + len;
      TwoByteVersion(input[1..3]);
      var discard := bitmap.Discards(seqNum);
      if FromBigEndian(seqNum[..2]) != epoch || discard { return Discard(consumed); }
      var plain := Open(key.context, key.aead, input[0], version, seqNum, input[HEADER_LENGTH..consumed]);
      if plain.None? { return Discard(consumed); }
      if |plain.value| > MAX_PLAIN_LENGTH { return TooLong(consumed); }
      bitmap.Record(seqNum);
      v := Record(input[0], plain.value, consumed);
    }

    /** dtls1_set_read_state, refused while handshake data is unprocessed. */
    method SetReadState(newKey: Key, unprocessed: bool) returns (ok: bool)
      modifies this, bitmap
      ensures ok == !unprocessed
      ensures Abs() == if ok then NewReadState(old(Abs()), newKey) else old(Abs())
    {
      if unprocessed { return false; }
      epoch := (epoch + 1) % TWO16;
      bitmap.Clear();
      key := newKey;
      ok := true;
    }
  }

  lemma {:induction false} TwoByteVersion(bs: seq<Byte>)
    requires |bs| == 2
    ensures FromBigEndian(bs) < TWO16
  {
    FromBigEndianBack(bs);
    var two := |bs|;
    TwoToThe(two);
  }

  class RecordWriter {
    var epoch: nat
    /** How often the keys changed, of which the epoch is what fits 16 bits.  Only the records'
        descriptions use it. */
    var changes: nat
    var key: Key
    var lastKey: Key
    const writeSequence: array<Byte>
    const lastWriteSequence: array<Byte>
    /** The numbers of the records made so far, and whether a counter has wrapped around. */
    ghost var log: seq<(nat, nat)>
    ghost var wrapped: bool

    ghost predicate Valid()
      reads this
    {
      && writeSequence.Length == 8 && lastWriteSequence.Length == 8 && writeSequence != lastWriteSequence
      && epoch == changes % TWO16 && KeyOk(key) && KeyOk(lastKey)
    }

    function Current(): nat
      requires writeSequence.Length == 8
      reads this, writeSequence
    {
      FromBigEndian(writeSequence[2..])
    }

    function Last(): nat
      requires lastWriteSequence.Length == 8
      reads this, lastWriteSequence
    {
      FromBigEndian(lastWriteSequence[2..])
    }

    ghost function Abs(): Counters
      requires Valid()
      reads this, writeSequence, lastWriteSequence
    {
      Counters(changes, Current(), Last(), log, wrapped)
    }

    constructor (key: Key)
      requires KeyOk(key)
      ensures Valid() && fresh(writeSequence) && fresh(lastWriteSequence)
      ensures Abs() == FRESH && this.key == key
    {
      this.epoch, this.key, this.lastKey, this.log, this.wrapped, this.changes := 0, key, key, [], false, 0;
      this.writeSequence := new Byte[8](i => 0);
      this.lastWriteSequence := new Byte[8](i => 0);
      new;
      ZeroBytes(writeSequence[2..]);
      ZeroBytes(lastWriteSequence[2..]);
    }

    /** dtls_seal_record.  The version is that of the current context even for the previous
        epoch. */
    method SealRecord(previous: bool, maxOut: nat, recordType: Byte, plain: seq<Byte>) returns (r: Option<seq<Byte>>)
      requires Valid() && (previous ==> epoch >= 1)
      modifies this`log, this`wrapped, writeSequence, lastWriteSequence
      ensures Valid()
      ensures var k := if previous then lastKey else key; var e := if previous then epoch - 1 else epoch;
        var s := if previous then old(Last()) else old(Current()); var version := RecordVersion(key.context, true);
        && r == DtlsRecord.SealRecord(k, maxOut, recordType, version, e, s, plain)
        && var bs := RecordBytes(k, recordType, version, e, s, plain);
           Abs() == WriterNext(old(Abs()), SealOne(previous, |bs| <= maxOut, |bs| - HEADER_LENGTH < TWO16))
    {
      hide Sealed, KeyOk, FromBigEndian, BigEndian, RecordVersion;
      var e, k, sequence := epoch, key, writeSequence;
      if previous { e, k, sequence := epoch - 1, lastKey, lastWriteSequence; }
      KeyParts(k);
      if maxOut < HEADER_LENGTH { return None; }
      var version := RecordVersion(key.context, true);
      VersionFits(key.context);
      var s := FromBigEndian(sequence[2..]);
      SixBytes(sequence[2..]);
      var seqNum := BigEndian(e, 2) + sequence[2..];
      assert seqNum == SeqBytes(e, s);
      var body := Seal(k.context, k.aead, k.iv(s), maxOut - HEADER_LENGTH, recordType, version, seqNum, plain);
      if body.None? { return None; }
      ghost var two := SequenceWidth(sequence);
      var ok := SequenceUpdate(sequence, 2);
      if !ok { wrapped := true; return None; }
      if |body.value| >= TWO16 { return None; }
      log := log + [(e, s)];
      r := Some([recordType] + BigEndian(version, 2) + seqNum + BigEndian(|body.value|, 2) + body.value);
    }

    /** dtls1_set_write_state. */
    method SetWriteState(newKey: Key)
      requires Valid() && KeyOk(newKey)
      modifies this, writeSequence, lastWriteSequence
      ensures Valid() && key == newKey && lastKey == old(key) && changes == old(changes) + 1
      ensures Abs() == WriterNext(old(Abs()), NewKeys)
    {
      hide KeyOk, FromBigEndian;
      wrapped := wrapped || epoch + 1 == TWO16;
      epoch := (epoch + 1) % TWO16;
      changes := changes + 1;
      ghost var was := writeSequence[..];
      for i := 0 to 8
        modifies lastWriteSequence
        invariant forall j :: 0 <= j < i ==> lastWriteSequence[j] == was[j]
      {
        lastWriteSequence[i] := writeSequence[i];
      }
      for i := 0 to 8
        modifies writeSequence
        invariant forall j :: 0 <= j < i ==> writeSequence[j] == 0
      {
        writeSequence[i] := 0;
      }
      ZeroBytes(writeSequence[2..]);
      lastKey := key;
      key := newKey;
      assert was[2..] == old(writeSequence[2..]);
      assert lastWriteSequence[2..] == was[2..];
    }
  }

  lemma {:induction false} KeyParts(k: Key)
    requires KeyOk(k)
    ensures WellFormed(k.context) && Ideal(k.aead)
    ensures forall s: nat :: !k.context.isNull && k.context.random ==> |k.iv(s)| == k.context.variableLen
  {
  }

  lemma {:induction false} VersionFits(c: Context)
    ensures RecordVersion(c, true) < TWO16
  {
  }

  lemma {:induction false} SixBytes(bs: seq<Byte>)
    requires |bs| == 6
    ensures FromBigEndian(bs) < TWO48 && BigEndian(FromBigEndian(bs), 6) == bs
  {
    FromBigEndianBack(bs);
    var six := |bs|;
    TwoToThe(six);
  }

  lemma {:induction false} SequenceWidth(sequence: array<Byte>) returns (n: nat)
    requires sequence.Length == 8
    ensures n == 8 * (sequence.Length - 2) && Shl(1, 8 * (sequence.Length - 2)) == TWO48
  {
    n := sequence.Length - 2;
    TwoToThe(n);
    n := 8 * n;
  }
}
