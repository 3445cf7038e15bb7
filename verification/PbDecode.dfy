/** pb_decode.c: the decoder over a stream.

    Every method consumes exactly the bytes, and produces exactly the value, of the decoding
    function of PbMessage it is proved against, and it fails exactly when that function does. */
module PbDecode {
  import opened PbVarint
  import opened Words
  import opened PbMessage
  import opened PbIter
  import opened PbStream

  // ------------------------------------------------------------- varints

  /** pb_decode_varint. */
  method DecodeVarint(stream: IStream) returns (ok: bool, value: nat)
    requires stream.Valid()
    modifies stream
    ensures stream.Valid()
    ensures ok == ReadVarint(old(stream.Rest())).Some?
    ensures ok ==>
        ReadVarint(old(stream.Rest())) == Some(Read(value, stream.Rest())) && stream.End() == old(stream.End())
  {
    hide Or, Shl;
    var bitpos := 0;
    value := 0;
    while true
      invariant stream.Valid() && stream.End() == old(stream.End())
      invariant ReadVarint(old(stream.Rest())) == ReadVarintFrom(stream.Rest(), bitpos, value)
      decreases stream.bytesLeft
    {
      if bitpos >= 64 { return false, value; }
      ghost var left := stream.bytesLeft;
      var more, b := stream.ReadByte();
      if !more { return false, value; }
      assert |stream.Rest()| == left - 1;
      value := Or(value, Shl(b % 128, bitpos) % TWO64);
      bitpos := bitpos + 7;
      if b < 128 { return true, value; }
    }
  }

  /** pb_decode_varint32_eof. */
  method DecodeVarint32(stream: IStream) returns (ok: bool, value: nat, eof: bool)
    requires stream.Valid()
    modifies stream
    ensures stream.Valid()
    ensures ok == ReadVarint32(old(stream.Rest())).Some?
    ensures ok ==>
        ReadVarint32(old(stream.Rest())) == Some(Read(value, stream.Rest())) && stream.End() == old(stream.End())
    ensures eof <==> old(stream.Rest()) == []
  {
    hide Or, Shl;
    value := 0;
    eof := false;
    var more, b := stream.ReadByte();
    if !more { return false, value, true; }
    if b < 128 { return true, b, false; }
    var bitpos: nat := 7;
    value := b % 128;
    while true
      invariant stream.Valid() && stream.End() == old(stream.End())
      invariant ReadVarint32(old(stream.Rest())) == ReadVarint32From(stream.Rest(), bitpos, value)
      decreases stream.bytesLeft
    {
      ghost var left := stream.bytesLeft;
      more, b := stream.ReadByte();
      if !more { return false, value, false; }
      assert |stream.Rest()| == left - 1;
      if bitpos >= 32 {
        var signExtension := if bitpos < 63 then 0xFF else 0x01;
        if b % 128 != 0 && (value / TWO31 == 0 || b != signExtension) { return false, value, false; }
      } else {
        value := Or(value, Shl(b % 128, bitpos) % TWO32);
      }
      bitpos := (bitpos + 7) % 256;
      if b < 128 { break; }
    }
    if bitpos == 35 && b / 16 % 8 != 0 { return false, value, false; }
    return true, value, false;
  }

  // ------------------------------------------------------------- substreams

  /** pb_make_string_substream: `stream` gives up the bytes it lends to the substream, and
      catches up with its position when the substream is closed. */
  method MakeSubstream(stream: IStream) returns (ok: bool, sub: IStream?)
    requires stream.Valid()
    modifies stream
    ensures stream.Valid()
    ensures ok == ReadDelimited(old(stream.Rest())).Some?
    ensures ok ==> sub != null && fresh(sub) && sub.Valid() && sub.data == stream.data
    ensures ok ==> sub.Rest() == ReadDelimited(old(stream.Rest())).value.value
    ensures ok ==> sub.End() + stream.bytesLeft == old(stream.End())
    ensures ok ==> stream.data[sub.End()..sub.End() + stream.bytesLeft] == ReadDelimited(old(stream.Rest())).value.rest
  {
    hide ReadVarint32;
    var size, eof;
    sub := null;
    ok, size, eof := DecodeVarint32(stream);
    if !ok { return; }
    if stream.bytesLeft < size { ok := false; return; }
    ghost var rest := stream.Rest();
    sub := new IStream.Sub(stream, size);
    stream.bytesLeft := stream.bytesLeft - size;
    assert stream.data[sub.End()..sub.End() + stream.bytesLeft] == rest[size..];
  }

  /** pb_close_string_substream: skips what the substream did not read. */
  method CloseSubstream(stream: IStream, sub: IStream) returns (ok: bool)
    requires stream.Valid() && sub.Valid() && stream != sub && sub.data == stream.data
    requires sub.End() + stream.bytesLeft <= |stream.data|
    modifies stream, sub
    ensures stream.Valid() && ok
    ensures stream.Rest() == old(stream.data[sub.End()..sub.End() + stream.bytesLeft])
    ensures stream.End() == old(sub.End() + stream.bytesLeft)
  {
    ok := true;
    if sub.bytesLeft != 0 {
      var skipped;
      ok, skipped := sub.Read(sub.bytesLeft);
    }
    stream.pos := sub.pos;
  }

  // ------------------------------------------------------------- items

  /** pb_dec_varint, pb_dec_uvarint, pb_dec_svarint, pb_dec_fixed32 and pb_dec_fixed64. */
  method DecodeNum(stream: IStream, f: Field) returns (ok: bool, v: int)
    requires stream.Valid()
    modifies stream
    ensures stream.Valid()
    ensures ok == DecNum(f, old(stream.Rest())).Some?
    ensures ok ==> DecNum(f, old(stream.Rest())) == Some(Read(v, stream.Rest())) && stream.End() == old(stream.End())
  {
    hide ReadVarint, Signed, UnZigZag;
    v := 0;
    if f.ltype.LFixed32? || f.ltype.LFixed64? {
      var bytes;
      ok, bytes := stream.Read(if f.ltype.LFixed32? then 4 else 8);
      if ok { v := FromLittleEndian(bytes); }
      return;
    }
    var value;
    ok, value := DecodeVarint(stream);
    if !ok { return; }
    var w := Width(f.dataSize);
    if w == 0 { ok := false; return; }
    var wide: int := value;
    if f.ltype.LVarint? {
      wide := Signed(value, if f.dataSize == 8 then TWO64 else TWO32);
    } else if f.ltype.LSvarint? {
      wide := UnZigZag(value);
    }
    v := if f.ltype.LUvarint? then wide % w else Signed(wide, w);
    ok := v == wide;
  }

  /** pb_dec_bytes, pb_dec_string and pb_dec_fixed_length_bytes. */
  method DecodeBlob(stream: IStream, f: Field) returns (ok: bool, b: seq<Byte>)
    requires stream.Valid() && (f.ltype.LBytes? || f.ltype.LString? || f.ltype.LFixedBytes?)
    modifies stream
    ensures stream.Valid()
    ensures ok == DecBlob(f, old(stream.Rest())).Some?
    ensures ok ==> DecBlob(f, old(stream.Rest())) == Some(Read(b, stream.Rest())) && stream.End() == old(stream.End())
  {
    hide ReadVarint32;
    b := [];
    var size, eof;
    ok, size, eof := DecodeVarint32(stream);
    if !ok { return; }
    if f.ltype.LFixedBytes? {
      if size == 0 { b := Zeros(f.dataSize); return; }
      if size != f.dataSize { ok := false; return; }
    } else if f.ltype.LBytes? {
      if size + BYTES_OFFSET > f.dataSize { ok := false; return; }
    } else {
      if size + 1 > f.dataSize { ok := false; return; }
    }
    ok, b := stream.Read(size);
    if f.ltype.LString? { b := UpToNul(b); }
  }

  /** The PB_DECODERS entry of f, on an item that holds `was`. */
  method DecodeCell(stream: IStream, f: Field, was: Cell) returns (ok: bool, c: Cell)
    requires stream.Valid() && FieldOk(f)
    modifies stream
    ensures stream.Valid()
    ensures ok == DecCell(f, was, old(stream.Rest())).Some?
    ensures ok ==>
        DecCell(f, was, old(stream.Rest())) == Some(Read(c, stream.Rest())) && stream.End() == old(stream.End())
    decreases |stream.Rest()|, 1
  {
    hide DecNum, DecBlob, DecMessage, Defaults;
    c := was;
    if f.ltype.LSubmessage? {
      ok, c := DecodeSubmessage(stream, f, was);
    } else if Packable(f.ltype) {
      var v;
      ok, v := DecodeNum(stream, f);
      if ok { c := Num(v); }
    } else {
      var b;
      ok, b := DecodeBlob(stream, f);
      if ok { c := Blob(b); }
    }
  }

  /** pb_dec_submessage. */
  method DecodeSubmessage(stream: IStream, f: Field, was: Cell) returns (ok: bool, c: Cell)
    requires stream.Valid() && FieldOk(f) && f.ltype.LSubmessage?
    modifies stream
    ensures stream.Valid()
    ensures ok == DecCell(f, was, old(stream.Rest())).Some?
    ensures ok ==>
        DecCell(f, was, old(stream.Rest())) == Some(Read(c, stream.Rest())) && stream.End() == old(stream.End())
    decreases |stream.Rest()|, 0
  {
    hide DecMessage, Defaults;
    c := was;
    var sub;
    ok, sub := MakeSubstream(stream);
    if !ok { return; }
    var start := if f.rule.Repeated? || f.rule.FixedCount? || !was.Msg? then Defaults(f.sub) else was.slots;
    var slots;
    ok, slots := DecodeNoInit(sub, f.sub, start);
    if !ok { return; }
    var closed := CloseSubstream(stream, sub);
    c := Msg(slots);
  }

  // ------------------------------------------------------------- fields

  /** The packed branch of decode_static_field. */
  method DecodeRun(stream: IStream, f: Field, s: Slot) returns (ok: bool, t: Slot)
    requires stream.Valid() && (s.Rep? || s.Fix?) && Packable(f.ltype)
    modifies stream
    ensures stream.Valid()
    ensures ok == DecField(f, WT_STRING, s, old(stream.Rest())).Some?
    ensures ok ==> DecField(f, WT_STRING, s, old(stream.Rest())) == Some(Read(t, stream.Rest())) && stream.End() == old(stream.End())
  {
    hide ReadDelimited, DecNum;
    t := s;
    var sub;
    ok, sub := MakeSubstream(stream);
    if !ok { return; }
    ghost var body := sub.Rest();
    ghost var end := sub.End();
    var items, status := s.items, true;
    while sub.bytesLeft > 0 && |items| < f.arraySize
      modifies sub
      invariant sub.Valid() && sub.End() == end
      invariant DecPacked(f, s.items, body) == DecPacked(f, items, sub.Rest())
      decreases sub.bytesLeft
    {
      ghost var left := sub.Rest();
      var v;
      status, v := DecodeNum(sub, f);
      if !status { ok := false; return; }
      items := items + [Num(v)];
      assert |sub.Rest()| < |left|;
    }
    if sub.bytesLeft != 0 { ok := false; return; }
    assert DecPacked(f, items, sub.Rest()) == Some(items);
    var closed := CloseSubstream(stream, sub);
    t := WithItems(s, items);
  }

  /** decode_static_field. */
  method DecodeField(stream: IStream, f: Field, wireType: nat, s: Slot) returns (ok: bool, t: Slot)
    requires stream.Valid() && FieldOk(f)
    modifies stream
    ensures stream.Valid()
    ensures ok == DecField(f, wireType, s, old(stream.Rest())).Some?
    ensures ok ==> DecField(f, wireType, s, old(stream.Rest())) == Some(Read(t, stream.Rest())) && stream.End() == old(stream.End())
    decreases |stream.Rest()|, 2
  {
    hide DecCell, DefaultCell, DecPacked, ReadDelimited;
    t := s;
    var c;
    if s.One? {
      ok, c := DecodeCell(stream, f, s.cell);
      if ok { t := One(c); }
    } else if s.Opt? {
      ok, c := DecodeCell(stream, f, s.cell);
      if ok { t := Opt(true, c); }
    } else if s.Uni? {
      ok, c := DecodeCell(stream, f, DefaultCell(f));
      if ok { t := Uni(f.tag, Some(c)); }
    } else if wireType == WT_STRING && Packable(f.ltype) {
      ok, t := DecodeRun(stream, f, s);
    } else if |s.items| >= f.arraySize {
      ok := false;
    } else {
      ok, c := DecodeCell(stream, f, DefaultCell(f));
      if ok { t := WithItems(s, s.items + [c]); }
    }
  }

  /** pb_skip_varint. */
  method SkipVarintBytes(stream: IStream) returns (ok: bool)
    requires stream.Valid()
    modifies stream
    ensures stream.Valid()
    ensures ok == SkipVarint(old(stream.Rest())).Some?
    ensures ok ==> SkipVarint(old(stream.Rest())) == Some(stream.Rest()) && stream.End() == old(stream.End())
  {
    while true
      invariant stream.Valid() && stream.End() == old(stream.End())
      invariant SkipVarint(old(stream.Rest())) == SkipVarint(stream.Rest())
      decreases stream.bytesLeft
    {
      ghost var left := stream.bytesLeft;
      var more, bytes := stream.Read(1);
      if !more { return false; }
      assert |stream.Rest()| == left - 1;
      if bytes[0] < 128 { return true; }
    }
  }

  /** pb_skip_field. */
  method SkipField(stream: IStream, wireType: nat) returns (ok: bool)
    requires stream.Valid()
    modifies stream
    ensures stream.Valid()
    ensures ok == Skip(wireType, old(stream.Rest())).Some?
    ensures ok ==> Skip(wireType, old(stream.Rest())) == Some(stream.Rest()) && stream.End() == old(stream.End())
  {
    hide SkipVarint, ReadVarint32;
    var bytes;
    if wireType == WT_VARINT {
      ok := SkipVarintBytes(stream);
    } else if wireType == WT_64BIT {
      ok, bytes := stream.Read(8);
    } else if wireType == WT_STRING {
      var size, eof;
      ok, size, eof := DecodeVarint32(stream);
      if !ok { return; }
      ok, bytes := stream.Read(size);
    } else if wireType == WT_32BIT {
      ok, bytes := stream.Read(4);
    } else {
      ok := false;
    }
  }

  // ------------------------------------------------------------- required fields

  /** fields_seen: bit i of the two words stands for the i-th required field. */
  ghost predicate Marks(word0: nat, word1: nat, seen: set<nat>)
  {
    && (forall i: nat :: Bit(word0, i) <==> i < 32 && i in seen)
    && (forall i: nat :: Bit(word1, i) <==> i < 32 && i + 32 in seen)
    && (forall i :: i in seen ==> i < MAX_REQUIRED_FIELDS)
  }

  lemma {:induction false} MarkOne(word: nat, index: nat)
    requires index < 32
    ensures forall i: nat :: Bit(Or(word, Shl(1, index)), i) <==> Bit(word, i) || i == index
  {
    forall i: nat ensures Bit(Or(word, Shl(1, index)), i) <==> Bit(word, i) || i == index {
      OrBit(word, index, i);
    }
  }

  /** Setting the bit of one more required field. */
  method Mark(words: array<nat>, index: nat, ghost seen: set<nat>)
    requires words.Length == 2 && Marks(words[0], words[1], seen) && index < MAX_REQUIRED_FIELDS
    modifies words
    ensures Marks(words[0], words[1], seen + {index})
  {
    hide Or, Shl, Bit;
    MarkOne(words[index / 32], index % 32);
    words[index / 32] := Or(words[index / 32], Shl(1, index % 32));
  }

  /** Every required field has its own index, and the indices have no gaps. */
  lemma {:induction false} RequiredAt(fields: seq<Field>, n: nat, i: nat) returns (k: nat)
    requires n <= |fields| && i < RequiredBefore(fields, n)
    ensures k < n && fields[k].rule.Required? && RequiredBefore(fields, k) == i
  {
    if fields[n - 1].rule.Required? && RequiredBefore(fields, n - 1) == i {
      k := n - 1;
    } else {
      k := RequiredAt(fields, n - 1, i);
    }
  }

  lemma {:induction false} RequiredMonotone(fields: seq<Field>, j: nat, k: nat)
    requires j <= k <= |fields|
    ensures RequiredBefore(fields, j) <= RequiredBefore(fields, k)
  {
    if j < k { RequiredMonotone(fields, j, k - 1); }
  }

  /** The first `count` required fields are marked: the word-by-word test of pb_decode_noinit. */
  method AllMarked(words: array<nat>, count: nat, ghost seen: set<nat>) returns (all: bool)
    requires words.Length == 2 && Marks(words[0], words[1], seen) && count <= MAX_REQUIRED_FIELDS
    requires forall i :: i in seen ==> i < count
    ensures all == forall i: nat :: i < count ==> i in seen
  {
    hide Bit, Ones;
    for i := 0 to count / 32
      invariant forall j :: 0 <= j < 32 * i ==> j in seen
    {
      OnesExactly(words[i], 32);
      if words[i] != Ones(32) {
        ghost var j: nat :| !(Bit(words[i], j) <==> j < 32);
        assert 32 * i + j < count && 32 * i + j !in seen;
        return false;
      }
      forall j | 32 * i <= j < 32 * i + 32 ensures j in seen { assert Bit(words[i], j - 32 * i); }
    }
    all := true;
    if count % 32 != 0 {
      var w := count / 32;
      OnesExactly(words[w], count % 32);
      all := words[w] == Ones(count % 32);
      if all {
        forall j | 32 * w <= j < count ensures j in seen { assert Bit(words[w], j - 32 * w); }
      } else {
        ghost var j: nat :| !(Bit(words[w], j) <==> j < count % 32);
        assert j < count % 32 && 32 * w + j !in seen;
      }
    }
  }

  lemma {:induction false} RequiredByIndex(fields: seq<Field>, seen: set<nat>)
    ensures RequiredSeenFrom(fields, seen, 0)
       <==> forall i: nat :: i < RequiredBefore(fields, |fields|) && i < MAX_REQUIRED_FIELDS ==> i in seen
  {
    hide RequiredSeenFrom, RequiredBefore;
    AllRequiredSeen(fields, seen, 0);
    if RequiredSeenFrom(fields, seen, 0) {
      forall i: nat | i < RequiredBefore(fields, |fields|) && i < MAX_REQUIRED_FIELDS ensures i in seen {
        var k := RequiredAt(fields, |fields|, i);
      }
    }
    if forall i: nat :: i < RequiredBefore(fields, |fields|) && i < MAX_REQUIRED_FIELDS ==> i in seen {
      forall k | 0 <= k < |fields| && fields[k].rule.Required? ensures RequiredBefore(fields, k) < RequiredBefore(fields, |fields|) {
        RequiredStep(fields, k);
      }
    }
  }

  lemma {:induction false} RequiredStep(fields: seq<Field>, k: nat)
    requires k < |fields| && fields[k].rule.Required?
    ensures RequiredBefore(fields, k) < RequiredBefore(fields, |fields|)
  {
    RequiredMonotone(fields, k + 1, |fields|);
  }

  /** The end of pb_decode_noinit: counts the required fields by walking to the end of the
      table from wherever the iterator stands, and checks that all were seen. */
  method CheckRequired(iter: FieldIter, words: array<nat>, ghost seen: set<nat>) returns (ok: bool)
    requires iter.Valid() && words.Length == 2 && Marks(words[0], words[1], seen)
    requires forall i :: i in seen ==> i < RequiredBefore(iter.fields, |iter.fields|)
    modifies iter
    ensures ok == RequiredSeenFrom(iter.fields, seen, 0)
  {
    hide Marks, Bit, RequiredSeenFrom;
    var count := 0;
    if iter.fields != [] {
      var more := true;
      var last := iter.fields[iter.pos];
      while more
        invariant iter.Valid()
        invariant !more ==>
            count == RequiredBefore(iter.fields, |iter.fields| - 1) && last == iter.fields[|iter.fields| - 1]
        decreases more, |iter.fields| - iter.pos
      {
        count := iter.requiredIndex;
        last := iter.fields[iter.pos];
        more := iter.Next();
      }
      if last.rule.Required? { count := count + 1; }
    }
    if count > MAX_REQUIRED_FIELDS { count := MAX_REQUIRED_FIELDS; }
    RequiredByIndex(iter.fields, seen);
    MarksBound(words, seen);
    ok := AllMarked(words, count, seen);
  }

  lemma {:induction false} MarksBound(words: array<nat>, seen: set<nat>)
    requires words.Length == 2 && Marks(words[0], words[1], seen)
    ensures forall i :: i in seen ==> i < MAX_REQUIRED_FIELDS
  {
  }

  // ------------------------------------------------------------- messages

  /** The local variables of pb_decode_noinit stand for the progress p. */
  ghost predicate Tracks(fields: seq<Field>, p: Progress, dest: seq<Slot>, fixedField: int, fixedSize: nat)
  {
    && p.slots == dest
    && p.fixed == (if fixedField < 0 then None else Some(fixedField))
    && (fixedField >= 0 ==> fixedField < |fields| && fields[fixedField].rule.FixedCount?
                            && SlotOf(fields, fixedField) < |dest| && dest[SlotOf(fields, fixedField)].Fix?
                            && |dest[SlotOf(fields, fixedField)].items| == fixedSize)
    && (forall i :: i in p.seen ==> i < RequiredBefore(fields, |fields|))
  }

  lemma {:induction false} ArrayStaysArray(f: Field, wireType: nat, s: Slot, bs: seq<Byte>)
    requires s.Fix? && DecField(f, wireType, s, bs).Some?
    ensures DecField(f, wireType, s, bs).value.value.Fix?
  {
  }

  lemma {:induction false} TracksAfter(fields: seq<Field>, k: nat, p: Progress, dest: seq<Slot>, fixedField: int,
      fixedSize: nat, t: Slot)
    requires k < |fields| && SlotOf(fields, k) < |dest| && Tracks(fields, p, dest, fixedField, fixedSize)
    requires fields[k].rule.FixedCount? ==> fixedField == k && t.Fix?
    ensures Tracks(fields, p.(slots := dest[SlotOf(fields, k) := t]), dest[SlotOf(fields, k) := t], fixedField,
                   if fields[k].rule.FixedCount? then |t.items| else fixedSize)
  {
    hide SlotOf, RequiredBefore;
    if fixedField >= 0 && fixedField != k {
      if fixedField < k { SlotOfMonotone(fields, fixedField, k); } else { SlotOfMonotone(fields, k, fixedField); }
    }
  }

  /** One known field: what pb_decode_noinit does after pb_field_iter_find. */
  method DecodeKnown(stream: IStream, iter: FieldIter, wireType: nat, words: array<nat>,
                     dest: seq<Slot>, fixedField: int, fixedSize: nat, ghost p: Progress)
    returns (ok: bool, newDest: seq<Slot>, newField: int, newSize: nat, ghost q: Progress)
    requires stream.Valid() && iter.Valid() && iter.fields != [] && FieldOk(iter.fields[iter.pos]) && words.Length == 2
    requires Tracks(iter.fields, p, dest, fixedField, fixedSize) && Marks(words[0], words[1], p.seen)
    modifies stream, words
    ensures stream.Valid()
    ensures ok == DecOne(iter.fields, iter.pos, wireType, p, old(stream.Rest())).Some?
    ensures ok ==> DecOne(iter.fields, iter.pos, wireType, p, old(stream.Rest())) == Some(Read(q, stream.Rest()))
    ensures ok ==> stream.End() == old(stream.End())
    ensures ok ==> Tracks(iter.fields, q, newDest, newField, newSize) && Marks(words[0], words[1], q.seen)
    decreases |stream.Rest()|, 3
  {
    hide DecField, SlotOf, RequiredBefore, Marks;
    var fields, k, s := iter.fields, iter.pos, iter.slot;
    var f := fields[k];
    ok, newDest, newField, newSize, q := false, dest, fixedField, fixedSize, p;
    if s >= |dest| { return; }
    if f.rule.FixedCount? && fixedField != k {
      if fixedField >= 0 && fixedSize != fields[fixedField].arraySize { return; }
      newField, newSize := k, 0;
      newDest := dest[s := Fix([], [])];
      q := p.(fixed := Some(k), slots := newDest);
    }
    if f.rule.Required? && iter.requiredIndex < MAX_REQUIRED_FIELDS {
      Mark(words, iter.requiredIndex, p.seen);
      RequiredStep(fields, k);
      q := q.(seen := p.seen + {RequiredBefore(fields, k)});
    }
    assert Enter(fields, k, p) == Some(q) && Tracks(fields, q, newDest, newField, newSize);
    ghost var bs := stream.Rest();
    var t;
    ok, t := DecodeField(stream, f, wireType, newDest[s]);
    if !ok { return; }
    if f.rule.FixedCount? {
      ArrayStaysArray(f, wireType, newDest[s], bs);
    }
    TracksAfter(fields, k, q, newDest, newField, newSize, t);
    newDest := newDest[s := t];
    if f.rule.FixedCount? { newSize := |t.items|; }
    q := q.(slots := newDest);
  }

  /** pb_decode_tag. */
  method DecodeTag(stream: IStream) returns (ok: bool, tag: nat, wireType: nat, eof: bool)
    requires stream.Valid()
    modifies stream
    ensures stream.Valid()
    ensures var t := ReadVarint32(old(stream.Rest()));
      && ok == (t.Some? && t.value.value != 0)
      && (ok ==> tag == t.value.value / 8 && wireType == t.value.value % 8)
      && (t.Some? ==> stream.Rest() == t.value.rest && stream.End() == old(stream.End()))
      && (!ok ==> eof == (old(stream.Rest()) == [] || t.Some?))
  {
    var temp;
    ok, temp, eof := DecodeVarint32(stream);
    tag, wireType := temp / 8, temp % 8;
    if ok && temp == 0 {
      eof := true; // 0-terminated messages
      ok := false;
    }
  }

  /** One turn of the loop of DecLoop. */
  lemma {:induction false} LoopTurn(fields: seq<Field>, p: Progress, bs: seq<Byte>)
    requires bs != []
    ensures DecLoop(fields, p, bs)
         == match ReadVarint32(bs)
            case None => None
            case Some(t) =>
              if t.value == 0 then Some(Read(p, t.rest))
              else if fields == [] && t.value / 8 == 0 then None
              else if Find(fields, t.value / 8) == |fields| then
                (match Skip(t.value % 8, t.rest) case None => None case Some(rest) => DecLoop(fields, p, rest))
              else
                match DecOne(fields, Find(fields, t.value / 8), t.value % 8, p, t.rest)
                case None => None
                case Some(r) => DecLoop(fields, r.value, r.rest)
  {
    hide DecOne, ReadVarint32, Skip, Find;
  }

  /** The loop of pb_decode_noinit. */
  method DecodeFields(stream: IStream, iter: FieldIter, words: array<nat>, slots: seq<Slot>)
    returns (ok: bool, dest: seq<Slot>, fixedField: int, fixedSize: nat, ghost p: Progress)
    requires stream.Valid() && iter.Valid() && TableOk(iter.fields)
    requires words.Length == 2 && Marks(words[0], words[1], {})
    modifies stream, iter, words
    ensures stream.Valid() && iter.Valid()
    ensures ok == DecLoop(iter.fields, Progress(slots, {}, None), old(stream.Rest())).Some?
    ensures ok ==> DecLoop(iter.fields, Progress(slots, {}, None), old(stream.Rest())) == Some(Read(p, stream.Rest()))
    ensures ok ==> stream.End() == old(stream.End())
    ensures ok ==> Tracks(iter.fields, p, dest, fixedField, fixedSize) && Marks(words[0], words[1], p.seen)
    decreases |stream.Rest()|, 4
  {
    hide DecLoop, Find, Marks, DecOne, Skip, ReadVarint32, SlotOf, RequiredBefore, FieldOk;
    ok, dest, fixedField, fixedSize, p := true, slots, -1, 0, Progress(slots, {}, None);
    ghost var whole := DecLoop(iter.fields, p, stream.Rest());
    while stream.bytesLeft > 0
      invariant stream.Valid() && iter.Valid() && stream.End() == old(stream.End())
      invariant |stream.Rest()| <= |old(stream.Rest())|
      invariant Tracks(iter.fields, p, dest, fixedField, fixedSize) && Marks(words[0], words[1], p.seen)
      invariant whole == DecLoop(iter.fields, p, stream.Rest())
      decreases stream.bytesLeft
    {
      ghost var before := stream.Rest();
      LoopTurn(iter.fields, p, before);
      var tagged, tag, wireType, eof := DecodeTag(stream);
      if !tagged {
        ok := eof;
        return;
      }
      var found := iter.Find(tag);
      if !found {
        ok := SkipField(stream, wireType);
        if !ok { return; }
      } else if iter.fields == [] {
        // the terminator of an empty table has no integer size
        ok := false;
        return;
      } else {
        ok, dest, fixedField, fixedSize, p := DecodeKnown(stream, iter, wireType, words, dest, fixedField, fixedSize, p);
        if !ok { return; }
      }
      assert |stream.Rest()| < |before|;
    }
    LoopEnd(iter.fields, p, stream.Rest());
  }

  lemma {:induction false} LoopEnd(fields: seq<Field>, p: Progress, bs: seq<Byte>)
    requires bs == []
    ensures DecLoop(fields, p, bs) == Some(Read(p, []))
  {
  }

  /** pb_decode_noinit. */
  method DecodeNoInit(stream: IStream, fields: seq<Field>, slots: seq<Slot>) returns (ok: bool, dest: seq<Slot>)
    requires stream.Valid() && TableOk(fields)
    modifies stream
    ensures stream.Valid()
    ensures ok == DecMessage(fields, slots, old(stream.Rest())).Some?
    ensures ok ==> DecMessage(fields, slots, old(stream.Rest())) == Some(Read(dest, stream.Rest())) && stream.End() == old(stream.End())
    decreases |stream.Rest()|, 5
  {
    hide DecLoop, RequiredSeenFrom, RequiredBefore, SlotOf, TableOk, Bit;
    var words := new nat[2][0, 0];
    NoMarks();
    var iter := new FieldIter(fields);
    var fixedField, fixedSize;
    ghost var p;
    ok, dest, fixedField, fixedSize, p := DecodeFields(stream, iter, words, slots);
    if !ok { return; }
    if fixedField >= 0 && fixedSize != fields[fixedField].arraySize {
      ok := false;
      return;
    }
    ok := CheckRequired(iter, words, p.seen);
  }

  lemma {:induction false} NoMarks()
    ensures Marks(0, 0, {})
  {
    forall i: nat ensures !Bit(0, i) { ZeroBit(i); }
  }

  /** pb_decode. */
  method Decode(stream: IStream, fields: seq<Field>) returns (ok: bool, dest: seq<Slot>)
    requires stream.Valid() && TableOk(fields)
    modifies stream
    ensures stream.Valid()
    ensures ok == PbMessage.Decode(fields, old(stream.Rest())).Some?
    ensures ok ==> PbMessage.Decode(fields, old(stream.Rest())) == Some(Read(dest, stream.Rest()))
  {
    hide DecMessage, TableOk;
    ok, dest := DecodeNoInit(stream, fields, Defaults(fields));
  }
}
