/** pb_encode.c: the encoder over a stream.

    Every encoder method has the same contract: on a sizing stream it succeeds exactly when
    the encoding exists, and counts its length; on a buffer stream it succeeds exactly when
    the encoding exists and fits, and appends precisely that encoding.  So the size that a
    sizing stream reports is the size that the real encoder writes, and the check that a
    submessage kept its size cannot fail. */
module PbEncode {
  import opened Words
  import opened PbVarint
  import opened PbMessage
  import opened PbIter
  import opened PbStream

  lemma {:induction false} VarintStep(buffer: seq<Byte>, value: nat, whole: seq<Byte>)
    requires value > 0 && whole == buffer + Varint(value)
    ensures value >= 128 ==> whole == (buffer + [value % 128 + 128]) + Varint(value / 128)
                             && |Varint(value)| == 1 + |Varint(value / 128)| && value / 128 > 0
    ensures value < 128 ==> whole == buffer + [value]
    ensures |Varint(value)| >= 1
  {
  }

  /** The multibyte loop of pb_encode_varint. */
  method FillVarint(buffer: array<Byte>, v: nat) returns (i: nat)
    requires buffer.Length == 10 && 128 <= v < TWO64
    modifies buffer
    ensures i <= 10 && buffer[..i] == Varint(v)
  {
    hide Varint;
    var value := v;
    i := 0;
    VarintFits(v);
    while value != 0
      invariant i <= 10
      invariant value != 0 ==> buffer[..i] + Varint(value) == Varint(v) && i + |Varint(value)| <= 10
      invariant value == 0 ==> i > 0 && buffer[i - 1] >= 128 && buffer[..i - 1] + [buffer[i - 1] - 128] == Varint(v)
    {
      VarintStep(buffer[..i], value, Varint(v));
      ghost var done := buffer[..i];
      buffer[i] := value % 128 + 128;
      assert buffer[..i] == done;
      assert buffer[..i + 1] == done + [value % 128 + 128];
      value := value / 128;
      i := i + 1;
    }
    ghost var head := buffer[..i - 1];
    buffer[i - 1] := buffer[i - 1] - 128; // unset the top bit of the last byte
    assert buffer[..i - 1] == head;
  }

  /** pb_encode_varint. */
  method EncodeVarint(stream: OStream, v: nat) returns (ok: bool)
    requires stream.Valid() && v < TWO64
    modifies stream, stream.buf
    ensures stream.Valid()
    ensures stream.Wrote(ok, Some(Varint(v)), old(stream.bytesWritten), old(stream.Out()))
  {
    if v <= 0x7F {
      ok := stream.Write([v], 1);
      return;
    }
    var buffer := new Byte[10];
    var i := FillVarint(buffer, v);
    ok := stream.Write(buffer[..i], i);
  }

  lemma {:induction false} VarintFits(v: nat)
    requires v < TWO64
    ensures |Varint(v)| <= 10
  {
    var k: nat :| k == 10;
    WordSize(7 * k - 6);
    assert Shl(1, 7 * k) >= Shl(1, 7 * k - 6) by { ShlShl(1, 7 * k - 6, 6); }
    VarintLen(v, k);
  }

  /** pb_encode_fixed32 and pb_encode_fixed64: n bytes of the value, low byte first. */
  method EncodeFixed(stream: OStream, v: nat, n: nat) returns (ok: bool)
    requires stream.Valid()
    modifies stream, stream.buf
    ensures stream.Valid()
    ensures stream.Wrote(ok, Some(LittleEndian(v, n)), old(stream.bytesWritten), old(stream.Out()))
  {
    var bytes := new Byte[n];
    var val := v;
    for i := 0 to n
      modifies bytes
      invariant bytes[..i] + LittleEndian(val, n - i) == LittleEndian(v, n)
    {
      ghost var done := bytes[..i];
      bytes[i] := val % 256;
      assert bytes[..i] == done && bytes[..i + 1] == done + [val % 256];
      val := val / 256;
    }
    ok := stream.Write(bytes[..], n);
  }

  /** pb_encode_tag. */
  method EncodeTag(stream: OStream, wireType: nat, tag: nat) returns (ok: bool)
    requires stream.Valid()
    modifies stream, stream.buf
    ensures stream.Valid()
    ensures stream.Wrote(ok, Some(Tag(tag, wireType)), old(stream.bytesWritten), old(stream.Out()))
  {
    ok := EncodeVarint(stream, (8 * tag + wireType) % TWO64);
  }

  /** pb_encode_string. */
  method EncodeString(stream: OStream, body: seq<Byte>) returns (ok: bool)
    requires stream.Valid()
    modifies stream, stream.buf
    ensures stream.Valid()
    ensures stream.Wrote(ok, Some(Delimited(body)), old(stream.bytesWritten), old(stream.Out()))
  {
    hide Varint;
    ok := EncodeVarint(stream, |body| % TWO64);
    if !ok { return false; }
    ok := stream.Write(body, |body|);
  }

  /** pb_enc_varint, pb_enc_uvarint, pb_enc_svarint, pb_enc_fixed32 and pb_enc_fixed64. */
  method EncodeNum(stream: OStream, f: Field, v: int) returns (ok: bool)
    requires stream.Valid() && Packable(f.ltype) && NumOk(f, v)
    modifies stream, stream.buf
    ensures stream.Valid()
    ensures stream.Wrote(ok, EncNum(f, v), old(stream.bytesWritten), old(stream.Out()))
  {
    hide Varint, LittleEndian;
    if f.ltype.LFixed32? {
      ok := EncodeFixed(stream, v % TWO32, 4);
    } else if f.ltype.LFixed64? {
      ok := EncodeFixed(stream, v % TWO64, 8);
    } else if f.dataSize != 1 && f.dataSize != 2 && f.dataSize != 4 && f.dataSize != 8 {
      ok := false;
    } else if f.ltype.LSvarint? {
      ok := EncodeVarint(stream, if v < 0 then -2 * v - 1 else 2 * v);
    } else {
      ok := EncodeVarint(stream, v % TWO64);
    }
  }

  /** Moving the boundary between what is encoded and what is still to come. */
  lemma {:induction false} ThenMoves(whole: Option<seq<Byte>>, done: seq<Byte>, one: Option<seq<Byte>>,
      more: Option<seq<Byte>>)
    requires whole == Then(Some(done), Then(one, more))
    ensures one.None? ==> whole.None?
    ensures one.Some? ==> whole == Then(Some(done + one.value), more)
    ensures one.Some? && whole.Some? ==> |whole.value| >= |done| + |one.value|
  {
    if one.Some? && more.Some? {
      assert done + (one.value + more.value) == done + one.value + more.value;
    }
  }

  /** The PB_ENCODERS entry of f. */
  method EncodeCell(stream: OStream, f: Field, c: Cell) returns (ok: bool)
    requires stream.Valid() && CellOk(f, c)
    modifies stream, stream.buf
    ensures stream.Valid()
    ensures stream.Wrote(ok, EncCell(f, c), old(stream.bytesWritten), old(stream.Out()))
    decreases f, 0
  {
    hide Delimited, EncNum;
    match c {
      case Num(v) => ok := EncodeNum(stream, f, v);
      case Msg(slots) => ok := EncodeSubmessage(stream, f.sub, slots);
      case Blob(b) =>
        if f.ltype.LBytes? && |b| + BYTES_OFFSET > f.dataSize {
          ok := false;
        } else {
          ok := EncodeString(stream, b);
        }
    }
  }

  /** pb_encode_submessage: sizes the message first, then writes it through a substream of
      exactly that size. */
  method EncodeSubmessage(stream: OStream, fields: seq<Field>, slots: seq<Slot>) returns (ok: bool)
    requires stream.Valid() && SlotsOk(fields, slots)
    modifies stream, stream.buf
    ensures stream.Valid()
    ensures var body := EncFields(fields, slots, 0);
      stream.Wrote(ok, if body.None? then None else Some(Delimited(body.value)), old(stream.bytesWritten), old(stream.Out()))
    decreases fields, 6
  {
    hide EncFields, Varint, SlotsOk;
    var sizing := new OStream.Sizing();
    ok := EncodeMessage(sizing, fields, slots);
    if !ok { return false; }
    var size := sizing.bytesWritten;
    ok := EncodeVarint(stream, size % TWO64);
    if !ok { return false; }
    if stream.buf == null {
      ok := stream.Write([], size);
      return;
    }
    ok := WriteSized(stream, fields, slots, size);
    if ok {
      ghost var body := EncFields(fields, slots, 0).value;
      assert old(stream.Out()) + Varint(size % TWO64) + body == old(stream.Out()) + (Varint(size % TWO64) + body);
    }
  }

  /** The second half of pb_encode_submessage: the message through a substream of its size. */
  method WriteSized(stream: OStream, fields: seq<Field>, slots: seq<Slot>, size: nat) returns (ok: bool)
    requires stream.Valid() && stream.buf != null && SlotsOk(fields, slots)
    requires EncFields(fields, slots, 0).Some? && size == |EncFields(fields, slots, 0).value|
    modifies stream, stream.buf
    ensures stream.Valid()
    ensures stream.Wrote(ok, EncFields(fields, slots, 0), old(stream.bytesWritten), old(stream.Out()))
    decreases fields, 5, 1
  {
    hide EncFields, SlotsOk;
    if stream.bytesWritten + size > stream.maxSize { return false; }
    var sub := new OStream.Sub(stream, size);
    ok := EncodeMessage(sub, fields, slots);
    stream.bytesWritten := stream.bytesWritten + sub.bytesWritten;
    stream.pos := sub.pos;
    // the size cannot have changed
    assert ok && sub.bytesWritten == size;
    ok := ok && sub.bytesWritten == size;
  }

  /** encode_array. */
  method EncodeArray(stream: OStream, f: Field, items: seq<Cell>) returns (ok: bool)
    requires stream.Valid() && forall i :: 0 <= i < |items| ==> CellOk(f, items[i])
    modifies stream, stream.buf
    ensures stream.Valid()
    ensures stream.Wrote(ok, EncArray(f, items), old(stream.bytesWritten), old(stream.Out()))
    decreases f, 3
  {
    hide EncCell, Tag, EncPacked, EncTagged, CellOk, Varint;
    if items == [] { return true; }
    if |items| > f.arraySize { return false; }
    if Packable(f.ltype) {
      ok := EncodePacked(stream, f, items);
    } else {
      ok := EncodeTagged(stream, f, items);
    }
  }

  /** The size of a packed run, computed without writing it. */
  method PackedSize(f: Field, items: seq<Cell>) returns (ok: bool, size: nat)
    requires Packable(f.ltype) && forall i :: 0 <= i < |items| ==> CellOk(f, items[i])
    ensures ok == EncPacked(f, items, 0).Some?
    ensures ok ==> size == |EncPacked(f, items, 0).value|
    decreases f, 1
  {
    hide EncCell, CellOk, Packable;
    if f.ltype.LFixed32? {
      FixedRun(f, items, 0, 4);
      return true, 4 * |items|;
    } else if f.ltype.LFixed64? {
      FixedRun(f, items, 0, 8);
      return true, 8 * |items|;
    }
    var sizing := new OStream.Sizing();
    ok := EncodeItems(sizing, f, items);
    size := sizing.bytesWritten;
  }

  lemma {:induction false} FixedRun(f: Field, items: seq<Cell>, i: nat, n: nat)
    requires (f.ltype.LFixed32? && n == 4) || (f.ltype.LFixed64? && n == 8)
    requires i <= |items| && forall j :: 0 <= j < |items| ==> CellOk(f, items[j])
    ensures EncPacked(f, items, i).Some? && |EncPacked(f, items, i).value| == n * (|items| - i)
    decreases |items| - i
  {
    if i < |items| { FixedRun(f, items, i + 1, n); }
  }

  /** The items of an array without tags. */
  method EncodeItems(stream: OStream, f: Field, items: seq<Cell>) returns (ok: bool)
    requires stream.Valid() && forall i :: 0 <= i < |items| ==> CellOk(f, items[i])
    modifies stream, stream.buf
    ensures stream.Valid()
    ensures stream.Wrote(ok, EncPacked(f, items, 0), old(stream.bytesWritten), old(stream.Out()))
    decreases f, 1, 0
  {
    hide EncCell, CellOk, Then;
    ghost var whole, done := EncPacked(f, items, 0), [];
    ThenNothing(whole);
    for i := 0 to |items|
      invariant stream.Valid()
      invariant whole == Then(Some(done), EncPacked(f, items, i))
      invariant stream.bytesWritten == old(stream.bytesWritten) + |done|
      invariant stream.buf != null ==> stream.Out() == old(stream.Out()) + done
    {
      ghost var one := EncCell(f, items[i]);
      ThenMoves(whole, done, one, EncPacked(f, items, i + 1));
      ok := EncodeCell(stream, f, items[i]);
      if !ok { return false; }
      done := done + one.value;
    }
    ThenDone(done);
    return true;
  }

  lemma {:induction false} ThenNothing(a: Option<seq<Byte>>)
    ensures Then(Some([]), a) == a
  {
    if a.Some? { assert [] + a.value == a.value; }
  }

  lemma {:induction false} ThenDone(a: seq<Byte>)
    ensures Then(Some(a), Some([])) == Some(a)
  {
    assert a + [] == a;
  }

  /** A packed array: tag, total size, items. */
  method EncodePacked(stream: OStream, f: Field, items: seq<Cell>) returns (ok: bool)
    requires stream.Valid() && Packable(f.ltype) && forall i :: 0 <= i < |items| ==> CellOk(f, items[i])
    modifies stream, stream.buf
    ensures stream.Valid()
    ensures var body := EncPacked(f, items, 0);
      stream.Wrote(ok, if body.None? then None else Some(Tag(f.tag, WT_STRING) + Delimited(body.value)),
                   old(stream.bytesWritten), old(stream.Out()))
    decreases f, 2
  {
    hide EncPacked, Tag, Varint, CellOk, Packable;
    ok := EncodeTag(stream, WT_STRING, f.tag);
    if !ok { return false; }
    var size;
    ok, size := PackedSize(f, items);
    if !ok { return false; }
    ok := EncodeVarint(stream, size % TWO64);
    if !ok { return false; }
    if stream.buf == null {
      ok := stream.Write([], size);
      return;
    }
    ok := EncodeItems(stream, f, items);
    if ok {
      ghost var t, n, body := Tag(f.tag, WT_STRING), Varint(size % TWO64), EncPacked(f, items, 0).value;
      assert old(stream.Out()) + t + n + body == old(stream.Out()) + (t + (n + body));
    }
  }

  /** An array of strings, byte strings or submessages: each item with its tag. */
  method EncodeTagged(stream: OStream, f: Field, items: seq<Cell>) returns (ok: bool)
    requires stream.Valid() && forall i :: 0 <= i < |items| ==> CellOk(f, items[i])
    modifies stream, stream.buf
    ensures stream.Valid()
    ensures stream.Wrote(ok, EncTagged(f, items, 0), old(stream.bytesWritten), old(stream.Out()))
    decreases f, 2
  {
    hide EncCell, CellOk, Then, Tag;
    ghost var whole, done := EncTagged(f, items, 0), [];
    ThenNothing(whole);
    for i := 0 to |items|
      invariant stream.Valid()
      invariant whole == Then(Some(done), EncTagged(f, items, i))
      invariant stream.bytesWritten == old(stream.bytesWritten) + |done|
      invariant stream.buf != null ==> stream.Out() == old(stream.Out()) + done
    {
      ghost var one := Then(Some(Tag(f.tag, WireType(f.ltype))), EncCell(f, items[i]));
      ThenMoves(whole, done, one, EncTagged(f, items, i + 1));
      ok := EncodeItem(stream, f, items[i]);
      if !ok { return false; }
      done := done + one.value;
    }
    ThenDone(done);
    return true;
  }

  /** pb_encode_tag_for_field, and then the item. */
  method EncodeItem(stream: OStream, f: Field, c: Cell) returns (ok: bool)
    requires stream.Valid() && CellOk(f, c)
    modifies stream, stream.buf
    ensures stream.Valid()
    ensures stream.Wrote(ok, Then(Some(Tag(f.tag, WireType(f.ltype))), EncCell(f, c)), old(stream.bytesWritten), old(stream.Out()))
    decreases f, 1
  {
    hide EncCell, CellOk, Tag;
    ok := EncodeTag(stream, WireType(f.ltype), f.tag);
    if !ok { return false; }
    ok := EncodeCell(stream, f, c);
    if ok {
      ghost var t, one := Tag(f.tag, WireType(f.ltype)), EncCell(f, c).value;
      assert old(stream.Out()) + t + one == old(stream.Out()) + (t + one);
    }
  }

  /** encode_basic_field. */
  method EncodeField(stream: OStream, f: Field, s: Slot) returns (ok: bool)
    requires stream.Valid() && SlotOk(f, s)
    modifies stream, stream.buf
    ensures stream.Valid()
    ensures stream.Wrote(ok, EncField(f, s), old(stream.bytesWritten), old(stream.Out()))
    decreases f, 4
  {
    hide EncCell, CellOk, Tag, EncArray, IsDefault, Then;
    match f.rule {
      case Required =>
        ok := EncodeItem(stream, f, s.cell);
      case Optional =>
        ok := true;
        if s.has { ok := EncodeItem(stream, f, s.cell); }
      case Singular =>
        ok := true;
        if !IsDefault(f, s) { ok := EncodeItem(stream, f, s.cell); }
      case Repeated =>
        ok := EncodeArray(stream, f, s.items);
      case FixedCount =>
        ok := EncodeArray(stream, f, s.items);
      case Oneof(_) =>
        ok := true;
        if s.which == f.tag { ok := EncodeItem(stream, f, s.member.value); }
    }
  }

  lemma {:induction false} NoFields(fields: seq<Field>, slots: seq<Slot>)
    ensures EncFields(fields, slots, |fields|) == Some([])
  {
  }

  lemma {:induction false} FieldAt(fields: seq<Field>, slots: seq<Slot>, k: nat)
    requires k < |fields| && SlotsOk(fields, slots)
    ensures SlotOf(fields, k) < |slots| && SlotOk(fields[k], slots[SlotOf(fields, k)])
    ensures EncFields(fields, slots, k) == Then(EncField(fields[k], slots[SlotOf(fields, k)]), EncFields(fields, slots, k + 1))
  {
  }

  /** pb_encode. */
  method EncodeMessage(stream: OStream, fields: seq<Field>, slots: seq<Slot>) returns (ok: bool)
    requires stream.Valid() && SlotsOk(fields, slots)
    modifies stream, stream.buf
    ensures stream.Valid()
    ensures stream.Wrote(ok, Encode(fields, slots), old(stream.bytesWritten), old(stream.Out()))
    decreases fields, 5, 0
  {
    hide EncField, EncFields, Then, SlotOf, SlotsOk, SlotOk, RequiredBefore, Find;
    NoFields(fields, slots);
    var iter := new FieldIter(fields);
    if fields == [] { return true; }
    ghost var whole, done := Encode(fields, slots), [];
    ThenNothing(whole);
    var more := true;
    while more
      modifies stream, stream.buf, iter
      invariant stream.Valid() && iter.Valid()
      invariant whole == Then(Some(done), EncFields(fields, slots, if more then iter.pos else |fields|))
      invariant stream.bytesWritten == old(stream.bytesWritten) + |done|
      invariant stream.buf != null ==> stream.Out() == old(stream.Out()) + done
      decreases if more then |fields| - iter.pos else 0
    {
      ghost var k := iter.pos;
      FieldAt(fields, slots, k);
      ghost var one := EncField(fields[k], slots[SlotOf(fields, k)]);
      ThenMoves(whole, done, one, EncFields(fields, slots, k + 1));
      ok := EncodeField(stream, fields[iter.pos], slots[iter.slot]);
      if !ok { return false; }
      done := done + one.value;
      more := iter.Next();
    }
    ThenDone(done);
    return true;
  }

  /** pb_get_encoded_size. */
  method EncodedSize(fields: seq<Field>, slots: seq<Slot>) returns (ok: bool, size: nat)
    requires SlotsOk(fields, slots)
    ensures ok == Encode(fields, slots).Some?
    ensures ok ==> size == |Encode(fields, slots).value|
  {
    hide Encode, SlotsOk;
    var stream := new OStream.Sizing();
    ok := EncodeMessage(stream, fields, slots);
    size := stream.bytesWritten;
  }
}
