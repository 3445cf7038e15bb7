/** The wire format of Protocol Buffers (developers' guide "Encoding"), written down as a grammar of
    bytes, and that the codec writes exactly that and reads whatever is written so. */
module PbGrammar {
  import opened Words
  import opened Digits
  import opened PbVarint
  import opened PbMessage
  import PbRoundTrip

  // ------------------------------------------------------------- numbers

  /** The value of seven-bit digits, low ones first. */
  function Sevens(bs: seq<Byte>): nat {
    if bs == [] then 0 else bs[0] % 128 + 128 * Sevens(bs[1..])
  }

  /** A base 128 varint: every byte but the last has its top bit set, and there is no digit too many. */
  predicate Base128(bs: seq<Byte>, v: nat) {
    && bs != [] && Sevens(bs) == v
    && (forall i :: 0 <= i < |bs| - 1 ==> bs[i] >= 128)
    && bs[|bs| - 1] < 128 && (|bs| > 1 ==> bs[|bs| - 1] != 0)
  }

  lemma {:induction false} VarintIs(v: nat)
    ensures Base128(Varint(v), v)
  {
    if v >= 128 {
      VarintIs(v / 128);
      var rest := Varint(v / 128);
      var bs := Varint(v);
      assert bs[1..] == rest;
      forall i | 0 <= i < |bs| - 1 ensures bs[i] >= 128 { if i > 0 { assert bs[i] == rest[i - 1]; } }
      if |rest| == 1 { VarintFirst(v / 128); }
    } else {
      assert [v][1..] == [];
    }
  }

  /** A number has only one varint. */
  lemma {:induction false} Base128Only(bs: seq<Byte>, v: nat)
    requires Base128(bs, v)
    ensures bs == Varint(v)
    decreases |bs|
  {
    hide Sevens, Varint;
    var rest := bs[1..];
    SevensFirst(bs);
    if rest == [] {
      SevensNone();
      VarintFirst(v);
      assert bs == [bs[0]];
    } else {
      assert rest[|rest| - 1] == bs[|bs| - 1];
      forall i | 0 <= i < |rest| - 1 ensures rest[i] >= 128 { assert rest[i] == bs[i + 1]; }
      Base128Only(rest, Sevens(rest));
      SevensPositive(rest);
      SplitSevens(bs[0] % 128, Sevens(rest));
      VarintFirst(v);
      assert bs == [bs[0]] + rest && bs[0] >= 128;
    }
  }

  lemma {:induction false} SevensNone()
    ensures Sevens([]) == 0
  {
  }

  lemma {:induction false} SevensFirst(bs: seq<Byte>)
    requires bs != []
    ensures Sevens(bs) == bs[0] % 128 + 128 * Sevens(bs[1..])
  {
  }

  lemma {:induction false} VarintFirst(v: nat)
    ensures Varint(v) == if v < 128 then [v] else [v % 128 + 128] + Varint(v / 128)
  {
  }

  lemma {:induction false} SplitSevens(a: nat, b: nat)
    requires a < 128
    ensures (a + 128 * b) % 128 == a && (a + 128 * b) / 128 == b
  {
  }

  lemma {:induction false} SevensPositive(bs: seq<Byte>)
    requires bs != [] && bs[|bs| - 1] != 0 && bs[|bs| - 1] < 128
    ensures Sevens(bs) > 0
  {
    if |bs| > 1 {
      assert bs[1..][|bs| - 2] == bs[|bs| - 1];
      SevensPositive(bs[1..]);
    } else {
      assert bs[1..] == [];
    }
  }

  /** A number in n bytes, low byte first. */
  predicate LowFirst(bs: seq<Byte>, v: nat, n: nat) {
    |bs| == n && forall i :: 0 <= i < n ==> bs[i] == Digit(v, 256, i)
  }

  lemma {:induction false} LittleEndianIs(v: nat, n: nat)
    ensures LowFirst(LittleEndian(v, n), v, n)
  {
    hide Digit;
    var bs := LittleEndian(v, n);
    forall i | 0 <= i < n ensures bs[i] == Digit(v, 256, i) {
      if i == 0 {
        DigitFirst(v);
      } else {
        LittleEndianIs(v / 256, n - 1);
        assert bs[i] == LittleEndian(v / 256, n - 1)[i - 1];
        DigitNext(v, i);
      }
    }
  }

  lemma {:induction false} DigitFirst(v: nat)
    ensures Digit(v, 256, 0) == v % 256
  {
  }

  lemma {:induction false} DigitNext(v: nat, i: nat)
    requires i > 0
    ensures Digit(v, 256, i) == Digit(v / 256, 256, i - 1)
  {
  }

  lemma {:induction false} LowFirstOnly(bs: seq<Byte>, v: nat, n: nat)
    requires LowFirst(bs, v, n)
    ensures bs == LittleEndian(v, n)
  {
    hide Digit;
    LittleEndianIs(v, n);
  }

  // ------------------------------------------------------------- payloads and keys

  predicate IntegerSize(n: nat) { n == 1 || n == 2 || n == 4 || n == 8 }

  /** An integer of the field's type: varints for the plain types, negative ones as their 64-bit
      two's complement; twice the number, or minus twice less one, for the zigzag type; four or
      eight bytes for the fixed ones. */
  predicate Scalar(f: Field, v: int, bs: seq<Byte>) {
    match f.ltype
    case LVarint => IntegerSize(f.dataSize) && -0x8000_0000_0000_0000 <= v && Base128(bs, if v >= 0 then v else v + 0x1_0000_0000_0000_0000)
    case LUvarint => IntegerSize(f.dataSize) && v >= 0 && Base128(bs, v)
    case LSvarint => IntegerSize(f.dataSize) && Base128(bs, if v >= 0 then 2 * v else -2 * v - 1)
    case LFixed32 => v >= 0 && LowFirst(bs, v, 4)
    case LFixed64 => v >= 0 && LowFirst(bs, v, 8)
    case _ => false
  }

  /** A length and that many bytes. */
  ghost predicate Prefixed(bs: seq<Byte>, body: seq<Byte>) {
    exists len: seq<Byte> :: Base128(len, |body|) && bs == len + body
  }

  /** A field's key and what follows it. */
  ghost predicate Keyed(bs: seq<Byte>, tag: nat, wireType: nat, payload: seq<Byte>) {
    exists key: seq<Byte> :: Base128(key, 8 * tag + wireType) && bs == key + payload
  }

  /** The wire type of a single value. */
  function SingleType(t: LType): nat {
    match t
    case LVarint => 0
    case LUvarint => 0
    case LSvarint => 0
    case LFixed64 => 1
    case LBytes => 2
    case LString => 2
    case LFixedBytes => 2
    case LSubmessage => 2
    case LFixed32 => 5
  }

  predicate IsScalar(t: LType) { t in {LVarint, LUvarint, LSvarint, LFixed32, LFixed64} }

  ghost predicate Payload(f: Field, c: Cell, bs: seq<Byte>)
    decreases f, 0
  {
    match c
    case Num(v) => Scalar(f, v, bs)
    case Blob(b) => f.ltype in {LBytes, LString, LFixedBytes} && (f.ltype == LBytes ==> |b| + 4 <= f.dataSize) && Prefixed(bs, b)
    case Msg(slots) => f.ltype == LSubmessage && exists body :: Prefixed(bs, body) && Message(f.sub, slots, 0, body)
  }

  ghost predicate Single(f: Field, c: Cell, bs: seq<Byte>)
    decreases f, 1
  {
    exists p :: Keyed(bs, f.tag, SingleType(f.ltype), p) && Payload(f, c, p)
  }

  /** Integers one after the other. */
  ghost predicate Scalars(f: Field, items: seq<Cell>, bs: seq<Byte>)
    decreases |items|
  {
    if items == [] then bs == []
    else items[0].Num? && exists a, b :: bs == a + b && Scalar(f, items[0].v, a) && Scalars(f, items[1..], b)
  }

  /** A packed run: one key of wire type 2, the length of the run, the integers. */
  ghost predicate Packed(f: Field, items: seq<Cell>, bs: seq<Byte>) {
    exists p, body :: Keyed(bs, f.tag, 2, p) && Prefixed(p, body) && Scalars(f, items, body)
  }

  ghost predicate Singles(f: Field, items: seq<Cell>, bs: seq<Byte>)
    decreases f, 2, |items|
  {
    if items == [] then bs == []
    else exists a, b :: bs == a + b && Single(f, items[0], a) && Singles(f, items[1..], b)
  }

  ghost predicate Items(f: Field, items: seq<Cell>, bs: seq<Byte>)
    decreases f, 3
  {
    if items == [] then bs == []
    else |items| <= f.arraySize && if IsScalar(f.ltype) then Packed(f, items, bs) else Singles(f, items, bs)
  }

  /** A proto3 field without a flag is left out exactly if it holds zero, no bytes, or a submessage
      that passes for a default one. */
  predicate LeftOut(f: Field, c: Cell) {
    match c
    case Num(v) => v == 0
    case Blob(b) => if f.ltype == LFixedBytes then f.dataSize == 0 else b == []
    case Msg(slots) => AllDefault(f.sub, slots, 0)
  }

  ghost predicate Member(f: Field, s: Slot, bs: seq<Byte>)
    decreases f, 4
  {
    match s
    case One(c) => if f.rule != Required && LeftOut(f, c) then bs == [] else Single(f, c, bs)
    case Opt(has, c) => if has then Single(f, c, bs) else bs == []
    case Rep(items) => Items(f, items, bs)
    case Fix(items, _) => Items(f, items, bs)
    case Uni(which, m) => if which == f.tag && m.Some? then Single(f, m.value, bs) else bs == []
  }

  /** The fields from k on, in the order of the table. */
  ghost predicate Message(fields: seq<Field>, slots: seq<Slot>, k: nat, bs: seq<Byte>)
    requires k <= |fields|
    decreases fields, 5, |fields| - k
  {
    if k == |fields| then bs == []
    else SlotOf(fields, k) < |slots|
         && exists a, b :: bs == a + b && Member(fields[k], slots[SlotOf(fields, k)], a) && Message(fields, slots, k + 1, b)
  }

  // ------------------------------------------------------------- the encoder writes it, and nothing else

  lemma {:induction false} ScalarIs(f: Field, v: int, bs: seq<Byte>)
    requires NumOk(f, v) && Packable(f.ltype)
    ensures EncNum(f, v) == Some(bs) <==> Scalar(f, v, bs)
  {
    hide Varint, LittleEndian, Base128, LowFirst;
    match f.ltype {
      case LVarint => if IntegerSize(f.dataSize) { VarintExactly(v % TWO64, bs); }
      case LUvarint => if IntegerSize(f.dataSize) { VarintExactly(v, bs); }
      case LSvarint => if IntegerSize(f.dataSize) { VarintExactly(ZigZag(v), bs); }
      case LFixed32 => LowFirstExactly(v, 4, bs);
      case LFixed64 => LowFirstExactly(v, 8, bs);
    }
  }

  lemma {:induction false} VarintExactly(v: nat, bs: seq<Byte>)
    ensures bs == Varint(v) <==> Base128(bs, v)
  {
    hide Varint, Base128;
    VarintIs(v);
    if Base128(bs, v) { Base128Only(bs, v); }
  }

  lemma {:induction false} LowFirstExactly(v: nat, n: nat, bs: seq<Byte>)
    ensures bs == LittleEndian(v, n) <==> LowFirst(bs, v, n)
  {
    hide LittleEndian, LowFirst;
    LittleEndianIs(v, n);
    if LowFirst(bs, v, n) { LowFirstOnly(bs, v, n); }
  }

  lemma {:induction false} PrefixedExactly(bs: seq<Byte>, body: seq<Byte>)
    requires |body| < 0x1_0000_0000_0000_0000
    ensures Prefixed(bs, body) <==> bs == Delimited(body)
  {
    hide Varint, Base128;
    VarintIs(|body|);
    if Prefixed(bs, body) {
      var len: seq<Byte> :| Base128(len, |body|) && bs == len + body;
      Base128Only(len, |body|);
    }
  }

  lemma {:induction false} KeyedExactly(bs: seq<Byte>, tag: nat, wireType: nat, payload: seq<Byte>)
    requires 8 * tag + wireType < 0x1_0000_0000_0000_0000
    ensures Keyed(bs, tag, wireType, payload) <==> bs == Tag(tag, wireType) + payload
  {
    hide Varint, Base128;
    VarintIs(8 * tag + wireType);
    if Keyed(bs, tag, wireType, payload) {
      var key: seq<Byte> :| Base128(key, 8 * tag + wireType) && bs == key + payload;
      Base128Only(key, 8 * tag + wireType);
    }
  }

  lemma {:induction false} TypesAgree(t: LType)
    ensures SingleType(t) == WireType(t) && (IsScalar(t) <==> Packable(t))
  {
  }

  lemma {:induction false} CellExactly(f: Field, c: Cell, bs: seq<Byte>)
    requires FieldOk(f) && CellOk(f, c) && |bs| < 0x1_0000_0000_0000_0000
    ensures EncCell(f, c) == Some(bs) <==> Payload(f, c, bs)
    decreases f, 0
  {
    hide EncFields, Delimited, Prefixed, EncNum, Scalar, Message;
    TypesAgree(f.ltype);
    match c {
      case Num(v) => ScalarIs(f, v, bs);
      case Blob(b) =>
        DelimitedLen(b);
        if |b| <= |bs| { PrefixedExactly(bs, b); } else { PrefixedLen(bs, b); }
      case Msg(slots) =>
        if EncCell(f, c) == Some(bs) {
          var body := EncFields(f.sub, slots, 0).value;
          DelimitedLen(body);
          PrefixedExactly(bs, body);
          MessageExactly(f.sub, slots, 0, body);
        }
        if Payload(f, c, bs) {
          var body :| Prefixed(bs, body) && Message(f.sub, slots, 0, body);
          PrefixedLen(bs, body);
          PrefixedExactly(bs, body);
          MessageExactly(f.sub, slots, 0, body);
        }
    }
  }

  lemma {:induction false} DelimitedLen(b: seq<Byte>)
    ensures |Delimited(b)| > |b|
  {
  }

  lemma {:induction false} PrefixedLen(bs: seq<Byte>, b: seq<Byte>)
    ensures Prefixed(bs, b) ==> |bs| >= |b|
  {
  }

  lemma {:induction false} SingleExactly(f: Field, c: Cell, bs: seq<Byte>)
    requires 0 < f.tag < 0x2000_0000 && FieldOk(f) && CellOk(f, c) && |bs| < 0x1_0000_0000_0000_0000
    ensures Then(Some(Tag(f.tag, WireType(f.ltype))), EncCell(f, c)) == Some(bs) <==> Single(f, c, bs)
    decreases f, 1
  {
    hide EncCell, Tag, Keyed, Payload;
    TypesAgree(f.ltype);
    if Then(Some(Tag(f.tag, WireType(f.ltype))), EncCell(f, c)) == Some(bs) {
      var p := EncCell(f, c).value;
      KeyedExactly(bs, f.tag, SingleType(f.ltype), p);
      CellExactly(f, c, p);
    }
    if Single(f, c, bs) {
      var p :| Keyed(bs, f.tag, SingleType(f.ltype), p) && Payload(f, c, p);
      KeyedExactly(bs, f.tag, SingleType(f.ltype), p);
      CellExactly(f, c, p);
    }
  }

  lemma {:induction false} ScalarsExactly(f: Field, items: seq<Cell>, i: nat, bs: seq<Byte>)
    requires i <= |items| && Packable(f.ltype) && forall k :: 0 <= k < |items| ==> CellOk(f, items[k])
    ensures EncPacked(f, items, i) == Some(bs) <==> Scalars(f, items[i..], bs)
    decreases |items| - i
  {
    hide EncNum, Scalar;
    if i < |items| {
      var v, rest := items[i].v, items[i..][1..];
      assert rest == items[i + 1..];
      if EncPacked(f, items, i) == Some(bs) {
        var a, b := EncCell(f, items[i]).value, EncPacked(f, items, i + 1).value;
        ScalarIs(f, v, a);
        ScalarsExactly(f, items, i + 1, b);
        assert bs == a + b && Scalar(f, items[i..][0].v, a) && Scalars(f, rest, b);
      }
      if Scalars(f, items[i..], bs) {
        var a, b :| bs == a + b && Scalar(f, items[i..][0].v, a) && Scalars(f, rest, b);
        ScalarIs(f, v, a);
        ScalarsExactly(f, items, i + 1, b);
      }
    }
  }

  lemma {:induction false} SinglesExactly(f: Field, items: seq<Cell>, i: nat, bs: seq<Byte>)
    requires i <= |items| && forall k :: 0 <= k < |items| ==> CellOk(f, items[k])
    requires 0 < f.tag < 0x2000_0000 && FieldOk(f) && |bs| < 0x1_0000_0000_0000_0000
    ensures EncTagged(f, items, i) == Some(bs) <==> Singles(f, items[i..], bs)
    decreases f, 2, |items| - i
  {
    hide EncCell, Single, CellOk, FieldOk;
    if i < |items| {
      var rest := items[i..][1..];
      assert rest == items[i + 1..];
      if EncTagged(f, items, i) == Some(bs) {
        var a, b := Then(Some(Tag(f.tag, WireType(f.ltype))), EncCell(f, items[i])).value, EncTagged(f, items, i + 1).value;
        SingleExactly(f, items[i], a);
        SinglesExactly(f, items, i + 1, b);
        assert bs == a + b && Single(f, items[i..][0], a) && Singles(f, rest, b);
      }
      if Singles(f, items[i..], bs) {
        var a, b :| bs == a + b && Single(f, items[i..][0], a) && Singles(f, rest, b);
        SingleExactly(f, items[i], a);
        SinglesExactly(f, items, i + 1, b);
      }
    }
  }

  lemma {:induction false} PackedExactly(f: Field, items: seq<Cell>, bs: seq<Byte>)
    requires Packable(f.ltype) && forall k :: 0 <= k < |items| ==> CellOk(f, items[k])
    requires 0 < f.tag < 0x2000_0000 && |bs| < 0x1_0000_0000_0000_0000
    ensures EncPacked(f, items, 0).Some? && Tag(f.tag, WT_STRING) + Delimited(EncPacked(f, items, 0).value) == bs <==> Packed(f, items, bs)
  {
    hide EncPacked, Scalars, Tag, Delimited, Keyed, Prefixed, CellOk;
    assert items[0..] == items;
    if EncPacked(f, items, 0).Some? && Tag(f.tag, WT_STRING) + Delimited(EncPacked(f, items, 0).value) == bs {
      var body := EncPacked(f, items, 0).value;
      var p := Delimited(body);
      DelimitedLen(body);
      KeyedExactly(bs, f.tag, 2, p);
      PrefixedExactly(p, body);
      ScalarsExactly(f, items, 0, body);
    }
    if Packed(f, items, bs) {
      var p, body :| Keyed(bs, f.tag, 2, p) && Prefixed(p, body) && Scalars(f, items, body);
      KeyedExactly(bs, f.tag, 2, p);
      PrefixedLen(p, body);
      PrefixedExactly(p, body);
      ScalarsExactly(f, items, 0, body);
    }
  }

  lemma {:induction false} ItemsExactly(f: Field, items: seq<Cell>, bs: seq<Byte>)
    requires forall k :: 0 <= k < |items| ==> CellOk(f, items[k])
    requires 0 < f.tag < 0x2000_0000 && FieldOk(f) && |bs| < 0x1_0000_0000_0000_0000
    ensures EncArray(f, items) == Some(bs) <==> Items(f, items, bs)
    decreases f, 3
  {
    hide EncPacked, EncTagged, Tag, Delimited, CellOk, FieldOk, Packed, Singles;
    TypesAgree(f.ltype);
    assert items[0..] == items;
    if items != [] && |items| <= f.arraySize {
      if Packable(f.ltype) { PackedExactly(f, items, bs); } else { SinglesExactly(f, items, 0, bs); }
    }
  }

  lemma {:induction false} MemberExactly(f: Field, s: Slot, bs: seq<Byte>)
    requires 0 < f.tag < 0x2000_0000 && FieldOk(f) && SlotOk(f, s) && |bs| < 0x1_0000_0000_0000_0000
    ensures EncField(f, s) == Some(bs) <==> Member(f, s, bs)
    decreases f, 4
  {
    hide EncArray, EncCell, Tag, CellOk, FieldOk, FrontOk, Single, Items, AllDefault;
    match s {
      case One(c) => if EncodedSingle(f, s) { SingleExactly(f, c, bs); }
      case Opt(has, c) => if has { SingleExactly(f, c, bs); }
      case Rep(items) => ItemsExactly(f, items, bs);
      case Fix(items, _) => ItemsExactly(f, items, bs);
      case Uni(which, m) => if which == f.tag && m.Some? { SingleExactly(f, m.value, bs); }
    }
  }

  /** The test of encode_basic_field is the one above. */
  predicate EncodedSingle(f: Field, s: Slot)
    requires s.One?
  {
    f.rule == Required || !LeftOut(f, s.cell)
  }

  lemma {:induction false} FieldAt(fields: seq<Field>, slots: seq<Slot>, k: nat)
    requires TableOk(fields) && SlotsOk(fields, slots) && k < |fields|
    ensures SlotOf(fields, k) < |slots| && FieldOk(fields[k]) && SlotOk(fields[k], slots[SlotOf(fields, k)])
        && 0 < fields[k].tag < 0x2000_0000
  {
    hide SlotOk, FieldOk;
  }

  lemma {:induction false} MessageExactly(fields: seq<Field>, slots: seq<Slot>, k: nat, bs: seq<Byte>)
    requires k <= |fields| && TableOk(fields) && SlotsOk(fields, slots) && |bs| < 0x1_0000_0000_0000_0000
    ensures EncFields(fields, slots, k) == Some(bs) <==> Message(fields, slots, k, bs)
    decreases fields, 5, |fields| - k
  {
    hide EncField, Member, SlotOk, FieldOk, TableOk, SlotsOk;
    if k < |fields| {
      FieldAt(fields, slots, k);
      var f, s := fields[k], slots[SlotOf(fields, k)];
      if EncFields(fields, slots, k) == Some(bs) {
        var a, b := EncField(f, s).value, EncFields(fields, slots, k + 1).value;
        MemberExactly(f, s, a);
        MessageExactly(fields, slots, k + 1, b);
        assert bs == a + b && Member(f, s, a) && Message(fields, slots, k + 1, b);
      }
      if Message(fields, slots, k, bs) {
        var a, b :| bs == a + b && Member(f, s, a) && Message(fields, slots, k + 1, b);
        MemberExactly(f, s, a);
        MessageExactly(fields, slots, k + 1, b);
      }
    }
  }

  /** The encoder's output for a message is what the grammar says, and nothing else is. */
  lemma {:induction false} WritesExactly(fields: seq<Field>, slots: seq<Slot>, bs: seq<Byte>)
    requires TableOk(fields) && SlotsOk(fields, slots) && |bs| < 0x1_0000_0000_0000_0000
    ensures Encode(fields, slots) == Some(bs) <==> Message(fields, slots, 0, bs)
  {
    hide EncFields, Message, TableOk, SlotsOk;
    MessageExactly(fields, slots, 0, bs);
  }

  // ------------------------------------------------------------- the decoder reads it

  /** Whatever is written by the grammar is read back as the message it stands for. */
  lemma {:induction false} ReadsExactly(fields: seq<Field>, slots: seq<Slot>, bs: seq<Byte>)
    requires TableOk(fields) && SlotsOk(fields, slots) && Message(fields, slots, 0, bs) && |bs| < TWO32
    ensures Decode(fields, bs) == if PbRoundTrip.TermFrom(fields, slots, 0) then Some(Read(PbRoundTrip.Norm(fields, slots), [])) else None
  {
    hide Message, TableOk, SlotsOk, Decode, Encode, PbRoundTrip.TermFrom, PbRoundTrip.Norm;
    WritesExactly(fields, slots, bs);
    PbRoundTrip.MessageBack(fields, slots);
  }

  /** A single payload, whatever follows it, is read as the item it stands for, to its last byte. */
  lemma {:induction false} PayloadTaken(f: Field, c: Cell, bs: seq<Byte>, rest: seq<Byte>)
    requires FieldOk(f) && CellOk(f, c) && Payload(f, c, bs) && |bs| < TWO32
    ensures DecCell(f, DefaultCell(f), bs + rest) == if PbRoundTrip.TermCell(f, c) then Some(Read(PbRoundTrip.NormCell(f, c), rest)) else None
  {
    hide Payload, FieldOk, CellOk, DecCell, EncCell, PbRoundTrip.TermCell, PbRoundTrip.NormCell;
    CellExactly(f, c, bs);
    PbRoundTrip.CellBack(f, c, rest);
  }

  /** Bytes and strings, whoever wrote them: taken if they fit the field with its count of four bytes or
      its NUL, a string up to its first NUL; a field of fixed length takes exactly that many, or none. */
  lemma {:induction false} BytesTaken(f: Field, b: seq<Byte>, bs: seq<Byte>, rest: seq<Byte>)
    requires f.ltype in {LBytes, LString, LFixedBytes} && Prefixed(bs, b) && |b| < 0x1_0000_0000
    ensures var r := DecBlob(f, bs + rest);
      && (f.ltype == LBytes ==> r == if |b| + 4 <= f.dataSize then Some(Read(b, rest)) else None)
      && (f.ltype == LFixedBytes && b != [] ==> r == if |b| == f.dataSize then Some(Read(b, rest)) else None)
      && (f.ltype == LFixedBytes && b == [] ==> r == Some(Read(seq(f.dataSize, _ => 0), rest)))
      && (f.ltype == LString ==>
            && (r.Some? <==> |b| + 1 <= f.dataSize)
            && (r.Some? ==> r.value.rest == rest && r.value.value <= b && 0 !in r.value.value
                            && (|r.value.value| < |b| ==> b[|r.value.value|] == 0)))
  {
    hide Prefixed, ReadVarint32, UpToNul;
    PrefixedExactly(bs, b);
    PbRoundTrip.DelimitedBack(b, rest);
    CutAtNul(b);
  }

  lemma {:induction false} CutAtNul(b: seq<Byte>)
    ensures var t := UpToNul(b); t <= b && 0 !in t && (|t| < |b| ==> b[|t|] == 0)
  {
    if b != [] && b[0] != 0 {
      CutAtNul(b[1..]);
      assert b == [b[0]] + b[1..];
    }
  }

  /** The four wire types that are skipped, each by its own rule; any other is refused. */
  lemma {:induction false} SkipsExactly(bs: seq<Byte>, body: seq<Byte>, rest: seq<Byte>)
    ensures bs != [] && (forall i :: 0 <= i < |bs| - 1 ==> bs[i] >= 128) && bs[|bs| - 1] < 128 ==> Skip(0, bs + rest) == Some(rest)
    ensures |bs| == 8 ==> Skip(1, bs + rest) == Some(rest)
    ensures Prefixed(bs, body) && |body| < 0x1_0000_0000 ==> Skip(2, bs + rest) == Some(rest)
    ensures |bs| == 4 ==> Skip(5, bs + rest) == Some(rest)
    ensures forall w: nat :: w !in {0, 1, 2, 5} ==> Skip(w, bs) == None
  {
    hide Varint, Prefixed, SkipVarint, ReadDelimited, Delimited;
    assert |bs| == 8 ==> (bs + rest)[8..] == rest;
    assert |bs| == 4 ==> (bs + rest)[4..] == rest;
    if bs != [] && (forall i :: 0 <= i < |bs| - 1 ==> bs[i] >= 128) && bs[|bs| - 1] < 128 { SkipsVarint(bs, rest); }
    if Prefixed(bs, body) && |body| < 0x1_0000_0000 {
      PrefixedExactly(bs, body);
      PbRoundTrip.DelimitedBack(body, rest);
    }
  }

  lemma {:induction false} SkipsVarint(bs: seq<Byte>, rest: seq<Byte>)
    requires bs != [] && (forall i :: 0 <= i < |bs| - 1 ==> bs[i] >= 128) && bs[|bs| - 1] < 128
    ensures SkipVarint(bs + rest) == Some(rest)
  {
    assert (bs + rest)[1..] == bs[1..] + rest;
    if |bs| > 1 {
      assert bs[1..][|bs| - 2] == bs[|bs| - 1];
      SkipsVarint(bs[1..], rest);
    } else {
      assert [] + rest == rest && bs[1..] == [];
    }
  }

  /** Bytes that wire type w announces. */
  ghost predicate Announced(w: nat, bs: seq<Byte>) {
    match w
    case 0 => bs != [] && (forall i :: 0 <= i < |bs| - 1 ==> bs[i] >= 128) && bs[|bs| - 1] < 128
    case 1 => |bs| == 8
    case 2 => exists body: seq<Byte> :: |body| < 0x1_0000_0000 && Prefixed(bs, body)
    case 5 => |bs| == 4
    case _ => false
  }

  /** A field whose tag the table does not have is passed over as a whole, with any of the four wire
      types, and decoding goes on behind it. */
  lemma {:induction false} UnknownPassed(fields: seq<Field>, p: Progress, tag: nat, w: nat, field: seq<Byte>,
      payload: seq<Byte>, rest: seq<Byte>)
    requires 0 < tag < 0x2000_0000 && (forall i :: 0 <= i < |fields| ==> fields[i].tag != tag)
    requires Announced(w, payload) && Keyed(field, tag, w, payload)
    ensures DecLoop(fields, p, field + rest) == DecLoop(fields, p, rest)
  {
    hide Tag, Keyed, Skip, Find, DecOne;
    KeyedExactly(field, tag, w, payload);
    var n := 8 * tag + w;
    TagIs(tag, w);
    ReadWritten32(n, payload + rest);
    assert field + rest == Varint(n) + (payload + rest);
    if w == 2 {
      var body: seq<Byte> :| |body| < 0x1_0000_0000 && Prefixed(payload, body);
      SkipsExactly(payload, body, rest);
    } else {
      SkipsExactly(payload, [], rest);
    }
    NotFound(fields, tag);
  }

  lemma {:induction false} TagIs(tag: nat, w: nat)
    requires tag < 0x2000_0000 && w < 8
    ensures Tag(tag, w) == Varint(8 * tag + w) && 8 * tag + w < TWO32 && (8 * tag + w) / 8 == tag
        && (8 * tag + w) % 8 == w
  {
  }

  lemma {:induction false} NotFound(fields: seq<Field>, tag: nat)
    requires forall i :: 0 <= i < |fields| ==> fields[i].tag != tag
    ensures Find(fields, tag) == |fields|
  {
  }

  /** A packed run in an array that has room for it, whoever wrote it, is appended whole. */
  lemma {:induction false} PackedTaken(f: Field, s: Slot, items: seq<Cell>, bs: seq<Byte>, body: seq<Byte>,
      rest: seq<Byte>)
    requires (s.Rep? || s.Fix?) && IsScalar(f.ltype) && (forall k :: 0 <= k < |items| ==> CellOk(f, items[k]))
    requires Prefixed(bs, body) && |body| < 0x1_0000_0000 && Scalars(f, items, body)
        && |s.items| + |items| <= f.arraySize
    ensures DecField(f, 2, s, bs + rest) == Some(Read(WithItems(s, s.items + items), rest))
  {
    hide DecPacked, Scalars, Prefixed, Delimited, CellOk, ReadDelimited, WithItems;
    TypesAgree(f.ltype);
    PrefixedExactly(bs, body);
    PbRoundTrip.DelimitedBack(body, rest);
    ScalarsTaken(f, s.items, items, body);
  }

  lemma {:induction false} ScalarsTaken(f: Field, was: seq<Cell>, items: seq<Cell>, body: seq<Byte>)
    requires Packable(f.ltype) && (forall k :: 0 <= k < |items| ==> CellOk(f, items[k])) && Scalars(f, items, body) && |was| + |items| <= f.arraySize
    ensures DecPacked(f, was, body) == Some(was + items)
    decreases |items|
  {
    hide DecNum, Scalar, EncNum;
    if items == [] {
      assert was + items == was;
    } else {
      var a, b :| body == a + b && Scalar(f, items[0].v, a) && Scalars(f, items[1..], b);
      ScalarIs(f, items[0].v, a);
      PbRoundTrip.NumBack(f, items[0].v, b);
      PbRoundTrip.EncNumNonempty(f, items[0].v);
      ScalarsTaken(f, was + [items[0]], items[1..], b);
      assert was + [items[0]] + items[1..] == was + items;
    }
  }
}
