/** The nanopb field table, the message struct it describes, and what encoding and decoding
    do to them, as functions.  The stream classes and the methods of PbEncode and PbDecode
    are proved against these functions; PbRoundTrip proves what they promise. */
module PbMessage {
  import opened Words
  import opened PbVarint

  // ------------------------------------------------------------- descriptors

  datatype LType =
    | LVarint | LUvarint | LSvarint | LFixed32 | LFixed64   // packable
    | LBytes | LString | LSubmessage | LFixedBytes

  /** PB_HTYPE together with whether size_offset is zero. */
  datatype Rule =
    | Required
    | Optional               // has_ flag
    | Singular               // optional without has_ flag (proto3)
    | Repeated               // _count member
    | FixedCount             // repeated without _count member
    | Oneof(sameUnion: bool) // which_ member; sameUnion: shares the previous field's union

  datatype Field = Field(
    tag: nat, rule: Rule, ltype: LType, dataSize: nat, arraySize: nat,
    sub: seq<Field>, init: Option<Cell>)

  // ------------------------------------------------------------- struct values

  /** One stored item: an integer, a byte string (a C string without its NUL), a submessage. */
  datatype Cell = Num(v: int) | Blob(b: seq<Byte>) | Msg(slots: seq<Slot>)

  /** One member of the struct: a field with its has_ flag or count, or a whole union with
      its which_ member.  A repeated slot holds its first `count` items; a fixed-count slot
      holds the items received so far (all of them, in a complete struct).  `front` are the
      bytes of memory where a fixed-count array begins, as many as a pb_size_t has: in a struct
      to be encoded they agree with the items, in a decoded one they are what the defaults
      wrote there, or [] once items are being received. */
  datatype Slot =
    | One(cell: Cell)
    | Opt(has: bool, cell: Cell)
    | Rep(items: seq<Cell>)
    | Fix(items: seq<Cell>, front: seq<Byte>)
    | Uni(which: nat, member: Option<Cell>)

  const WT_VARINT := 0
  const WT_64BIT := 1
  const WT_STRING := 2
  const WT_32BIT := 5

  /** sizeof(pb_size_t), as PB_FIELD_32BIT makes it. */
  const SIZE_T := 4

  /** offsetof(pb_bytes_array_t, bytes). */
  const BYTES_OFFSET := SIZE_T

  const ZERO_FRONT: seq<Byte> := [0, 0, 0, 0]

  const MAX_REQUIRED_FIELDS := 64

  predicate Packable(t: LType) {
    t.LVarint? || t.LUvarint? || t.LSvarint? || t.LFixed32? || t.LFixed64?
  }

  function WireType(t: LType): (w: nat)
    ensures w < 8
  {
    match t
    case LVarint => WT_VARINT
    case LUvarint => WT_VARINT
    case LSvarint => WT_VARINT
    case LFixed32 => WT_32BIT
    case LFixed64 => WT_64BIT
    case _ => WT_STRING
  }

  /** Whether field k lives in the same union as field k-1. */
  predicate SharesSlot(fields: seq<Field>, k: nat)
    requires k < |fields|
  {
    k > 0 && fields[k - 1].rule.Oneof? && fields[k].rule.Oneof? && fields[k].rule.sameUnion
  }

  /** Index of field k's struct member: what pData and pSize stand for. */
  function SlotOf(fields: seq<Field>, k: nat): (s: nat)
    requires k < |fields|
    ensures s <= k
  {
    if k == 0 then 0 else SlotOf(fields, k - 1) + (if SharesSlot(fields, k) then 0 else 1)
  }

  function SlotCount(fields: seq<Field>): (n: nat) {
    if fields == [] then 0 else SlotOf(fields, |fields| - 1) + 1
  }

  /** Two fields share a struct member only inside one union. */
  lemma {:induction false} SlotOfMonotone(fields: seq<Field>, j: nat, k: nat)
    requires j <= k < |fields|
    ensures SlotOf(fields, j) <= SlotOf(fields, k) < SlotCount(fields)
    ensures j < k && SlotOf(fields, j) == SlotOf(fields, k) ==> fields[j].rule.Oneof? && fields[k].rule.Oneof?
    decreases |fields| - j, k
  {
    SlotOfBound(fields, k);
    if j < k { SlotOfMonotone(fields, j, k - 1); }
  }

  lemma {:induction false} SlotOfBound(fields: seq<Field>, k: nat)
    requires k < |fields|
    ensures SlotOf(fields, k) < SlotCount(fields)
    decreases |fields| - k
  {
    if k + 1 < |fields| { SlotOfBound(fields, k + 1); }
  }

  /** required_field_index at field k. */
  function RequiredBefore(fields: seq<Field>, k: nat): (n: nat)
    requires k <= |fields|
    ensures n <= k
  {
    if k == 0 then 0 else RequiredBefore(fields, k - 1) + (if fields[k - 1].rule.Required? then 1 else 0)
  }

  /** The first field with this tag, or |fields|. */
  function FindFrom(fields: seq<Field>, tag: nat, k: nat): (i: nat)
    requires k <= |fields|
    ensures k <= i <= |fields|
    ensures i < |fields| ==> fields[i].tag == tag
    ensures forall j :: k <= j < i ==> fields[j].tag != tag
    decreases |fields| - k
  {
    if k == |fields| || fields[k].tag == tag then k else FindFrom(fields, tag, k + 1)
  }

  function Find(fields: seq<Field>, tag: nat): (i: nat)
    ensures i <= |fields|
    ensures i < |fields| ==> fields[i].tag == tag
    ensures forall j :: 0 <= j < i ==> fields[j].tag != tag
  {
    FindFrom(fields, tag, 0)
  }

  /** What the table generator guarantees: distinct non-zero tags that fit on the wire, and a
      default value for a proto3 field only of zero. */
  ghost predicate TableOk(fields: seq<Field>)
  {
    && (forall i :: 0 <= i < |fields| ==> 0 < fields[i].tag < 0x2000_0000)
    && (forall i, j :: 0 <= i < j < |fields| ==> fields[i].tag != fields[j].tag)
    && (forall i :: 0 <= i < |fields| ==> FieldOk(fields[i]))
  }

  ghost predicate FieldOk(f: Field)
  {
    (f.rule.Singular? ==> f.init.None?) && TableOk(f.sub)
  }

  // ------------------------------------------------------------- integers

  /** 2^(8*size), or 0 for a size no integer type has. */
  function Width(size: nat): nat {
    match size
    case 1 => 0x100
    case 2 => 0x1_0000
    case 4 => TWO32
    case 8 => TWO64
    case _ => 0
  }

  /** Reading the low bits of v as a two's complement number of m values. */
  function Signed(v: int, m: nat): int
    requires m > 0
  {
    if v % m >= m / 2 then v % m - m else v % m
  }

  function ZigZag(v: int): (r: nat)
  {
    if v < 0 then -2 * v - 1 else 2 * v
  }

  function UnZigZag(r: nat): int
  {
    if r % 2 == 1 then -(r / 2) - 1 else r / 2
  }

  /** n little-endian bytes of v. */
  function LittleEndian(v: nat, n: nat): (bs: seq<Byte>)
    ensures |bs| == n
  {
    if n == 0 then [] else [v % 256] + LittleEndian(v / 256, n - 1)
  }

  function FromLittleEndian(bs: seq<Byte>): nat {
    if bs == [] then 0 else bs[0] + 256 * FromLittleEndian(bs[1..])
  }

  // ------------------------------------------------------------- well-typed structs

  ghost predicate NumOk(f: Field, v: int)
  {
    match f.ltype
    case LVarint => Width(f.dataSize) > 0 ==> -(Width(f.dataSize) / 2) <= v < Width(f.dataSize) / 2
    case LSvarint => Width(f.dataSize) > 0 ==> -(Width(f.dataSize) / 2) <= v < Width(f.dataSize) / 2
    case LUvarint => Width(f.dataSize) > 0 ==> 0 <= v < Width(f.dataSize)
    case LFixed32 => 0 <= v < TWO32
    case _ => 0 <= v < TWO64
  }

  /** Byte j of the storage of an item, where the item determines it: what is behind the NUL of
      a string or the end of a byte string can be anything, and where the members of a
      submessage lie is not modelled. */
  function Stored(f: Field, c: Cell, j: nat): Option<Byte> {
    match c
    case Num(v) =>
      var w := Width(f.dataSize);
      if w == 0 || j >= f.dataSize then None else Some(LittleEndian(v % w, f.dataSize)[j])
    case Blob(b) =>
      if f.ltype.LBytes? then
        if j < SIZE_T then Some(LittleEndian(|b|, SIZE_T)[j]) else if j - SIZE_T < |b| then Some(b[j - SIZE_T]) else None
      else if j < |b| then Some(b[j])
      else if f.ltype.LString? && j == |b| then Some(0)
      else None
    case Msg(_) => None
  }

  /** The size of a fixed-count array. */
  function ArrayBytes(f: Field): nat { f.dataSize * f.arraySize }

  /** The bytes at the start of an array agree with its items; those behind a shorter array can
      be anything. */
  ghost predicate FrontOk(f: Field, items: seq<Cell>, front: seq<Byte>)
  {
    |front| == SIZE_T &&
    forall i, j :: 0 <= i < |items| && 0 <= j < f.dataSize && i * f.dataSize + j < SIZE_T && Stored(f, items[i], j).Some?
      ==> Some(front[i * f.dataSize + j]) == Stored(f, items[i], j)
  }

  /** c is a value of f's C type. */
  ghost predicate CellOk(f: Field, c: Cell)
    decreases f, 0
  {
    match f.ltype
    case LBytes => c.Blob? && |c.b| < TWO32
    case LString => c.Blob? && |c.b| <= f.dataSize && 0 !in c.b
    case LFixedBytes => c.Blob? && |c.b| == f.dataSize
    case LSubmessage => c.Msg? && SlotsOk(f.sub, c.slots)
    case _ => c.Num? && NumOk(f, c.v)
  }

  ghost predicate SlotOk(f: Field, s: Slot)
    decreases f, 1
  {
    match f.rule
    case Required => s.One? && CellOk(f, s.cell)
    case Singular => s.One? && CellOk(f, s.cell)
    case Optional => s.Opt? && CellOk(f, s.cell)
    case Repeated => s.Rep? && |s.items| < TWO32 && forall i :: 0 <= i < |s.items| ==> CellOk(f, s.items[i])
    case FixedCount =>
      s.Fix? && |s.items| == f.arraySize && FrontOk(f, s.items, s.front) && forall i :: 0 <= i < |s.items| ==> CellOk(f, s.items[i])
    case Oneof(_) => s.Uni? && s.which < TWO32 && (s.which == f.tag ==> s.member.Some? && CellOk(f, s.member.value))
  }

  ghost predicate SlotsOk(fields: seq<Field>, slots: seq<Slot>)
    decreases fields, 2
  {
    |slots| == SlotCount(fields) &&
    forall k :: 0 <= k < |fields| ==> SlotOf(fields, k) < |slots| && SlotOk(fields[k], slots[SlotOf(fields, k)])
  }

  // ------------------------------------------------------------- defaults

  function Zeros(n: nat): (z: seq<Byte>)
    ensures |z| == n
  {
    seq(n, _ => 0)
  }

  /** pb_field_set_to_default on one item. */
  function DefaultCell(f: Field): Cell
    decreases f, 0
  {
    match f.ltype
    case LSubmessage => Msg(Defaults(f.sub))
    case LBytes => if f.init.Some? then f.init.value else Blob([])
    case LString => if f.init.Some? then f.init.value else Blob([])
    case LFixedBytes => if f.init.Some? then f.init.value else Blob(Zeros(f.dataSize))
    case _ => if f.init.Some? then f.init.value else Num(0)
  }

  function DefaultSlot(f: Field): Slot
    decreases f, 1
  {
    match f.rule
    case Required => One(DefaultCell(f))
    case Singular => One(DefaultCell(f))
    case Optional => Opt(false, DefaultCell(f))
    case Repeated => Rep([])
    case FixedCount => Fix([], ZERO_FRONT)
    case Oneof(_) => Uni(0, None)
  }

  /** pb_message_set_to_defaults over the first k fields. */
  function DefaultsUpTo(fields: seq<Field>, k: nat): (slots: seq<Slot>)
    requires k <= |fields|
    ensures |slots| == if k == 0 then 0 else SlotOf(fields, k - 1) + 1
    decreases fields, 2, k
  {
    if k == 0 then []
    else
      var before := DefaultsUpTo(fields, k - 1);
      if SharesSlot(fields, k - 1) then before else before + [DefaultSlot(fields[k - 1])]
  }

  function Defaults(fields: seq<Field>): (slots: seq<Slot>)
    ensures |slots| == SlotCount(fields)
    decreases fields, 3
  {
    DefaultsUpTo(fields, |fields|)
  }

  // ------------------------------------------------------------- encoding

  /** Runs a second encoder after a first. */
  function Then(a: Option<seq<Byte>>, b: Option<seq<Byte>>): Option<seq<Byte>> {
    if a.Some? && b.Some? then Some(a.value + b.value) else None
  }

  function Tag(tag: nat, wireType: nat): seq<Byte> {
    Varint((8 * tag + wireType) % TWO64)
  }

  /** A length (cast to uint64) and that many bytes. */
  function Delimited(body: seq<Byte>): seq<Byte> {
    Varint(|body| % TWO64) + body
  }

  /** pb_enc_varint, pb_enc_uvarint, pb_enc_svarint, pb_enc_fixed32, pb_enc_fixed64. */
  function EncNum(f: Field, v: int): Option<seq<Byte>>
  {
    match f.ltype
    case LFixed32 => Some(LittleEndian(v % TWO32, 4))
    case LFixed64 => Some(LittleEndian(v % TWO64, 8))
    case LSvarint => if Width(f.dataSize) == 0 then None else Some(Varint(ZigZag(v)))
    case _ => if Width(f.dataSize) == 0 then None else Some(Varint(v % TWO64))
  }

  /** The PB_ENCODERS entry of f applied to one item. */
  function EncCell(f: Field, c: Cell): Option<seq<Byte>>
    decreases f, 0
  {
    match c
    case Num(v) => if Packable(f.ltype) then EncNum(f, v) else None
    case Msg(slots) =>
      if !f.ltype.LSubmessage? then None
      else
        var body := EncFields(f.sub, slots, 0);
        if body.None? then None else Some(Delimited(body.value))
    case Blob(b) =>
      if f.ltype.LBytes? && |b| + BYTES_OFFSET > f.dataSize then None
      else if f.ltype.LBytes? || f.ltype.LString? || f.ltype.LFixedBytes? then Some(Delimited(b))
      else None
  }

  /** The items from i on, one after the other, without tags. */
  function EncPacked(f: Field, items: seq<Cell>, i: nat): Option<seq<Byte>>
    requires i <= |items|
    decreases f, 1, |items| - i
  {
    if i == |items| then Some([]) else Then(EncCell(f, items[i]), EncPacked(f, items, i + 1))
  }

  /** The items from i on, each with its tag. */
  function EncTagged(f: Field, items: seq<Cell>, i: nat): Option<seq<Byte>>
    requires i <= |items|
    decreases f, 1, |items| - i
  {
    if i == |items| then Some([])
    else Then(Then(Some(Tag(f.tag, WireType(f.ltype))), EncCell(f, items[i])), EncTagged(f, items, i + 1))
  }

  /** encode_array. */
  function EncArray(f: Field, items: seq<Cell>): Option<seq<Byte>>
    decreases f, 2
  {
    if items == [] then Some([])
    else if |items| > f.arraySize then None
    else if Packable(f.ltype) then
      var body := EncPacked(f, items, 0);
      if body.None? then None else Some(Tag(f.tag, WT_STRING) + Delimited(body.value))
    else EncTagged(f, items, 0)
  }

  /** pb_check_proto3_default_value.  A fixed-count array has no count member, so the test
      `count == 0` reads the memory where the array itself begins. */
  function IsDefault(f: Field, s: Slot): bool
    decreases f, 1
  {
    match s
    case Opt(has, _) => !has
    case Rep(items) => |items| == 0
    case Fix(_, front) => front == ZERO_FRONT
    case Uni(which, _) => which == 0
    case One(c) =>
      if f.rule.Required? then false
      else
        match c
        case Num(v) => v == 0
        case Blob(b) => if f.ltype.LFixedBytes? then f.dataSize == 0 else b == []
        case Msg(slots) => AllDefault(f.sub, slots, 0)
  }

  function AllDefault(fields: seq<Field>, slots: seq<Slot>, k: nat): bool
    requires k <= |fields|
    decreases fields, 2, |fields| - k
  {
    if k == |fields| then true
    else SlotOf(fields, k) < |slots|
         && IsDefault(fields[k], slots[SlotOf(fields, k)])
         && AllDefault(fields, slots, k + 1)
  }

  /** Whether encode_basic_field writes anything for a field with a single item. */
  function Present(f: Field, s: Slot): bool {
    match s
    case One(_) => f.rule.Required? || !IsDefault(f, s)
    case Opt(has, _) => has
    case Uni(which, member) => which == f.tag && member.Some?
    case _ => false
  }

  function ItemOf(s: Slot): Cell
    requires s.One? || s.Opt? || (s.Uni? && s.member.Some?)
  {
    match s
    case One(c) => c
    case Opt(_, c) => c
    case Uni(_, m) => m.value
  }

  /** encode_basic_field. */
  function EncField(f: Field, s: Slot): Option<seq<Byte>>
    decreases f, 3
  {
    if s.Rep? || s.Fix? then EncArray(f, s.items)
    else if Present(f, s) then Then(Some(Tag(f.tag, WireType(f.ltype))), EncCell(f, ItemOf(s)))
    else Some([])
  }

  /** The loop of pb_encode, from field k on. */
  function EncFields(fields: seq<Field>, slots: seq<Slot>, k: nat): Option<seq<Byte>>
    requires k <= |fields|
    decreases fields, 4, |fields| - k
  {
    if k == |fields| then Some([])
    else if SlotOf(fields, k) >= |slots| then None
    else Then(EncField(fields[k], slots[SlotOf(fields, k)]), EncFields(fields, slots, k + 1))
  }

  function Encode(fields: seq<Field>, slots: seq<Slot>): Option<seq<Byte>> {
    EncFields(fields, slots, 0)
  }

  // ------------------------------------------------------------- decoding

  /** The uint64 from the wire as a value of f's C type: pb_dec_varint, pb_dec_uvarint and
      pb_dec_svarint refuse what the type cannot hold. */
  function Narrow(f: Field, u: nat): Option<int>
  {
    var w := Width(f.dataSize);
    if w == 0 then None
    else
      var wide :=
        if f.ltype.LVarint? then Signed(u, if f.dataSize == 8 then TWO64 else TWO32)
        else if f.ltype.LSvarint? then UnZigZag(u)
        else u;
      var stored := if f.ltype.LUvarint? then wide % w else Signed(wide, w);
      if stored != wide then None else Some(stored)
  }

  /** The numeric entries of PB_DECODERS. */
  function DecNum(f: Field, bs: seq<Byte>): (r: Option<Read<int>>)
    ensures r.Some? ==> |r.value.rest| < |bs|
  {
    if f.ltype.LFixed32? then
      if |bs| < 4 then None else Some(Read(FromLittleEndian(bs[..4]), bs[4..]))
    else if f.ltype.LFixed64? then
      if |bs| < 8 then None else Some(Read(FromLittleEndian(bs[..8]), bs[8..]))
    else
      var r := ReadVarint(bs);
      if r.None? then None
      else
        var v := Narrow(f, r.value.value);
        if v.None? then None else Some(Read(v.value, r.value.rest))
  }

  /** pb_make_string_substream: the length-delimited body, and what follows it. */
  function ReadDelimited(bs: seq<Byte>): (r: Option<Read<seq<Byte>>>)
    ensures r.Some? ==> |r.value.rest| < |bs| && |r.value.value| < |bs|
  {
    var n := ReadVarint32(bs);
    if n.None? || n.value.value > |n.value.rest| then None
    else Some(Read(n.value.rest[..n.value.value], n.value.rest[n.value.value..]))
  }

  /** pb_dec_bytes, pb_dec_string, pb_dec_fixed_length_bytes.  A C string ends at its first NUL. */
  function DecBlob(f: Field, bs: seq<Byte>): (r: Option<Read<seq<Byte>>>)
    ensures r.Some? ==> |r.value.rest| < |bs|
  {
    var n := ReadVarint32(bs);
    if n.None? then None
    else if f.ltype.LFixedBytes? && n.value.value == 0 then Some(Read(Zeros(f.dataSize), n.value.rest))
    else if f.ltype.LFixedBytes? && n.value.value != f.dataSize then None
    else if f.ltype.LBytes? && n.value.value + BYTES_OFFSET > f.dataSize then None
    else if f.ltype.LString? && n.value.value + 1 > f.dataSize then None
    else if n.value.value > |n.value.rest| then None
    else
      var body := n.value.rest[..n.value.value];
      Some(Read(if f.ltype.LString? then UpToNul(body) else body, n.value.rest[n.value.value..]))
  }

  function UpToNul(s: seq<Byte>): (t: seq<Byte>)
    ensures 0 !in t && |t| <= |s|
  {
    if s == [] || s[0] == 0 then [] else [s[0]] + UpToNul(s[1..])
  }

  /** The PB_DECODERS entry of f, applied to an item that holds `was`. */
  function DecCell(f: Field, was: Cell, bs: seq<Byte>): (r: Option<Read<Cell>>)
    ensures r.Some? ==> |r.value.rest| < |bs|
    decreases |bs|, 0
  {
    match f.ltype
    case LSubmessage =>
      var body := ReadDelimited(bs);
      if body.None? then None
      else
        // array entries are initialised here, other submessages are merged into what is there
        var start := if f.rule.Repeated? || f.rule.FixedCount? || !was.Msg? then Defaults(f.sub) else was.slots;
        var r := DecMessage(f.sub, start, body.value.value);
        if r.None? then None else Some(Read(Msg(r.value.value), body.value.rest))
    case LBytes => var r := DecBlob(f, bs); if r.None? then None else Some(Read(Blob(r.value.value), r.value.rest))
    case LString => var r := DecBlob(f, bs); if r.None? then None else Some(Read(Blob(r.value.value), r.value.rest))
    case LFixedBytes => var r := DecBlob(f, bs); if r.None? then None else Some(Read(Blob(r.value.value), r.value.rest))
    case _ => var r := DecNum(f, bs); if r.None? then None else Some(Read(Num(r.value.value), r.value.rest))
  }

  /** The packed loop of decode_static_field; the run must end exactly and fit the array. */
  function DecPacked(f: Field, items: seq<Cell>, bs: seq<Byte>): (r: Option<seq<Cell>>)
    decreases |bs|
  {
    if bs == [] then Some(items)
    else if |items| >= f.arraySize then None
    else
      var r := DecNum(f, bs);
      if r.None? then None else DecPacked(f, items + [Num(r.value.value)], r.value.rest)
  }

  /** decode_static_field on the slot s of field f. */
  function DecField(f: Field, wireType: nat, s: Slot, bs: seq<Byte>): (r: Option<Read<Slot>>)
    ensures r.Some? ==> |r.value.rest| < |bs|
    decreases |bs|, 1
  {
    if s.One? then
      var r := DecCell(f, s.cell, bs);
      if r.None? then None else Some(Read(One(r.value.value), r.value.rest))
    else if s.Opt? then
      var r := DecCell(f, s.cell, bs);
      if r.None? then None else Some(Read(Opt(true, r.value.value), r.value.rest))
    else if s.Uni? then
      var r := DecCell(f, DefaultCell(f), bs);
      if r.None? then None else Some(Read(Uni(f.tag, Some(r.value.value)), r.value.rest))
    else if wireType == WT_STRING && Packable(f.ltype) then
      var body := ReadDelimited(bs);
      if body.None? then None
      else
        var r := DecPacked(f, s.items, body.value.value);
        if r.None? then None else Some(Read(WithItems(s, r.value), body.value.rest))
    else if |s.items| >= f.arraySize then None
    else
      var r := DecCell(f, DefaultCell(f), bs);
      if r.None? then None else Some(Read(WithItems(s, s.items + [r.value.value]), r.value.rest))
  }

  function WithItems(s: Slot, items: seq<Cell>): (r: Slot)
    requires s.Rep? || s.Fix?
    ensures (r.Rep? <==> s.Rep?) && (r.Fix? <==> s.Fix?) && r.items == items
  {
    if s.Rep? then Rep(items) else Fix(items, [])
  }

  /** pb_skip_field. */
  function Skip(wireType: nat, bs: seq<Byte>): (r: Option<seq<Byte>>)
    ensures r.Some? ==> |r.value| <= |bs|
  {
    if wireType == WT_VARINT then SkipVarint(bs)
    else if wireType == WT_64BIT then if |bs| < 8 then None else Some(bs[8..])
    else if wireType == WT_32BIT then if |bs| < 4 then None else Some(bs[4..])
    else if wireType == WT_STRING then
      var body := ReadDelimited(bs);
      if body.None? then None else Some(body.value.rest)
    else None
  }

  function SkipVarint(bs: seq<Byte>): (r: Option<seq<Byte>>)
    ensures r.Some? ==> |r.value| < |bs|
  {
    if bs == [] then None else if bs[0] >= 128 then SkipVarint(bs[1..]) else Some(bs[1..])
  }

  /** The local state of pb_decode_noinit: the struct, the required fields seen, and the
      fixed-count field whose elements are being received. */
  datatype Progress = Progress(slots: seq<Slot>, seen: set<nat>, fixed: Option<nat>)

  /** The fixed-count field being received, if any, has all its elements. */
  function FixedDone(fields: seq<Field>, p: Progress): bool {
    match p.fixed
    case None => true
    case Some(k) =>
      k < |fields| && SlotOf(fields, k) < |p.slots| && p.slots[SlotOf(fields, k)].Fix?
      && |p.slots[SlotOf(fields, k)].items| == fields[k].arraySize
  }

  /** Turning to field k: a new fixed-count field starts from its first element, once the
      previous one is complete; a required field is marked as seen. */
  function Enter(fields: seq<Field>, k: nat, p: Progress): (r: Option<Progress>)
    requires k < |fields|
    ensures r.Some? ==> |r.value.slots| == |p.slots|
  {
    var f := fields[k];
    var s := SlotOf(fields, k);
    if s >= |p.slots| then None
    else if f.rule.FixedCount? && p.fixed != Some(k) then
      if FixedDone(fields, p) then Some(p.(fixed := Some(k), slots := p.slots[s := Fix([], [])])) else None
    else if f.rule.Required? && RequiredBefore(fields, k) < MAX_REQUIRED_FIELDS then
      Some(p.(seen := p.seen + {RequiredBefore(fields, k)}))
    else Some(p)
  }

  /** One field of the input, after its tag. */
  function DecOne(fields: seq<Field>, k: nat, wireType: nat, p: Progress, bs: seq<Byte>): (r: Option<Read<Progress>>)
    requires k < |fields|
    ensures r.Some? ==> |r.value.rest| < |bs|
    decreases |bs|, 2
  {
    var q := Enter(fields, k, p);
    if q.None? || SlotOf(fields, k) >= |q.value.slots| then None
    else
      var r := DecField(fields[k], wireType, q.value.slots[SlotOf(fields, k)], bs);
      if r.None? then None
      else Some(Read(q.value.(slots := q.value.slots[SlotOf(fields, k) := r.value.value]), r.value.rest))
  }

  /** The loop of pb_decode_noinit.  A zero tag ends the message early. */
  function DecLoop(fields: seq<Field>, p: Progress, bs: seq<Byte>): (r: Option<Read<Progress>>)
    ensures r.Some? ==> |r.value.rest| <= |bs|
    decreases |bs|, 3
  {
    if bs == [] then Some(Read(p, []))
    else
      var t := ReadVarint32(bs);
      if t.None? then None
      else if t.value.value == 0 then Some(Read(p, t.value.rest))
      else
        var tag, wireType := t.value.value / 8, t.value.value % 8;
        var k := Find(fields, tag);
        // the terminator of an empty table matches tag 0, and cannot be decoded
        if fields == [] && tag == 0 then None
        else if k == |fields| then
          var rest := Skip(wireType, t.value.rest);
          if rest.None? then None else DecLoop(fields, p, rest.value)
        else
          var r := DecOne(fields, k, wireType, p, t.value.rest);
          if r.None? then None else DecLoop(fields, r.value.value, r.value.rest)
  }

  /** Every one of the first 64 required fields, from field k on, was seen. */
  function RequiredSeenFrom(fields: seq<Field>, seen: set<nat>, k: nat): (b: bool)
    requires k <= |fields|
    decreases |fields| - k
  {
    if k == |fields| then true
    else (fields[k].rule.Required? && RequiredBefore(fields, k) < MAX_REQUIRED_FIELDS
          ==> RequiredBefore(fields, k) in seen)
         && RequiredSeenFrom(fields, seen, k + 1)
  }

  lemma {:induction false} AllRequiredSeen(fields: seq<Field>, seen: set<nat>, k: nat)
    requires k <= |fields|
    ensures RequiredSeenFrom(fields, seen, k)
       <==> forall j :: k <= j < |fields| && fields[j].rule.Required? && RequiredBefore(fields, j) < MAX_REQUIRED_FIELDS
                        ==> RequiredBefore(fields, j) in seen
    decreases |fields| - k
  {
    if k < |fields| { AllRequiredSeen(fields, seen, k + 1); }
  }

  /** pb_decode_noinit: the struct afterwards and the bytes left over. */
  function DecMessage(fields: seq<Field>, slots: seq<Slot>, bs: seq<Byte>): (r: Option<Read<seq<Slot>>>)
    ensures r.Some? ==> |r.value.rest| <= |bs|
    decreases |bs|, 4
  {
    var r := DecLoop(fields, Progress(slots, {}, None), bs);
    if r.Some? && FixedDone(fields, r.value.value) && RequiredSeenFrom(fields, r.value.value.seen, 0)
    then Some(Read(r.value.value.slots, r.value.rest)) else None
  }

  /** pb_decode. */
  function Decode(fields: seq<Field>, bs: seq<Byte>): Option<Read<seq<Slot>>> {
    DecMessage(fields, Defaults(fields), bs)
  }
}
