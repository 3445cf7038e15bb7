/** Decoding what was encoded gives the message back. */
module PbRoundTrip {
  import opened Words
  import opened PbVarint
  import opened PbMessage

  // ------------------------------------------------------------- the normal form

  /** c as the receiver gets it: submessages normalised, everything else unchanged. */
  function NormCell(f: Field, c: Cell): Cell
    decreases f, 0
  {
    if f.ltype.LSubmessage? && c.Msg? then Msg(NormUpTo(f.sub, c.slots, |f.sub|)) else c
  }

  function NormItems(f: Field, items: seq<Cell>): (r: seq<Cell>)
    ensures |r| == |items|
    decreases f, 1, |items|
  {
    if items == [] then [] else NormItems(f, items[..|items| - 1]) + [NormCell(f, items[|items| - 1])]
  }

  /** Whether the encoder writes anything for the field. */
  function Emitted(f: Field, s: Slot): bool {
    if s.Rep? || s.Fix? then s.items != [] else Present(f, s)
  }

  function NormField(f: Field, s: Slot): Slot
    decreases f, 2
  {
    match s
    case One(c) => One(NormCell(f, c))
    case Opt(has, c) => Opt(true, NormCell(f, c))
    case Rep(items) => Rep(NormItems(f, items))
    case Fix(items, _) => Fix(NormItems(f, items), [])
    case Uni(which, m) => Uni(f.tag, if m.Some? then Some(NormCell(f, m.value)) else None)
  }

  /** The default struct with the first k fields filled in, except those the encoder leaves out. */
  function NormUpTo(fields: seq<Field>, slots: seq<Slot>, k: nat): (r: seq<Slot>)
    requires k <= |fields|
    ensures |r| == SlotCount(fields)
    decreases fields, 3, k
  {
    if k == 0 then Defaults(fields)
    else
      var r := NormUpTo(fields, slots, k - 1);
      var s := SlotOf(fields, k - 1);
      if s < |slots| && s < |r| && Emitted(fields[k - 1], slots[s]) then r[s := NormField(fields[k - 1], slots[s])] else r
  }

  /** What a receiver gets: the sender's values, with unset fields at their default. */
  function Norm(fields: seq<Field>, slots: seq<Slot>): (r: seq<Slot>)
    ensures |r| == SlotCount(fields)
  {
    NormUpTo(fields, slots, |fields|)
  }

  // ------------------------------------------------------------- numbers

  lemma {:induction false} LittleEndianBack(v: nat, n: nat, m: nat)
    requires m == Shl(1, 8 * n) && v < m
    ensures FromLittleEndian(LittleEndian(v, n)) == v
  {
    if n > 0 {
      ShlSeven(1, 8 * n - 8);
      assert Shl(1, 8 * n) == 256 * Shl(1, 8 * n - 8);
      LittleEndianBack(v / 256, n - 1, Shl(1, 8 * n - 8));
      assert LittleEndian(v, n)[1..] == LittleEndian(v / 256, n - 1);
    }
  }

  lemma {:induction false} FixedBack(v: nat, n: nat, tail: seq<Byte>)
    requires (n == 4 && v < TWO32) || (n == 8 && v < TWO64)
    ensures (LittleEndian(v, n) + tail)[..n] == LittleEndian(v, n) && (LittleEndian(v, n) + tail)[n..] == tail
    ensures FromLittleEndian(LittleEndian(v, n)) == v
  {
    hide *;
    WordSize(8 * n);
    LittleEndianBack(v, n, Shl(1, 8 * n));
  }

  lemma {:induction false} SignedInRange(v: int, m: nat)
    requires m == 0x100 || m == 0x1_0000 || m == TWO32 || m == TWO64
    requires -(m / 2) <= v < m / 2
    ensures Signed(v, m) == v
  {
  }

  lemma {:induction false} SignedOfWord(v: int, m: nat)
    requires m == TWO32 || m == TWO64
    requires -(m / 2) <= v < m / 2
    ensures Signed(v % TWO64, m) == v
  {
    if m == TWO32 {
      assert v % TWO64 == if v < 0 then v + TWO64 else v;
      assert (v + TWO64) % TWO32 == v % TWO32 by { assert v + TWO64 == v + TWO32 * TWO32; }
    }
  }

  /** A negative intN is sign-extended to 64 bits before it is written; the receiver's
      truncations undo that. */
  lemma {:induction false} NarrowBack(f: Field, v: int)
    requires Packable(f.ltype) && !f.ltype.LFixed32? && !f.ltype.LFixed64? && NumOk(f, v) && Width(f.dataSize) > 0
    ensures f.ltype.LSvarint? ==> 0 <= ZigZag(v) < TWO64 && Narrow(f, ZigZag(v)) == Some(v)
    ensures !f.ltype.LSvarint? ==> Narrow(f, v % TWO64) == Some(v)
  {
    hide Signed;
    var w := Width(f.dataSize);
    if f.ltype.LVarint? {
      SignedOfWord(v, if f.dataSize == 8 then TWO64 else TWO32);
      SignedInRange(v, w);
    } else if f.ltype.LSvarint? {
      SignedInRange(v, w);
    } else {
      assert v % TWO64 == v && v % w == v;
    }
  }

  lemma {:induction false} NumBack(f: Field, v: int, tail: seq<Byte>)
    requires Packable(f.ltype) && NumOk(f, v) && EncNum(f, v).Some?
    ensures DecNum(f, EncNum(f, v).value + tail) == Some(Read(v, tail))
  {
    hide Varint, ReadVarint, Narrow, LittleEndian, FromLittleEndian;
    if f.ltype.LFixed32? {
      FixedBack(v, 4, tail);
    } else if f.ltype.LFixed64? {
      FixedBack(v, 8, tail);
    } else {
      NarrowBack(f, v);
      ReadWritten(if f.ltype.LSvarint? then ZigZag(v) else v % TWO64, tail);
    }
  }

  // ------------------------------------------------------------- strings

  /** Every string the encoder writes has its NUL inside its buffer. */
  function TermCell(f: Field, c: Cell): bool
    decreases f, 0
  {
    if f.ltype.LString? && c.Blob? then |c.b| < f.dataSize
    else if f.ltype.LSubmessage? && c.Msg? then TermFrom(f.sub, c.slots, 0)
    else true
  }

  function TermItems(f: Field, items: seq<Cell>, i: nat): bool
    requires i <= |items|
    decreases f, 1, |items| - i
  {
    i == |items| || (TermCell(f, items[i]) && TermItems(f, items, i + 1))
  }

  function TermField(f: Field, s: Slot): bool
    decreases f, 2
  {
    if s.Rep? || s.Fix? then TermItems(f, s.items, 0)
    else Present(f, s) ==> TermCell(f, ItemOf(s))
  }

  function TermFrom(fields: seq<Field>, slots: seq<Slot>, k: nat): bool
    requires k <= |fields|
    decreases fields, 3, |fields| - k
  {
    k == |fields|
    || ((SlotOf(fields, k) < |slots| ==> TermField(fields[k], slots[SlotOf(fields, k)])) && TermFrom(fields, slots, k + 1))
  }

  lemma {:induction false} DelimitedLonger(body: seq<Byte>)
    ensures |Delimited(body)| > |body|
  {
  }

  lemma {:induction false} DelimitedBack(body: seq<Byte>, tail: seq<Byte>)
    requires |body| < TWO32
    ensures ReadVarint32(Delimited(body) + tail) == Some(Read(|body|, body + tail))
    ensures (body + tail)[..|body|] == body && (body + tail)[|body|..] == tail
    ensures ReadDelimited(Delimited(body) + tail) == Some(Read(body, tail))
  {
    hide Varint, ReadVarint32;
    assert Delimited(body) + tail == Varint(|body|) + (body + tail);
    ReadWritten32(|body|, body + tail);
  }

  lemma {:induction false} NoNul(b: seq<Byte>)
    requires 0 !in b
    ensures UpToNul(b) == b
  {
    if b != [] { NoNul(b[1..]); }
  }

  lemma {:induction false} BlobBack(f: Field, b: seq<Byte>, tail: seq<Byte>)
    requires CellOk(f, Blob(b)) && EncCell(f, Blob(b)).Some? && |b| < TWO32
    ensures EncCell(f, Blob(b)) == Some(Delimited(b))
    ensures DecBlob(f, Delimited(b) + tail) == if TermCell(f, Blob(b)) then Some(Read(b, tail)) else None
  {
    hide Varint, ReadVarint32, Delimited, UpToNul;
    DelimitedBack(b, tail);
    if f.ltype.LString? { NoNul(b); }
    if f.ltype.LFixedBytes? && |b| == 0 { assert Zeros(f.dataSize) == b; }
  }

  // ------------------------------------------------------------- one item

  /** The decoder of a single item undoes its encoder, and stops exactly where it stopped. */
  lemma {:induction false} CellBack(f: Field, c: Cell, tail: seq<Byte>)
    requires FieldOk(f) && CellOk(f, c) && EncCell(f, c).Some? && |EncCell(f, c).value| < TWO32
    ensures DecCell(f, DefaultCell(f), EncCell(f, c).value + tail)
         == if TermCell(f, c) then Some(Read(NormCell(f, c), tail)) else None
    decreases f, 0
  {
    if f.ltype.LSubmessage? {
      var body := EncFields(f.sub, c.slots, 0).value;
      DelimitedLonger(body);
      DelimitedBack(body, tail);
      MessageBack(f.sub, c.slots);
    } else if Packable(f.ltype) {
      NumBack(f, c.v, tail);
    } else {
      BlobBack(f, c.b, tail);
    }
  }

  // ------------------------------------------------------------- tables

  lemma {:induction false} FindTag(fields: seq<Field>, k: nat)
    requires TableOk(fields) && k < |fields|
    ensures Find(fields, fields[k].tag) == k
  {
    var i := Find(fields, fields[k].tag);
    assert i <= k;
  }

  /** The initial struct has each field at its default. */
  lemma {:induction false} DefaultsAt(fields: seq<Field>, n: nat, k: nat)
    requires k < n <= |fields|
    ensures SlotOf(fields, k) < |DefaultsUpTo(fields, n)|
    ensures !fields[k].rule.Oneof? ==> DefaultsUpTo(fields, n)[SlotOf(fields, k)] == DefaultSlot(fields[k])
    ensures fields[k].rule.Oneof? ==> DefaultsUpTo(fields, n)[SlotOf(fields, k)] == Uni(0, None)
    decreases n
  {
    if k < n - 1 {
      DefaultsAt(fields, n - 1, k);
    } else if SharesSlot(fields, k) {
      DefaultsAt(fields, n - 1, k - 1);
    }
  }

  lemma {:induction false} NormFieldShape(f: Field, s: Slot)
    requires SlotOk(f, s)
    ensures NormField(f, s).Uni? <==> f.rule.Oneof?
  {
  }

  /** Before its turn a field is still at its default (or is a member of a union). */
  lemma {:induction false} NormUpToAt(fields: seq<Field>, slots: seq<Slot>, k: nat, n: nat)
    requires n <= k < |fields| && SlotsOk(fields, slots)
    ensures SlotOf(fields, k) < |slots| == SlotCount(fields)
    ensures !fields[k].rule.Oneof? ==> NormUpTo(fields, slots, n)[SlotOf(fields, k)] == DefaultSlot(fields[k])
    ensures fields[k].rule.Oneof? ==> NormUpTo(fields, slots, n)[SlotOf(fields, k)].Uni?
    decreases n
  {
    hide DefaultsUpTo, SlotOf, NormField, Emitted;
    SlotOfMonotone(fields, k, k);
    if n == 0 {
      DefaultsAt(fields, |fields|, k);
    } else {
      NormUpToAt(fields, slots, k, n - 1);
      SlotOfMonotone(fields, n - 1, k);
      NormFieldShape(fields[n - 1], slots[SlotOf(fields, n - 1)]);
    }
  }

  // ------------------------------------------------------------- one field

  lemma {:induction false} TagBack(fields: seq<Field>, p: Progress, k: nat, wireType: nat, rest: seq<Byte>)
    requires TableOk(fields) && k < |fields| && wireType < 8
    ensures DecLoop(fields, p, Tag(fields[k].tag, wireType) + rest)
         == var r := DecOne(fields, k, wireType, p, rest);
            if r.None? then None else DecLoop(fields, r.value.value, r.value.rest)
  {
    hide Varint, ReadVarint32, DecOne, Enter, Find, Skip;
    var t := 8 * fields[k].tag + wireType;
    ReadWritten32(t, rest);
    assert t / 8 == fields[k].tag && t % 8 == wireType;
    FindTag(fields, k);
  }

  /** What the decoder has done when the first k fields have been read. */
  ghost predicate ReadUpTo(fields: seq<Field>, slots: seq<Slot>, k: nat, p: Progress)
    requires k <= |fields|
  {
    && p.slots == NormUpTo(fields, slots, k)
    && (forall j :: 0 <= j < k && fields[j].rule.Required? && RequiredBefore(fields, j) < MAX_REQUIRED_FIELDS
                    ==> RequiredBefore(fields, j) in p.seen)
    && (p.fixed.Some? ==> p.fixed.value < k && fields[p.fixed.value].rule.FixedCount?)
    && FixedDone(fields, p)
  }

  /** The decoder's state while it is inside field k, whose slot holds s. */
  function Inside(fields: seq<Field>, k: nat, p: Progress, s: Slot): (q: Progress)
    requires k < |fields| && SlotOf(fields, k) < |p.slots|
  {
    Progress(p.slots[SlotOf(fields, k) := s],
             if fields[k].rule.Required? && RequiredBefore(fields, k) < MAX_REQUIRED_FIELDS
             then p.seen + {RequiredBefore(fields, k)} else p.seen,
             if fields[k].rule.FixedCount? then Some(k) else p.fixed)
  }

  /** The value field k's slot holds when its turn comes. */
  function Before(fields: seq<Field>, k: nat, p: Progress): Slot
    requires k < |fields| && SlotOf(fields, k) < |p.slots|
  {
    if fields[k].rule.FixedCount? then Fix([], []) else p.slots[SlotOf(fields, k)]
  }

  lemma {:induction false} EnterField(fields: seq<Field>, slots: seq<Slot>, k: nat, p: Progress)
    requires k < |fields| && SlotsOk(fields, slots) && ReadUpTo(fields, slots, k, p)
    ensures SlotOf(fields, k) < |p.slots|
    ensures Enter(fields, k, p) == Some(Inside(fields, k, p, Before(fields, k, p)))
  {
    hide NormUpTo, SlotOf, RequiredBefore;
    NormUpToAt(fields, slots, k, k);
    var s := SlotOf(fields, k);
    assert p.slots[s := p.slots[s]] == p.slots;
  }

  /** Once inside a field, entering it again changes nothing. */
  lemma {:induction false} EnterAgain(fields: seq<Field>, k: nat, p: Progress, s: Slot)
    requires k < |fields| && SlotOf(fields, k) < |p.slots|
    ensures Enter(fields, k, Inside(fields, k, p, s)) == Some(Inside(fields, k, p, s))
  {
    hide SlotOf, RequiredBefore;
  }

  lemma {:induction false} LeaveSlots(fields: seq<Field>, slots: seq<Slot>, k: nat)
    requires k < |fields| && SlotsOk(fields, slots) && SlotOf(fields, k) < |slots|
    requires Emitted(fields[k], slots[SlotOf(fields, k)])
    ensures SlotOf(fields, k) < SlotCount(fields)
    ensures NormUpTo(fields, slots, k + 1)
         == NormUpTo(fields, slots, k)[SlotOf(fields, k) := NormField(fields[k], slots[SlotOf(fields, k)])]
  {
    hide SlotOf, NormField, Emitted;
    SlotOfMonotone(fields, k, k);
  }

  lemma {:induction false} LeaveFixed(fields: seq<Field>, k: nat, p: Progress, s: Slot)
    requires k < |fields| && SlotOf(fields, k) < |p.slots|
    requires FixedDone(fields, p) && (p.fixed.Some? ==> p.fixed.value < k && fields[p.fixed.value].rule.FixedCount?)
    requires fields[k].rule.FixedCount? ==> s.Fix? && |s.items| == fields[k].arraySize
    ensures FixedDone(fields, Inside(fields, k, p, s))
  {
    hide SlotOf, RequiredBefore;
    if !fields[k].rule.FixedCount? && p.fixed.Some? {
      SlotOfMonotone(fields, p.fixed.value, k);
    }
  }

  lemma {:induction false} LeaveField(fields: seq<Field>, slots: seq<Slot>, k: nat, p: Progress)
    requires k < |fields| && SlotsOk(fields, slots) && ReadUpTo(fields, slots, k, p)
    requires SlotOf(fields, k) < |slots|
    requires Emitted(fields[k], slots[SlotOf(fields, k)])
    ensures SlotOf(fields, k) < |p.slots|
    ensures ReadUpTo(fields, slots, k + 1, Inside(fields, k, p, NormField(fields[k], slots[SlotOf(fields, k)])))
  {
    hide SlotOf, RequiredBefore, NormItems, NormUpTo, FixedDone, Emitted;
    LeaveSlots(fields, slots, k);
    assert SlotOk(fields[k], slots[SlotOf(fields, k)]);
    LeaveFixed(fields, k, p, NormField(fields[k], slots[SlotOf(fields, k)]));
  }

  // ------------------------------------------------------------- arrays

  lemma {:induction false} NormItemsPrefix(f: Field, items: seq<Cell>, i: nat)
    requires i < |items|
    ensures NormItems(f, items[..i + 1]) == NormItems(f, items[..i]) + [NormCell(f, items[i])]
  {
    assert items[..i + 1][..i] == items[..i];
  }

  ghost predicate ItemsOk(f: Field, items: seq<Cell>)
  {
    forall i :: 0 <= i < |items| ==> CellOk(f, items[i])
  }

  /** Array slots. */
  function Arr(f: Field, items: seq<Cell>): Slot {
    if f.rule.Repeated? then Rep(items) else Fix(items, [])
  }

  /** A packed run is read back item by item. */
  lemma {:induction false} PackedBack(f: Field, items: seq<Cell>, i: nat)
    requires Packable(f.ltype) && ItemsOk(f, items) && i <= |items| <= f.arraySize
    requires EncPacked(f, items, i).Some?
    ensures DecPacked(f, NormItems(f, items[..i]), EncPacked(f, items, i).value) == Some(NormItems(f, items))
    ensures TermItems(f, items, i)
    decreases |items| - i
  {
    hide EncNum, DecNum, NormItems;
    if i == |items| {
      assert items[..i] == items;
    } else {
      NumBack(f, items[i].v, EncPacked(f, items, i + 1).value);
      NormItemsPrefix(f, items, i);
      EncNumNonempty(f, items[i].v);
      PackedBack(f, items, i + 1);
    }
  }

  lemma {:induction false} EncNumNonempty(f: Field, v: int)
    ensures EncNum(f, v).Some? ==> EncNum(f, v).value != []
  {
  }

  /** Elements written one by one with their tags are appended one by one. */
  lemma {:induction false} TaggedBack(fields: seq<Field>, k: nat, f: Field, p: Progress, items: seq<Cell>, i: nat,
      tail: seq<Byte>)
    requires TableOk(fields) && k < |fields| && f == fields[k] && SlotOf(fields, k) < |p.slots|
    requires (f.rule.Repeated? || f.rule.FixedCount?) && !Packable(f.ltype)
    requires ItemsOk(f, items) && i <= |items| <= f.arraySize
    requires EncTagged(f, items, i).Some? && |EncTagged(f, items, i).value| < TWO32
    ensures DecLoop(fields, Inside(fields, k, p, Arr(f, NormItems(f, items[..i]))), EncTagged(f, items, i).value + tail)
         == if TermItems(f, items, i) then DecLoop(fields, Inside(fields, k, p, Arr(f, NormItems(f, items))), tail) else None
    decreases f, 1, |items| - i
  {
    hide NormItems, SlotOf, RequiredBefore, DecLoop, EncCell, TermCell, DecCell, Enter, Inside;
    if i == |items| {
      assert items[..i] == items;
      assert [] + tail == tail;
    } else {
      var q := Inside(fields, k, p, Arr(f, NormItems(f, items[..i])));
      var one := EncCell(f, items[i]).value;
      var more := EncTagged(f, items, i + 1).value + tail;
      assert EncTagged(f, items, i).value + tail == Tag(f.tag, WireType(f.ltype)) + (one + more);
      TagBack(fields, q, k, WireType(f.ltype), one + more);
      CellBack(f, items[i], more);
      ElementBack(fields, k, f, p, NormItems(f, items[..i]), one + more);
      NormItemsPrefix(f, items, i);
      if TermCell(f, items[i]) { TaggedBack(fields, k, f, p, items, i + 1, tail); }
    }
  }

  /** Receiving one tagged element inside array field k. */
  lemma {:induction false} ElementBack(fields: seq<Field>, k: nat, f: Field, p: Progress, items: seq<Cell>,
      bs: seq<Byte>)
    requires k < |fields| && f == fields[k] && SlotOf(fields, k) < |p.slots|
    requires (f.rule.Repeated? || f.rule.FixedCount?) && !Packable(f.ltype)
    requires |items| < f.arraySize
    ensures DecOne(fields, k, WireType(f.ltype), Inside(fields, k, p, Arr(f, items)), bs)
         == match DecCell(f, DefaultCell(f), bs)
            case None => None
            case Some(r) => Some(Read(Inside(fields, k, p, Arr(f, items + [r.value])), r.rest))
  {
    hide RequiredBefore, DecCell, Enter;
    EnterAgain(fields, k, p, Arr(f, items));
    var r := DecCell(f, DefaultCell(f), bs);
    if r.Some? { SetTwice(p.slots, SlotOf(fields, k), Arr(f, items), Arr(f, items + [r.value.value])); }
  }

  lemma {:induction false} SetTwice<T>(a: seq<T>, s: nat, x: T, y: T)
    requires s < |a|
    ensures a[s := x][s := y] == a[s := y]
  {
  }

  // ------------------------------------------------------------- whole messages

  /** Receiving a single item, or a packed run, in field k. */
  lemma {:induction false} SingleBack(fields: seq<Field>, slots: seq<Slot>, k: nat, f: Field, s: Slot, p: Progress,
      tail: seq<Byte>)
    requires TableOk(fields) && SlotsOk(fields, slots) && k < |fields| && f == fields[k]
    requires SlotOf(fields, k) < |slots| && s == slots[SlotOf(fields, k)]
    requires ReadUpTo(fields, slots, k, p) && (s.One? || s.Opt? || s.Uni?)
    requires Present(f, s) && EncField(f, s).Some? && |EncField(f, s).value| < TWO32
    ensures SlotOf(fields, k) < |p.slots|
    ensures DecLoop(fields, p, EncField(f, s).value + tail)
         == if TermField(f, s) then DecLoop(fields, Inside(fields, k, p, NormField(f, s)), tail) else None
    decreases f, 1
  {
    hide SlotOf, RequiredBefore, DecLoop, EncCell, TermCell, DecCell, NormCell, NormUpTo, IsDefault;
    var one := EncCell(f, ItemOf(s)).value;
    assert EncField(f, s).value + tail == Tag(f.tag, WireType(f.ltype)) + (one + tail);
    TagBack(fields, p, k, WireType(f.ltype), one + tail);
    EnterField(fields, slots, k, p);
    NormUpToAt(fields, slots, k, k);
    assert SlotOk(f, s);
    CellBack(f, ItemOf(s), tail);
    SetTwice(p.slots, SlotOf(fields, k), Before(fields, k, p), NormField(f, s));
  }

  /** Receiving a packed run in array field k. */
  lemma {:induction false} RunBack(fields: seq<Field>, slots: seq<Slot>, k: nat, f: Field, items: seq<Cell>,
      p: Progress, tail: seq<Byte>)
    requires TableOk(fields) && SlotsOk(fields, slots) && k < |fields| && f == fields[k]
    requires f.rule.Repeated? || f.rule.FixedCount?
    requires ReadUpTo(fields, slots, k, p) && ItemsOk(f, items) && Packable(f.ltype)
    requires EncArray(f, items).Some? && |EncArray(f, items).value| < TWO32 && items != []
    ensures SlotOf(fields, k) < |p.slots|
    ensures DecLoop(fields, p, EncArray(f, items).value + tail)
         == DecLoop(fields, Inside(fields, k, p, Arr(f, NormItems(f, items))), tail)
    ensures TermItems(f, items, 0)
  {
    hide SlotOf, RequiredBefore, DecLoop, DecPacked, NormItems, NormUpTo, EncPacked, Delimited, Enter;
    var body := EncPacked(f, items, 0).value;
    DelimitedLonger(body);
    DelimitedBack(body, tail);
    assert EncArray(f, items).value + tail == Tag(f.tag, WT_STRING) + (Delimited(body) + tail);
    TagBack(fields, p, k, WT_STRING, Delimited(body) + tail);
    EnterField(fields, slots, k, p);
    NormUpToAt(fields, slots, k, k);
    PackedBack(f, items, 0);
    NormNoItems(f, items);
    SetTwice(p.slots, SlotOf(fields, k), Before(fields, k, p), Arr(f, NormItems(f, items)));
  }

  lemma {:induction false} NormNoItems(f: Field, items: seq<Cell>)
    ensures NormItems(f, items[..0]) == []
  {
  }

  /** Receiving the tagged elements of array field k. */
  lemma {:induction false} ElementsBack(fields: seq<Field>, slots: seq<Slot>, k: nat, f: Field, items: seq<Cell>,
      p: Progress, tail: seq<Byte>)
    requires TableOk(fields) && SlotsOk(fields, slots) && k < |fields| && f == fields[k]
    requires f.rule.Repeated? || f.rule.FixedCount?
    requires ReadUpTo(fields, slots, k, p) && ItemsOk(f, items) && !Packable(f.ltype)
    requires EncArray(f, items).Some? && |EncArray(f, items).value| < TWO32 && items != []
    ensures SlotOf(fields, k) < |p.slots|
    ensures DecLoop(fields, p, EncArray(f, items).value + tail)
         == if TermItems(f, items, 0) then DecLoop(fields, Inside(fields, k, p, Arr(f, NormItems(f, items))), tail) else None
    decreases f, 2
  {
    hide SlotOf, RequiredBefore, DecLoop, NormItems, NormUpTo, EncCell, Enter, TermItems, DecCell, Inside;
    EnterField(fields, slots, k, p);
    NormUpToAt(fields, slots, k, k);
    NormNoItems(f, items);
    EnterAgain(fields, k, p, Arr(f, []));
    var q := Inside(fields, k, p, Arr(f, []));
    TaggedBack(fields, k, f, p, items, 0, tail);
    var rest := EncCell(f, items[0]).value + EncTagged(f, items, 1).value + tail;
    assert EncTagged(f, items, 0).value + tail == Tag(f.tag, WireType(f.ltype)) + rest;
    TagBack(fields, p, k, WireType(f.ltype), rest);
    TagBack(fields, q, k, WireType(f.ltype), rest);
  }

  /** Field k of the message, emitted or left out. */
  lemma {:induction false} FieldBack(fields: seq<Field>, slots: seq<Slot>, k: nat, f: Field, s: Slot, p: Progress,
      tail: seq<Byte>)
    returns (q: Progress)
    requires TableOk(fields) && SlotsOk(fields, slots) && k < |fields| && f == fields[k]
    requires SlotOf(fields, k) < |slots| && s == slots[SlotOf(fields, k)]
    requires ReadUpTo(fields, slots, k, p)
    requires EncField(f, s).Some? && |EncField(f, s).value| < TWO32
    ensures ReadUpTo(fields, slots, k + 1, q)
    ensures DecLoop(fields, p, EncField(f, s).value + tail) == if TermField(f, s) then DecLoop(fields, q, tail) else None
    decreases f, 3
  {
    hide SlotOf, RequiredBefore, DecLoop, EncCell, TermCell, NormCell, NormItems, NormUpTo, IsDefault, Inside, EncArray;
    hide FixedDone, EncPacked, EncTagged;
    assert SlotOk(f, s);
    if !Emitted(f, s) {
      q := p;
      assert [] + tail == tail;
      NothingSent(f, s);
      LeaveUnset(fields, slots, k, p);
    } else {
      LeaveField(fields, slots, k, p);
      q := Inside(fields, k, p, NormField(f, s));
      if s.Rep? || s.Fix? {
        if Packable(f.ltype) {
          RunBack(fields, slots, k, f, s.items, p, tail);
        } else {
          ElementsBack(fields, slots, k, f, s.items, p, tail);
        }
      } else {
        SingleBack(fields, slots, k, f, s, p, tail);
      }
    }
  }

  lemma {:induction false} NothingSent(f: Field, s: Slot)
    requires !Emitted(f, s)
    ensures EncField(f, s) == Some([]) && TermField(f, s)
  {
  }

  lemma {:induction false} LeaveUnset(fields: seq<Field>, slots: seq<Slot>, k: nat, p: Progress)
    requires k < |fields| && SlotsOk(fields, slots) && SlotOf(fields, k) < |slots| && ReadUpTo(fields, slots, k, p)
    requires !Emitted(fields[k], slots[SlotOf(fields, k)])
    ensures ReadUpTo(fields, slots, k + 1, p)
  {
    hide SlotOf, RequiredBefore, IsDefault, FixedDone;
    assert SlotOk(fields[k], slots[SlotOf(fields, k)]);
  }

  lemma {:induction false} FieldsBack(fields: seq<Field>, slots: seq<Slot>, k: nat, p: Progress)
    requires TableOk(fields) && SlotsOk(fields, slots) && k <= |fields| && ReadUpTo(fields, slots, k, p)
    requires EncFields(fields, slots, k).Some? && |EncFields(fields, slots, k).value| < TWO32
    ensures var r := DecLoop(fields, p, EncFields(fields, slots, k).value);
      if TermFrom(fields, slots, k)
      then r.Some? && r.value.rest == [] && ReadUpTo(fields, slots, |fields|, r.value.value)
      else r == None
    decreases fields, 4, |fields| - k
  {
    hide SlotOf, EncField, TermField, ReadUpTo;
    if k < |fields| {
      var s := slots[SlotOf(fields, k)];
      var q := FieldBack(fields, slots, k, fields[k], s, p, EncFields(fields, slots, k + 1).value);
      if TermField(fields[k], s) { FieldsBack(fields, slots, k + 1, q); }
    }
  }

  /** Decoding an encoded message gives its normal form and leaves no byte over; it fails
      exactly when a written string had no NUL in its buffer. */
  lemma {:induction false} MessageBack(fields: seq<Field>, slots: seq<Slot>)
    requires TableOk(fields) && SlotsOk(fields, slots)
    requires Encode(fields, slots).Some? && |Encode(fields, slots).value| < TWO32
    ensures Decode(fields, Encode(fields, slots).value)
         == if TermFrom(fields, slots, 0) then Some(Read(Norm(fields, slots), [])) else None
    decreases fields, 5
  {
    hide EncFields, TermFrom, DecLoop, RequiredSeenFrom, RequiredBefore, NormUpTo;
    var p := Progress(Defaults(fields), {}, None);
    assert NormUpTo(fields, slots, 0) == Defaults(fields) by { NormNothing(fields, slots); }
    FieldsBack(fields, slots, 0, p);
    var r := DecLoop(fields, p, Encode(fields, slots).value);
    if r.Some? { AllRequiredSeen(fields, r.value.value.seen, 0); }
  }

  lemma {:induction false} NormNothing(fields: seq<Field>, slots: seq<Slot>)
    ensures NormUpTo(fields, slots, 0) == Defaults(fields)
  {
  }
}
