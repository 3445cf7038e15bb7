/** What the decoder does not care about: fields it does not know, and how the elements of a
    packable array are grouped. */
module PbWire {
  import opened Words
  import opened PbVarint
  import opened PbMessage
  import opened PbRoundTrip

  // ------------------------------------------------------------- more input after a success

  lemma {:induction false} VarintMore(bs: seq<Byte>, bitpos: nat, acc: nat, more: seq<Byte>)
    requires ReadVarintFrom(bs, bitpos, acc).Some?
    ensures ReadVarintFrom(bs + more, bitpos, acc)
         == Some(Read(ReadVarintFrom(bs, bitpos, acc).value.value, ReadVarintFrom(bs, bitpos, acc).value.rest + more))
  {
    hide Or, Shl;
    assert (bs + more)[1..] == bs[1..] + more;
    if bs[0] >= 128 { VarintMore(bs[1..], bitpos + 7, Or(acc, Shl(bs[0] % 128, bitpos) % TWO64), more); }
  }

  lemma {:induction false} Varint32FromMore(bs: seq<Byte>, bitpos: nat, acc: nat, more: seq<Byte>)
    requires ReadVarint32From(bs, bitpos, acc).Some?
    ensures ReadVarint32From(bs + more, bitpos, acc)
         == Some(Read(ReadVarint32From(bs, bitpos, acc).value.value, ReadVarint32From(bs, bitpos, acc).value.rest + more))
    decreases |bs|
  {
    hide Or, Shl;
    assert (bs + more)[1..] == bs[1..] + more;
    if bs[0] >= 128 {
      var acc' := if bitpos >= 32 then acc else Or(acc, Shl(bs[0] % 128, bitpos) % TWO32);
      Varint32FromMore(bs[1..], (bitpos + 7) % 256, acc', more);
    }
  }

  lemma {:induction false} Varint32More(bs: seq<Byte>, more: seq<Byte>)
    requires ReadVarint32(bs).Some?
    ensures ReadVarint32(bs + more) == Some(Read(ReadVarint32(bs).value.value, ReadVarint32(bs).value.rest + more))
  {
    assert (bs + more)[1..] == bs[1..] + more;
    if bs[0] >= 128 { Varint32FromMore(bs[1..], 7, bs[0] % 128, more); }
  }

  lemma {:induction false} DelimitedMore(bs: seq<Byte>, more: seq<Byte>)
    requires ReadDelimited(bs).Some?
    ensures ReadDelimited(bs + more) == Some(Read(ReadDelimited(bs).value.value, ReadDelimited(bs).value.rest + more))
  {
    hide ReadVarint32;
    Varint32More(bs, more);
    var n := ReadVarint32(bs).value;
    assert (n.rest + more)[..n.value] == n.rest[..n.value];
    assert (n.rest + more)[n.value..] == n.rest[n.value..] + more;
  }

  lemma {:induction false} NumMore(f: Field, bs: seq<Byte>, more: seq<Byte>)
    requires DecNum(f, bs).Some?
    ensures DecNum(f, bs + more) == Some(Read(DecNum(f, bs).value.value, DecNum(f, bs).value.rest + more))
  {
    hide Narrow, ReadVarintFrom;
    if f.ltype.LFixed32? {
      assert (bs + more)[..4] == bs[..4] && (bs + more)[4..] == bs[4..] + more;
    } else if f.ltype.LFixed64? {
      assert (bs + more)[..8] == bs[..8] && (bs + more)[8..] == bs[8..] + more;
    } else {
      VarintMore(bs, 0, 0, more);
    }
  }

  lemma {:induction false} BlobMore(f: Field, bs: seq<Byte>, more: seq<Byte>)
    requires DecBlob(f, bs).Some?
    ensures DecBlob(f, bs + more) == Some(Read(DecBlob(f, bs).value.value, DecBlob(f, bs).value.rest + more))
  {
    hide ReadVarint32;
    Varint32More(bs, more);
    var n := ReadVarint32(bs).value;
    if n.value <= |n.rest| {
      assert (n.rest + more)[..n.value] == n.rest[..n.value];
      assert (n.rest + more)[n.value..] == n.rest[n.value..] + more;
    }
  }

  lemma {:induction false} CellMore(f: Field, was: Cell, bs: seq<Byte>, more: seq<Byte>)
    requires DecCell(f, was, bs).Some?
    ensures DecCell(f, was, bs + more) == Some(Read(DecCell(f, was, bs).value.value, DecCell(f, was, bs).value.rest + more))
  {
    hide DecMessage, Defaults, DecNum, DecBlob, ReadDelimited;
    if f.ltype.LSubmessage? { DelimitedMore(bs, more); }
    else if Packable(f.ltype) { NumMore(f, bs, more); }
    else { BlobMore(f, bs, more); }
  }

  lemma {:induction false} FieldMore(f: Field, wireType: nat, s: Slot, bs: seq<Byte>, more: seq<Byte>)
    requires DecField(f, wireType, s, bs).Some?
    ensures DecField(f, wireType, s, bs + more)
         == Some(Read(DecField(f, wireType, s, bs).value.value, DecField(f, wireType, s, bs).value.rest + more))
  {
    hide DecCell, DecPacked, ReadDelimited, DefaultCell;
    if s.One? || s.Opt? { CellMore(f, s.cell, bs, more); }
    else if s.Uni? { CellMore(f, DefaultCell(f), bs, more); }
    else if wireType == WT_STRING && Packable(f.ltype) { DelimitedMore(bs, more); }
    else { CellMore(f, DefaultCell(f), bs, more); }
  }

  lemma {:induction false} OneMore(fields: seq<Field>, k: nat, wireType: nat, p: Progress, bs: seq<Byte>,
      more: seq<Byte>)
    requires k < |fields| && DecOne(fields, k, wireType, p, bs).Some?
    ensures DecOne(fields, k, wireType, p, bs + more)
         == Some(Read(DecOne(fields, k, wireType, p, bs).value.value, DecOne(fields, k, wireType, p, bs).value.rest + more))
  {
    hide DecField, Enter, SlotOf;
    var q := Enter(fields, k, p).value;
    FieldMore(fields[k], wireType, q.slots[SlotOf(fields, k)], bs, more);
  }

  lemma {:induction false} SkipVarintMore(bs: seq<Byte>, more: seq<Byte>)
    requires SkipVarint(bs).Some?
    ensures SkipVarint(bs + more) == Some(SkipVarint(bs).value + more)
  {
    assert (bs + more)[1..] == bs[1..] + more;
    if bs[0] >= 128 { SkipVarintMore(bs[1..], more); }
  }

  lemma {:induction false} SkipMore(wireType: nat, bs: seq<Byte>, more: seq<Byte>)
    requires Skip(wireType, bs).Some?
    ensures Skip(wireType, bs + more) == Some(Skip(wireType, bs).value + more)
  {
    hide SkipVarint, ReadDelimited;
    if wireType == WT_VARINT { SkipVarintMore(bs, more); }
    else if wireType == WT_64BIT { assert (bs + more)[8..] == bs[8..] + more; }
    else if wireType == WT_32BIT { assert (bs + more)[4..] == bs[4..] + more; }
    else { DelimitedMore(bs, more); }
  }

  // ------------------------------------------------------------- whole fields

  /** bs is a run of whole fields (with no early end of message), and takes the decoder from
      p to the result. */
  function Fields(fields: seq<Field>, p: Progress, bs: seq<Byte>): (q: Option<Progress>)
    decreases |bs|
  {
    if bs == [] then Some(p)
    else
      var t := ReadVarint32(bs);
      if t.None? || t.value.value == 0 || (fields == [] && t.value.value / 8 == 0) then None
      else
        var k := Find(fields, t.value.value / 8);
        if k == |fields| then
          var rest := Skip(t.value.value % 8, t.value.rest);
          if rest.None? then None else Fields(fields, p, rest.value)
        else
          var r := DecOne(fields, k, t.value.value % 8, p, t.value.rest);
          if r.None? then None else Fields(fields, r.value.value, r.value.rest)
  }

  /** Decoding goes on after a run of whole fields. */
  lemma {:induction false} FieldsThen(fields: seq<Field>, p: Progress, bs: seq<Byte>, more: seq<Byte>)
    requires Fields(fields, p, bs).Some?
    ensures DecLoop(fields, p, bs + more) == DecLoop(fields, Fields(fields, p, bs).value, more)
    decreases |bs|
  {
    hide DecOne, ReadVarint32, Skip, Find;
    if bs == [] {
      assert bs + more == more;
    } else {
      Varint32More(bs, more);
      var t := ReadVarint32(bs).value;
      var k := Find(fields, t.value / 8);
      if k == |fields| {
        SkipMore(t.value % 8, t.rest, more);
        FieldsThen(fields, p, Skip(t.value % 8, t.rest).value, more);
      } else {
        OneMore(fields, k, t.value % 8, p, t.rest, more);
        var r := DecOne(fields, k, t.value % 8, p, t.rest).value;
        FieldsThen(fields, r.value, r.rest, more);
      }
    }
  }

  /** One well-formed field the table does not know: a tag and a payload that skips exactly. */
  ghost predicate Unknown(fields: seq<Field>, tag: nat, wireType: nat, payload: seq<Byte>)
  {
    && 0 < 8 * tag + wireType < TWO32 && wireType < 8
    && (forall k :: 0 <= k < |fields| ==> fields[k].tag != tag)
    && Skip(wireType, payload) == Some([])
  }

  lemma {:induction false} UnknownStep(fields: seq<Field>, p: Progress, tag: nat, wireType: nat, payload: seq<Byte>,
      more: seq<Byte>)
    requires Unknown(fields, tag, wireType, payload) && (fields != [] || tag != 0)
    ensures DecLoop(fields, p, Tag(tag, wireType) + payload + more) == DecLoop(fields, p, more)
  {
    hide ReadVarint32, Skip, DecOne, Varint;
    var t := 8 * tag + wireType;
    assert Tag(tag, wireType) + payload + more == Varint(t) + (payload + more);
    ReadWritten32(t, payload + more);
    assert t / 8 == tag && t % 8 == wireType;
    SkipMore(wireType, payload, more);
    assert [] + more == more;
    var k := Find(fields, tag);
    assert k == |fields|;
  }

  /** An unknown field anywhere between whole fields changes neither the struct nor the verdict. */
  lemma {:induction false} UnknownIgnored(fields: seq<Field>, slots: seq<Slot>, before: seq<Byte>, tag: nat,
      wireType: nat, payload: seq<Byte>, after: seq<Byte>)
    requires Unknown(fields, tag, wireType, payload) && (fields != [] || tag != 0)
    requires Fields(fields, Progress(slots, {}, None), before).Some?
    ensures DecMessage(fields, slots, before + (Tag(tag, wireType) + payload) + after) == DecMessage(fields, slots, before + after)
  {
    hide DecLoop, Fields, RequiredSeenFrom, FixedDone, Unknown, Tag;
    var p := Progress(slots, {}, None);
    var field := Tag(tag, wireType) + payload;
    assert before + field + after == before + (field + after);
    FieldsThen(fields, p, before, field + after);
    FieldsThen(fields, p, before, after);
    UnknownStep(fields, Fields(fields, p, before).value, tag, wireType, payload, after);
  }

  // ------------------------------------------------------------- packed, unpacked, mixed

  /** Part of a packable array on the wire: one element with its own tag (and any wire type but
      "string"), or a packed run. */
  datatype Chunk = Single(wireType: nat, element: seq<Byte>) | Run(elements: seq<seq<Byte>>)

  function Concat(es: seq<seq<Byte>>): seq<Byte> {
    if es == [] then [] else es[0] + Concat(es[1..])
  }

  function ChunkBytes(f: Field, c: Chunk): seq<Byte> {
    match c
    case Single(wireType, e) => Tag(f.tag, wireType) + e
    case Run(es) => Tag(f.tag, WT_STRING) + Delimited(Concat(es))
  }

  function ChunkElements(c: Chunk): seq<seq<Byte>> {
    match c case Single(_, e) => [e] case Run(es) => es
  }

  function Wire(f: Field, chunks: seq<Chunk>): seq<Byte> {
    if chunks == [] then [] else ChunkBytes(f, chunks[0]) + Wire(f, chunks[1..])
  }

  function Elements(chunks: seq<Chunk>): seq<seq<Byte>> {
    if chunks == [] then [] else ChunkElements(chunks[0]) + Elements(chunks[1..])
  }

  /** Each element is exactly one number of f's type. */
  ghost predicate Numbers(f: Field, es: seq<seq<Byte>>)
  {
    forall i :: 0 <= i < |es| ==> DecNum(f, es[i]).Some? && DecNum(f, es[i]).value.rest == []
  }

  function Values(f: Field, es: seq<seq<Byte>>): (vs: seq<Cell>)
    requires Numbers(f, es)
    ensures |vs| == |es|
  {
    if es == [] then [] else [Num(DecNum(f, es[0]).value.value)] + Values(f, es[1..])
  }

  lemma {:induction false} ValuesAppend(f: Field, a: seq<seq<Byte>>, b: seq<seq<Byte>>)
    requires Numbers(f, a) && Numbers(f, b)
    ensures Numbers(f, a + b) && Values(f, a + b) == Values(f, a) + Values(f, b)
  {
    hide DecNum;
    if a == [] { assert a + b == b; }
    else {
      assert (a + b)[1..] == a[1..] + b;
      ValuesAppend(f, a[1..], b);
    }
  }

  ghost predicate ChunkOk(f: Field, c: Chunk)
  {
    && Numbers(f, ChunkElements(c))
    && (c.Single? ==> c.wireType < 8 && c.wireType != WT_STRING)
    && (c.Run? ==> |Concat(c.elements)| < TWO32)
  }

  /** A packed run appends its elements, or overflows the array. */
  lemma {:induction false} RunAppends(f: Field, items: seq<Cell>, es: seq<seq<Byte>>)
    requires Numbers(f, es) && |items| <= f.arraySize
    ensures DecPacked(f, items, Concat(es)) == if |items| + |es| <= f.arraySize then Some(items + Values(f, es)) else None
    decreases |es|
  {
    hide DecNum;
    if es == [] {
      assert items + [] == items;
    } else {
      NumMore(f, es[0], Concat(es[1..]));
      assert [] + Concat(es[1..]) == Concat(es[1..]);
      NumNotEmpty(f, es[0]);
      if |items| < f.arraySize {
        var v := Num(DecNum(f, es[0]).value.value);
        RunAppends(f, items + [v], es[1..]);
        assert items + [v] + Values(f, es[1..]) == items + Values(f, es);
      }
    }
  }

  lemma {:induction false} NumNotEmpty(f: Field, bs: seq<Byte>)
    requires DecNum(f, bs).Some?
    ensures bs != []
  {
  }

  /** The decoder inside array field k, which holds these items so far. */
  function Holding(fields: seq<Field>, k: nat, p: Progress, items: seq<Cell>): Progress
    requires k < |fields| && SlotOf(fields, k) < |p.slots|
  {
    Inside(fields, k, p, Arr(fields[k], items))
  }

  lemma {:induction false} ChunkAppends(fields: seq<Field>, k: nat, f: Field, p: Progress, items: seq<Cell>, c: Chunk,
      more: seq<Byte>)
    requires TableOk(fields) && k < |fields| && f == fields[k] && (f.rule.Repeated? || f.rule.FixedCount?) && Packable(f.ltype)
    requires SlotOf(fields, k) < |p.slots| && ChunkOk(f, c) && |items| <= f.arraySize
    ensures DecLoop(fields, Holding(fields, k, p, items), ChunkBytes(f, c) + more)
         == if |items| + |ChunkElements(c)| <= f.arraySize
            then DecLoop(fields, Holding(fields, k, p, items + Values(f, ChunkElements(c))), more) else None
  {
    hide DecLoop, Tag, DecNum, DecPacked, SlotOf, Delimited, Concat, Enter, RequiredBefore;
    var q := Holding(fields, k, p, items);
    EnterAgain(fields, k, p, Arr(f, items));
    match c {
      case Single(wireType, e) =>
        assert ChunkElements(c)[0] == e;
        assert ChunkBytes(f, c) + more == Tag(f.tag, wireType) + (e + more);
        TagBack(fields, q, k, wireType, e + more);
        NumMore(f, e, more);
        assert [] + more == more;
        OneValue(f, e);
        SingleField(f, wireType, items, e, more);
        SetTwice(p.slots, SlotOf(fields, k), Arr(f, items), Arr(f, items + Values(f, [e])));
      case Run(es) =>
        assert ChunkBytes(f, c) + more == Tag(f.tag, WT_STRING) + (Delimited(Concat(es)) + more);
        TagBack(fields, q, k, WT_STRING, Delimited(Concat(es)) + more);
        DelimitedBack(Concat(es), more);
        RunAppends(f, items, es);
        SetTwice(p.slots, SlotOf(fields, k), Arr(f, items), Arr(f, items + Values(f, es)));
    }
  }

  /** A single tagged value is one more element, if the array has room. */
  lemma {:induction false} SingleField(f: Field, wireType: nat, items: seq<Cell>, e: seq<Byte>, more: seq<Byte>)
    requires Packable(f.ltype) && wireType != WT_STRING && Numbers(f, [e])
    ensures DecField(f, wireType, Arr(f, items), e + more)
         == if |items| < f.arraySize then Some(Read(Arr(f, items + Values(f, [e])), more)) else None
  {
    hide DecNum, DecCell, DefaultCell;
    assert [e][0] == e;
    NumMore(f, e, more);
    assert [] + more == more;
    OneValue(f, e);
    NumCell(f, DefaultCell(f), e + more);
  }

  lemma {:induction false} NumCell(f: Field, was: Cell, bs: seq<Byte>)
    requires Packable(f.ltype)
    ensures DecCell(f, was, bs)
         == if DecNum(f, bs).None? then None else Some(Read(Num(DecNum(f, bs).value.value), DecNum(f, bs).value.rest))
  {
    hide DecNum, DecBlob, DecMessage, ReadDelimited, Defaults;
  }

  lemma {:induction false} OneValue(f: Field, e: seq<Byte>)
    requires DecNum(f, e).Some? && DecNum(f, e).value.rest == []
    ensures Numbers(f, [e]) && Values(f, [e]) == [Num(DecNum(f, e).value.value)]
  {
    hide DecNum;
  }

  /** The array, and the overflow verdict, depend only on the elements and their order, not on
      how the elements are split into packed runs and single values. */
  lemma {:induction false} GroupingIgnored(fields: seq<Field>, k: nat, f: Field, p: Progress, items: seq<Cell>,
      chunks: seq<Chunk>, more: seq<Byte>)
    requires TableOk(fields) && k < |fields| && f == fields[k] && (f.rule.Repeated? || f.rule.FixedCount?) && Packable(f.ltype)
    requires SlotOf(fields, k) < |p.slots| && |items| <= f.arraySize
    requires forall i :: 0 <= i < |chunks| ==> ChunkOk(f, chunks[i])
    ensures Numbers(f, Elements(chunks))
    ensures DecLoop(fields, Holding(fields, k, p, items), Wire(f, chunks) + more)
         == if |items| + |Elements(chunks)| <= f.arraySize
            then DecLoop(fields, Holding(fields, k, p, items + Values(f, Elements(chunks))), more) else None
    decreases |chunks|
  {
    hide DecLoop, SlotOf, Holding, ChunkBytes, DecNum, Packable, TableOk;
    if chunks == [] {
      assert [] + more == more && items + [] == items;
    } else {
      var es := ChunkElements(chunks[0]);
      assert Wire(f, chunks) + more == ChunkBytes(f, chunks[0]) + (Wire(f, chunks[1..]) + more);
      ChunkAppends(fields, k, f, p, items, chunks[0], Wire(f, chunks[1..]) + more);
      if |items| + |es| <= f.arraySize {
        GroupingIgnored(fields, k, f, p, items + Values(f, es), chunks[1..], more);
        assert items + Values(f, es) + Values(f, Elements(chunks[1..])) == items + (Values(f, es) + Values(f, Elements(chunks[1..])));
      } else {
        ElementsAreNumbers(f, chunks[1..]);
      }
      ValuesAppend(f, es, Elements(chunks[1..]));
    }
  }

  /** Turning to a fixed-count array, once the previous one is complete, starts it from its first
      element, whatever it held before. */
  lemma {:induction false} FixedStarts(fields: seq<Field>, k: nat, f: Field, p: Progress, c: Chunk, more: seq<Byte>)
    requires TableOk(fields) && k < |fields| && f == fields[k] && f.rule.FixedCount? && Packable(f.ltype)
        && ChunkOk(f, c)
    requires SlotOf(fields, k) < |p.slots| && p.fixed != Some(k) && FixedDone(fields, p)
    ensures DecLoop(fields, p, ChunkBytes(f, c) + more) == DecLoop(fields, Holding(fields, k, p, []), ChunkBytes(f, c) + more)
  {
    hide DecLoop, Tag, DecNum, SlotOf, Delimited, Concat, RequiredBefore, DecField, FixedDone;
    var q := Holding(fields, k, p, []);
    EnterAgain(fields, k, p, Arr(f, []));
    assert Enter(fields, k, p) == Some(q);
    var wireType, rest := if c.Single? then c.wireType else WT_STRING, (if c.Single? then c.element else Delimited(Concat(c.elements))) + more;
    assert ChunkBytes(f, c) + more == Tag(f.tag, wireType) + rest;
    TagBack(fields, p, k, wireType, rest);
    TagBack(fields, q, k, wireType, rest);
  }

  lemma {:induction false} ElementsAreNumbers(f: Field, chunks: seq<Chunk>)
    requires forall i :: 0 <= i < |chunks| ==> ChunkOk(f, chunks[i])
    ensures Numbers(f, Elements(chunks))
  {
    hide DecNum;
    if chunks != [] { ElementsAreNumbers(f, chunks[1..]); }
  }
}
