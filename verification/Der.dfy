/** Distinguished Encoding Rules (ITU-T X.690 sections 8.1 and 10.1) as BoringSSL writes and
    reads them: elements, unsigned integers, octet strings and booleans. */
module Der {
  import opened Words

  /** Class and constructed bits (the top three bits of the identifier), and the tag number. */
  datatype Tag = Tag(bits: nat, number: nat)

  const BOOLEAN := Tag(0, 1)
  const INTEGER := Tag(0, 2)
  const OCTETSTRING := Tag(0, 4)
  const SEQUENCE := Tag(1, 16)
  const TAG_NUMBER_MAX: nat := 0x1fff_ffff
  const TWO56: nat := 0x100_0000_0000_0000
  const TWO57: nat := 0x200_0000_0000_0000
  const MAX_LENGTH: nat := 0xffff_fffe

  function Context(n: nat): Tag { Tag(5, n) }

  predicate Short(t: Tag) { t.bits < 8 && t.number < 31 }

  datatype Rest<+T> = Rest(value: T, rest: seq<Byte>)

  // ------------------------------------------------------------- writing

  /** The length, in as few bytes as possible. */
  function LengthBytes(n: nat): (bs: seq<Byte>)
    requires n <= MAX_LENGTH
    ensures 1 <= |bs| <= 5
  {
    if n <= 0x7f then [n]
    else if n <= 0xff then [0x81] + BigEndian(n, 1)
    else if n <= 0xffff then [0x82] + BigEndian(n, 2)
    else if n <= 0xff_ffff then [0x83] + BigEndian(n, 3)
    else [0x84] + BigEndian(n, 4)
  }

  function IdByte(t: Tag): Byte
    requires Short(t)
  {
    32 * t.bits + t.number
  }

  /** CBB_add_asn1, once its contents are complete; too long a body is an error. */
  function Element(t: Tag, body: seq<Byte>): (bs: Option<seq<Byte>>)
    requires Short(t)
    ensures bs.Some? ==> |bs.value| > |body| && bs.value[0] == IdByte(t)
  {
    if |body| > MAX_LENGTH then None else Some([IdByte(t)] + LengthBytes(|body|) + body)
  }

  /** The bytes of v without leading zeros. */
  function Minimal(v: nat): (bs: seq<Byte>)
    ensures |bs| >= 1
  {
    if v < 256 then [v] else Minimal(v / 256) + [v % 256]
  }

  /** CBB_add_asn1_uint64: a zero byte keeps the number from looking negative. */
  function IntegerBody(v: nat): (bs: seq<Byte>)
    ensures |bs| >= 1
  {
    if Minimal(v)[0] >= 128 then [0] + Minimal(v) else Minimal(v)
  }

  // ------------------------------------------------------------- reading

  /** parse_base128_integer. */
  function Base128(bs: seq<Byte>, v: nat): (r: Option<Rest<nat>>)
    ensures r.Some? ==> |r.value.rest| < |bs|
  {
    if bs == [] || v >= TWO57 || (v == 0 && bs[0] == 0x80) then None
    else
      var w := v * 128 + bs[0] % 128;
      if bs[0] >= 128 then Base128(bs[1..], w) else Some(Rest(w, bs[1..]))
  }

  /** parse_asn1_tag. */
  function ReadTag(bs: seq<Byte>): (r: Option<Rest<Tag>>)
    ensures r.Some? ==> |r.value.rest| < |bs|
  {
    if bs == [] then None
    else if bs[0] % 32 != 31 then Some(Rest(Tag(bs[0] / 32, bs[0] % 32), bs[1..]))
    else
      var v := Base128(bs[1..], 0);
      if v.None? || v.value.value > TAG_NUMBER_MAX || v.value.value < 31 then None
      else Some(Rest(Tag(bs[0] / 32, v.value.value), v.value.rest))
  }

  /** The length octets, which must be as few as possible. */
  function ReadLength(bs: seq<Byte>): (r: Option<Rest<nat>>)
    ensures r.Some? ==> |r.value.rest| < |bs|
  {
    if bs == [] then None
    else if bs[0] < 128 then Some(Rest(bs[0], bs[1..]))
    else
      var n := bs[0] % 128;
      if n == 0 || n > 4 || 1 + n > |bs| then None
      else
        var len := FromBigEndian(bs[1..1 + n]);
        if len < 128 || bs[1] == 0 then None else Some(Rest(len, bs[1 + n..]))
  }

  /** An element: its tag, its body, and all its bytes. */
  datatype Elem = Elem(tag: Tag, body: seq<Byte>, whole: seq<Byte>)

  /** CBS_get_any_asn1_element. */
  function ReadElement(bs: seq<Byte>): (r: Option<Rest<Elem>>)
    ensures r.Some? ==> |r.value.rest| < |bs| && r.value.value.whole + r.value.rest == bs && r.value.value.whole != []
  {
    var t := ReadTag(bs);
    if t.None? then None
    else
      var n := ReadLength(t.value.rest);
      if n.None? || n.value.value > |n.value.rest| then None
      else
        var total := |bs| - |n.value.rest| + n.value.value;
        Some(Rest(Elem(t.value.value, n.value.rest[..n.value.value], bs[..total]), bs[total..]))
  }

  /** CBS_get_asn1. */
  function Get(bs: seq<Byte>, t: Tag): (r: Option<Rest<seq<Byte>>>)
    ensures r.Some? ==> |r.value.rest| < |bs|
  {
    var e := ReadElement(bs);
    if e.None? || e.value.value.tag != t then None else Some(Rest(e.value.value.body, e.value.rest))
  }

  /** CBS_peek_asn1_tag. */
  predicate Peek(bs: seq<Byte>, t: Tag) {
    ReadTag(bs).Some? && ReadTag(bs).value.value == t
  }

  /** CBS_get_optional_asn1. */
  function GetOptional(bs: seq<Byte>, t: Tag): Option<Rest<Option<seq<Byte>>>> {
    if !Peek(bs, t) then Some(Rest(None, bs))
    else
      var r := Get(bs, t);
      if r.None? then None else Some(Rest(Some(r.value.value), r.value.rest))
  }

  function Accumulate(bs: seq<Byte>, acc: nat): Option<nat> {
    if bs == [] then Some(acc)
    else if acc >= TWO56 then None
    else Accumulate(bs[1..], acc * 256 + bs[0])
  }

  /** CBS_get_asn1_uint64. */
  function GetUint64(bs: seq<Byte>): (r: Option<Rest<nat>>)
    ensures r.Some? ==> |r.value.rest| < |bs|
  {
    var b := Get(bs, INTEGER);
    if b.None? then None
    else
      var data := b.value.value;
      if data == [] || data[0] >= 128 || (data[0] == 0 && |data| > 1 && data[1] < 128) then None
      else
        var v := Accumulate(data, 0);
        if v.None? then None else Some(Rest(v.value, b.value.rest))
  }

  // ------------------------------------------------------------- reading back what was written

  lemma {:induction false} PowersOf256(n: nat)
    requires n <= 4
    ensures Shl(1, 8 * n) == if n == 0 then 1 else if n == 1 then 0x100 else if n == 2 then 0x1_0000 else if n == 3 then 0x100_0000 else 0x1_0000_0000
  {
    if n > 0 { ShlEight(8 * n - 8); }
    if n > 1 { ShlEight(8 * n - 16); }
    if n > 2 { ShlEight(8 * n - 24); }
    if n > 3 { ShlEight(8 * n - 32); }
    assert Shl(1, 0) == 1;
  }

  lemma {:induction false} LengthBack(n: nat, more: seq<Byte>)
    requires n <= MAX_LENGTH
    ensures ReadLength(LengthBytes(n) + more) == Some(Rest(n, more))
  {
    if n <= 0x7f {
      assert (LengthBytes(n) + more)[1..] == more;
    } else {
      var k := if n <= 0xff then 1 else if n <= 0xffff then 2 else if n <= 0xff_ffff then 3 else 4;
      LongLengthBack(n, k, more);
    }
  }

  lemma {:induction false} LongLengthBack(n: nat, k: nat, more: seq<Byte>)
    requires 128 <= n <= MAX_LENGTH && k == if n <= 0xff then 1 else if n <= 0xffff then 2 else if n <= 0xff_ffff then 3 else 4
    ensures LengthBytes(n) == [0x80 + k] + BigEndian(n, k)
    ensures ReadLength([0x80 + k] + BigEndian(n, k) + more) == Some(Rest(n, more))
  {
    hide Shl, FromBigEndian, BigEndian;
    PowersOf256(k);
    BigEndianBack(n, k);
    var bs := [0x80 + k] + BigEndian(n, k) + more;
    assert bs[1..1 + k] == BigEndian(n, k) && bs[1 + k..] == more;
    PowersOf256(k - 1);
    FirstByte(n, k);
  }

  /** A number that needs k bytes has a non-zero first byte. */
  lemma {:induction false} FirstByte(n: nat, k: nat)
    requires k >= 1 && Shl(1, 8 * k - 8) <= n < Shl(1, 8 * k)
    ensures BigEndian(n, k)[0] != 0
  {
    if k > 1 {
      ShlEight(8 * k - 8);
      ShlEight(8 * k - 16);
      FirstByte(n / 256, k - 1);
    } else {
      assert Shl(1, 0) == 1;
      ShlEight(0);
      assert BigEndian(n, 1) == BigEndian(n / 256, 0) + [n % 256];
    }
  }

  /** An element is read back, whatever follows it. */
  lemma {:induction false} ElementBack(t: Tag, body: seq<Byte>, more: seq<Byte>)
    requires Short(t) && Element(t, body).Some?
    ensures ReadElement(Element(t, body).value + more) == Some(Rest(Elem(t, body, Element(t, body).value), more))
    ensures Peek(Element(t, body).value + more, t)
  {
    hide LengthBytes, ReadLength;
    var e := Element(t, body).value;
    var bs := e + more;
    assert bs[0] / 32 == t.bits && bs[0] % 32 == t.number;
    assert bs[1..] == LengthBytes(|body|) + (body + more);
    LengthBack(|body|, body + more);
    assert (body + more)[..|body|] == body;
    assert bs[..|e|] == e && bs[|e|..] == more;
  }

  lemma {:induction false} GetBack(t: Tag, body: seq<Byte>, more: seq<Byte>)
    requires Short(t) && Element(t, body).Some?
    ensures Get(Element(t, body).value + more, t) == Some(Rest(body, more))
    ensures GetOptional(Element(t, body).value + more, t) == Some(Rest(Some(body), more))
  {
    hide ReadElement, Element;
    ElementBack(t, body, more);
  }

  lemma {:induction false} AccumulateLast(a: seq<Byte>, b: Byte, acc: nat)
    ensures Accumulate(a + [b], acc) ==
      var r := Accumulate(a, acc); if r.None? || r.value >= TWO56 then None else Some(r.value * 256 + b)
  {
    if a == [] {
      assert a + [b] == [b] && [b][1..] == [];
    } else if acc < TWO56 {
      assert (a + [b])[1..] == a[1..] + [b];
      AccumulateLast(a[1..], b, acc * 256 + a[0]);
    }
  }

  lemma {:induction false} MinimalBack(v: nat)
    requires v < TWO64
    ensures Accumulate(Minimal(v), 0) == Some(v)
  {
    if v < 256 {
      assert [v][1..] == [];
    } else {
      MinimalBack(v / 256);
      AccumulateLast(Minimal(v / 256), v % 256, 0);
    }
  }

  lemma {:induction false} MinimalFirst(v: nat)
    ensures v > 0 ==> Minimal(v)[0] != 0
    ensures v == 0 ==> Minimal(v) == [0]
    ensures v < TWO64 ==> |Minimal(v)| <= 8
  {
    if v >= 256 { MinimalFirst(v / 256); }
    if v < TWO64 {
      var word := 64;
      WordSize(word);
      MinimalShort(v, 8);
    }
  }

  lemma {:induction false} MinimalShort(v: nat, n: nat)
    requires n >= 1 && v < Shl(1, 8 * n)
    ensures |Minimal(v)| <= n
  {
    assert Shl(1, 0) == 1;
    ShlEight(8 * n - 8);
    if v >= 256 {
      MinimalShort(v / 256, n - 1);
    }
  }

  lemma {:induction false} IntegerBack(v: nat, more: seq<Byte>)
    requires v < TWO64
    ensures Element(INTEGER, IntegerBody(v)).Some? && |Element(INTEGER, IntegerBody(v)).value| <= 11
    ensures GetUint64(Element(INTEGER, IntegerBody(v)).value + more) == Some(Rest(v, more))
  {
    hide Get, Minimal, Accumulate;
    MinimalFirst(v);
    MinimalBack(v);
    GetBack(INTEGER, IntegerBody(v), more);
    if Minimal(v)[0] >= 128 { PaddedInteger(Minimal(v)); }
  }

  lemma {:induction false} PaddedInteger(bs: seq<Byte>)
    ensures Accumulate([0] + bs, 0) == Accumulate(bs, 0)
  {
    assert ([0] + bs)[1..] == bs;
  }

  /** An optional element is absent when the first byte is not its identifier. */
  lemma {:induction false} AbsentBack(t: Tag, bs: seq<Byte>)
    requires Short(t) && (bs != [] ==> bs[0] != IdByte(t))
    ensures GetOptional(bs, t) == Some(Rest(None, bs))
  {
  }

  /** More bytes after an element do not change how it is read. */
  lemma {:induction false} ElementMore(bs: seq<Byte>, more: seq<Byte>)
    requires ReadElement(bs).Some?
    ensures ReadElement(bs + more) == Some(Rest(ReadElement(bs).value.value, ReadElement(bs).value.rest + more))
  {
    hide ReadTag, ReadLength;
    var t := ReadTag(bs).value;
    var n := ReadLength(t.rest).value;
    TagMore(bs, more);
    LengthMore(t.rest, more);
    assert (n.rest + more)[..n.value] == n.rest[..n.value];
    var total := |bs| - |n.rest| + n.value;
    assert (bs + more)[..total] == bs[..total] && (bs + more)[total..] == bs[total..] + more;
  }

  lemma {:induction false} TagMore(bs: seq<Byte>, more: seq<Byte>)
    requires ReadTag(bs).Some?
    ensures ReadTag(bs + more) == Some(Rest(ReadTag(bs).value.value, ReadTag(bs).value.rest + more))
  {
    hide Base128;
    assert (bs + more)[1..] == bs[1..] + more;
    if bs[0] % 32 == 31 { Base128More(bs[1..], 0, more); }
  }

  lemma {:induction false} Base128More(bs: seq<Byte>, v: nat, more: seq<Byte>)
    requires Base128(bs, v).Some?
    ensures Base128(bs + more, v) == Some(Rest(Base128(bs, v).value.value, Base128(bs, v).value.rest + more))
  {
    assert (bs + more)[1..] == bs[1..] + more;
    if bs[0] >= 128 { Base128More(bs[1..], v * 128 + bs[0] % 128, more); }
  }

  lemma {:induction false} LengthMore(bs: seq<Byte>, more: seq<Byte>)
    requires ReadLength(bs).Some?
    ensures ReadLength(bs + more) == Some(Rest(ReadLength(bs).value.value, ReadLength(bs).value.rest + more))
  {
    hide FromBigEndian;
    if bs[0] < 128 {
      assert (bs + more)[1..] == bs[1..] + more;
    } else {
      var n := bs[0] % 128;
      assert (bs + more)[1..1 + n] == bs[1..1 + n] && (bs + more)[1 + n..] == bs[1 + n..] + more;
    }
  }

  /** An element is an element by itself, without what follows it. */
  lemma {:induction false} ElementAlone(bs: seq<Byte>)
    requires ReadElement(bs).Some?
    ensures var e := ReadElement(bs).value.value; ReadElement(e.whole) == Some(Rest(e, []))
  {
    hide ReadTag, ReadLength;
    var t := ReadTag(bs).value;
    var n := ReadLength(t.rest).value;
    var total := |bs| - |n.rest| + n.value;
    TagLess(bs, total);
    LengthLess(t.rest, total - (|bs| - |t.rest|));
    var whole := bs[..total];
    assert whole[..total] == whole && whole[total..] == [];
    assert n.rest[..n.value][..n.value] == n.rest[..n.value];
  }

  lemma {:induction false} TagLess(bs: seq<Byte>, k: nat)
    requires ReadTag(bs).Some? && |bs| - |ReadTag(bs).value.rest| <= k <= |bs|
    ensures var t := ReadTag(bs).value; ReadTag(bs[..k]) == Some(Rest(t.value, t.rest[..k - (|bs| - |t.rest|)]))
  {
    hide Base128;
    assert bs[..k][1..] == bs[1..][..k - 1];
    if bs[0] % 32 == 31 { Base128Less(bs[1..], 0, k - 1); }
  }

  lemma {:induction false} Base128Less(bs: seq<Byte>, v: nat, k: nat)
    requires Base128(bs, v).Some? && |bs| - |Base128(bs, v).value.rest| <= k <= |bs|
    ensures var r := Base128(bs, v).value; Base128(bs[..k], v) == Some(Rest(r.value, r.rest[..k - (|bs| - |r.rest|)]))
  {
    assert bs[..k][1..] == bs[1..][..k - 1];
    if bs[0] >= 128 { Base128Less(bs[1..], v * 128 + bs[0] % 128, k - 1); }
  }

  lemma {:induction false} LengthLess(bs: seq<Byte>, k: nat)
    requires ReadLength(bs).Some? && |bs| - |ReadLength(bs).value.rest| <= k <= |bs|
    ensures var n := ReadLength(bs).value; ReadLength(bs[..k]) == Some(Rest(n.value, n.rest[..k - (|bs| - |n.rest|)]))
  {
    hide FromBigEndian;
    if bs[0] < 128 {
      assert bs[..k][1..] == bs[1..][..k - 1];
    } else {
      var n := bs[0] % 128;
      assert bs[..k][1..1 + n] == bs[1..1 + n] && bs[..k][1 + n..] == bs[1 + n..][..k - 1 - n];
    }
  }
}
