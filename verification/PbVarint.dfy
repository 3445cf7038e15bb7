/** Base 128 varints as nanopb writes and reads them. */
module PbVarint {
  import opened Words

  /** A value that was read, and the bytes still to be read. */
  datatype Read<+T> = Read(value: T, rest: seq<Byte>)

  // ---------------------------------------------------------------- writing

  /** The bytes of pb_encode_varint: seven bits a byte, low bits first. */
  function Varint(v: nat): (bs: seq<Byte>)
    ensures |bs| >= 1
  {
    if v < 128 then [v] else [v % 128 + 128] + Varint(v / 128)
  }

  /** k bytes hold 7k bits. */
  lemma {:induction false} VarintLen(v: nat, k: nat)
    requires k >= 1 && v < Shl(1, 7 * k)
    ensures |Varint(v)| <= k
  {
    if v >= 128 {
      if k == 1 { WordSize(7 * k); }
      ShlSeven(1, 7 * k - 7);
      VarintLen(v / 128, k - 1);
    }
  }

  // ---------------------------------------------------------------- reading

  /** The loop of pb_decode_varint; bits shifted past 63 are lost. */
  function ReadVarintFrom(bs: seq<Byte>, bitpos: nat, acc: nat): (r: Option<Read<nat>>)
    ensures r.Some? ==> |r.value.rest| < |bs|
  {
    if bitpos >= 64 || bs == [] then None
    else
      var acc' := Or(acc, Shl(bs[0] % 128, bitpos) % TWO64);
      if bs[0] >= 128 then ReadVarintFrom(bs[1..], bitpos + 7, acc') else Some(Read(acc', bs[1..]))
  }

  function ReadVarint(bs: seq<Byte>): (r: Option<Read<nat>>)
    ensures r.Some? ==> |r.value.rest| < |bs|
  {
    ReadVarintFrom(bs, 0, 0)
  }

  /** The multibyte loop of pb_decode_varint32_eof.  Past bit 31 a byte must be a padding
      0x80/0x00 or continue the sign of a negative value. */
  function ReadVarint32From(bs: seq<Byte>, bitpos: nat, acc: nat): (r: Option<Read<nat>>)
    ensures r.Some? ==> |r.value.rest| < |bs|
  {
    if bs == [] then None
    else
      var b := bs[0];
      var signExtension := if bitpos < 63 then 0xFF else 0x01;
      if bitpos >= 32 && b % 128 != 0 && (acc / TWO31 == 0 || b != signExtension) then None
      else
        var acc' := if bitpos >= 32 then acc else Or(acc, Shl(b % 128, bitpos) % TWO32);
        // bitpos is an 8-bit counter
        var bitpos' := (bitpos + 7) % 256;
        if b >= 128 then ReadVarint32From(bs[1..], bitpos', acc')
        else if bitpos' == 35 && b / 16 % 8 != 0 then None
        else Some(Read(acc', bs[1..]))
  }

  function ReadVarint32(bs: seq<Byte>): (r: Option<Read<nat>>)
    ensures r.Some? ==> |r.value.rest| < |bs|
  {
    if bs == [] then None
    else if bs[0] < 128 then Some(Read(bs[0], bs[1..]))
    else ReadVarint32From(bs[1..], 7, bs[0] % 128)
  }

  // ---------------------------------------------------------------- round trips

  lemma {:induction false} WideShift(v: nat, n: nat)
    requires v < Shl(1, n)
    ensures v >= 128 ==> n > 7
  {
    WordSize(7);
    if n <= 7 { ShlGrows(n, 7); }
  }

  /** v fits in the bits left above bitpos, so no bit of it is shifted out of the word. */
  lemma {:induction false} ShiftFits(v: nat, bitpos: nat, width: nat)
    requires bitpos <= width && v < Shl(1, width - bitpos)
    ensures Shl(v % 128, bitpos) <= Shl(v, bitpos) < Shl(1, width)
    ensures v >= 128 ==> bitpos + 7 < width && v / 128 < Shl(1, width - (bitpos + 7))
  {
    ShlMono(v % 128, v, bitpos);
    ShlMono(v, Shl(1, width - bitpos), bitpos);
    ShlShl(1, width - bitpos, bitpos);
    if v >= 128 {
      WideShift(v, width - bitpos);
      ShlSeven(1, width - bitpos - 7);
    }
  }

  /** Splitting v into its low seven bits and the rest, under a shift. */
  lemma {:induction false} SplitShifted(v: nat, bitpos: nat, acc: nat)
    requires acc < Shl(1, bitpos)
    ensures acc + Shl(v, bitpos) == (acc + Shl(v % 128, bitpos)) + Shl(v / 128, bitpos + 7)
    ensures acc + Shl(v % 128, bitpos) < Shl(1, bitpos + 7)
  {
    ShlSeven(1, bitpos);
    ShlSeven(v / 128, bitpos);
    ShlAdd(v % 128, 128 * (v / 128), bitpos);
    ShlAdd(v % 128, 1, bitpos);
    ShlMono(v % 128 + 1, 128, bitpos);
  }

  /** One turn of the loop, when no bit is shifted out. */
  lemma {:induction false} ReadByte(b: Byte, rest: seq<Byte>, bitpos: nat, acc: nat)
    requires bitpos < 64 && acc < Shl(1, bitpos) && Shl(b % 128, bitpos) < TWO64
    ensures ReadVarintFrom([b] + rest, bitpos, acc)
         == var acc' := acc + Shl(b % 128, bitpos);
            if b >= 128 then ReadVarintFrom(rest, bitpos + 7, acc') else Some(Read(acc', rest))
  {
    hide Or, Shl;
    OrAbove(acc, b % 128, bitpos);
    assert ([b] + rest)[1..] == rest;
  }

  /** The first byte of a varint, and what follows it. */
  lemma {:induction false} VarintFront(v: nat, tail: seq<Byte>)
    ensures v < 128 ==> Varint(v) + tail == [v] + tail
    ensures v >= 128 ==> Varint(v) + tail == [v % 128 + 128] + (Varint(v / 128) + tail)
  {
  }

  /** Reading resumes correctly in the middle of a varint, whatever follows it. */
  lemma {:induction false} ReadWrittenFrom(v: nat, bitpos: nat, acc: nat, tail: seq<Byte>)
    requires bitpos < 64 && acc < Shl(1, bitpos) && v < Shl(1, 64 - bitpos)
    ensures ReadVarintFrom(Varint(v) + tail, bitpos, acc) == Some(Read(acc + Shl(v, bitpos), tail))
  {
    hide *;
    VarintFront(v, tail);
    WordSize(bitpos + (64 - bitpos));
    ShiftFits(v, bitpos, 64);
    if v < 128 {
      ReadByte(v, tail, bitpos, acc);
    } else {
      ReadByte(v % 128 + 128, Varint(v / 128) + tail, bitpos, acc);
      SplitShifted(v, bitpos, acc);
      ReadWrittenFrom(v / 128, bitpos + 7, acc + Shl(v % 128, bitpos), tail);
    }
  }

  /** pb_decode_varint gives back every uint64 that pb_encode_varint wrote. */
  lemma {:induction false} ReadWritten(v: nat, tail: seq<Byte>)
    requires v < TWO64
    ensures ReadVarint(Varint(v) + tail) == Some(Read(v, tail))
  {
    var z: nat :| z == 0;
    WordSize(64 - z);
    ReadWrittenFrom(v, z, z, tail);
  }

  /** One turn of the 32-bit loop below bit 32, when no bit is shifted out. */
  lemma {:induction false} ReadByte32(b: Byte, rest: seq<Byte>, bitpos: nat, acc: nat)
    requires bitpos <= 28 && acc < Shl(1, bitpos) && Shl(b % 128, bitpos) < TWO32
    requires b < 128 && bitpos == 28 ==> b < 16
    ensures ReadVarint32From([b] + rest, bitpos, acc)
         == var acc' := acc + Shl(b % 128, bitpos);
            if b >= 128 then ReadVarint32From(rest, bitpos + 7, acc') else Some(Read(acc', rest))
  {
    hide Or, Shl;
    OrAbove(acc, b % 128, bitpos);
    assert ([b] + rest)[1..] == rest;
  }

  lemma {:induction false} ReadWritten32From(v: nat, bitpos: nat, acc: nat, tail: seq<Byte>)
    requires bitpos <= 28 && bitpos % 7 == 0 && acc < Shl(1, bitpos) && v < Shl(1, 32 - bitpos)
    ensures ReadVarint32From(Varint(v) + tail, bitpos, acc) == Some(Read(acc + Shl(v, bitpos), tail))
    decreases v
  {
    hide *;
    VarintFront(v, tail);
    WordSize(bitpos + (32 - bitpos));
    ShiftFits(v, bitpos, 32);
    if bitpos == 28 { WordSize(32 - bitpos); }
    if v < 128 {
      ReadByte32(v, tail, bitpos, acc);
    } else {
      ReadByte32(v % 128 + 128, Varint(v / 128) + tail, bitpos, acc);
      SplitShifted(v, bitpos, acc);
      ReadWritten32From(v / 128, bitpos + 7, acc + Shl(v % 128, bitpos), tail);
    }
  }

  /** pb_decode_varint32 gives back every uint32 that pb_encode_varint wrote. */
  lemma {:induction false} ReadWritten32(v: nat, tail: seq<Byte>)
    requires v < TWO32
    ensures ReadVarint32(Varint(v) + tail) == Some(Read(v, tail))
  {
    hide Varint, Shl, ReadVarint32From;
    VarintFront(v, tail);
    if v < 128 {
      assert ([v] + tail)[1..] == tail;
    } else {
      var s: nat :| s == 7;
      Bits25(v, s);
      ReadWritten32From(v / 128, s, v % 128, tail);
      var rest := Varint(v / 128) + tail;
      assert ([v % 128 + 128] + rest)[1..] == rest;
    }
  }

  lemma {:induction false} Bits25(v: nat, s: nat)
    requires s == 7 && v < TWO32
    ensures v / 128 < Shl(1, 32 - s) && Shl(1, s) == 128 && Shl(v / 128, s) == 128 * (v / 128)
  {
    WordSize(s);
    WordSize(32 - s + 7);
    ShlSeven(1, 32 - s);
    ShlSeven(v / 128, s - 7);
  }

  // ---------------------------------------------------------------- negative numbers

  /** One continuing byte of the 32-bit loop, below bit 28. */
  lemma {:induction false} Turn32(v: nat, bitpos: nat, acc: nat, tail: seq<Byte>)
    requires v >= 128 && bitpos <= 21 && acc < Shl(1, bitpos)
    ensures ReadVarint32From(Varint(v) + tail, bitpos, acc)
         == ReadVarint32From(Varint(v / 128) + tail, bitpos + 7, acc + Shl(v % 128, bitpos))
    ensures acc + Shl(v % 128, bitpos) < Shl(1, bitpos + 7)
  {
    hide *;
    VarintFront(v, tail);
    SplitShifted(v, bitpos, acc);
    var k := 32;
    ShlGrows(bitpos + 7, k);
    WordSize(k);
    ReadByte32(v % 128 + 128, Varint(v / 128) + tail, bitpos, acc);
  }

  /** The byte at bit 28 of a longer varint: only its low four bits fit. */
  lemma {:induction false} Turn28(v: nat, acc: nat, tail: seq<Byte>)
    requires v >= 128 && acc < Shl(1, 28)
    ensures ReadVarint32From(Varint(v) + tail, 28, acc)
         == ReadVarint32From(Varint(v / 128) + tail, 35, acc + 0x1000_0000 * (v % 16))
  {
    hide Varint, Or, Shl;
    VarintFront(v, tail);
    LowFour(v, acc);
    var rest := Varint(v / 128) + tail;
    assert ([v % 128 + 128] + rest)[1..] == rest;
  }

  lemma {:induction false} LowFour(v: nat, acc: nat)
    requires acc < Shl(1, 28)
    ensures Or(acc, Shl(v % 128, 28) % TWO32) == acc + 0x1000_0000 * (v % 16)
  {
    hide Or, Shl;
    var k := 28;
    Scaled(v % 128, k);
    Scaled(v % 16, k);
    OrAbove(acc, v % 16, k);
    FourBits(v % 128);
    assert v % 128 % 16 == v % 16;
  }

  lemma {:induction false} FourBits(c: nat)
    ensures c * 0x1000_0000 % TWO32 == c % 16 * 0x1000_0000
  {
    assert c * 0x1000_0000 == TWO32 * (c / 16) + c % 16 * 0x1000_0000;
  }

  /** Shifting by 7, 14, 21 or 28 bits is multiplying by that power of two. */
  lemma {:induction false} Scaled(c: nat, k: nat)
    requires k == 7 || k == 14 || k == 21 || k == 28
    ensures Shl(c, k) == c * if k == 7 then 0x80 else if k == 14 then 0x4000 else if k == 21 then 0x20_0000 else 0x1000_0000
  {
    hide Shl;
    ShlSeven(c, k - 7);
    if k == 7 { ShlNone(c); } else { Scaled(c, k - 7); }
  }

  lemma {:induction false} ShlNone(c: nat)
    ensures Shl(c, 0) == c
  {
  }

  /** The end of a sign-extended number: ones up to bit 63. */
  lemma {:induction false} SignRead(acc: nat, tail: seq<Byte>)
    requires TWO31 <= acc < TWO32
    ensures ReadVarint32From([255, 255, 255, 255, 1] + tail, 35, acc) == Some(Read(acc, tail))
  {
    hide Or, Shl;
    var a, b, c, d := [255, 255, 255, 1] + tail, [255, 255, 1] + tail, [255, 1] + tail, [1] + tail;
    assert ([255, 255, 255, 255, 1] + tail)[1..] == a && a[1..] == b && b[1..] == c && c[1..] == d && d[1..] == tail;
    assert ReadVarint32From(d, 63, acc) == Some(Read(acc, tail));
    assert ReadVarint32From(c, 56, acc) == Some(Read(acc, tail));
    assert ReadVarint32From(b, 49, acc) == Some(Read(acc, tail));
    assert ReadVarint32From(a, 42, acc) == Some(Read(acc, tail));
  }

  lemma {:induction false} SignBytes(w: nat)
    requires w == 0x1fff_ffff
    ensures Varint(w) == [255, 255, 255, 255, 1]
  {
    assert Varint(1) == [1];
    assert Varint(0xff) == [255] + Varint(1);
    assert Varint(0x7fff) == [255] + Varint(0xff);
    assert Varint(0x3f_ffff) == [255] + Varint(0x7fff);
    assert Varint(0x1fff_ffff) == [255] + Varint(0x3f_ffff);
  }

  /** A negative int32 is written as ten bytes, sign-extended to 64 bits, and the 32-bit reader
      gives its 32-bit pattern back. */
  lemma {:induction false} ReadNegative32(v: nat, tail: seq<Byte>)
    requires TWO64 - TWO31 <= v < TWO64
    ensures ReadVarint32(Varint(v) + tail) == Some(Read(v % TWO32, tail))
  {
    hide Varint, Shl, ReadVarint32From;
    var v1, v2, v3, v4 := v / 0x80, v / 0x4000, v / 0x20_0000, v / 0x1000_0000;
    VarintFront(v, tail);
    var rest := Varint(v1) + tail;
    assert ([v % 128 + 128] + rest)[1..] == rest;
    assert ReadVarint32(Varint(v) + tail) == ReadVarint32From(rest, 7, v % 128);
    NegativeParts(v);
    NegativeTurns(v, tail);
    Turn28(v4, v % 0x1000_0000, tail);
    SignBytes(v4 / 128);
    SignRead(v % TWO32, tail);
  }

  lemma {:induction false} NegativeParts(v: nat)
    requires TWO64 - TWO31 <= v < TWO64
    ensures v / 0x1000_0000 >= 128 && v / 0x1000_0000 / 128 == 0x1fff_ffff
    ensures v % 0x1000_0000 + 0x1000_0000 * (v / 0x1000_0000 % 16) == v % TWO32 && v % TWO32 >= TWO31
  {
    var q, r := v / 0x1000_0000, v % 0x1000_0000;
    assert v == TWO32 * (q / 16) + (0x1000_0000 * (q % 16) + r);
  }

  lemma {:induction false} NegativeTurns(v: nat, tail: seq<Byte>)
    requires TWO64 - TWO31 <= v < TWO64
    ensures ReadVarint32From(Varint(v / 0x80) + tail, 7, v % 128)
         == ReadVarint32From(Varint(v / 0x1000_0000) + tail, 28, v % 0x1000_0000)
    ensures v % 0x1000_0000 < Shl(1, 28)
  {
    hide Varint, Shl, ReadVarint32From;
    var v1, v2, v3 := v / 0x80, v / 0x4000, v / 0x20_0000;
    var a, b, c, d := 7, 14, 21, 28;
    Scaled(1, a); Scaled(1, b); Scaled(1, c); Scaled(1, d);
    Scaled(v1 % 128, a); Scaled(v2 % 128, b); Scaled(v3 % 128, c);
    Groups(v, 0x80); Groups(v, 0x4000); Groups(v, 0x20_0000);
    Turn32(v1, a, v % 0x80, tail);
    Turn32(v2, b, v % 0x4000, tail);
    Turn32(v3, c, v % 0x20_0000, tail);
  }

  /** Taking seven more bits. */
  lemma {:induction false} Groups(v: nat, m: nat)
    requires m == 0x80 || m == 0x4000 || m == 0x20_0000
    ensures v / m / 128 == v / (128 * m) && v % m + v / m % 128 * m == v % (128 * m)
  {
    var q, r := v / m, v % m;
    var q2, r2 := q / 128, q % 128;
    if m == 0x80 { assert v == 0x4000 * q2 + (0x80 * r2 + r); }
    else if m == 0x4000 { assert v == 0x20_0000 * q2 + (0x4000 * r2 + r); }
    else { assert v == 0x1000_0000 * q2 + (0x20_0000 * r2 + r); }
  }
}
