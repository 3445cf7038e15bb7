/** hm_fragment: the buffer a message is reassembled in, with its bitmap of received bytes. */
module DtlsFragment {
  import opened Words
  import opened DtlsMessage

  // ------------------------------------------------------------- bitmaps

  /** Bit i of an array of bytes. */
  predicate BitAt(bs: seq<Byte>, i: nat) {
    i / 8 < |bs| && Bit(bs[i / 8], i % 8)
  }

  /** bit_range, in 32-bit arithmetic truncated to a byte. */
  function BitRange(start: nat, end: nat): Byte
    requires start <= 8 && end <= 8
  {
    PowersFit(start, end);
    And(TWO32 - 1 - (Shl(1, start) - 1), Shl(1, end) - 1) % 256
  }

  lemma {:induction false} PowersFit(start: nat, end: nat)
    requires start <= 8 && end <= 8
    ensures 1 <= Shl(1, start) <= 256 && 1 <= Shl(1, end) <= 256
  {
    var n := 8;
    EightBits(n);
    ShlGrows(start, n);
    ShlGrows(end, n);
  }

  lemma {:induction false} EightBits(n: nat)
    requires n == 8
    ensures Shl(1, n) == 256
  {
    ShlEight(n - 8);
    assert Shl(1, n - 8) == 1;
  }

  /** Subtracting from all ones flips the bits. */
  lemma {:induction false} FlipBit(x: nat, n: nat, j: nat)
    requires x < Shl(1, n)
    ensures Bit(Shl(1, n) - 1 - x, j) <==> j < n && !Bit(x, j)
    decreases n
  {
    if n == 0 {
      ZeroBit(j);
    } else {
      assert Shl(1, n) == 2 * Shl(1, n - 1);
      assert (Shl(1, n) - 1 - x) / 2 == Shl(1, n - 1) - 1 - x / 2;
      if j > 0 { FlipBit(x / 2, n - 1, j - 1); }
    }
  }

  lemma {:induction false} OnesBits(n: nat, j: nat)
    ensures Bit(Shl(1, n) - 1, j) <==> j < n
  {
    ZeroBit(j);
    FlipBit(0, n, j);
  }

  /** bit_range(start, end) has exactly the bits from start up to end. */
  lemma {:induction false} BitRangeExact(start: nat, end: nat, j: nat)
    requires start <= 8 && end <= 8
    ensures Bit(BitRange(start, end), j) <==> start <= j < end
  {
    hide Bit, And, Shl;
    PowersFit(start, end);
    var word, byte := 32, 8;
    WordSize(word);
    EightBits(byte);
    var lo, hi := Shl(1, start) - 1, Shl(1, end) - 1;
    FlipBit(lo, word, j);
    OnesBits(start, j);
    OnesBits(end, j);
    AndBit(TWO32 - 1 - lo, hi, j);
    LowBits(And(TWO32 - 1 - lo, hi), byte, j);
  }

  lemma {:induction false} FullByte(b: Byte)
    ensures b == 255 ==> forall j: nat :: j < 8 ==> Bit(b, j)
    ensures b != 255 ==> exists j: nat :: j < 8 && !Bit(b, j)
  {
    hide Shl;
    var n, full: nat := 8, 255;
    EightBits(n);
    forall j: nat ensures Bit(full, j) <==> j < n { OnesBits(n, j); }
    if forall j: nat :: j < 8 ==> Bit(b, j) {
      forall j: nat ensures Bit(b, j) <==> j < n { ByteBits(b, j); }
      OnlyOnes(b, n);
    }
  }

  /** A byte has no bits past the seventh. */
  lemma {:induction false} ByteBits(b: Byte, j: nat)
    ensures Bit(b, j) ==> j < 8
  {
    var n := 8;
    EightBits(n);
    LowBits(b, n, j);
  }

  lemma {:induction false} OnlyOnes(w: nat, n: nat)
    requires OnlyFirst(w, n)
    ensures w == Shl(1, n) - 1
  {
    hide Bit;
    var ones: nat := Shl(1, n) - 1;
    forall j: nat ensures Bit(ones, j) <==> j < n { OnesBits(n, j); }
    OnesExactly(w, n);
    OnesExactly(ones, n);
  }

  /** A byte equals bit_range(0, n) exactly when it has the first n bits and no others. */
  lemma {:induction false} PartialByte(b: Byte, n: nat)
    requires 0 < n < 8
    ensures b == BitRange(0, n) ==> forall j: nat :: Bit(b, j) <==> j < n
    ensures b != BitRange(0, n) ==> exists j: nat :: Bit(b, j) != (j < n)
  {
    hide BitRange, Shl;
    var range := BitRange(0, n);
    forall j: nat ensures Bit(range, j) <==> j < n { BitRangeExact(0, n, j); }
    if forall j: nat :: Bit(b, j) <==> j < n {
      OnlyOnes(b, n);
      OnlyOnes(range, n);
    }
  }

  /** What dtls1_hm_fragment_mark does to each byte of the bitmap. */
  ghost predicate MarkedBytes(was: seq<Byte>, now: seq<Byte>, start: nat, end: nat)
    requires start < end <= 8 * |was| && |was| == |now|
  {
    forall k :: 0 <= k < |was| ==> now[k] == MarkedByte(was[k], k, start, end)
  }

  function MarkedByte(b: Byte, k: nat, start: nat, end: nat): nat {
    var first, last := start / 8, end / 8;
    if k == first == last then Or(b, BitRange(start % 8, end % 8))
    else if k == first then Or(b, BitRange(start % 8, 8))
    else if first < k < last then 255
    else if k == last && end % 8 != 0 && first < last then Or(b, BitRange(0, end % 8))
    else b
  }

  lemma {:induction false} MarkedByteBit(b: Byte, k: nat, start: nat, end: nat, j: nat)
    requires start < end && j < 8
    ensures Bit(MarkedByte(b, k, start, end), j) <==> Bit(b, j) || start <= 8 * k + j < end
  {
    hide Bit, BitRange, Or, Shl;
    var first, last := start / 8, end / 8;
    if k == first == last {
      BitRangeExact(start % 8, end % 8, j);
      OrBits(b, BitRange(start % 8, end % 8), j);
    } else if k == first {
      BitRangeExact(start % 8, 8, j);
      OrBits(b, BitRange(start % 8, 8), j);
    } else if first < k < last {
      var full: Byte := 255;
      FullByte(full);
    } else if k == last && end % 8 != 0 && first < last {
      BitRangeExact(0, end % 8, j);
      OrBits(b, BitRange(0, end % 8), j);
    }
  }

  lemma {:induction false} OrBits(a: nat, b: nat, j: nat)
    ensures Bit(Or(a, b), j) <==> Bit(a, j) || Bit(b, j)
    decreases j
  {
    if a == 0 || b == 0 { ZeroBit(j); }
    else if j > 0 { OrBits(a / 2, b / 2, j - 1); }
  }

  /** Marking adds exactly the range. */
  lemma {:induction false} MarkAddsRange(was: seq<Byte>, now: seq<Byte>, start: nat, end: nat, i: nat)
    requires start < end <= 8 * |was| && |was| == |now| && MarkedBytes(was, now, start, end)
    ensures BitAt(now, i) <==> BitAt(was, i) || start <= i < end
  {
    hide Bit, MarkedByte;
    if i / 8 < |was| {
      assert now[i / 8] == MarkedByte(was[i / 8], i / 8, start, end);
      MarkedByteBit(was[i / 8], i / 8, start, end, i % 8);
    }
  }

  lemma {:induction false} OrByte(a: Byte, b: Byte)
    ensures Or(a, b) < 256
  {
    var n := 8;
    EightBits(n);
    OrSmall(a, b, n);
  }

  lemma {:induction false} OrSmall(a: nat, b: nat, n: nat)
    requires a < Shl(1, n) && b < Shl(1, n)
    ensures Or(a, b) < Shl(1, n)
  {
    if n > 0 && a > 0 && b > 0 { OrSmall(a / 2, b / 2, n - 1); }
  }

  // ------------------------------------------------------------- the buffer

  class HmFragment {
    const mtype: Byte
    const msgLen: nat
    const seqNum: nat
    const data: array<Byte>
    var reassembly: array?<Byte>

    ghost predicate Valid()
      reads this, data, reassembly
    {
      && data.Length == HM_HEADER_LENGTH + msgLen
      && data[..HM_HEADER_LENGTH] == Header(mtype, msgLen, seqNum, 0, msgLen)
      && (reassembly != null ==>
            && reassembly.Length == (msgLen + 7) / 8
            && reassembly != data
            && (forall i: nat :: BitAt(reassembly[..], i) ==> i < msgLen)
            && (exists i: nat :: i < msgLen && !BitAt(reassembly[..], i)))
    }

    ghost function Foot(): set<object>
      reads this
    {
      {this, data} + if reassembly == null then {} else {reassembly}
    }

    /** Byte i has been received; all of them have once the bitmap is gone. */
    ghost predicate Has(i: nat)
      reads this, reassembly
    {
      reassembly == null || BitAt(reassembly[..], i)
    }

    ghost function Abs(): (a: Assembly)
      requires Valid()
      reads this, data, reassembly
      ensures a.mtype == mtype && a.seqNum == seqNum && |a.cells| == msgLen
    {
      Assembly(mtype, seqNum, seq(msgLen, i requires 0 <= i < msgLen && Valid() reads this, data, reassembly =>
                                            if Has(i) then Some(data[HM_HEADER_LENGTH + i]) else None))
    }

    /** The bitmap is released exactly when every byte has been received. */
    lemma {:induction false} ReleasedWhenComplete()
      requires Valid()
      ensures reassembly == null <==> Complete(Abs())
    {
      hide BitAt, Header;
      if reassembly != null {
        var i: nat :| i < msgLen && !BitAt(reassembly[..], i);
        assert !Has(i) && Abs().cells[i].None?;
      }
    }

    /** dtls1_hm_fragment_new. */
    constructor (mtype: Byte, msgLen: nat, seqNum: nat)
      ensures Valid() && fresh(data) && (reassembly != null ==> fresh(reassembly))
      ensures Abs() == Assembly(mtype, seqNum, Nothing(msgLen))
      ensures this.mtype == mtype && this.msgLen == msgLen && this.seqNum == seqNum
    {
      hide Bit;
      this.mtype, this.msgLen, this.seqNum := mtype, msgLen, seqNum;
      var bytes := new Byte[HM_HEADER_LENGTH + msgLen];
      this.data := bytes;
      this.reassembly := null;
      new;
      var header := Header(mtype, msgLen, seqNum, 0, msgLen);
      for i := 0 to HM_HEADER_LENGTH
        modifies bytes
        invariant bytes[..i] == header[..i]
      {
        bytes[i] := header[i];
      }
      if msgLen > 0 {
        reassembly := new Byte[(msgLen + 7) / 8](i => 0);
        forall i: nat ensures !BitAt(reassembly[..], i) { ZeroBit(i % 8); }
        assert !BitAt(reassembly[..], 0);
      }
      assert Abs().cells == Nothing(msgLen);
    }

    /** dtls1_hm_fragment_mark.  Its callers never mark past the end or after completion. */
    method Mark(start: nat, end: nat)
      requires Valid() && reassembly != null && start <= end <= msgLen
      modifies this`reassembly, reassembly
      ensures Valid()
      ensures reassembly == null || reassembly == old(reassembly)
      ensures forall i: nat :: i < msgLen ==> (Has(i) <==> old(Has(i)) || start <= i < end)
      ensures reassembly == null <==> forall i: nat :: i < msgLen ==> Has(i)
    {
      hide Bit, BitRange, Or, MarkedByte, MarkedBytes, BitAt, Header;
      if start == end {
        ghost var i: nat :| i < msgLen && !BitAt(reassembly[..], i);
        assert !Has(i);
        return;
      }
      ghost var was := reassembly[..];
      SetRange(reassembly, start, end);
      forall i: nat ensures BitAt(reassembly[..], i) <==> BitAt(was, i) || start <= i < end {
        MarkAddsRange(was, reassembly[..], start, end, i);
      }
      var complete := AllMarked(reassembly, msgLen);
      if complete {
        forall i: nat | i < msgLen ensures old(Has(i)) || start <= i < end { assert BitAt(reassembly[..], i); }
        reassembly := null;
      } else {
        ghost var i: nat :| i < msgLen && !BitAt(reassembly[..], i);
        assert !Has(i);
      }
    }

    /** Copies bytes of the message into place. */
    method Fill(off: nat, bytes: seq<Byte>)
      requires Valid() && off + |bytes| <= msgLen
      modifies data
      ensures Valid()
      ensures var at := HM_HEADER_LENGTH + off; forall j :: 0 <= j < data.Length ==>
                data[j] == if at <= j < at + |bytes| then bytes[j - at] else old(data[j])
    {
      var at := HM_HEADER_LENGTH + off;
      for k := 0 to |bytes|
        invariant forall j :: 0 <= j < data.Length ==>
                    data[j] == if at <= j < at + k then bytes[j - at] else old(data[j])
      {
        data[at + k] := bytes[k];
      }
      assert data[..HM_HEADER_LENGTH] == old(data[..HM_HEADER_LENGTH]);
    }

    /** A fragment is copied and marked. */
    method Receive(off: nat, bytes: seq<Byte>)
      requires Valid() && reassembly != null && off + |bytes| <= msgLen
      modifies this`reassembly, reassembly, data
      ensures Valid()
      ensures Abs() == Filled(old(Abs()), off, bytes)
      ensures reassembly == null || reassembly == old(reassembly)
    {
      hide BitAt, Header;
      ghost var was := Abs();
      Fill(off, bytes);
      Mark(off, off + |bytes|);
      assert Abs().cells == Filled(was, off, bytes).cells;
    }
  }

  /** The bit setting of dtls1_hm_fragment_mark. */
  method SetRange(bits: array<Byte>, start: nat, end: nat)
    requires start < end <= 8 * bits.Length
    modifies bits
    ensures MarkedBytes(old(bits[..]), bits[..], start, end)
  {
    hide Bit, BitRange, Or;
    ghost var was := bits[..];
    if start / 8 == end / 8 {
      OrByte(bits[start / 8], BitRange(start % 8, end % 8));
      bits[start / 8] := Or(bits[start / 8], BitRange(start % 8, end % 8));
    } else {
      OrByte(bits[start / 8], BitRange(start % 8, 8));
      bits[start / 8] := Or(bits[start / 8], BitRange(start % 8, 8));
      for i := start / 8 + 1 to end / 8
        invariant bits[start / 8] == Or(was[start / 8], BitRange(start % 8, 8))
        invariant forall k :: start / 8 < k < i ==> bits[k] == 255
        invariant forall k :: 0 <= k < bits.Length && (k < start / 8 || k >= i) ==> bits[k] == was[k]
      {
        bits[i] := 255;
      }
      if end % 8 != 0 {
        OrByte(bits[end / 8], BitRange(0, end % 8));
        bits[end / 8] := Or(bits[end / 8], BitRange(0, end % 8));
      }
    }
  }

  /** The completeness test at the end of dtls1_hm_fragment_mark. */
  method AllMarked(bits: array<Byte>, msgLen: nat) returns (all: bool)
    requires bits.Length == (msgLen + 7) / 8
    requires forall i: nat :: BitAt(bits[..], i) ==> i < msgLen
    ensures all <==> forall i: nat :: i < msgLen ==> BitAt(bits[..], i)
  {
    hide Bit, BitRange;
    for k := 0 to msgLen / 8
      invariant forall i: nat :: i < 8 * k ==> BitAt(bits[..], i)
    {
      FullByte(bits[k]);
      if bits[k] != 255 {
        ghost var j: nat :| j < 8 && !Bit(bits[k], j);
        assert !BitAt(bits[..], 8 * k + j);
        return false;
      }
      forall i: nat | 8 * k <= i < 8 * k + 8 ensures BitAt(bits[..], i) { assert Bit(bits[k], i - 8 * k); }
    }
    all := true;
    if msgLen % 8 != 0 {
      var last := msgLen / 8;
      all := bits[last] == BitRange(0, msgLen % 8);
      LastByte(bits[..], msgLen);
    }
  }

  lemma {:induction false} LastByte(bits: seq<Byte>, msgLen: nat)
    requires msgLen % 8 != 0 && |bits| == (msgLen + 7) / 8
    requires forall i: nat :: BitAt(bits, i) ==> i < msgLen
    ensures bits[msgLen / 8] == BitRange(0, msgLen % 8) <==> forall i: nat :: msgLen / 8 * 8 <= i < msgLen ==> BitAt(bits, i)
  {
    hide Bit, BitRange;
    var last, n := msgLen / 8, msgLen % 8;
    PartialByte(bits[last], n);
    if bits[last] == BitRange(0, n) {
      forall i: nat | 8 * last <= i < msgLen ensures BitAt(bits, i) { assert Bit(bits[last], i - 8 * last); }
    } else if forall i: nat :: 8 * last <= i < msgLen ==> BitAt(bits, i) {
      forall j: nat ensures Bit(bits[last], j) <==> j < n {
        ByteBits(bits[last], j);
        if j < 8 { assert BitAt(bits, 8 * last + j) <==> Bit(bits[last], j); }
      }
    }
  }
}
