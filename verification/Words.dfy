/** Bytes, machine words and their bits.  Words are mathematical integers; masks, shifts and
    truncations are written out as remainders, quotients and doublings. */
module Words {
  type Byte = b: int | 0 <= b < 256

  const TWO31: int := 0x8000_0000
  const TWO32: int := 0x1_0000_0000
  const TWO64: int := 0x1_0000_0000_0000_0000

  datatype Option<+T> = None | Some(value: T) {
    predicate IsFailure() { None? }

    function PropagateFailure<U>(): Option<U>
      requires None?
    {
      None
    }

    function Extract(): T
      requires Some?
    {
      value
    }
  }

  /** x << k, before truncation to a word. */
  function Shl(x: nat, k: nat): (r: nat)
    ensures r >= x
    ensures x == 0 ==> r == 0
  {
    if k == 0 then x else 2 * Shl(x, k - 1)
  }

  /** Bitwise or. */
  function Or(a: nat, b: nat): (r: nat)
  {
    if a == 0 then b
    else if b == 0 then a
    else 2 * Or(a / 2, b / 2) + (if a % 2 == 1 || b % 2 == 1 then 1 else 0)
  }

  /** Oring in bits above all of `a` adds them. */
  lemma {:induction false} OrAbove(a: nat, c: nat, k: nat)
    requires a < Shl(1, k)
    ensures Or(a, Shl(c, k)) == a + Shl(c, k)
  {
    if k > 0 && a != 0 && c != 0 {
      OrAbove(a / 2, c, k - 1);
    }
  }

  lemma {:induction false} ShlAdd(a: nat, b: nat, k: nat)
    ensures Shl(a + b, k) == Shl(a, k) + Shl(b, k)
  {
    if k > 0 { ShlAdd(a, b, k - 1); }
  }

  lemma {:induction false} ShlMono(a: nat, b: nat, k: nat)
    requires a <= b
    ensures Shl(a, k) <= Shl(b, k)
    ensures a < b ==> Shl(a, k) < Shl(b, k)
  {
    if k > 0 { ShlMono(a, b, k - 1); }
  }

  lemma {:induction false} ShlGrows(j: nat, k: nat)
    requires j <= k
    ensures Shl(1, j) <= Shl(1, k)
  {
    if j < k { ShlGrows(j, k - 1); }
  }

  lemma {:induction false} ShlShl(a: nat, j: nat, k: nat)
    ensures Shl(Shl(a, j), k) == Shl(a, j + k)
  {
    if k > 0 { ShlShl(a, j, k - 1); }
  }

  lemma {:induction false} ShlSeven(a: nat, k: nat)
    ensures Shl(a, k + 7) == Shl(128 * a, k) == 128 * Shl(a, k)
  {
    assert Shl(a, 7) == 128 * a by {
      assert Shl(a, 3) == 2 * Shl(a, 2) == 4 * Shl(a, 1) == 8 * Shl(a, 0);
      assert Shl(a, 7) == 2 * Shl(a, 6) == 4 * Shl(a, 5) == 8 * Shl(a, 4) == 16 * Shl(a, 3);
    }
    ShlShl(a, 7, k);
    assert Shl(a, k + 7) == 2 * Shl(a, k + 6) == 4 * Shl(a, k + 5) == 8 * Shl(a, k + 4) == 16 * Shl(a, k + 3);
    assert Shl(a, k + 3) == 2 * Shl(a, k + 2) == 4 * Shl(a, k + 1) == 8 * Shl(a, k);
  }

  lemma {:induction false} ShlFour(k: nat)
    ensures Shl(1, k + 4) == 16 * Shl(1, k)
  {
    assert Shl(1, k + 4) == 2 * Shl(1, k + 3) == 4 * Shl(1, k + 2) == 8 * Shl(1, k + 1);
  }

  /** 2^k for the widths the codec uses (k is a variable so that nothing gets unrolled). */
  lemma {:induction false} WordSize(k: nat)
    requires k == 4 || k == 7 || k == 32 || k == 64
    ensures Shl(1, k) == if k == 4 then 16 else if k == 7 then 128 else if k == 32 then TWO32 else TWO64
  {
    if k == 4 { ShlFour(k - 4); }
    else if k == 7 { ShlSeven(1, k - 7); }
    else {
      WordSizeStep(k - 32);
      if k == 64 { WordSizeStep(k - 64); }
    }
  }

  lemma {:induction false} WordSizeStep(k: nat)
    ensures Shl(1, k + 32) == TWO32 * Shl(1, k)
  {
    ShlFour(k); ShlFour(k + 4); ShlFour(k + 8); ShlFour(k + 12);
    ShlFour(k + 16); ShlFour(k + 20); ShlFour(k + 24); ShlFour(k + 28);
  }

  // ------------------------------------------------------------- single bits

  predicate Bit(w: nat, i: nat) {
    if i == 0 then w % 2 == 1 else Bit(w / 2, i - 1)
  }

  /** 2^n - 1: `allbits >> (32 - n)`. */
  function Ones(n: nat): nat {
    if n == 0 then 0 else 2 * Ones(n - 1) + 1
  }

  lemma {:induction false} OrBit(w: nat, i: nat, j: nat)
    ensures Bit(Or(w, Shl(1, i)), j) <==> Bit(w, j) || i == j
    decreases j, i
  {
    if w == 0 {
      ZeroBit(j);
      ShlBit(i, j);
    } else if i == 0 {
      assert Shl(1, 0) == 1;
      OrZero(w / 2);
      if j > 0 { ZeroBit(j - 1); }
    } else {
      assert Shl(1, i) == 2 * Shl(1, i - 1);
      if j > 0 { OrBit(w / 2, i - 1, j - 1); }
    }
  }

  lemma {:induction false} OrZero(w: nat)
    ensures Or(w, 0) == w
  {
  }

  lemma {:induction false} ZeroBit(j: nat)
    ensures !Bit(0, j)
  {
    if j > 0 { ZeroBit(j - 1); }
  }

  lemma {:induction false} ShlBit(i: nat, j: nat)
    ensures Bit(Shl(1, i), j) <==> i == j
  {
    if i > 0 && j > 0 { ShlBit(i - 1, j - 1); }
    else if i == 0 && j > 0 { ZeroBit(j - 1); }
  }

  /** Exactly the first n bits of w are set. */
  ghost predicate OnlyFirst(w: nat, n: nat) {
    forall j: nat :: Bit(w, j) <==> j < n
  }

  lemma {:induction false} OnlyFirstHalf(w: nat, n: nat)
    requires n > 0
    ensures OnlyFirst(w, n) <==> w % 2 == 1 && OnlyFirst(w / 2, n - 1)
  {
    if OnlyFirst(w, n) {
      assert Bit(w, 0);
      forall j: nat ensures Bit(w / 2, j) <==> j < n - 1 { assert Bit(w, j + 1) <==> Bit(w / 2, j); }
    }
    if w % 2 == 1 && OnlyFirst(w / 2, n - 1) {
      forall j: nat ensures Bit(w, j) <==> j < n {
        if j > 0 { assert Bit(w, j) <==> Bit(w / 2, j - 1); }
      }
    }
  }

  /** A word equals n ones exactly when its first n bits and no others are set. */
  lemma {:induction false} OnesExactly(w: nat, n: nat)
    ensures w == Ones(n) <==> OnlyFirst(w, n)
  {
    if n > 0 {
      OnlyFirstHalf(w, n);
      OnesExactly(w / 2, n - 1);
    } else if w == 0 {
      forall j: nat ensures !Bit(w, j) { ZeroBit(j); }
    } else {
      var j := SomeBit(w);
    }
  }

  lemma {:induction false} SomeBit(w: nat) returns (j: nat)
    requires w > 0
    ensures Bit(w, j)
  {
    if w % 2 == 1 { j := 0; } else { j := SomeBit(w / 2); j := j + 1; }
  }

  // ------------------------------------------------------------- and, exclusive or, truncation

  function And(a: nat, b: nat): (r: nat)
    ensures r <= a && r <= b
  {
    if a == 0 || b == 0 then 0
    else 2 * And(a / 2, b / 2) + (if a % 2 == 1 && b % 2 == 1 then 1 else 0)
  }

  lemma {:induction false} AndBit(a: nat, b: nat, j: nat)
    ensures Bit(And(a, b), j) <==> Bit(a, j) && Bit(b, j)
    decreases j
  {
    if a == 0 || b == 0 { ZeroBit(j); }
    else if j > 0 { AndBit(a / 2, b / 2, j - 1); }
  }

  /** `w & (1 << i)` is non-zero exactly when bit i is set. */
  lemma {:induction false} TestBit(w: nat, i: nat)
    ensures And(w, Shl(1, i)) != 0 <==> Bit(w, i)
  {
    AndBit(w, Shl(1, i), i);
    ShlBit(i, i);
    if And(w, Shl(1, i)) == 0 { ZeroBit(i); }
    else {
      var j := SomeBit(And(w, Shl(1, i)));
      AndBit(w, Shl(1, i), j);
      ShlBit(i, j);
    }
  }

  function Xor(a: nat, b: nat): (r: nat)
  {
    if a == 0 then b
    else if b == 0 then a
    else 2 * Xor(a / 2, b / 2) + (a % 2 + b % 2) % 2
  }

  lemma {:induction false} XorTwice(a: nat, b: nat)
    ensures Xor(Xor(a, b), b) == a
  {
    if b == 0 { assert Xor(a, 0) == a; }
    else if a == 0 { XorSelf(b); }
    else { XorTwice(a / 2, b / 2); XorHalf(a, b); XorHalf(Xor(a, b), b); }
  }

  lemma {:induction false} XorHalf(a: nat, b: nat)
    ensures Xor(a, b) / 2 == Xor(a / 2, b / 2) && Xor(a, b) % 2 == (a % 2 + b % 2) % 2
  {
    if b > 0 && b / 2 == 0 { assert Xor(a / 2, 0) == a / 2; }
  }

  lemma {:induction false} XorSelf(a: nat)
    ensures Xor(a, a) == 0
  {
    if a > 0 { XorSelf(a / 2); }
  }

  /** The exclusive or of two words of n bits has n bits. */
  lemma {:induction false} XorSmall(a: nat, b: nat, n: nat)
    requires a < Shl(1, n) && b < Shl(1, n)
    ensures Xor(a, b) < Shl(1, n)
  {
    if n > 0 && a > 0 && b > 0 { XorSmall(a / 2, b / 2, n - 1); }
  }

  /** Truncation to n bits. */
  lemma {:induction false} LowBits(w: nat, n: nat, j: nat)
    ensures Shl(1, n) > 0 && (Bit(w % Shl(1, n), j) <==> j < n && Bit(w, j))
    decreases n
  {
    if n == 0 {
      assert w % Shl(1, n) == 0;
      ZeroBit(j);
    } else {
      HalfMod(w, Shl(1, n - 1));
      assert Shl(1, n) == 2 * Shl(1, n - 1);
      if j > 0 { LowBits(w / 2, n - 1, j - 1); }
    }
  }

  lemma {:induction false} HalfMod(w: nat, m: nat)
    requires m > 0
    ensures (w % (2 * m)) / 2 == (w / 2) % m && (w % (2 * m)) % 2 == w % 2
  {
    var q, r := w / (2 * m), w % (2 * m);
    assert w == 2 * (m * q) + r;
    assert w / 2 == m * q + r / 2;
    assert r / 2 < m;
    ModUnique(w / 2, m, q, r / 2);
  }

  lemma {:induction false} ModUnique(x: nat, m: nat, q: nat, r: nat)
    requires r < m && x == m * q + r
    ensures x % m == r && x / m == q
  {
    var d, y := x / m - q, x % m;
    assert x == m * (x / m) + y;
    Distribute(m, x / m, q);
    if d >= 1 { AtLeast(d, m); }
    if d <= -1 { AtLeast(-d, m); }
  }

  lemma {:induction false} Distribute(m: nat, a: int, b: int)
    ensures m * a - m * b == (a - b) * m
  {
  }

  lemma {:induction false} AtLeast(d: int, m: nat)
    requires d >= 1
    ensures d * m >= m && (-d) * m + m <= 0
  {
    assert (d - 1) * m >= 0;
  }

  lemma {:induction false} ShlBits(w: nat, k: nat, j: nat)
    ensures Bit(Shl(w, k), j) <==> j >= k && Bit(w, j - k)
  {
    if k > 0 && j > 0 { ShlBits(w, k - 1, j - 1); }
  }

  // ------------------------------------------------------------- numbers in network byte order

  function BigEndian(v: nat, n: nat): (bs: seq<Byte>)
    ensures |bs| == n
  {
    if n == 0 then [] else BigEndian(v / 256, n - 1) + [v % 256]
  }

  function FromBigEndian(bs: seq<Byte>): (v: nat)
  {
    if bs == [] then 0 else 256 * FromBigEndian(bs[..|bs| - 1]) + bs[|bs| - 1]
  }

  lemma {:induction false} ShlEight(k: nat)
    ensures Shl(1, k + 8) == 256 * Shl(1, k)
  {
    ShlFour(k); ShlFour(k + 4);
  }

  lemma {:induction false} BigEndianBack(v: nat, n: nat)
    requires v < Shl(1, 8 * n)
    ensures FromBigEndian(BigEndian(v, n)) == v
  {
    if n > 0 {
      ShlEight(8 * n - 8);
      BigEndianBack(v / 256, n - 1);
      assert BigEndian(v, n)[..n - 1] == BigEndian(v / 256, n - 1);
    }
  }

  lemma {:induction false} FromBigEndianBack(bs: seq<Byte>)
    ensures BigEndian(FromBigEndian(bs), |bs|) == bs
    ensures FromBigEndian(bs) < Shl(1, 8 * |bs|)
  {
    if bs != [] {
      ShlEight(8 * |bs| - 8);
      FromBigEndianBack(bs[..|bs| - 1]);
    }
  }
}
