/** Numbers by their digits: what the shifts, masks and byte strings of Words mean in terms of
    quotients and remainders. */
module Digits {
  import opened Words

  /** v divided n times by the base: what is left of it without its n lowest digits. */
  function Without(v: int, base: int, n: nat): int
    requires base > 0
    decreases n
  {
    if n == 0 then v else Without(v / base, base, n - 1)
  }

  /** Digit n of v, counted from the lowest. */
  function Digit(v: int, base: int, n: nat): int
    requires base > 0
  {
    Without(v, base, n) % base
  }

  /** Byte i of a number in network byte order. */
  lemma {:induction false} BigEndianDigit(v: nat, n: nat, i: nat)
    requires i < n
    ensures BigEndian(v, n)[i] == Digit(v, 256, n - 1 - i)
  {
    if i < n - 1 { BigEndianDigit(v / 256, n - 1, i); }
  }

  lemma {:induction false} BitDigit(v: nat, i: nat)
    ensures Bit(v, i) <==> Digit(v, 2, i) == 1
  {
    if i > 0 { BitDigit(v / 2, i - 1); }
  }

  lemma {:induction false} XorBit(a: nat, b: nat, j: nat)
    ensures Bit(Xor(a, b), j) <==> Bit(a, j) != Bit(b, j)
    decreases j
  {
    XorHalf(a, b);
    if j > 0 { XorBit(a / 2, b / 2, j - 1); }
  }

  lemma {:induction false} OrBits(a: nat, b: nat, j: nat)
    ensures Bit(Or(a, b), j) <==> Bit(a, j) || Bit(b, j)
    decreases j
  {
    if a == 0 || b == 0 { ZeroBit(j); }
    else if j > 0 { OrBits(a / 2, b / 2, j - 1); }
  }

  /** Two masks have a bit in common exactly if their conjunction is not zero. */
  lemma {:induction false} CommonBit(a: nat, b: nat)
    ensures And(a, b) != 0 <==> exists i: nat :: Bit(a, i) && Bit(b, i)
  {
    if And(a, b) != 0 {
      var i := SomeBit(And(a, b));
      AndBit(a, b, i);
    }
    if i: nat :| Bit(a, i) && Bit(b, i) {
      AndBit(a, b, i);
      if And(a, b) == 0 { ZeroBit(i); }
    }
  }
}
