/** Branch-free comparisons, and the padding check of an RSA premaster secret built from them. */
module ConstantTime {
  const MAX_MASTER_KEY_LENGTH: nat := 48

  /** 0u - (a >> 63): the top bit in every place. */
  function MsbW(a: bv64): bv64 {
    0 - (a >> 63)
  }

  function IsZeroW(a: bv64): bv64 {
    MsbW(!a & (a - 1))
  }

  function EqW(a: bv64, b: bv64): bv64 {
    IsZeroW(a ^ b)
  }

  function SelectW(mask: bv64, a: bv64, b: bv64): bv64 {
    (mask & a) | (!mask & b)
  }

  /** The cast to uint8_t. */
  function Low8(a: bv64): bv8 {
    (a & 0xff) as bv8
  }

  function IsZero8(a: bv8): bv8 { Low8(IsZeroW(a as bv64)) }
  function Eq8(a: bv8, b: bv8): bv8 { Low8(EqW(a as bv64, b as bv64)) }
  function Select8(mask: bv8, a: bv8, b: bv8): bv8 { Low8(SelectW(mask as bv64, a as bv64, b as bv64)) }

  const TOP: bv64 := 0x8000_0000_0000_0000

  lemma {:induction false} MsbExact(a: bv64)
    ensures MsbW(a) == if a >= TOP then 0xffff_ffff_ffff_ffff else 0
  {
    if a >= TOP { assert a >> 63 == 1; } else { assert a >> 63 == 0; }
  }

  lemma {:induction false} AndTop(a: bv64, b: bv64)
    ensures a & b >= TOP <==> a >= TOP && b >= TOP
  {
  }

  /** The masks are all ones or all zeros, as the comparison says. */
  lemma {:induction false} EqExact(a: bv64, b: bv64)
    ensures EqW(a, b) == if a == b then 0xffff_ffff_ffff_ffff else 0
  {
    hide IsZeroW;
    IsZeroExact(a ^ b);
    XorZero(a, b);
  }

  lemma {:induction false} XorZero(a: bv64, b: bv64)
    ensures a ^ b == 0 <==> a == b
  {
  }

  lemma {:induction false} IsZeroExact(a: bv64)
    ensures IsZeroW(a) == if a == 0 then 0xffff_ffff_ffff_ffff else 0
  {
    hide MsbW;
    var p, q := !a, a - 1;
    AndTop(p, q);
    MsbExact(p & q);
    NotTop(a);
    if a != 0 && a < TOP { BeforeTop(a); }
  }

  lemma {:induction false} NotTop(a: bv64)
    ensures !a >= TOP <==> a < TOP
  {
  }

  lemma {:induction false} BeforeTop(a: bv64)
    requires 0 < a < TOP
    ensures a - 1 < TOP
  {
  }

  lemma {:induction false} Bytes8(a: bv8, b: bv8)
    ensures IsZero8(a) == if a == 0 then 0xff else 0
    ensures Eq8(a, b) == if a == b then 0xff else 0
    ensures Select8(0xff, a, b) == a && Select8(0, a, b) == b
  {
    hide IsZeroW, EqW, SelectW;
    IsZeroExact(a as bv64);
    EqExact(a as bv64, b as bv64);
    Widened(a, b);
    Selected(a as bv64, b as bv64);
  }

  lemma {:induction false} Widened(a: bv8, b: bv8)
    ensures Low8(a as bv64) == a && Low8(b as bv64) == b && (a as bv64 == b as bv64 <==> a == b)
        && (a as bv64 == 0 <==> a == 0)
    ensures Low8(0xffff_ffff_ffff_ffff) == 0xff && Low8(0) == 0
  {
  }

  lemma {:induction false} Selected(a: bv64, b: bv64)
    requires a <= 0xff && b <= 0xff
    ensures SelectW(0xff, a, b) & 0xff == a && SelectW(0, a, b) == b
  {
  }

  /** A decrypted block is padded correctly (RFC 3447 section 7.2.2): 00 02, non-zero bytes, 00,
      and then the premaster, which starts with the client's version. */
  predicate WellPadded(block: seq<bv8>, major: bv8, minor: bv8)
    requires |block| >= 59
  {
    var n := |block| - 48;
    && block[0] == 0 && block[1] == 2
    && (forall i :: 2 <= i < n - 1 ==> block[i] != 0)
    && block[n - 1] == 0
    && block[n] == major && block[n + 1] == minor
  }

  datatype Outcome = Chosen | DecryptError

  /** The end of the RSA case of do_read_client_key_exchange, on a block that was decrypted
      without removing its padding.  `premaster` holds random bytes and receives the result. */
  method ChoosePremaster(block: seq<bv8>, major: bv8, minor: bv8, premaster: array<bv8>) returns (r: Outcome)
    requires premaster.Length == MAX_MASTER_KEY_LENGTH
    modifies premaster
    ensures r == DecryptError <==> |block| < 59
    ensures premaster[..] ==
      if r == Chosen && WellPadded(block, major, minor) then block[|block| - 48..] else old(premaster[..])
  {
    hide IsZero8, Eq8, Select8;
    if |block| < 11 + premaster.Length { return DecryptError; }
    var paddingLen := |block| - premaster.Length;
    Bytes8(block[0], 0);
    Bytes8(block[1], 2);
    var good := Eq8(block[0], 0) & Eq8(block[1], 2);
    for i := 2 to paddingLen - 1
      modifies {}
      invariant good == Mask(block[0] == 0 && block[1] == 2 && forall k :: 2 <= k < i ==> block[k] != 0)
    {
      Bytes8(block[i], 0);
      good := good & !IsZero8(block[i]);
    }
    Bytes8(block[paddingLen - 1], 0);
    good := good & IsZero8(block[paddingLen - 1]);
    Bytes8(block[paddingLen], major);
    good := good & Eq8(block[paddingLen], major);
    Bytes8(block[paddingLen + 1], minor);
    good := good & Eq8(block[paddingLen + 1], minor);
    assert good == Mask(WellPadded(block, major, minor));
    ghost var was := premaster[..];
    for i := 0 to premaster.Length
      invariant forall k :: i <= k < premaster.Length ==> premaster[k] == was[k]
      invariant forall k :: 0 <= k < i ==>
                  premaster[k] == if good == 0xff then block[paddingLen + k] else was[k]
    {
      Bytes8(block[paddingLen + i], premaster[i]);
      premaster[i] := Select8(good, block[paddingLen + i], premaster[i]);
    }
    r := Chosen;
    PremasterIs(premaster[..], was, block, good == 0xff);
  }

  lemma {:induction false} PremasterIs(now: seq<bv8>, was: seq<bv8>, block: seq<bv8>, good: bool)
    requires |now| == |was| == MAX_MASTER_KEY_LENGTH <= |block|
    requires forall k :: 0 <= k < |now| ==> now[k] == if good then block[|block| - MAX_MASTER_KEY_LENGTH + k] else was[k]
    ensures now == if good then block[|block| - MAX_MASTER_KEY_LENGTH..] else was
  {
  }

  function Mask(b: bool): bv8 {
    if b then 0xff else 0
  }
}
