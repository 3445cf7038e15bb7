/** The record cipher contexts of BoringSSL: how each mode builds its nonce and additional data.
    The cipher itself is a pair of functions of which only `Ideal` is assumed. */
module SslAead {
  import opened Words
  import opened Digits

  const SSL3_VERSION: nat := 0x0300
  const TLS1_VERSION: nat := 0x0301
  const TLS1_1_VERSION: nat := 0x0302
  const TLS1_2_VERSION: nat := 0x0303
  const TLS1_3_VERSION: nat := 0x0304
  const TLS1_3_DRAFT23_VERSION: nat := 0x7f17
  const DTLS1_VERSION: nat := 0xfeff
  const DTLS1_2_VERSION: nat := 0xfefd
  const MAX_NONCE_LENGTH: nat := 16

  /** EVP_AEAD seal and open as functions of nonce, text and additional data. */
  datatype Aead = Aead(
    seal: (seq<Byte>, seq<Byte>, seq<Byte>) -> seq<Byte>,
    open: (seq<Byte>, seq<Byte>, seq<Byte>) -> Option<seq<Byte>>,
    tagLen: nat -> nat,
    maxOverhead: nat)

  /** Opening undoes sealing under the same nonce and additional data; tags stay within the
      advertised overhead. */
  ghost predicate Ideal(k: Aead) {
    && (forall n, p, a :: k.open(n, k.seal(n, p, a), a) == Some(p) && |k.seal(n, p, a)| == |p| + k.tagLen(|p|))
    && (forall len: nat :: k.tagLen(len) <= k.maxOverhead)
  }

  /** The AEADs that authenticate the plaintext length add the same overhead to every text. */
  ghost predicate FixedOverhead(k: Aead) {
    forall len: nat :: k.tagLen(len) == k.maxOverhead
  }

  datatype Encryption = NullEnc | TripleDes | Aes128 | Aes256 | Aes128Gcm | Aes256Gcm | ChaCha20
  datatype Mac = AeadMac | Sha1 | Sha256 | Sha384

  /** The fields of SSLAEADContext (isNull: there is no cipher). */
  datatype Context = Context(
    version: nat, isNull: bool, fixedNonce: seq<Byte>, variableLen: nat,
    included: bool, random: bool, omitLength: bool, omitVersion: bool, omitAd: bool, xorFixed: bool)

  /** ssl_protocol_version_from_wire. */
  function ProtocolVersion(wire: nat): Option<nat> {
    if wire == SSL3_VERSION || wire == TLS1_VERSION || wire == TLS1_1_VERSION || wire == TLS1_2_VERSION then Some(wire)
    else if wire == TLS1_3_DRAFT23_VERSION then Some(TLS1_3_VERSION)
    else if wire == DTLS1_VERSION then Some(TLS1_1_VERSION)
    else if wire == DTLS1_2_VERSION then Some(TLS1_2_VERSION)
    else None
  }

  /** ssl_cipher_get_evp_aead, with the nonce length of the AEAD it picks. */
  datatype Lengths = Lengths(nonce: nat, mac: nat, fixedIv: nat)

  function AeadLengths(enc: Encryption, mac: Mac, protocol: nat): Option<Lengths> {
    var oldIv := if protocol == SSL3_VERSION || protocol == TLS1_VERSION then 1 else 0;
    if mac.AeadMac? then
      if enc.Aes128Gcm? || enc.Aes256Gcm? then Some(Lengths(12, 0, if protocol >= TLS1_3_VERSION then 12 else 4))
      else if enc.ChaCha20? then Some(Lengths(12, 0, 12))
      else None
    else if mac.Sha1? then
      if enc.NullEnc? then Some(Lengths(0, 20, 0))
      else if enc.TripleDes? then Some(Lengths(8 - 8 * oldIv, 20, 8 * oldIv))
      else if enc.Aes128? || enc.Aes256? then Some(Lengths(16 - 16 * oldIv, 20, 16 * oldIv))
      else None
    else if mac.Sha256? then
      if enc.Aes128? || enc.Aes256? then Some(Lengths(16, 32, 0)) else None
    else if enc.Aes256? then Some(Lengths(16, 48, 0)) else None
  }

  /** What every member below relies on, and every context Create makes satisfies. */
  predicate WellFormed(c: Context) {
    c.isNull ||
    (&& |c.fixedNonce| <= 12
     && (if c.xorFixed then c.variableLen <= |c.fixedNonce| else |c.fixedNonce| + c.variableLen <= MAX_NONCE_LENGTH)
     && (c.random ==> c.included)
     && (c.included ==> !c.xorFixed)
     && (!c.random ==> c.variableLen == 8))
  }

  /** The four constructions in use. */
  datatype Mode = ExplicitNonce | XorNonce | XorNonceNoAd | RandomNonce

  predicate HasMode(c: Context, m: Mode) {
    match m
    case ExplicitNonce => !c.xorFixed && c.included && !c.random && !c.omitAd && !c.omitLength && !c.omitVersion && |c.fixedNonce| == 4 && c.variableLen == 8
    case XorNonce => c.xorFixed && !c.included && !c.random && !c.omitAd && !c.omitLength && !c.omitVersion && |c.fixedNonce| == 12 && c.variableLen == 8
    case XorNonceNoAd => c.xorFixed && !c.included && !c.random && c.omitAd && |c.fixedNonce| == 12 && c.variableLen == 8
    case RandomNonce => !c.xorFixed && c.included && c.random && !c.omitAd && c.omitLength && c.fixedNonce == []
  }

  function ModeOf(enc: Encryption, mac: Mac, protocol: nat): Mode {
    if !mac.AeadMac? then RandomNonce
    else if protocol >= TLS1_3_VERSION then XorNonceNoAd
    else if enc.ChaCha20? then XorNonce
    else ExplicitNonce
  }

  /** SSLAEADContext::Create, once the AEAD itself is set up.  A block cipher under TLS 1.3 is
      refused before this point by the choice of cipher. */
  method Create(version: nat, enc: Encryption, mac: Mac, macKeyLen: nat,
      fixedIv: seq<Byte>) returns (r: Option<Context>)
    requires ProtocolVersion(version) == Some(TLS1_3_VERSION) ==> mac.AeadMac?
    ensures r.None? <==>
            ProtocolVersion(version).None? || AeadLengths(enc, mac, ProtocolVersion(version).value).None?
            || var l := AeadLengths(enc, mac, ProtocolVersion(version).value).value; l.mac != macKeyLen || l.fixedIv != |fixedIv|
    ensures r.Some? ==> WellFormed(r.value) && !r.value.isNull && r.value.version == version
                        && HasMode(r.value, ModeOf(enc, mac, ProtocolVersion(version).value))
                        && (!r.value.random ==> r.value.fixedNonce == fixedIv)
                        && (r.value.omitVersion <==> ProtocolVersion(version) == Some(SSL3_VERSION) && !mac.AeadMac?)
  {
    var p := ProtocolVersion(version);
    if p.None? { return None; }
    var l := AeadLengths(enc, mac, p.value);
    if l.None? || l.value.fixedIv != |fixedIv| || l.value.mac != macKeyLen { return None; }
    var c := Context(version, false, [], l.value.nonce, false, false, false, false, false, false);
    if macKeyLen == 0 {
      c := c.(fixedNonce := fixedIv);
      if enc.ChaCha20? {
        c := c.(xorFixed := true, variableLen := 8);
      } else {
        c := c.(variableLen := c.variableLen - |fixedIv|);
      }
      if enc.Aes128Gcm? || enc.Aes256Gcm? { c := c.(included := true); }
      if p.value >= TLS1_3_VERSION {
        c := c.(xorFixed := true, variableLen := 8, included := false, omitAd := true);
      }
    } else {
      c := c.(included := true, random := true, omitLength := true, omitVersion := p.value == SSL3_VERSION);
    }
    r := Some(c);
  }

  // ------------------------------------------------------------- what the parts mean

  function ExplicitNonceLen(c: Context): nat {
    if c.included && !c.isNull then c.variableLen else 0
  }

  function MaxOverhead(c: Context, k: Aead): nat {
    ExplicitNonceLen(c) + if c.isNull then 0 else k.maxOverhead
  }

  /** RecordVersion, for a DTLS context when `isDtls`. */
  function RecordVersion(c: Context, isDtls: bool): nat {
    if c.version == 0 then if isDtls then DTLS1_VERSION else TLS1_VERSION
    else if ProtocolVersion(c.version).Some? && ProtocolVersion(c.version).value <= TLS1_2_VERSION then c.version
    else TLS1_2_VERSION
  }

  function AdditionalData(c: Context, recordType: Byte, version: nat, seqNum: seq<Byte>, plaintextLen: nat): seq<Byte> {
    if c.omitAd then []
    else seqNum + [recordType]
         + (if c.omitVersion then [] else BigEndian(version, 2))
         + (if c.omitLength then [] else BigEndian(plaintextLen, 2))
  }

  function Zeros(n: nat): (bs: seq<Byte>)
    ensures |bs| == n && forall i :: 0 <= i < n ==> bs[i] == 0
  {
    seq(n, i => 0)
  }

  function XorByte(a: Byte, b: Byte): Byte {
    XorFits(a, b);
    Xor(a, b)
  }

  lemma {:induction false} XorFits(a: Byte, b: Byte)
    ensures Xor(a, b) < 256
  {
    var n := 8;
    ShlEight(n - 8);
    assert Shl(1, 0) == 1;
    XorSmall(a, b, n);
  }

  function XorBytes(a: seq<Byte>, b: seq<Byte>): (r: seq<Byte>)
    requires |a| == |b|
    ensures |r| == |a|
  {
    seq(|a|, i requires 0 <= i < |a| => XorByte(a[i], b[i]))
  }

  function Nonce(c: Context, variable: seq<Byte>): seq<Byte>
    requires c.xorFixed ==> |variable| <= |c.fixedNonce|
  {
    if c.xorFixed then XorBytes(Zeros(|c.fixedNonce| - |variable|) + variable, c.fixedNonce)
    else c.fixedNonce + variable
  }

  /** The body of a sealed record; `iv` are the bytes the random generator would return. */
  function Sealed(c: Context, k: Aead, iv: seq<Byte>, recordType: Byte, version: nat, seqNum: seq<Byte>,
      plain: seq<Byte>): seq<Byte>
    requires WellFormed(c) && |seqNum| == 8 && (!c.isNull && c.random ==> |iv| == c.variableLen)
  {
    if c.isNull then plain
    else
      var variable := if c.random then iv else seqNum;
      (if c.included then variable else [])
      + k.seal(Nonce(c, variable), plain, AdditionalData(c, recordType, version, seqNum, |plain|))
  }

  /** SSLAEADContext::Open. */
  function Opened(c: Context, k: Aead, recordType: Byte, version: nat, seqNum: seq<Byte>,
      body: seq<Byte>): Option<seq<Byte>>
    requires WellFormed(c) && |seqNum| == 8
  {
    if c.isNull then Some(body)
    else if !c.omitLength && |body| < MaxOverhead(c, k) then None
    else if c.included && |body| < c.variableLen then None
    else
      var plaintextLen := if c.omitLength then 0 else |body| - MaxOverhead(c, k);
      var ad := AdditionalData(c, recordType, version, seqNum, plaintextLen);
      var variable := if c.included then body[..c.variableLen] else seqNum;
      k.open(Nonce(c, variable), if c.included then body[c.variableLen..] else body, ad)
  }

  // ------------------------------------------------------------- main results

  /** In every mode, opening rebuilds the nonce and additional data that sealing used. */
  lemma {:induction false} OpenSealed(c: Context, k: Aead, iv: seq<Byte>, recordType: Byte, version: nat,
      seqNum: seq<Byte>, plain: seq<Byte>)
    requires WellFormed(c) && |seqNum| == 8 && (!c.isNull && c.random ==> |iv| == c.variableLen)
    requires Ideal(k) && (!c.isNull && !c.omitLength ==> FixedOverhead(k))
    ensures Opened(c, k, recordType, version, seqNum, Sealed(c, k, iv, recordType, version, seqNum, plain)) == Some(plain)
  {
    hide AdditionalData, Nonce;
    if !c.isNull {
      var body := Sealed(c, k, iv, recordType, version, seqNum, plain);
      var variable := if c.random then iv else seqNum;
      var ad := AdditionalData(c, recordType, version, seqNum, |plain|);
      SameAd(c, recordType, version, seqNum, 0, |plain|);
      var ct := k.seal(Nonce(c, variable), plain, ad);
      assert |ct| == |plain| + k.tagLen(|plain|);
      if c.included {
        assert body[..c.variableLen] == variable && body[c.variableLen..] == ct;
      } else {
        assert body == ct;
      }
    }
  }

  /** Without the length, the additional data does not depend on it. */
  lemma {:induction false} SameAd(c: Context, recordType: Byte, version: nat, seqNum: seq<Byte>, m: nat, n: nat)
    ensures c.omitLength ==>
        AdditionalData(c, recordType, version, seqNum, m) == AdditionalData(c, recordType, version, seqNum, n)
  {
  }

  lemma {:induction false} SealedLen(c: Context, k: Aead, iv: seq<Byte>, recordType: Byte, version: nat,
      seqNum: seq<Byte>, plain: seq<Byte>)
    requires WellFormed(c) && |seqNum| == 8 && (!c.isNull && c.random ==> |iv| == c.variableLen)
    requires Ideal(k)
    ensures |Sealed(c, k, iv, recordType, version, seqNum, plain)| == ExplicitNonceLen(c) + |plain| + (if c.isNull then 0 else k.tagLen(|plain|))
    ensures |Sealed(c, k, iv, recordType, version, seqNum, plain)| <= |plain| + MaxOverhead(c, k)
  {
    hide AdditionalData, Nonce;
  }

  /** Under one context, different variable parts make different nonces. */
  lemma {:induction false} NonceInjective(c: Context, v: seq<Byte>, w: seq<Byte>)
    requires |v| == |w| && (c.xorFixed ==> |v| <= |c.fixedNonce|)
    requires Nonce(c, v) == Nonce(c, w)
    ensures v == w
  {
    hide XorByte;
    var n := |c.fixedNonce|;
    forall i | 0 <= i < |v| ensures v[i] == w[i] {
      if c.xorFixed {
        var j := n - |v| + i;
        assert (Zeros(n - |v|) + v)[j] == v[i] && (Zeros(n - |w|) + w)[j] == w[i];
        assert Nonce(c, v)[j] == XorByte(v[i], c.fixedNonce[j]) && Nonce(c, w)[j] == XorByte(w[i], c.fixedNonce[j]);
        XorByteInjective(v[i], w[i], c.fixedNonce[j]);
      } else {
        assert Nonce(c, v)[n + i] == v[i] && Nonce(c, w)[n + i] == w[i];
      }
    }
  }

  lemma {:induction false} XorByteInjective(a: Byte, b: Byte, f: Byte)
    requires XorByte(a, f) == XorByte(b, f)
    ensures a == b
  {
    XorTwice(a, f);
    XorTwice(b, f);
  }

  // ------------------------------------------------------------- byte by byte

  /** The additional data of RFC 5246 section 6.2.3.3: the eight bytes of the number, the type, and
      then the version and the length of the text, high byte first, as far as the mode has them. */
  lemma {:induction false} AdditionalDataBytes(c: Context, recordType: Byte, version: nat, seqNum: seq<Byte>,
      plaintextLen: nat)
    requires |seqNum| == 8 && version < 0x1_0000 && plaintextLen < 0x1_0000
    ensures var ad := AdditionalData(c, recordType, version, seqNum, plaintextLen);
      && |ad| == (if c.omitAd then 0 else 9 + (if c.omitVersion then 0 else 2) + (if c.omitLength then 0 else 2))
      && (!c.omitAd ==>
            && (forall i :: 0 <= i < 8 ==> ad[i] == seqNum[i]) && ad[8] == recordType
            && (!c.omitVersion ==> ad[9] == version / 256 && ad[10] == version % 256)
            && (!c.omitLength ==> ad[|ad| - 2] == plaintextLen / 256 && ad[|ad| - 1] == plaintextLen % 256))
  {
    TwoBytes(version);
    TwoBytes(plaintextLen);
  }

  /** The nonce: the fixed part and then the variable one, or the fixed part with the variable one
      exclusive-ored into its end, bit by bit (RFC 5288 section 3, RFC 7905 section 2). */
  lemma {:induction false} NonceBytes(c: Context, variable: seq<Byte>)
    requires c.xorFixed ==> |variable| <= |c.fixedNonce|
    ensures var n, f, v := Nonce(c, variable), |c.fixedNonce|, |variable|;
      if c.xorFixed then
        && |n| == f
        && (forall i :: 0 <= i < f - v ==> n[i] == c.fixedNonce[i])
        && (forall i, j: nat :: f - v <= i < f ==> (Bit(n[i], j) <==> Bit(c.fixedNonce[i], j) != Bit(variable[i - (f - v)], j)))
      else
        && |n| == f + v
        && (forall i :: 0 <= i < f ==> n[i] == c.fixedNonce[i])
        && (forall i :: 0 <= i < v ==> n[f + i] == variable[i])
  {
    hide Bit, Xor;
    if c.xorFixed {
      var f, v := |c.fixedNonce|, |variable|;
      var n, padded := Nonce(c, variable), Zeros(f - v) + variable;
      forall i | 0 <= i < f - v ensures n[i] == c.fixedNonce[i] {
        assert padded[i] == 0 && n[i] == Xor(0, c.fixedNonce[i]);
        XorWithZero(c.fixedNonce[i]);
      }
      forall i, j: nat | f - v <= i < f ensures Bit(n[i], j) <==> Bit(c.fixedNonce[i], j) != Bit(variable[i - (f - v)], j) {
        assert padded[i] == variable[i - (f - v)] && n[i] == Xor(variable[i - (f - v)], c.fixedNonce[i]);
        XorBit(variable[i - (f - v)], c.fixedNonce[i], j);
      }
    }
  }

  lemma {:induction false} XorWithZero(a: nat)
    ensures Xor(0, a) == a
  {
  }

  /** The body of a record: in clear without a cipher; otherwise the explicit part of the nonce if
      the mode sends one, and what the AEAD makes of the text. */
  lemma {:induction false} SealedIs(c: Context, k: Aead, iv: seq<Byte>, recordType: Byte, version: nat,
      seqNum: seq<Byte>, plain: seq<Byte>)
    requires WellFormed(c) && |seqNum| == 8 && (!c.isNull && c.random ==> |iv| == c.variableLen)
    ensures var body := Sealed(c, k, iv, recordType, version, seqNum, plain);
      if c.isNull then body == plain
      else
        var v := if c.random then iv else seqNum;
        var sent := if c.included then v else [];
        |sent| <= |body| && body[..|sent|] == sent
        && body[|sent|..] == k.seal(Nonce(c, v), plain, AdditionalData(c, recordType, version, seqNum, |plain|))
  {
    hide Nonce, AdditionalData;
  }

  // ------------------------------------------------------------- the in-place forms

  /** GetAdditionalData fills `out` and returns how much of it. */
  method GetAdditionalData(c: Context, out: array<Byte>, recordType: Byte, version: nat, seqNum: seq<Byte>,
      plaintextLen: nat) returns (len: nat)
    requires out.Length == 13 && |seqNum| == 8 && version < 0x1_0000
    modifies out
    ensures len <= 13 && out[..len] == AdditionalData(c, recordType, version, seqNum, plaintextLen)
  {
    if c.omitAd { return 0; }
    for i := 0 to 8
      invariant forall j :: 0 <= j < i ==> out[j] == seqNum[j]
    {
      out[i] := seqNum[i];
    }
    len := 8;
    out[len] := recordType;
    len := len + 1;
    assert out[..len] == seqNum + [recordType];
    if !c.omitVersion {
      TwoBytes(version);
      out[len] := version / 256 % 256;
      out[len + 1] := version % 256;
      len := len + 2;
      assert out[..len] == seqNum + [recordType] + BigEndian(version, 2);
    }
    ghost var front := out[..len];
    if !c.omitLength {
      TwoBytes(plaintextLen);
      out[len] := plaintextLen / 256 % 256;
      out[len + 1] := plaintextLen % 256;
      len := len + 2;
      assert out[..len] == front + BigEndian(plaintextLen, 2);
    }
  }

  lemma {:induction false} TwoBytes(v: nat)
    ensures BigEndian(v, 2) == [v / 256 % 256, v % 256]
  {
    assert BigEndian(v, 2) == BigEndian(v / 256, 1) + [v % 256];
    assert BigEndian(v / 256, 1) == BigEndian(v / 256 / 256, 0) + [v / 256 % 256];
  }

  /** The nonce assembly that Open and SealScatter share. */
  method AssembleNonce(c: Context, variable: seq<Byte>, nonce: array<Byte>) returns (len: nat)
    requires nonce.Length == MAX_NONCE_LENGTH && |c.fixedNonce| <= 12
    requires if c.xorFixed then |variable| <= |c.fixedNonce| else |c.fixedNonce| + |variable| <= MAX_NONCE_LENGTH
    modifies nonce
    ensures len <= MAX_NONCE_LENGTH && nonce[..len] == Nonce(c, variable)
  {
    hide XorByte;
    var fixedLen := |c.fixedNonce|;
    if c.xorFixed {
      len := fixedLen - |variable|;
      for i := 0 to len
        invariant forall j :: 0 <= j < i ==> nonce[j] == 0
      {
        nonce[i] := 0;
      }
    } else {
      len := fixedLen;
      for i := 0 to len
        invariant forall j :: 0 <= j < i ==> nonce[j] == c.fixedNonce[j]
      {
        nonce[i] := c.fixedNonce[i];
      }
    }
    ghost var front := nonce[..len];
    for i := 0 to |variable|
      invariant nonce[..len] == front
      invariant forall j :: 0 <= j < i ==> nonce[len + j] == variable[j]
    {
      nonce[len + i] := variable[i];
    }
    len := len + |variable|;
    ghost var padded := front + variable;
    assert nonce[..len] == padded;
    if c.xorFixed {
      for i := 0 to fixedLen
        invariant forall j :: 0 <= j < i ==> nonce[j] == XorByte(padded[j], c.fixedNonce[j])
        invariant forall j :: i <= j < fixedLen ==> nonce[j] == padded[j]
      {
        nonce[i] := XorByte(nonce[i], c.fixedNonce[i]);
      }
      assert front == Zeros(fixedLen - |variable|);
    }
  }

  method Open(c: Context, k: Aead, recordType: Byte, version: nat, seqNum: seq<Byte>,
      body: seq<Byte>) returns (r: Option<seq<Byte>>)
    requires WellFormed(c) && |seqNum| == 8 && version < 0x1_0000
    ensures r == Opened(c, k, recordType, version, seqNum, body)
  {
    hide AdditionalData, Nonce;
    if c.isNull { return Some(body); }
    var plaintextLen := 0;
    if !c.omitLength {
      if |body| < MaxOverhead(c, k) { return None; }
      plaintextLen := |body| - MaxOverhead(c, k);
    }
    var ad := new Byte[13];
    var adLen := GetAdditionalData(c, ad, recordType, version, seqNum, plaintextLen);
    var input, variable := body, seqNum;
    if c.included {
      if |body| < c.variableLen { return None; }
      variable := body[..c.variableLen];
      input := body[c.variableLen..];
    }
    var nonce := new Byte[MAX_NONCE_LENGTH];
    var nonceLen := AssembleNonce(c, variable, nonce);
    r := k.open(nonce[..nonceLen], input, ad[..adLen]);
  }

  /** SSLAEADContext::Seal.  It refuses a text that does not fit the output. */
  method Seal(c: Context, k: Aead, iv: seq<Byte>, maxOut: nat, recordType: Byte, version: nat, seqNum: seq<Byte>,
      plain: seq<Byte>)
    returns (r: Option<seq<Byte>>)
    requires WellFormed(c) && |seqNum| == 8 && version < 0x1_0000 && (!c.isNull && c.random ==> |iv| == c.variableLen)
    requires Ideal(k)
    ensures var body := Sealed(c, k, iv, recordType, version, seqNum, plain);
            r == if |body| > maxOut then None else Some(body)
  {
    hide AdditionalData, Nonce;
    SealedLen(c, k, iv, recordType, version, seqNum, plain);
    var suffixLen := if c.isNull then 0 else k.tagLen(|plain|);
    if |plain| + ExplicitNonceLen(c) + suffixLen > maxOut { return None; }
    if c.isNull { return Some(plain); }
    var ad := new Byte[13];
    var adLen := GetAdditionalData(c, ad, recordType, version, seqNum, |plain|);
    var variable := if c.random then iv else seqNum;
    var nonce := new Byte[MAX_NONCE_LENGTH];
    var nonceLen := AssembleNonce(c, variable, nonce);
    r := Some((if c.included then variable else []) + k.seal(nonce[..nonceLen], plain, ad[..adLen]));
  }
}
