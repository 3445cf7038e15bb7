/** The stored form of a session written out once more, as the ASN.1 of ssl_asn1.cc has it: tag by
    tag, from the session's own fields. */
module SslSessionForm {
  import opened Words
  import opened Digits
  import Der
  import opened SslSession

  // ------------------------------------------------------------- elements

  /** A length in the fewest bytes (X.690 sections 8.1.3 and 10.1). */
  predicate Length(bs: seq<Byte>, n: nat) {
    if n < 128 then bs == [n]
    else if n < 0x100 then bs == [0x81, n]
    else if n < 0x1_0000 then bs == [0x82, n / 0x100, n % 0x100]
    else if n < 0x100_0000 then bs == [0x83, n / 0x1_0000, n / 0x100 % 0x100, n % 0x100]
    else n < 0xffff_ffff && bs == [0x84, n / 0x100_0000, n / 0x1_0000 % 0x100, n / 0x100 % 0x100, n % 0x100]
  }

  /** Identifier, length and contents. */
  ghost predicate Tlv(bs: seq<Byte>, id: nat, body: seq<Byte>) {
    exists len: seq<Byte> :: Length(len, |body|) && id < 256 && bs == [id] + len + body
  }

  /** The value of some bytes, high byte first. */
  function ValueOf(bs: seq<Byte>): nat {
    if bs == [] then 0 else 256 * ValueOf(bs[..|bs| - 1]) + bs[|bs| - 1]
  }

  /** The contents of an INTEGER that is not negative: the fewest bytes that leave the top bit clear. */
  predicate Natural(bs: seq<Byte>, v: nat) {
    bs != [] && bs[0] < 128 && (|bs| > 1 && bs[0] == 0 ==> bs[1] >= 128) && ValueOf(bs) == v
  }

  lemma {:induction false} LengthIs(n: nat)
    requires n <= 0xffff_fffe
    ensures Length(Der.LengthBytes(n), n)
  {
    if n > 0x7f { LongLengthIs(n); }
  }

  lemma {:induction false} LongLengthIs(n: nat)
    requires 0x7f < n <= 0xffff_fffe
    ensures Length(Der.LengthBytes(n), n)
  {
    hide BigEndian;
    BytesOf(n);
  }

  lemma {:induction false} BytesOf(n: nat)
    ensures BigEndian(n, 1) == [n % 256]
    ensures BigEndian(n, 2) == [n / 256 % 256, n % 256]
    ensures BigEndian(n, 3) == [n / 256 / 256 % 256, n / 256 % 256, n % 256]
    ensures BigEndian(n, 4) == [n / 256 / 256 / 256 % 256, n / 256 / 256 % 256, n / 256 % 256, n % 256]
  {
    assert BigEndian(n, 4) == BigEndian(n / 256, 3) + [n % 256];
    assert BigEndian(n / 256, 3) == BigEndian(n / 256 / 256, 2) + [n / 256 % 256];
    assert BigEndian(n / 256 / 256, 2) == BigEndian(n / 256 / 256 / 256, 1) + [n / 256 / 256 % 256];
    assert BigEndian(n, 3) == BigEndian(n / 256, 2) + [n % 256];
    assert BigEndian(n / 256, 2) == BigEndian(n / 256 / 256, 1) + [n / 256 % 256];
    assert BigEndian(n, 2) == BigEndian(n / 256, 1) + [n % 256];
  }

  lemma {:induction false} ElementIs(t: Der.Tag, body: seq<Byte>)
    requires Der.Short(t) && Der.Element(t, body).Some?
    ensures Tlv(Der.Element(t, body).value, 32 * t.bits + t.number, body)
  {
    hide Der.LengthBytes, Length;
    LengthIs(|body|);
  }

  lemma {:induction false} ValueMore(bs: seq<Byte>, b: Byte)
    ensures ValueOf(bs + [b]) == 256 * ValueOf(bs) + b
  {
    assert (bs + [b])[..|bs|] == bs;
  }

  lemma {:induction false} PaddedValue(bs: seq<Byte>)
    ensures ValueOf([0] + bs) == ValueOf(bs)
  {
    if bs == [] {
      ValueMore([], 0);
      assert [] + [0] == [0] + bs == [0];
    } else {
      var n := |bs| - 1;
      PaddedValue(bs[..n]);
      assert ([0] + bs)[..n + 1] == [0] + bs[..n];
    }
  }

  lemma {:induction false} MinimalIs(v: nat)
    ensures ValueOf(Der.Minimal(v)) == v
    ensures v > 0 ==> Der.Minimal(v)[0] > 0
    ensures v == 0 ==> |Der.Minimal(v)| == 1
  {
    hide ValueOf;
    if v < 256 {
      OneByte(v);
    } else {
      MinimalIs(v / 256);
      ValueMore(Der.Minimal(v / 256), v % 256);
    }
  }

  lemma {:induction false} OneByte(v: Byte)
    ensures ValueOf([v]) == v
  {
    assert [v][..0] == [];
  }

  lemma {:induction false} IntegerIs(v: nat)
    ensures Natural(Der.IntegerBody(v), v)
  {
    hide ValueOf, Der.Minimal;
    MinimalIs(v);
    PaddedValue(Der.Minimal(v));
  }

  // ------------------------------------------------------------- fields

  /** A field with an explicit tag [n] around one element. */
  ghost predicate Wrapped(bs: seq<Byte>, n: nat, id: nat, body: seq<Byte>) {
    exists inner :: Tlv(inner, id, body) && Tlv(bs, 0xa0 + n, inner)
  }

  /** An OCTET STRING under tag [n]. */
  ghost predicate OctetField(bs: seq<Byte>, n: nat, there: bool, body: seq<Byte>) {
    if there then Wrapped(bs, n, 4, body) else bs == []
  }

  ghost predicate NumberField(bs: seq<Byte>, n: nat, there: bool, v: nat) {
    if there then exists body :: Natural(body, v) && Wrapped(bs, n, 2, body) else bs == []
  }

  ghost predicate BoolField(bs: seq<Byte>, n: nat, there: bool, v: Byte) {
    if there then Wrapped(bs, n, 1, [v]) else bs == []
  }

  /** Certificates as they are, under tag [n]. */
  ghost predicate RawField(bs: seq<Byte>, n: nat, there: bool, body: seq<Byte>) {
    if there then Tlv(bs, 0xa0 + n, body) else bs == []
  }

  ghost predicate FieldIs(bs: seq<Byte>, n: nat, i: Inner) {
    match i
    case Absent => bs == []
    case Raw(body) => RawField(bs, n, true, body)
    case Octets(body) => OctetField(bs, n, true, body)
    case Number(v) => NumberField(bs, n, true, v)
    case Bool(b) => BoolField(bs, n, true, if b then 0xff else 0)
  }

  lemma {:induction false} FieldWritten(n: nat, i: Inner)
    requires n < 31 && FieldBytes(Field(n, i)).Some?
    ensures FieldIs(FieldBytes(Field(n, i)).value, n, i)
  {
    hide Der.Element, Tlv, Natural, Der.IntegerBody;
    if !i.Absent? {
      var body := InnerBytes(i).value;
      ElementIs(Der.Context(n), body);
      match i {
        case Raw(b) =>
        case Octets(b) => ElementIs(Der.OCTETSTRING, b);
        case Number(v) => ElementIs(Der.INTEGER, Der.IntegerBody(v)); IntegerIs(v);
        case Bool(b) => ElementIs(Der.BOOLEAN, [if b then 0xff else 0]);
      }
    }
  }

  // ------------------------------------------------------------- the whole form

  function Joined(parts: seq<seq<Byte>>): seq<Byte> {
    if parts == [] then [] else parts[0] + Joined(parts[1..])
  }

  ghost predicate OptionField(bs: seq<Byte>, n: nat, o: Option<seq<Byte>>) {
    match o
    case None => bs == []
    case Some(b) => OctetField(bs, n, true, b)
  }

  /** The fields that are always there: version of the format, protocol version, cipher, session ID,
      master key, time and timeout. */
  ghost predicate Front(s: Session, forTicket: bool, p: seq<seq<Byte>>)
    requires |p| == 26 && s.cipher.Some?
  {
    && (exists one :: Natural(one, 1) && Tlv(p[0], 2, one))
    && (exists v :: Natural(v, s.version) && Tlv(p[1], 2, v))
    && s.cipher.value < 0x1_0000 && Tlv(p[2], 4, [s.cipher.value / 256, s.cipher.value % 256])
    && Tlv(p[3], 4, if forTicket then [] else s.sessionId)
    && Tlv(p[4], 4, s.masterKey)
    && NumberField(p[5], 1, true, s.time) && NumberField(p[6], 2, true, s.timeout)
  }

  /** The certificates are left out when the peer is known by its hash. */
  ghost predicate Identity(s: Session, forTicket: bool, p: seq<seq<Byte>>)
    requires |p| == 26 && -LONG_MAX - 1 <= s.verifyResult
  {
    && RawField(p[7], 3, s.peerSha256.None? && s.certs != [], if s.certs != [] then s.certs[0] else [])
    && OctetField(p[8], 4, true, s.sidCtx)
    && NumberField(p[9], 5, s.verifyResult != 0, if s.verifyResult < 0 then s.verifyResult + 0x1_0000_0000_0000_0000 else s.verifyResult)
    && OptionField(p[10], 8, s.pskIdentity)
    && NumberField(p[11], 9, s.lifetimeHint != 0, s.lifetimeHint)
    && (if forTicket then p[12] == [] else OptionField(p[12], 10, s.ticket))
    && OptionField(p[13], 13, s.peerSha256)
  }

  ghost predicate Evidence(s: Session, p: seq<seq<Byte>>)
    requires |p| == 26
  {
    && OctetField(p[14], 14, s.handshakeHash != [], s.handshakeHash)
    && OptionField(p[15], 15, s.sctList) && OptionField(p[16], 16, s.ocspResponse)
    && BoolField(p[17], 17, s.extendedMasterSecret, 0xff)
    && NumberField(p[18], 18, s.groupId != 0, s.groupId)
    && RawField(p[19], 19, s.peerSha256.None? && |s.certs| >= 2, if |s.certs| >= 2 then Joined(s.certs[1..]) else [])
  }

  ghost predicate Resumption(s: Session, p: seq<seq<Byte>>)
    requires |p| == 26 && (s.ageAdd.Some? ==> s.ageAdd.value < 0x1_0000_0000)
  {
    && (match s.ageAdd
        case None => p[20] == []
        case Some(v) => OctetField(p[20], 21, true, [v / 0x100_0000, v / 0x1_0000 % 0x100, v / 0x100 % 0x100, v % 0x100]))
    && BoolField(p[21], 22, !s.isServer, 0)
    && NumberField(p[22], 23, s.signatureAlgorithm != 0, s.signatureAlgorithm)
    && NumberField(p[23], 24, s.maxEarlyData != 0, s.maxEarlyData)
    && NumberField(p[24], 25, s.authTimeout != s.timeout, s.authTimeout)
    && OptionField(p[25], 26, s.earlyAlpn)
  }

  lemma {:induction false} JoinedThen(a: seq<seq<Byte>>, b: seq<seq<Byte>>)
    ensures Joined(a + b) == Joined(a) + Joined(b)
  {
    if a == [] { assert a + b == b; }
    else {
      assert (a + b)[1..] == a[1..] + b;
      JoinedThen(a[1..], b);
    }
  }

  /** The fields written one by one. */
  lemma {:induction false} PartsOf(fs: seq<Field>) returns (p: seq<seq<Byte>>)
    requires TagsOk(fs) && FieldsBytes(fs).Some?
    ensures |p| == |fs| && FieldsBytes(fs).value == Joined(p)
    ensures forall k :: 0 <= k < |fs| ==> FieldIs(p[k], fs[k].n, fs[k].inner)
    decreases |fs|
  {
    hide FieldBytes, FieldIs;
    if fs == [] {
      p := [];
    } else {
      FieldWritten(fs[0].n, fs[0].inner);
      assert fs[0] == Field(fs[0].n, fs[0].inner);
      var rest := PartsOf(fs[1..]);
      p := [FieldBytes(fs[0]).value] + rest;
      assert p[1..] == rest;
      forall k | 0 <= k < |fs| ensures FieldIs(p[k], fs[k].n, fs[k].inner) {
        if k > 0 { assert fs[k] == fs[1..][k - 1] && p[k] == rest[k - 1]; }
      }
    }
  }

  lemma {:induction false} FrontWritten(s: Session, forTicket: bool) returns (h: seq<seq<Byte>>)
    requires WellTyped(s) && s.cipher.Some? && HeadBytes(s, forTicket).Some?
    ensures |h| == 7 && HeadBytes(s, forTicket).value == Joined(h)
    ensures forall p: seq<seq<Byte>> :: |p| == 26 && p[..7] == h ==> Front(s, forTicket, p)
  {
    hide Der.Element, Der.IntegerBody, FieldBytes, Tlv, Natural, NumberField;
    var c := s.cipher.value;
    var a, b := Der.Element(Der.INTEGER, Der.IntegerBody(1)).value, Der.Element(Der.INTEGER, Der.IntegerBody(s.version)).value;
    var d := Der.Element(Der.OCTETSTRING, BigEndian(c % TWO16, 2)).value;
    var id := if forTicket then [] else s.sessionId;
    var e, f := Der.Element(Der.OCTETSTRING, id).value, Der.Element(Der.OCTETSTRING, s.masterKey).value;
    var g, i := FieldBytes(Field(1, Number(s.time))).value, FieldBytes(Field(2, Number(s.timeout))).value;
    h := [a, b, d, e, f, g, i];
    IntegerIs(1);
    IntegerIs(s.version);
    BytesOf(c);
    assert BigEndian(c % TWO16, 2) == [c / 256, c % 256];
    ElementIs(Der.INTEGER, Der.IntegerBody(1));
    ElementIs(Der.INTEGER, Der.IntegerBody(s.version));
    ElementIs(Der.OCTETSTRING, BigEndian(c % TWO16, 2));
    ElementIs(Der.OCTETSTRING, id);
    ElementIs(Der.OCTETSTRING, s.masterKey);
    FieldWritten(1, Number(s.time));
    FieldWritten(2, Number(s.timeout));
    SevenJoined(a, b, d, e, f, g, i);
    forall p: seq<seq<Byte>> | |p| == 26 && p[..7] == h ensures Front(s, forTicket, p) {
      assert forall k :: 0 <= k < 7 ==> p[k] == h[k];
    }
  }

  lemma {:induction false} SevenJoined(a: seq<Byte>, b: seq<Byte>, c: seq<Byte>, d: seq<Byte>, e: seq<Byte>,
      f: seq<Byte>, g: seq<Byte>)
    ensures Joined([a, b, c, d, e, f, g]) == a + (b + (c + (d + (e + (f + g)))))
  {
    JoinedThen([a], [b, c, d, e, f, g]);
    JoinedThen([b], [c, d, e, f, g]);
    JoinedThen([c], [d, e, f, g]);
    JoinedThen([d], [e, f, g]);
    JoinedThen([e], [f, g]);
    JoinedThen([f], [g]);
    assert [a] + [b, c, d, e, f, g] == [a, b, c, d, e, f, g] && [b] + [c, d, e, f, g] == [b, c, d, e, f, g];
    assert [c] + [d, e, f, g] == [c, d, e, f, g] && [d] + [e, f, g] == [d, e, f, g] && [e] + [f, g] == [e, f, g] && [f] + [g] == [f, g];
    OneJoined(a); OneJoined(b); OneJoined(c); OneJoined(d); OneJoined(e); OneJoined(f); OneJoined(g);
  }

  lemma {:induction false} OneJoined(a: seq<Byte>)
    ensures Joined([a]) == a
  {
    assert [a][1..] == [] && a + [] == a;
  }

  lemma {:induction false} ConcatIs(certs: seq<seq<Byte>>)
    ensures Concat(certs) == Joined(certs)
  {
    if certs != [] { ConcatIs(certs[1..]); }
  }

  lemma {:induction false} IdentityIs(s: Session, forTicket: bool, p: seq<seq<Byte>>)
    requires WellTyped(s) && |p| == 26 && forall k :: 0 <= k < 19 ==> FieldIs(p[7 + k], Fields(s, forTicket)[k].n, Fields(s, forTicket)[k].inner)
    ensures Identity(s, forTicket, p)
  {
    hide Fields, Tlv, Natural, Wrapped;
    FieldsAre(s, forTicket);
    MiddleFieldsAre(s, forTicket);
    var fs := Fields(s, forTicket);
    assert FieldIs(p[7 + 0], fs[0].n, fs[0].inner) && FieldIs(p[7 + 1], fs[1].n, fs[1].inner) && FieldIs(p[7 + 2], fs[2].n, fs[2].inner);
    assert FieldIs(p[7 + 3], fs[3].n, fs[3].inner) && FieldIs(p[7 + 4], fs[4].n, fs[4].inner) && FieldIs(p[7 + 5], fs[5].n, fs[5].inner);
    assert FieldIs(p[7 + 6], fs[6].n, fs[6].inner);
  }

  lemma {:induction false} EvidenceIs(s: Session, forTicket: bool, p: seq<seq<Byte>>)
    requires WellTyped(s) && |p| == 26 && forall k :: 0 <= k < 19 ==> FieldIs(p[7 + k], Fields(s, forTicket)[k].n, Fields(s, forTicket)[k].inner)
    ensures Evidence(s, p)
  {
    hide Fields, Tlv, Natural, Wrapped, Concat, Joined;
    MiddleFieldsAre(s, forTicket);
    LaterFieldsAre(s, forTicket);
    if |s.certs| >= 2 { ConcatIs(s.certs[1..]); }
    var fs := Fields(s, forTicket);
    assert FieldIs(p[7 + 7], fs[7].n, fs[7].inner) && FieldIs(p[7 + 8], fs[8].n, fs[8].inner) && FieldIs(p[7 + 9], fs[9].n, fs[9].inner);
    assert FieldIs(p[7 + 10], fs[10].n, fs[10].inner) && FieldIs(p[7 + 11], fs[11].n, fs[11].inner) && FieldIs(p[7 + 12], fs[12].n, fs[12].inner);
  }

  lemma {:induction false} ResumptionIs(s: Session, forTicket: bool, p: seq<seq<Byte>>)
    requires WellTyped(s) && |p| == 26 && forall k :: 0 <= k < 19 ==> FieldIs(p[7 + k], Fields(s, forTicket)[k].n, Fields(s, forTicket)[k].inner)
    ensures Resumption(s, p)
  {
    hide Fields, Tlv, Natural, Wrapped, BigEndian;
    LaterFieldsAre(s, forTicket);
    if s.ageAdd.Some? { FourBytes(s.ageAdd.value); }
    var fs := Fields(s, forTicket);
    assert FieldIs(p[7 + 13], fs[13].n, fs[13].inner) && FieldIs(p[7 + 14], fs[14].n, fs[14].inner) && FieldIs(p[7 + 15], fs[15].n, fs[15].inner);
    assert FieldIs(p[7 + 16], fs[16].n, fs[16].inner) && FieldIs(p[7 + 17], fs[17].n, fs[17].inner) && FieldIs(p[7 + 18], fs[18].n, fs[18].inner);
  }

  lemma {:induction false} FourBytes(v: nat)
    requires v < 0x1_0000_0000
    ensures BigEndian(v, 4) == [v / 0x100_0000, v / 0x1_0000 % 0x100, v / 0x100 % 0x100, v % 0x100]
  {
    BytesOf(v);
  }

  /** The bytes of a stored session are exactly these: a SEQUENCE of the seven fixed fields and of
      the others in the order of their tags, each there precisely when the session has something to
      say in it. */
  lemma {:induction false} StoredForm(s: Session, forTicket: bool) returns (p: seq<seq<Byte>>)
    requires WellTyped(s) && s.cipher.Some? && ToBytes(s, forTicket).Some?
    ensures |p| == 26 && Tlv(ToBytes(s, forTicket).value, 0x30, Joined(p))
    ensures Front(s, forTicket, p) && Identity(s, forTicket, p) && Evidence(s, p) && Resumption(s, p)
  {
    hide HeadBytes, Fields, FieldsBytes, Der.Element, Tlv, FieldIs, Front, Identity, Evidence, Resumption;
    var h := FrontWritten(s, forTicket);
    var f := PartsOf(Fields(s, forTicket));
    p := h + f;
    JoinedThen(h, f);
    ElementIs(Der.SEQUENCE, HeadBytes(s, forTicket).value + FieldsBytes(Fields(s, forTicket)).value);
    assert p[..7] == h;
    IdentityIs(s, forTicket, p);
    EvidenceIs(s, forTicket, p);
    ResumptionIs(s, forTicket, p);
  }
}
