/** The stored form of an SSL_SESSION, and reading it back. */
module SslSession {
  import opened Words
  import opened Der
  import SslAead

  const MAX_SESSION_ID: nat := 32
  const MAX_MASTER_KEY: nat := 48
  const MAX_SID_CTX: nat := 32
  const MAX_MD_SIZE: nat := 64
  const SHA256_LENGTH: nat := 32
  const LONG_MAX: int := 0x7fff_ffff_ffff_ffff
  const X509_V_OK: int := 0
  const TWO16: nat := 0x1_0000

  /** The serialized fields.  A NULL pointer and an empty list of certificates are both []. */
  datatype Session = Session(
    version: nat, cipher: Option<nat>, sessionId: seq<Byte>, masterKey: seq<Byte>, time: nat, timeout: nat,
    certs: seq<seq<Byte>>, sidCtx: seq<Byte>, verifyResult: int, pskIdentity: Option<seq<Byte>>, lifetimeHint: nat,
    ticket: Option<seq<Byte>>, peerSha256: Option<seq<Byte>>, handshakeHash: seq<Byte>, sctList: Option<seq<Byte>>,
    ocspResponse: Option<seq<Byte>>, extendedMasterSecret: bool, groupId: nat, ageAdd: Option<nat>, isServer: bool,
    signatureAlgorithm: nat, maxEarlyData: nat, authTimeout: nat, earlyAlpn: Option<seq<Byte>>)

  /** The field widths of the C structure. */
  predicate WellTyped(s: Session) {
    && s.version < 0x1_0000 && (s.cipher.Some? ==> s.cipher.value < 0x1_0000)
    && |s.sessionId| <= 32 && |s.masterKey| <= 48 && s.time < 0x1_0000_0000_0000_0000 && s.timeout < 0x1_0000_0000
    && |s.sidCtx| <= 32 && -0x8000_0000_0000_0000 <= s.verifyResult <= 0x7fff_ffff_ffff_ffff
    && (s.pskIdentity.Some? ==> 0 !in s.pskIdentity.value) && s.lifetimeHint < 0x1_0000_0000
    && (s.peerSha256.Some? ==> |s.peerSha256.value| == 32) && |s.handshakeHash| <= 64
    && s.groupId < 0x1_0000 && (s.ageAdd.Some? ==> s.ageAdd.value < 0x1_0000_0000)
    && s.signatureAlgorithm < 0x1_0000 && s.maxEarlyData < 0x1_0000_0000 && s.authTimeout < 0x1_0000_0000
  }

  /** What reading depends on besides the bytes: the ciphers known by value, and whether the
      X.509 layer takes the certificates. */
  datatype Env = Env(knownCipher: nat -> bool, takesCerts: seq<seq<Byte>> -> bool)

  // ------------------------------------------------------------- writing

  datatype Inner = Absent | Raw(bytes: seq<Byte>) | Octets(bytes: seq<Byte>) | Number(v: nat) | Bool(b: bool)

  function InnerBytes(i: Inner): Option<seq<Byte>>
    requires !i.Absent?
  {
    match i
    case Raw(bytes) => Some(bytes)
    case Octets(bytes) => Element(OCTETSTRING, bytes)
    case Number(v) => Element(INTEGER, IntegerBody(v))
    case Bool(b) => Element(BOOLEAN, [if b then 0xff else 0])
  }

  /** A field of the sequence with an explicit context tag. */
  datatype Field = Field(n: nat, inner: Inner)

  function FieldBytes(f: Field): (r: Option<seq<Byte>>)
    requires f.n < 31
    ensures r.Some? && r.value != [] ==> r.value[0] == IdByte(Context(f.n))
  {
    if f.inner.Absent? then Some([])
    else
      var body :- InnerBytes(f.inner);
      Element(Context(f.n), body)
  }

  predicate TagsOk(fs: seq<Field>) {
    forall i :: 0 <= i < |fs| ==> fs[i].n < 31
  }

  function FieldsBytes(fs: seq<Field>): Option<seq<Byte>>
    requires TagsOk(fs)
  {
    if fs == [] then Some([])
    else
      var a :- FieldBytes(fs[0]);
      var b :- FieldsBytes(fs[1..]);
      Some(a + b)
  }

  function OptOctets(o: Option<seq<Byte>>): Inner {
    if o.None? then Absent else Octets(o.value)
  }

  function NonZero(v: nat): Inner {
    if v == 0 then Absent else Number(v)
  }

  function Concat(certs: seq<seq<Byte>>): seq<Byte> {
    if certs == [] then [] else certs[0] + Concat(certs[1..])
  }

  /** A long as CBB_add_asn1_uint64 gets it. */
  function AsUint64(v: int): nat
    requires -LONG_MAX - 1 <= v
  {
    if v >= 0 then v else v + TWO64
  }

  /** Certificates are only written when the peer is not identified by its hash. */
  function Stored(s: Session): seq<seq<Byte>> {
    if s.peerSha256.Some? then [] else s.certs
  }

  /** The tagged fields after the timeout, in the order of their tags. */
  function Fields(s: Session, forTicket: bool): (fs: seq<Field>)
    requires -LONG_MAX - 1 <= s.verifyResult
    ensures |fs| == 19 && TagsOk(fs)
  {
    [Field(3, if Stored(s) == [] then Absent else Raw(Stored(s)[0])),
     Field(4, Octets(s.sidCtx)),
     Field(5, if s.verifyResult == X509_V_OK then Absent else Number(AsUint64(s.verifyResult))),
     Field(8, OptOctets(s.pskIdentity)),
     Field(9, NonZero(s.lifetimeHint)),
     Field(10, if forTicket then Absent else OptOctets(s.ticket)),
     Field(13, OptOctets(s.peerSha256)),
     Field(14, if s.handshakeHash == [] then Absent else Octets(s.handshakeHash)),
     Field(15, OptOctets(s.sctList)),
     Field(16, OptOctets(s.ocspResponse)),
     Field(17, if s.extendedMasterSecret then Bool(true) else Absent),
     Field(18, NonZero(s.groupId)),
     Field(19, if |Stored(s)| < 2 then Absent else Raw(Concat(Stored(s)[1..]))),
     Field(21, if s.ageAdd.None? then Absent else Octets(BigEndian(s.ageAdd.value, 4))),
     Field(22, if s.isServer then Absent else Bool(false)),
     Field(23, NonZero(s.signatureAlgorithm)),
     Field(24, NonZero(s.maxEarlyData)),
     Field(25, if s.timeout == s.authTimeout then Absent else Number(s.authTimeout)),
     Field(26, OptOctets(s.earlyAlpn))]
  }

  function HeadBytes(s: Session, forTicket: bool): Option<seq<Byte>>
    requires s.cipher.Some?
  {
    var a :- Element(INTEGER, IntegerBody(1));
    var b :- Element(INTEGER, IntegerBody(s.version));
    var c :- Element(OCTETSTRING, BigEndian(s.cipher.value % TWO16, 2));
    var d :- Element(OCTETSTRING, if forTicket then [] else s.sessionId);
    var e :- Element(OCTETSTRING, s.masterKey);
    var f :- FieldBytes(Field(1, Number(s.time)));
    var g :- FieldBytes(Field(2, Number(s.timeout)));
    Some(a + (b + (c + (d + (e + (f + g))))))
  }

  /** SSL_SESSION_to_bytes_full. */
  function ToBytes(s: Session, forTicket: bool): Option<seq<Byte>>
    requires -LONG_MAX - 1 <= s.verifyResult
  {
    if s.cipher.None? then None
    else
      var head :- HeadBytes(s, forTicket);
      var fields :- FieldsBytes(Fields(s, forTicket));
      Element(SEQUENCE, head + fields)
  }

  // ------------------------------------------------------------- reading

  /** CBS_get_optional_asn1_octet_string. */
  function ReadOctets(bs: seq<Byte>, n: nat): Option<Rest<Option<seq<Byte>>>> {
    var f :- GetOptional(bs, Context(n));
    if f.value.None? then Some(f)
    else
      var o :- Get(f.value.value, OCTETSTRING);
      if o.rest != [] then None else Some(Rest(Some(o.value), f.rest))
  }

  /** CBS_get_optional_asn1_uint64, with the bound of its caller. */
  function ReadNumber(bs: seq<Byte>, n: nat, absent: nat, max: nat): Option<Rest<nat>> {
    var f :- GetOptional(bs, Context(n));
    if f.value.None? then if absent > max then None else Some(Rest(absent, f.rest))
    else
      var v :- GetUint64(f.value.value);
      if v.rest != [] || v.value > max then None else Some(Rest(v.value, f.rest))
  }

  /** CBS_get_optional_asn1_bool. */
  function ReadBool(bs: seq<Byte>, n: nat, absent: bool): Option<Rest<bool>> {
    var f :- GetOptional(bs, Context(n));
    if f.value.None? then Some(Rest(absent, f.rest))
    else
      var o :- Get(f.value.value, BOOLEAN);
      if |o.value| != 1 || o.rest != [] || (o.value[0] != 0 && o.value[0] != 0xff) then None
      else Some(Rest(o.value[0] == 0xff, f.rest))
  }

  /** CBS_stow leaves nothing of an empty string. */
  function Stowed(o: Option<seq<Byte>>): Option<seq<Byte>> {
    if o == Some([]) then None else o
  }

  function OrEmpty(o: Option<seq<Byte>>): seq<Byte> {
    if o.None? then [] else o.value
  }

  /** What has been read so far; the peer's certificate is kept for the chain. */
  datatype Reading = Reading(s: Session, peer: Option<seq<Byte>>, rest: seq<Byte>)

  const BLANK := Session(0, None, [], [], 0, 0, [], [], 0, None, 0, None, None, [], None, None, false, 0, None, true, 0, 0, 0, None)

  /** The fixed front of the sequence. */
  function ReadHead(env: Env, bs: seq<Byte>): Option<Reading> {
    var a :- GetUint64(bs);
    if a.value != 1 then None
    else
      var b :- GetUint64(a.rest);
      if b.value >= TWO16 || SslAead.ProtocolVersion(b.value).None? then None
      else
        var c :- Get(b.rest, OCTETSTRING);
        if |c.value| != 2 || !env.knownCipher(FromBigEndian(c.value)) then None
        else
          var d :- Get(c.rest, OCTETSTRING);
          if |d.value| > MAX_SESSION_ID then None
          else
            var e :- Get(d.rest, OCTETSTRING);
            if |e.value| > MAX_MASTER_KEY then None
            else ReadTimes(b.value, FromBigEndian(c.value), d.value, e.value, e.rest)
  }

  /** The last two fixed fields.  What follows a number inside its tag is not looked at. */
  function ReadTimes(version: nat, cipher: nat, id: seq<Byte>, key: seq<Byte>, bs: seq<Byte>): Option<Reading> {
    var f :- Get(bs, Context(1));
    var time :- GetUint64(f.value);
    var g :- Get(f.rest, Context(2));
    var timeout :- GetUint64(g.value);
    if timeout.value >= TWO32 then None
    else
      Some(Reading(BLANK.(version := version, cipher := Some(cipher), sessionId := id, masterKey := key,
                          time := time.value, timeout := timeout.value), None, g.rest))
  }

  function ReadContext(r: Reading): Option<Reading> {
    var peer :- GetOptional(r.rest, Context(3));
    if peer.value == Some([]) then None
    else
      var sid :- ReadOctets(peer.rest, 4);
      if |OrEmpty(sid.value)| > MAX_SID_CTX then None
      else
        var verify :- ReadNumber(sid.rest, 5, X509_V_OK, LONG_MAX);
        var host :- GetOptional(verify.rest, Context(6));
        Some(Reading(r.s.(sidCtx := OrEmpty(sid.value), verifyResult := verify.value), peer.value, host.rest))
  }

  function ReadTicket(r: Reading): Option<Reading> {
    var psk :- ReadOctets(r.rest, 8);
    if psk.value.Some? && 0 in psk.value.value then None
    else
      var hint :- ReadNumber(psk.rest, 9, 0, TWO32 - 1);
      var ticket :- ReadOctets(hint.rest, 10);
      var sha :- ReadOctets(ticket.rest, 13);
      if sha.value.Some? && |sha.value.value| != SHA256_LENGTH then None
      else Some(Reading(r.s.(pskIdentity := psk.value, lifetimeHint := hint.value, ticket := Stowed(ticket.value),
                             peerSha256 := sha.value), r.peer, sha.rest))
  }

  function ReadHashes(r: Reading): Option<Reading> {
    var hash :- ReadOctets(r.rest, 14);
    if |OrEmpty(hash.value)| > MAX_MD_SIZE then None
    else
      var sct :- ReadOctets(hash.rest, 15);
      var ocsp :- ReadOctets(sct.rest, 16);
      Some(Reading(r.s.(handshakeHash := OrEmpty(hash.value), sctList := sct.value, ocspResponse := ocsp.value), r.peer, ocsp.rest))
  }

  function ReadGroup(r: Reading): Option<Reading> {
    var ems :- ReadBool(r.rest, 17, false);
    var group :- ReadNumber(ems.rest, 18, 0, TWO16 - 1);
    Some(Reading(r.s.(extendedMasterSecret := ems.value, groupId := group.value), r.peer, group.rest))
  }

  /** The loop over the certificate chain. */
  function ReadChain(bs: seq<Byte>): Option<seq<seq<Byte>>>
    decreases |bs|
  {
    if bs == [] then Some([])
    else
      var e :- ReadElement(bs);
      var others :- ReadChain(e.rest);
      Some([e.value.whole] + others)
  }

  function ReadCerts(env: Env, r: Reading): Option<Reading> {
    var chain :- GetOptional(r.rest, Context(19));
    if chain.value == Some([]) || (chain.value.Some? && r.peer.None?) then None
    else
      var others :- ReadChain(OrEmpty(chain.value));
      var certs := (if r.peer.Some? then [r.peer.value] else []) + others;
      if !env.takesCerts(certs) then None else Some(Reading(r.s.(certs := certs), r.peer, chain.rest))
  }

  function ReadAge(r: Reading): Option<Reading> {
    var age :- ReadOctets(r.rest, 21);
    if age.value.Some? && |age.value.value| != 4 then None
    else
      var server :- ReadBool(age.rest, 22, true);
      Some(Reading(r.s.(ageAdd := if age.value.None? then None else Some(FromBigEndian(age.value.value)), isServer := server.value),
                   r.peer, server.rest))
  }

  function ReadLimits(r: Reading): Option<Reading> {
    var alg :- ReadNumber(r.rest, 23, 0, TWO16 - 1);
    var early :- ReadNumber(alg.rest, 24, 0, TWO32 - 1);
    var auth :- ReadNumber(early.rest, 25, r.s.timeout, TWO32 - 1);
    Some(Reading(r.s.(signatureAlgorithm := alg.value, maxEarlyData := early.value, authTimeout := auth.value), r.peer, auth.rest))
  }

  /** The last field, and the end of the sequence. */
  function ReadAlpn(r: Reading): Option<Reading> {
    var alpn :- ReadOctets(r.rest, 26);
    if alpn.rest != [] then None else Some(Reading(r.s.(earlyAlpn := Stowed(alpn.value)), r.peer, []))
  }

  /** SSL_SESSION_parse: the session, and what follows it. */
  function Parse(env: Env, bs: seq<Byte>): Option<Rest<Session>> {
    var seq_ :- Get(bs, SEQUENCE);
    var a :- ReadHead(env, seq_.value);
    var b :- ReadContext(a);
    var c :- ReadTicket(b);
    var d :- ReadHashes(c);
    var e :- ReadGroup(d);
    var f :- ReadCerts(env, e);
    var g :- ReadAge(f);
    var h :- ReadLimits(g);
    var i :- ReadAlpn(h);
    Some(Rest(i.s, seq_.rest))
  }

  // ------------------------------------------------------------- reading back one field

  /** Nothing in bs has a context tag up to n. */
  predicate Above(bs: seq<Byte>, n: nat) {
    bs != [] ==> bs[0] > 0xa0 + n
  }

  lemma {:induction false} AbsentField(n: nat, bs: seq<Byte>)
    requires n < 31 && Above(bs, n)
    ensures GetOptional(bs, Context(n)) == Some(Rest(None, bs))
  {
    hide GetOptional;
    AbsentBack(Context(n), bs);
  }

  lemma {:induction false} RawBack(n: nat, i: Inner, more: seq<Byte>)
    requires n < 31 && FieldBytes(Field(n, i)).Some? && (i.Absent? || i.Raw?) && Above(more, n)
    ensures GetOptional(FieldBytes(Field(n, i)).value + more, Context(n)) == Some(Rest(if i.Absent? then None else Some(i.bytes), more))
  {
    hide GetOptional, Element;
    if i.Absent? {
      assert [] + more == more;
      AbsentField(n, more);
    } else {
      GetBack(Context(n), i.bytes, more);
    }
  }

  lemma {:induction false} OctetsBack(n: nat, i: Inner, more: seq<Byte>)
    requires n < 31 && FieldBytes(Field(n, i)).Some? && (i.Absent? || i.Octets?) && Above(more, n)
    ensures ReadOctets(FieldBytes(Field(n, i)).value + more, n) == Some(Rest(if i.Absent? then None else Some(i.bytes), more))
  {
    hide GetOptional, Get, Element;
    if i.Absent? {
      assert [] + more == more;
      AbsentField(n, more);
    } else {
      var body := InnerBytes(i).value;
      GetBack(Context(n), body, more);
      GetBack(OCTETSTRING, i.bytes, []);
      assert body + [] == body;
    }
  }

  lemma {:induction false} NumberBack(n: nat, i: Inner, absent: nat, max: nat, more: seq<Byte>)
    requires n < 31 && FieldBytes(Field(n, i)).Some? && (i.Absent? || i.Number?) && Above(more, n)
    requires i.Number? ==> i.v < TWO64
    ensures ReadNumber(FieldBytes(Field(n, i)).value + more, n, absent, max)
         == var v := if i.Absent? then absent else i.v; if v > max then None else Some(Rest(v, more))
  {
    hide GetOptional, GetUint64, Element;
    if i.Absent? {
      assert [] + more == more;
      AbsentField(n, more);
    } else {
      var body := InnerBytes(i).value;
      GetBack(Context(n), body, more);
      IntegerBack(i.v, []);
      assert body + [] == body;
    }
  }

  lemma {:induction false} BoolBack(n: nat, i: Inner, absent: bool, more: seq<Byte>)
    requires n < 31 && FieldBytes(Field(n, i)).Some? && (i.Absent? || i.Bool?) && Above(more, n)
    ensures ReadBool(FieldBytes(Field(n, i)).value + more, n, absent) == Some(Rest(if i.Absent? then absent else i.b, more))
  {
    hide GetOptional, Get, Element;
    if i.Absent? {
      assert [] + more == more;
      AbsentField(n, more);
    } else {
      var body := InnerBytes(i).value;
      GetBack(Context(n), body, more);
      GetBack(BOOLEAN, [if i.b then 0xff else 0], []);
      assert body + [] == body;
    }
  }

  // ------------------------------------------------------------- the order of the tags

  predicate Increasing(fs: seq<Field>) {
    forall i, j :: 0 <= i < j < |fs| ==> fs[i].n < fs[j].n
  }

  /** What is left from field k on. */
  function From(fs: seq<Field>, k: nat): Option<seq<Byte>>
    requires k <= |fs| && TagsOk(fs)
  {
    FieldsBytes(fs[k..])
  }

  /** The fields from k on start with one of their tags, or there is nothing. */
  lemma {:induction false} AboveFrom(fs: seq<Field>, k: nat, n: nat)
    requires k <= |fs| && TagsOk(fs) && From(fs, k).Some? && forall j :: k <= j < |fs| ==> fs[j].n > n
    ensures Above(From(fs, k).value, n)
    decreases |fs| - k
  {
    hide FieldBytes;
    if k < |fs| {
      assert fs[k..][1..] == fs[k + 1..];
      AboveFrom(fs, k + 1, n);
      FieldFirst(fs[k]);
    }
  }

  /** Because tags increase, what follows field k starts with a higher tag or not at all. */
  lemma {:induction false} Step(fs: seq<Field>, k: nat)
    requires k < |fs| && TagsOk(fs) && Increasing(fs) && From(fs, k).Some?
    ensures FieldBytes(fs[k]).Some? && From(fs, k + 1).Some?
    ensures From(fs, k).value == FieldBytes(fs[k]).value + From(fs, k + 1).value
    ensures Above(From(fs, k + 1).value, fs[k].n)
  {
    hide FieldBytes;
    assert fs[k..][1..] == fs[k + 1..];
    AboveFrom(fs, k + 1, fs[k].n);
  }

  lemma {:induction false} FieldFirst(f: Field)
    requires f.n < 31 && FieldBytes(f).Some?
    ensures FieldBytes(f).value != [] ==> FieldBytes(f).value[0] == 0xa0 + f.n
  {
    hide Element, InnerBytes;
  }

  lemma {:induction false} FieldsIncrease(s: Session, forTicket: bool)
    requires -LONG_MAX - 1 <= s.verifyResult
    ensures Increasing(Fields(s, forTicket))
  {
    hide Stored, OptOctets, NonZero, BigEndian, Concat, AsUint64;
  }

  // ------------------------------------------------------------- reading back a session

  /** A certificate that is exactly one element. */
  predicate IsElement(c: seq<Byte>) {
    ReadElement(c).Some? && ReadElement(c).value.rest == []
  }

  lemma {:induction false} ChainBack(certs: seq<seq<Byte>>)
    requires forall i :: 0 <= i < |certs| ==> IsElement(certs[i])
    ensures ReadChain(Concat(certs)) == Some(certs) && (certs != [] ==> Concat(certs) != [])
  {
    hide ReadElement;
    if certs != [] {
      ElementMore(certs[0], Concat(certs[1..]));
      assert [] + Concat(certs[1..]) == Concat(certs[1..]);
      ChainBack(certs[1..]);
      var e := ReadElement(certs[0]).value;
      assert IsElement(certs[0]);
      assert e.value.whole + [] == e.value.whole && e.value.whole == certs[0];
      assert Concat(certs) == certs[0] + Concat(certs[1..]);
      assert [certs[0]] + certs[1..] == certs;
    }
  }

  /** What the loop over the chain returns are single elements. */
  lemma {:induction false} ChainElements(bs: seq<Byte>)
    requires ReadChain(bs).Some?
    ensures forall i :: 0 <= i < |ReadChain(bs).value| ==> IsElement(ReadChain(bs).value[i])
    decreases |bs|
  {
    hide ReadElement;
    if bs != [] {
      ElementAlone(bs);
      ChainElements(ReadElement(bs).value.rest);
    }
  }

  lemma {:induction false} HeadBack(env: Env, s: Session, forTicket: bool, more: seq<Byte>)
    requires WellTyped(s) && s.cipher.Some? && HeadBytes(s, forTicket).Some?
    ensures ReadHead(env, HeadBytes(s, forTicket).value + more)
         == if SslAead.ProtocolVersion(s.version).None? || !env.knownCipher(s.cipher.value) then None
            else Some(Reading(BLANK.(version := s.version, cipher := s.cipher, sessionId := if forTicket then [] else s.sessionId,
                                     masterKey := s.masterKey, time := s.time, timeout := s.timeout), None, more))
  {
    hide Get, GetUint64, Element, IntegerBody, SslAead.ProtocolVersion, BigEndian, FromBigEndian, FieldBytes;
    var a, b := Element(INTEGER, IntegerBody(1)).value, Element(INTEGER, IntegerBody(s.version)).value;
    var c := Element(OCTETSTRING, BigEndian(s.cipher.value % TWO16, 2)).value;
    var id := if forTicket then [] else s.sessionId;
    var d, e := Element(OCTETSTRING, id).value, Element(OCTETSTRING, s.masterKey).value;
    var f, g := FieldBytes(Field(1, Number(s.time))).value, FieldBytes(Field(2, Number(s.timeout))).value;
    var m6 := g + more;
    var m5, m4 := f + m6, e + (f + m6);
    var m3 := d + m4;
    var m2 := c + m3;
    var m1 := b + m2;
    assert HeadBytes(s, forTicket).value + more == a + m1;
    IntegerBack(1, m1);
    IntegerBack(s.version, m2);
    GetBack(OCTETSTRING, BigEndian(s.cipher.value % TWO16, 2), m3);
    CipherBack(s.cipher.value);
    GetBack(OCTETSTRING, id, m4);
    GetBack(OCTETSTRING, s.masterKey, m5);
    TimeBack(1, s.time, m6);
    TimeBack(2, s.timeout, more);
  }

  lemma {:induction false} CipherBack(v: nat)
    requires v < TWO16
    ensures v % TWO16 == v && FromBigEndian(BigEndian(v, 2)) == v
  {
    var two := 2;
    PowersOf256(two);
    BigEndianBack(v, two);
  }

  lemma {:induction false} TimeBack(n: nat, v: nat, more: seq<Byte>)
    requires n < 31 && v < TWO64 && FieldBytes(Field(n, Number(v))).Some?
    ensures Get(FieldBytes(Field(n, Number(v))).value + more, Context(n)).Some?
    ensures var f := Get(FieldBytes(Field(n, Number(v))).value + more, Context(n)).value;
      f.rest == more && GetUint64(f.value) == Some(Rest(v, []))
  {
    hide Get, GetUint64, Element, IntegerBody;
    var body := Element(INTEGER, IntegerBody(v)).value;
    GetBack(Context(n), body, more);
    IntegerBack(v, []);
    assert body + [] == body;
  }

  /** The contents of the list, one by one. */
  lemma {:induction false} FieldsAre(s: Session, forTicket: bool)
    requires -LONG_MAX - 1 <= s.verifyResult
    ensures var fs := Fields(s, forTicket);
      && fs[0] == Field(3, if Stored(s) == [] then Absent else Raw(Stored(s)[0]))
      && fs[1] == Field(4, Octets(s.sidCtx))
      && fs[2] == Field(5, if s.verifyResult == X509_V_OK then Absent else Number(AsUint64(s.verifyResult)))
      && fs[3] == Field(8, OptOctets(s.pskIdentity))
      && fs[4] == Field(9, NonZero(s.lifetimeHint))
  {
    hide Stored, OptOctets, NonZero, BigEndian, Concat, AsUint64;
  }

  lemma {:induction false} MiddleFieldsAre(s: Session, forTicket: bool)
    requires -LONG_MAX - 1 <= s.verifyResult
    ensures var fs := Fields(s, forTicket);
      && fs[5] == Field(10, if forTicket then Absent else OptOctets(s.ticket))
      && fs[6] == Field(13, OptOctets(s.peerSha256))
      && fs[7] == Field(14, if s.handshakeHash == [] then Absent else Octets(s.handshakeHash))
      && fs[8] == Field(15, OptOctets(s.sctList))
      && fs[9] == Field(16, OptOctets(s.ocspResponse))
  {
    hide Stored, OptOctets, NonZero, BigEndian, Concat, AsUint64;
  }

  lemma {:induction false} LaterFieldsAre(s: Session, forTicket: bool)
    requires -LONG_MAX - 1 <= s.verifyResult
    ensures var fs := Fields(s, forTicket);
      && fs[10] == Field(17, if s.extendedMasterSecret then Bool(true) else Absent)
      && fs[11] == Field(18, NonZero(s.groupId))
      && fs[12] == Field(19, if |Stored(s)| < 2 then Absent else Raw(Concat(Stored(s)[1..])))
      && fs[13] == Field(21, if s.ageAdd.None? then Absent else Octets(BigEndian(s.ageAdd.value, 4)))
      && fs[14] == Field(22, if s.isServer then Absent else Bool(false))
      && fs[15] == Field(23, NonZero(s.signatureAlgorithm))
      && fs[16] == Field(24, NonZero(s.maxEarlyData))
      && fs[17] == Field(25, if s.timeout == s.authTimeout then Absent else Number(s.authTimeout))
      && fs[18] == Field(26, OptOctets(s.earlyAlpn))
  {
    hide Stored, OptOctets, NonZero, BigEndian, Concat, AsUint64;
  }

  // ------------------------------------------------------------- stage by stage

  /** Something is left to read: the fields of s from number k on. */
  ghost predicate Holds(s: Session, forTicket: bool, k: nat, bs: seq<Byte>) {
    && WellTyped(s) && k <= 19
    && From(Fields(s, forTicket), k) == Some(bs)
  }

  lemma {:induction false} Advance(s: Session, forTicket: bool, k: nat, bs: seq<Byte>) returns (more: seq<Byte>)
    requires Holds(s, forTicket, k, bs) && k < 19
    ensures var f := Fields(s, forTicket)[k];
      f.n < 31 && FieldBytes(f).Some? && bs == FieldBytes(f).value + more && Above(more, f.n) && Holds(s, forTicket, k + 1, more)
  {
    hide Fields, FieldBytes, From;
    var fs := Fields(s, forTicket);
    FieldsIncrease(s, forTicket);
    Step(fs, k);
    more := From(fs, k + 1).value;
  }

  lemma {:induction false} ContextBack(s: Session, forTicket: bool, r: Reading) returns (more: seq<Byte>)
    requires Holds(s, forTicket, 0, r.rest)
    ensures Holds(s, forTicket, 3, more)
    ensures ReadContext(r) ==
      if (Stored(s) != [] && Stored(s)[0] == []) || s.verifyResult < 0 then None
      else Some(Reading(r.s.(sidCtx := s.sidCtx, verifyResult := s.verifyResult), if Stored(s) == [] then None else Some(Stored(s)[0]), more))
  {
    hide Fields, FieldBytes, GetOptional, ReadOctets, ReadNumber, Holds, Stored, From;
    HoldsTyped(s, forTicket, 0, r.rest);
    FieldsAre(s, forTicket);
    var fs := Fields(s, forTicket);
    var m1 := Advance(s, forTicket, 0, r.rest);
    RawBack(3, fs[0].inner, m1);
    var m2 := Advance(s, forTicket, 1, m1);
    OctetsBack(4, fs[1].inner, m2);
    more := Advance(s, forTicket, 2, m2);
    NumberBack(5, fs[2].inner, X509_V_OK, LONG_MAX, more);
    NoHostName(s, forTicket, more);
  }

  lemma {:induction false} HoldsTyped(s: Session, forTicket: bool, k: nat, bs: seq<Byte>)
    requires Holds(s, forTicket, k, bs)
    ensures WellTyped(s) && -LONG_MAX - 1 <= s.verifyResult
  {
    hide Fields, From;
  }

  /** The historical host name is never written. */
  lemma {:induction false} NoHostName(s: Session, forTicket: bool, bs: seq<Byte>)
    requires Holds(s, forTicket, 3, bs)
    ensures GetOptional(bs, Context(6)) == Some(Rest(None, bs))
  {
    hide Fields, FieldBytes, GetOptional, WellTyped, From;
    HoldsTyped(s, forTicket, 3, bs);
    var fs := Fields(s, forTicket);
    FieldsAre(s, forTicket);
    FieldsIncrease(s, forTicket);
    forall j | 3 <= j < 19 ensures fs[j].n > 6 { if j > 3 { assert fs[3].n < fs[j].n; } }
    AboveFrom(fs, 3, 6);
    AbsentField(6, bs);
  }

  lemma {:induction false} TicketBack(s: Session, forTicket: bool, r: Reading) returns (more: seq<Byte>)
    requires Holds(s, forTicket, 3, r.rest)
    ensures Holds(s, forTicket, 7, more)
    ensures ReadTicket(r) == Some(Reading(r.s.(pskIdentity := s.pskIdentity, lifetimeHint := s.lifetimeHint,
                                               ticket := if forTicket then None else Stowed(s.ticket), peerSha256 := s.peerSha256), r.peer, more))
  {
    hide Fields, FieldBytes, ReadOctets, ReadNumber, Holds, From;
    HoldsTyped(s, forTicket, 3, r.rest);
    FieldsAre(s, forTicket);
    MiddleFieldsAre(s, forTicket);
    var fs := Fields(s, forTicket);
    var m1 := Advance(s, forTicket, 3, r.rest);
    OctetsBack(8, fs[3].inner, m1);
    var m2 := Advance(s, forTicket, 4, m1);
    NumberBack(9, fs[4].inner, 0, TWO32 - 1, m2);
    var m3 := Advance(s, forTicket, 5, m2);
    OctetsBack(10, fs[5].inner, m3);
    more := Advance(s, forTicket, 6, m3);
    OctetsBack(13, fs[6].inner, more);
  }

  lemma {:induction false} HashesBack(s: Session, forTicket: bool, r: Reading) returns (more: seq<Byte>)
    requires Holds(s, forTicket, 7, r.rest)
    ensures Holds(s, forTicket, 10, more)
    ensures ReadHashes(r) == Some(Reading(r.s.(handshakeHash := s.handshakeHash, sctList := s.sctList, ocspResponse := s.ocspResponse), r.peer, more))
  {
    hide Fields, FieldBytes, ReadOctets, Holds, From;
    HoldsTyped(s, forTicket, 7, r.rest);
    MiddleFieldsAre(s, forTicket);
    var fs := Fields(s, forTicket);
    var m1 := Advance(s, forTicket, 7, r.rest);
    OctetsBack(14, fs[7].inner, m1);
    assert ReadOctets(r.rest, 14) == Some(Rest(if s.handshakeHash == [] then None else Some(s.handshakeHash), m1));
    var m2 := Advance(s, forTicket, 8, m1);
    OctetsBack(15, fs[8].inner, m2);
    assert ReadOctets(m1, 15) == Some(Rest(s.sctList, m2));
    more := Advance(s, forTicket, 9, m2);
    OctetsBack(16, fs[9].inner, more);
    assert ReadOctets(m2, 16) == Some(Rest(s.ocspResponse, more));
  }

  lemma {:induction false} GroupBack(s: Session, forTicket: bool, r: Reading) returns (more: seq<Byte>)
    requires Holds(s, forTicket, 10, r.rest)
    ensures Holds(s, forTicket, 12, more)
    ensures ReadGroup(r) == Some(Reading(r.s.(extendedMasterSecret := s.extendedMasterSecret, groupId := s.groupId), r.peer, more))
  {
    hide Fields, FieldBytes, ReadNumber, ReadBool, Holds, From;
    HoldsTyped(s, forTicket, 10, r.rest);
    LaterFieldsAre(s, forTicket);
    var fs := Fields(s, forTicket);
    var m1 := Advance(s, forTicket, 10, r.rest);
    BoolBack(17, fs[10].inner, false, m1);
    more := Advance(s, forTicket, 11, m1);
    NumberBack(18, fs[11].inner, 0, TWO16 - 1, more);
  }

  /** Every certificate of the chain after the peer's own is one element. */
  predicate ChainOk(s: Session) {
    forall i :: 1 <= i < |Stored(s)| ==> IsElement(Stored(s)[i])
  }

  /** The certificates as they are told apart again: the peer's own has a field for itself, the
      others are cut where an element ends. */
  function Restored(s: Session): Option<seq<seq<Byte>>> {
    if |Stored(s)| < 2 then Some(Stored(s))
    else if Concat(Stored(s)[1..]) == [] then None
    else
      var others :- ReadChain(Concat(Stored(s)[1..]));
      Some([Stored(s)[0]] + others)
  }

  /** They are the same certificates exactly if each of the chain is one element. */
  lemma {:induction false} RestoredExactly(s: Session)
    ensures Restored(s) == Some(Stored(s)) <==> ChainOk(s)
  {
    hide IsElement, ReadChain, Concat, Stored;
    var certs := Stored(s);
    if |certs| >= 2 {
      var tail := certs[1..];
      assert [certs[0]] + tail == certs;
      if ChainOk(s) {
        forall i | 0 <= i < |tail| ensures IsElement(tail[i]) { assert tail[i] == certs[i + 1]; }
        ChainBack(tail);
      }
      if Restored(s) == Some(certs) {
        ChainElements(Concat(tail));
        var others := ReadChain(Concat(tail)).value;
        forall i | 1 <= i < |certs| ensures IsElement(certs[i]) {
          assert ([certs[0]] + others)[i] == others[i - 1];
        }
      }
    }
  }

  lemma {:induction false} CertsBack(env: Env, s: Session, forTicket: bool, r: Reading) returns (more: seq<Byte>)
    requires Holds(s, forTicket, 12, r.rest)
    requires r.peer == if Stored(s) == [] then None else Some(Stored(s)[0])
    ensures Holds(s, forTicket, 13, more)
    ensures ReadCerts(env, r) ==
      var certs := Restored(s);
      if certs.None? || !env.takesCerts(certs.value) then None else Some(Reading(r.s.(certs := certs.value), r.peer, more))
  {
    hide Fields, FieldBytes, GetOptional, Holds, Stored, IsElement, ReadChain, Concat, From;
    HoldsTyped(s, forTicket, 12, r.rest);
    LaterFieldsAre(s, forTicket);
    var fs, certs := Fields(s, forTicket), Stored(s);
    more := Advance(s, forTicket, 12, r.rest);
    RawBack(19, fs[12].inner, more);
    EmptyChain();
    var chain := GetOptional(r.rest, Context(19)).value;
    assert chain == Rest(if |certs| < 2 then None else Some(Concat(certs[1..])), more);
    if |certs| == 1 {
      assert [certs[0]] + [] == certs;
    } else if |certs| == 0 {
      assert certs == [] && [] + certs == certs;
    }
  }

  lemma {:induction false} EmptyChain()
    ensures ReadChain([]) == Some([])
  {
  }

  lemma {:induction false} ServerBack(s: Session, forTicket: bool, r: Reading) returns (more: seq<Byte>)
    requires Holds(s, forTicket, 13, r.rest)
    ensures Holds(s, forTicket, 15, more)
    ensures ReadAge(r) == Some(Reading(r.s.(ageAdd := s.ageAdd, isServer := s.isServer), r.peer, more))
  {
    hide Fields, FieldBytes, ReadOctets, ReadBool, Holds, BigEndian, FromBigEndian, From;
    HoldsTyped(s, forTicket, 13, r.rest);
    LaterFieldsAre(s, forTicket);
    var fs := Fields(s, forTicket);
    var m1 := Advance(s, forTicket, 13, r.rest);
    OctetsBack(21, fs[13].inner, m1);
    if s.ageAdd.Some? { AgeBack(s.ageAdd.value); }
    more := Advance(s, forTicket, 14, m1);
    BoolBack(22, fs[14].inner, true, more);
  }

  lemma {:induction false} LimitsBack(s: Session, forTicket: bool, r: Reading) returns (more: seq<Byte>)
    requires Holds(s, forTicket, 15, r.rest) && r.s.timeout == s.timeout
    ensures Holds(s, forTicket, 18, more)
    ensures ReadLimits(r) == Some(Reading(r.s.(signatureAlgorithm := s.signatureAlgorithm, maxEarlyData := s.maxEarlyData,
                                               authTimeout := s.authTimeout), r.peer, more))
  {
    hide Fields, FieldBytes, ReadNumber, Holds, From;
    HoldsTyped(s, forTicket, 15, r.rest);
    LaterFieldsAre(s, forTicket);
    var fs := Fields(s, forTicket);
    var m1 := Advance(s, forTicket, 15, r.rest);
    NumberBack(23, fs[15].inner, 0, TWO16 - 1, m1);
    var m2 := Advance(s, forTicket, 16, m1);
    NumberBack(24, fs[16].inner, 0, TWO32 - 1, m2);
    more := Advance(s, forTicket, 17, m2);
    NumberBack(25, fs[17].inner, s.timeout, TWO32 - 1, more);
  }

  lemma {:induction false} AlpnBack(s: Session, forTicket: bool, r: Reading)
    requires Holds(s, forTicket, 18, r.rest)
    ensures ReadAlpn(r) == Some(Reading(r.s.(earlyAlpn := Stowed(s.earlyAlpn)), r.peer, []))
  {
    hide Fields, FieldBytes, ReadOctets, Holds, From;
    HoldsTyped(s, forTicket, 18, r.rest);
    LaterFieldsAre(s, forTicket);
    var more := Advance(s, forTicket, 18, r.rest);
    OctetsBack(26, Fields(s, forTicket)[18].inner, more);
    NothingLeft(s, forTicket, more);
  }

  lemma {:induction false} AgeBack(v: nat)
    requires v < TWO32
    ensures FromBigEndian(BigEndian(v, 4)) == v
  {
    var four := 4;
    PowersOf256(four);
    BigEndianBack(v, four);
  }

  lemma {:induction false} NothingLeft(s: Session, forTicket: bool, bs: seq<Byte>)
    requires Holds(s, forTicket, 19, bs)
    ensures bs == []
  {
    hide Fields, WellTyped;
    HoldsTyped(s, forTicket, 19, bs);
    assert Fields(s, forTicket)[19..] == [];
  }

  // ------------------------------------------------------------- main result

  /** What a session looks like after it was stored: a ticket has no session ID and no ticket,
      certificates give way to the peer's hash, and an empty string is none at all. */
  function Normal(s: Session, forTicket: bool): Session {
    s.(sessionId := if forTicket then [] else s.sessionId, ticket := if forTicket || s.ticket == Some([]) then None else s.ticket,
       certs := if s.peerSha256.Some? then [] else s.certs, earlyAlpn := if s.earlyAlpn == Some([]) then None else s.earlyAlpn)
  }

  /** What the reader insists on. */
  predicate Accepted(env: Env, s: Session)
    requires s.cipher.Some?
  {
    && SslAead.ProtocolVersion(s.version).Some? && env.knownCipher(s.cipher.value) && s.verifyResult >= 0
    && (Stored(s) != [] ==> Stored(s)[0] != []) && Restored(s).Some? && env.takesCerts(Restored(s).value)
  }

  /** Reading the stored form gives the session back, with omitted fields at their defaults, and
      stops exactly at its end; it fails exactly for a protocol version or cipher it does not
      know, a negative verify result, an empty leaf certificate, a chain that is not a sequence of
      elements, or certificates that the X.509 layer refuses.  It is the session that was stored,
      and not one with the chain cut up otherwise, if and only if every certificate of the chain
      after the leaf is one element. */
  lemma {:induction false} RoundTrip(env: Env, s: Session, forTicket: bool, more: seq<Byte>)
    requires WellTyped(s) && s.cipher.Some? && ToBytes(s, forTicket).Some?
    ensures Parse(env, ToBytes(s, forTicket).value + more)
         == if Accepted(env, s) then Some(Rest(Normal(s, forTicket).(certs := Restored(s).value), more)) else None
    ensures Parse(env, ToBytes(s, forTicket).value + more) == Some(Rest(Normal(s, forTicket), more)) <==> Accepted(env, s) && ChainOk(s)
  {
    hide HeadBytes, Fields, FieldsBytes, Element, Get, ReadHead, ReadContext, ReadTicket, ReadHashes, ReadGroup,
         ReadCerts,
         ReadAge, ReadLimits, ReadAlpn, SslAead.ProtocolVersion, ChainOk, Restored;
    RestoredExactly(s);
    var head, fields := HeadBytes(s, forTicket).value, FieldsBytes(Fields(s, forTicket)).value;
    GetBack(SEQUENCE, head + fields, more);
    HeadBack(env, s, forTicket, fields);
    assert Fields(s, forTicket)[0..] == Fields(s, forTicket);
    var a := ReadHead(env, head + fields);
    if a.Some? {
      var m1 := ContextBack(s, forTicket, a.value);
      var b := ReadContext(a.value);
      if b.Some? {
        var m2 := TicketBack(s, forTicket, b.value);
        var c := ReadTicket(b.value).value;
        var m3 := HashesBack(s, forTicket, c);
        var d := ReadHashes(c).value;
        var m4 := GroupBack(s, forTicket, d);
        var e := ReadGroup(d).value;
        var m5 := CertsBack(env, s, forTicket, e);
        var f := ReadCerts(env, e);
        if f.Some? {
          var m6 := ServerBack(s, forTicket, f.value);
          var g := ReadAge(f.value).value;
          var m7 := LimitsBack(s, forTicket, g);
          AlpnBack(s, forTicket, ReadLimits(g).value);
        }
      }
    }
  }
}
