/** Storing and reading a session step by step, on an output buffer and an input cursor. */
module SslSessionIo {
  import opened Words
  import opened Der
  import opened SslSession
  import SslAead

  // ------------------------------------------------------------- writing

  lemma {:induction false} FieldsAppend(fs: seq<Field>, f: Field)
    requires TagsOk(fs) && f.n < 31
    ensures TagsOk(fs + [f])
    ensures FieldsBytes(fs + [f]) ==
      if FieldsBytes(fs).None? || FieldBytes(f).None? then None else Some(FieldsBytes(fs).value + FieldBytes(f).value)
  {
    hide FieldBytes;
    if fs == [] {
      assert fs + [f] == [f] && [f][1..] == [];
      if FieldBytes(f).Some? { assert FieldBytes(f).value + [] == [] + FieldBytes(f).value; }
    } else {
      assert (fs + [f])[1..] == fs[1..] + [f];
      FieldsAppend(fs[1..], f);
      if FieldsBytes(fs + [f]).Some? {
        var a, b, c := FieldBytes(fs[0]).value, FieldsBytes(fs[1..]).value, FieldBytes(f).value;
        assert a + (b + c) == a + b + c;
      }
    }
  }

  /** The tagged fields as they are appended; an error sticks.  `all` is what is to be written. */
  class FieldWriter {
    var buf: seq<Byte>
    var failed: bool
    ghost var done: nat
    ghost const all: seq<Field>

    ghost predicate Valid()
      reads this
    {
      && TagsOk(all) && done <= |all|
      && failed == FieldsBytes(all[..done]).None?
      && (!failed ==> buf == FieldsBytes(all[..done]).value)
    }

    constructor (ghost all: seq<Field>)
      requires TagsOk(all)
      ensures Valid() && done == 0 && this.all == all
    {
      this.buf, this.failed, this.done, this.all := [], false, 0, all;
    }

    method Add(n: nat, inner: Inner)
      requires Valid() && done < |all| && all[done] == Field(n, inner) && !inner.Absent?
      modifies this
      ensures Valid() && done == old(done) + 1
    {
      hide FieldBytes, FieldsBytes;
      FieldsAppend(all[..done], all[done]);
      assert all[..done] + [all[done]] == all[..done + 1];
      var bytes := FieldBytes(Field(n, inner));
      if bytes.None? { failed := true; } else if !failed { buf := buf + bytes.value; }
      done := done + 1;
    }

    ghost method Skip()
      requires Valid() && done < |all| && all[done].inner.Absent?
      modifies this`done
      ensures Valid() && done == old(done) + 1
    {
      hide FieldsBytes;
      FieldsAppend(all[..done], all[done]);
      assert all[..done] + [all[done]] == all[..done + 1];
      assert FieldBytes(all[done]) == Some([]);
      assert !failed ==> buf + [] == buf;
      done := done + 1;
    }

    /** An optional octet string. */
    method AddOptional(n: nat, o: Option<seq<Byte>>)
      requires Valid() && done < |all| && all[done] == Field(n, OptOctets(o))
      modifies this
      ensures Valid() && done == old(done) + 1
    {
      if o.Some? { Add(n, Octets(o.value)); } else { Skip(); }
    }

    /** A number that is left out when it is zero. */
    method AddNonZero(n: nat, v: nat)
      requires Valid() && done < |all| && all[done] == Field(n, NonZero(v))
      modifies this
      ensures Valid() && done == old(done) + 1
    {
      if v != 0 { Add(n, Number(v)); } else { Skip(); }
    }
  }

  /** The tagged part of SSL_SESSION_to_bytes_full. */
  method WriteFields(s: Session, forTicket: bool) returns (r: Option<seq<Byte>>)
    requires -LONG_MAX - 1 <= s.verifyResult
    ensures r == FieldsBytes(Fields(s, forTicket))
  {
    var w := new FieldWriter(Fields(s, forTicket));
    WriteFirst(s, forTicket, w);
    WriteMiddle(s, forTicket, w);
    WriteLast(s, forTicket, w);
    assert Fields(s, forTicket)[..19] == Fields(s, forTicket);
    r := if w.failed then None else Some(w.buf);
  }

  method WriteFirst(s: Session, forTicket: bool, w: FieldWriter)
    requires -LONG_MAX - 1 <= s.verifyResult && w.Valid() && w.done == 0 && w.all == Fields(s, forTicket)
    modifies w
    ensures w.Valid() && w.done == 7
  {
    hide Fields, FieldsBytes;
    FieldsAre(s, forTicket);
    MiddleFieldsAre(s, forTicket);
    if |s.certs| > 0 && s.peerSha256.None? { w.Add(3, Raw(s.certs[0])); } else { w.Skip(); }
    w.Add(4, Octets(s.sidCtx));
    if s.verifyResult != X509_V_OK { w.Add(5, Number(AsUint64(s.verifyResult))); } else { w.Skip(); }
    w.AddOptional(8, s.pskIdentity);
    w.AddNonZero(9, s.lifetimeHint);
    if s.ticket.Some? && !forTicket { w.Add(10, Octets(s.ticket.value)); } else { w.Skip(); }
    w.AddOptional(13, s.peerSha256);
  }

  method WriteMiddle(s: Session, forTicket: bool, w: FieldWriter)
    requires -LONG_MAX - 1 <= s.verifyResult && w.Valid() && w.done == 7 && w.all == Fields(s, forTicket)
    modifies w
    ensures w.Valid() && w.done == 12
  {
    hide Fields, FieldsBytes;
    MiddleFieldsAre(s, forTicket);
    LaterFieldsAre(s, forTicket);
    if |s.handshakeHash| > 0 { w.Add(14, Octets(s.handshakeHash)); } else { w.Skip(); }
    w.AddOptional(15, s.sctList);
    w.AddOptional(16, s.ocspResponse);
    if s.extendedMasterSecret { w.Add(17, Bool(true)); } else { w.Skip(); }
    w.AddNonZero(18, s.groupId);
  }

  method WriteLast(s: Session, forTicket: bool, w: FieldWriter)
    requires -LONG_MAX - 1 <= s.verifyResult && w.Valid() && w.done == 12 && w.all == Fields(s, forTicket)
    modifies w
    ensures w.Valid() && w.done == 19
  {
    hide Fields, FieldsBytes, BigEndian, Concat;
    LaterFieldsAre(s, forTicket);
    if s.peerSha256.None? && |s.certs| >= 2 {
      var chain := WriteChain(s.certs);
      w.Add(19, Raw(chain));
    } else {
      w.Skip();
    }
    if s.ageAdd.Some? { w.Add(21, Octets(BigEndian(s.ageAdd.value, 4))); } else { w.Skip(); }
    if !s.isServer { w.Add(22, Bool(false)); } else { w.Skip(); }
    w.AddNonZero(23, s.signatureAlgorithm);
    w.AddNonZero(24, s.maxEarlyData);
    if s.timeout != s.authTimeout { w.Add(25, Number(s.authTimeout)); } else { w.Skip(); }
    w.AddOptional(26, s.earlyAlpn);
  }

  /** The certificates after the first, one behind the other. */
  method WriteChain(certs: seq<seq<Byte>>) returns (chain: seq<Byte>)
    requires certs != []
    ensures chain == Concat(certs[1..])
  {
    chain := [];
    for i := 1 to |certs|
      invariant chain + Concat(certs[i..]) == Concat(certs[1..])
    {
      assert certs[i..][1..] == certs[i + 1..];
      ghost var was := chain;
      chain := chain + certs[i];
      assert was + (certs[i] + Concat(certs[i + 1..])) == chain + Concat(certs[i + 1..]);
    }
    assert certs[|certs|..] == [];
    assert chain + [] == chain;
  }

  // ------------------------------------------------------------- reading

  /** CBS: the input still to be read. */
  class Cursor {
    var data: seq<Byte>

    constructor (data: seq<Byte>)
      ensures this.data == data
    {
      this.data := data;
    }

    method GetAsn1(t: Tag) returns (r: Option<seq<Byte>>)
      modifies this
      ensures r.None? <==> Get(old(data), t).None?
      ensures r.Some? ==> Rest(r.value, data) == Get(old(data), t).value
    {
      hide ReadElement;
      var e := ReadElement(data);
      if e.None? || e.value.value.tag != t { return None; }
      data := e.value.rest;
      r := Some(e.value.value.body);
    }

    method GetOptionalAsn1(t: Tag) returns (ok: bool, r: Option<seq<Byte>>)
      modifies this
      ensures ok == GetOptional(old(data), t).Some?
      ensures ok ==> Rest(r, data) == GetOptional(old(data), t).value
    {
      hide Get, ReadTag;
      if !Peek(data, t) { return true, None; }
      r := GetAsn1(t);
      ok := r.Some?;
    }

    /** CBS_get_asn1_uint64. */
    method GetAsn1Uint64() returns (r: Option<nat>)
      modifies this
      ensures r.None? <==> GetUint64(old(data)).None?
      ensures r.Some? ==> Rest(r.value, data) == GetUint64(old(data)).value
    {
      hide Get;
      var bytes := GetAsn1(INTEGER);
      if bytes.None? { return None; }
      var b := bytes.value;
      if b == [] || b[0] >= 128 || (b[0] == 0 && |b| > 1 && b[1] < 128) { return None; }
      var out: nat := 0;
      for i := 0 to |b|
        modifies {}
        invariant Accumulate(b[i..], out) == Accumulate(b, 0)
      {
        if out >= TWO56 { return None; }
        assert b[i..][1..] == b[i + 1..];
        out := out * 256 + b[i];
      }
      r := Some(out);
    }

    method GetOptionalOctets(n: nat) returns (ok: bool, r: Option<seq<Byte>>)
      modifies this
      ensures ok == ReadOctets(old(data), n).Some?
      ensures ok ==> Rest(r, data) == ReadOctets(old(data), n).value
    {
      hide Get, GetOptional;
      ok, r := GetOptionalAsn1(Context(n));
      if !ok || r.None? { return; }
      var child := new Cursor(r.value);
      r := child.GetAsn1(OCTETSTRING);
      ok := r.Some? && child.data == [];
    }

    method GetOptionalNumber(n: nat, absent: nat, max: nat) returns (r: Option<nat>)
      modifies this
      ensures r.None? <==> ReadNumber(old(data), n, absent, max).None?
      ensures r.Some? ==> Rest(r.value, data) == ReadNumber(old(data), n, absent, max).value
    {
      hide GetUint64, GetOptional;
      var ok, body := GetOptionalAsn1(Context(n));
      if !ok { return None; }
      if body.None? { return if absent > max then None else Some(absent); }
      var child := new Cursor(body.value);
      r := child.GetAsn1Uint64();
      if r.Some? && (child.data != [] || r.value > max) { r := None; }
    }

    method GetOptionalBool(n: nat, absent: bool) returns (r: Option<bool>)
      modifies this
      ensures r.None? <==> ReadBool(old(data), n, absent).None?
      ensures r.Some? ==> Rest(r.value, data) == ReadBool(old(data), n, absent).value
    {
      hide Get, GetOptional;
      var ok, body := GetOptionalAsn1(Context(n));
      if !ok { return None; }
      if body.None? { return Some(absent); }
      var child := new Cursor(body.value);
      var b := child.GetAsn1(BOOLEAN);
      if b.None? || |b.value| != 1 || child.data != [] || (b.value[0] != 0 && b.value[0] != 0xff) { return None; }
      r := Some(b.value[0] == 0xff);
    }
  }

  /** The state of SSL_SESSION_parse. */
  class SessionReader {
    const cbs: Cursor
    var s: Session
    var peer: Option<seq<Byte>>

    ghost function Abs(): Reading
      reads this, cbs
    {
      Reading(s, peer, cbs.data)
    }

    constructor (body: seq<Byte>)
      ensures Abs() == Reading(BLANK, None, body) && fresh(cbs)
    {
      s, peer := BLANK, None;
      cbs := new Cursor(body);
    }

    method Head(env: Env) returns (ok: bool)
      requires s == BLANK && peer.None?
      modifies this, cbs
      ensures ok == ReadHead(env, old(cbs.data)).Some?
      ensures ok ==> Abs() == ReadHead(env, old(cbs.data)).value
    {
      hide Get, GetUint64, SslAead.ProtocolVersion, FromBigEndian;
      var version := cbs.GetAsn1Uint64();
      if version.None? || version.value != 1 { return false; }
      var sslVersion := cbs.GetAsn1Uint64();
      if sslVersion.None? || sslVersion.value >= SslSession.TWO16 || SslAead.ProtocolVersion(sslVersion.value).None? { return false; }
      var cipher := cbs.GetAsn1(OCTETSTRING);
      if cipher.None? || |cipher.value| != 2 || !env.knownCipher(FromBigEndian(cipher.value)) { return false; }
      var id := cbs.GetAsn1(OCTETSTRING);
      if id.None? || |id.value| > MAX_SESSION_ID { return false; }
      var key := cbs.GetAsn1(OCTETSTRING);
      if key.None? || |key.value| > MAX_MASTER_KEY { return false; }
      ok := Times(sslVersion.value, FromBigEndian(cipher.value), id.value, key.value);
    }

    method Times(version: nat, cipher: nat, id: seq<Byte>, key: seq<Byte>) returns (ok: bool)
      requires s == BLANK && peer.None?
      modifies this, cbs
      ensures ok == ReadTimes(version, cipher, id, key, old(cbs.data)).Some?
      ensures ok ==> Abs() == ReadTimes(version, cipher, id, key, old(cbs.data)).value
    {
      hide Get, GetUint64;
      var timeBody := cbs.GetAsn1(Context(1));
      if timeBody.None? { return false; }
      var child := new Cursor(timeBody.value);
      var time := child.GetAsn1Uint64();
      if time.None? { return false; }
      var timeoutBody := cbs.GetAsn1(Context(2));
      if timeoutBody.None? { return false; }
      child := new Cursor(timeoutBody.value);
      var timeout := child.GetAsn1Uint64();
      if timeout.None? || timeout.value >= TWO32 { return false; }
      s := s.(version := version, cipher := Some(cipher), sessionId := id, masterKey := key, time := time.value, timeout := timeout.value);
      ok := true;
    }

    method Identity() returns (ok: bool)
      modifies this, cbs
      ensures ok == ReadContext(old(Abs())).Some?
      ensures ok ==> Abs() == ReadContext(old(Abs())).value
    {
      hide GetOptional, ReadOctets, ReadNumber;
      ok, peer := cbs.GetOptionalAsn1(Context(3));
      if !ok || peer == Some([]) { return false; }
      var sid;
      ok, sid := cbs.GetOptionalOctets(4);
      if !ok || |OrEmpty(sid)| > MAX_SID_CTX { return false; }
      var verify := cbs.GetOptionalNumber(5, X509_V_OK, LONG_MAX);
      if verify.None? { return false; }
      var host;
      ok, host := cbs.GetOptionalAsn1(Context(6));
      s := s.(sidCtx := OrEmpty(sid), verifyResult := verify.value);
    }

    method Ticket() returns (ok: bool)
      modifies this, cbs
      ensures ok == ReadTicket(old(Abs())).Some?
      ensures ok ==> Abs() == ReadTicket(old(Abs())).value
    {
      hide ReadOctets, ReadNumber;
      var psk, ticket, sha;
      ok, psk := cbs.GetOptionalOctets(8);
      if !ok || (psk.Some? && 0 in psk.value) { return false; }
      var hint := cbs.GetOptionalNumber(9, 0, TWO32 - 1);
      if hint.None? { return false; }
      ok, ticket := cbs.GetOptionalOctets(10);
      if !ok { return; }
      ok, sha := cbs.GetOptionalOctets(13);
      if !ok || (sha.Some? && |sha.value| != SHA256_LENGTH) { return false; }
      s := s.(pskIdentity := psk, lifetimeHint := hint.value, ticket := Stowed(ticket), peerSha256 := sha);
    }

    method Hashes() returns (ok: bool)
      modifies this, cbs
      ensures ok == ReadHashes(old(Abs())).Some?
      ensures ok ==> Abs() == ReadHashes(old(Abs())).value
    {
      hide ReadOctets;
      var hash, sct, ocsp;
      ok, hash := cbs.GetOptionalOctets(14);
      if !ok || |OrEmpty(hash)| > MAX_MD_SIZE { return false; }
      ok, sct := cbs.GetOptionalOctets(15);
      if !ok { return; }
      ok, ocsp := cbs.GetOptionalOctets(16);
      if !ok { return; }
      s := s.(handshakeHash := OrEmpty(hash), sctList := sct, ocspResponse := ocsp);
    }

    method Group() returns (ok: bool)
      modifies this, cbs
      ensures ok == ReadGroup(old(Abs())).Some?
      ensures ok ==> Abs() == ReadGroup(old(Abs())).value
    {
      hide ReadBool, ReadNumber;
      var ems := cbs.GetOptionalBool(17, false);
      if ems.None? { return false; }
      var group := cbs.GetOptionalNumber(18, 0, SslSession.TWO16 - 1);
      if group.None? { return false; }
      s := s.(extendedMasterSecret := ems.value, groupId := group.value);
      ok := true;
    }

    /** The certificates, with the loop over the chain. */
    method Certs(env: Env) returns (ok: bool)
      modifies this, cbs
      ensures ok == ReadCerts(env, old(Abs())).Some?
      ensures ok ==> Abs() == ReadCerts(env, old(Abs())).value
    {
      hide GetOptional, ReadElement;
      var chain;
      ok, chain := cbs.GetOptionalAsn1(Context(19));
      if !ok || chain == Some([]) || (chain.Some? && peer.None?) { return false; }
      var certs: seq<seq<Byte>> := if peer.Some? then [peer.value] else [];
      ghost var leaf := certs;
      var rest := OrEmpty(chain);
      assert leaf + [] == leaf;
      while rest != []
        modifies {}
        invariant ReadChain(OrEmpty(chain)).None? <==> ReadChain(rest).None?
        invariant ReadChain(rest).Some? ==> leaf + ReadChain(OrEmpty(chain)).value == certs + ReadChain(rest).value
        decreases |rest|
      {
        var e := ReadElement(rest);
        if e.None? { return false; }
        ghost var others := ReadChain(e.value.rest);
        assert others.Some? ==> certs + ([e.value.value.whole] + others.value) == certs + [e.value.value.whole] + others.value;
        certs := certs + [e.value.value.whole];
        rest := e.value.rest;
      }
      assert certs + [] == certs;
      if !env.takesCerts(certs) { return false; }
      s := s.(certs := certs);
    }

    method Age() returns (ok: bool)
      modifies this, cbs
      ensures ok == ReadAge(old(Abs())).Some?
      ensures ok ==> Abs() == ReadAge(old(Abs())).value
    {
      hide ReadOctets, ReadBool, FromBigEndian;
      var age;
      ok, age := cbs.GetOptionalOctets(21);
      if !ok || (age.Some? && |age.value| != 4) { return false; }
      var server := cbs.GetOptionalBool(22, true);
      if server.None? { return false; }
      s := s.(ageAdd := if age.None? then None else Some(FromBigEndian(age.value)), isServer := server.value);
    }

    method Limits() returns (ok: bool)
      modifies this, cbs
      ensures ok == ReadLimits(old(Abs())).Some?
      ensures ok ==> Abs() == ReadLimits(old(Abs())).value
    {
      hide ReadNumber;
      var alg := cbs.GetOptionalNumber(23, 0, SslSession.TWO16 - 1);
      if alg.None? { return false; }
      var early := cbs.GetOptionalNumber(24, 0, TWO32 - 1);
      if early.None? { return false; }
      var auth := cbs.GetOptionalNumber(25, s.timeout, TWO32 - 1);
      if auth.None? { return false; }
      s := s.(signatureAlgorithm := alg.value, maxEarlyData := early.value, authTimeout := auth.value);
      ok := true;
    }

    method Alpn() returns (ok: bool)
      modifies this, cbs
      ensures ok == ReadAlpn(old(Abs())).Some?
      ensures ok ==> Abs() == ReadAlpn(old(Abs())).value
    {
      hide ReadOctets;
      var alpn;
      ok, alpn := cbs.GetOptionalOctets(26);
      if !ok || cbs.data != [] { return false; }
      s := s.(earlyAlpn := Stowed(alpn));
    }
  }

  /** SSL_SESSION_parse. */
  method ParseSession(env: Env, cbs: Cursor) returns (r: Option<Session>)
    modifies cbs
    ensures r.None? <==> Parse(env, old(cbs.data)).None?
    ensures r.Some? ==> Rest(r.value, cbs.data) == Parse(env, old(cbs.data)).value
  {
    hide Get, ReadHead, ReadContext, ReadTicket, ReadHashes, ReadGroup, ReadCerts, ReadAge, ReadLimits, ReadAlpn;
    var body := cbs.GetAsn1(SEQUENCE);
    if body.None? { return None; }
    var p := new SessionReader(body.value);
    var ok := p.Head(env);
    if !ok { return None; }
    ok := p.Identity();
    if !ok { return None; }
    ok := p.Ticket();
    if !ok { return None; }
    ok := p.Hashes();
    if !ok { return None; }
    ok := p.Group();
    if !ok { return None; }
    ok := p.Certs(env);
    if !ok { return None; }
    ok := p.Age();
    if !ok { return None; }
    ok := p.Limits();
    if !ok { return None; }
    ok := p.Alpn();
    if !ok { return None; }
    r := Some(p.s);
  }

  /** SSL_SESSION_to_bytes_full. */
  method SessionToBytes(s: Session, forTicket: bool) returns (r: Option<seq<Byte>>)
    requires -LONG_MAX - 1 <= s.verifyResult
    ensures r == ToBytes(s, forTicket)
  {
    hide HeadBytes, FieldsBytes, Fields, Element;
    if s.cipher.None? { return None; }
    var head := HeadBytes(s, forTicket);
    if head.None? { return None; }
    var fields := WriteFields(s, forTicket);
    if fields.None? { return None; }
    r := Element(SEQUENCE, head.value + fields.value);
  }
}
