/** What SSL_SESSION_parse takes from any bytes fits the fixed fields of the session. */
module SslSessionFits {
  import opened Words
  import opened Der
  import opened SslSession
  import SslAead

  /** The session fits, and its version, cipher and verify result are ones the reader insists on. */
  predicate Fits(env: Env, s: Session) {
    && WellTyped(s) && s.verifyResult >= 0
    && SslAead.ProtocolVersion(s.version).Some? && s.cipher.Some? && env.knownCipher(s.cipher.value)
  }

  lemma {:induction false} AccumulateFits(bs: seq<Byte>, acc: nat)
    requires acc < 0x1_0000_0000_0000_0000
    ensures Accumulate(bs, acc).Some? ==> Accumulate(bs, acc).value < 0x1_0000_0000_0000_0000
  {
    if bs != [] && acc < TWO56 { AccumulateFits(bs[1..], acc * 256 + bs[0]); }
  }

  lemma {:induction false} Uint64Fits(bs: seq<Byte>)
    ensures GetUint64(bs).Some? ==> GetUint64(bs).value.value < 0x1_0000_0000_0000_0000
  {
    hide Get, Accumulate;
    var b := Get(bs, INTEGER);
    if b.Some? { AccumulateFits(b.value.value, 0); }
  }

  /** A number that is read is within the bound of its caller. */
  lemma {:induction false} NumberFits(bs: seq<Byte>, n: nat, absent: nat, max: nat)
    ensures ReadNumber(bs, n, absent, max).Some? ==> ReadNumber(bs, n, absent, max).value.value <= max
  {
    hide GetOptional, GetUint64;
  }

  lemma {:induction false} BytesFit(bs: seq<Byte>)
    ensures |bs| == 2 ==> FromBigEndian(bs) < 0x1_0000
    ensures |bs| == 4 ==> FromBigEndian(bs) < 0x1_0000_0000
  {
    hide FromBigEndian;
    FromBigEndianBack(bs);
    ShlEight(0);
    ShlEight(8);
    ShlEight(16);
    ShlEight(24);
  }

  lemma {:induction false} HeadFits(env: Env, bs: seq<Byte>)
    ensures ReadHead(env, bs).Some? ==> Fits(env, ReadHead(env, bs).value.s)
  {
    hide Get, GetUint64, FromBigEndian, SslAead.ProtocolVersion, ReadTimes, WellTyped;
    var a := GetUint64(bs);
    if a.Some? {
      var b := GetUint64(a.value.rest);
      if b.Some? {
        var c := Get(b.value.rest, OCTETSTRING);
        if c.Some? {
          var d := Get(c.value.rest, OCTETSTRING);
          if d.Some? {
            var e := Get(d.value.rest, OCTETSTRING);
            BytesFit(c.value.value);
            if e.Some? && |c.value.value| == 2 && b.value.value < TWO16 {
              TimesFit(b.value.value, FromBigEndian(c.value.value), d.value.value, e.value.value, e.value.rest);
            }
          }
        }
      }
    }
  }

  lemma {:induction false} TimesFit(version: nat, cipher: nat, id: seq<Byte>, key: seq<Byte>, bs: seq<Byte>)
    ensures var r := ReadTimes(version, cipher, id, key, bs);
      r.Some? ==>
        && r.value.s.version == version && r.value.s.cipher == Some(cipher) && r.value.s.verifyResult == 0
        && (version < 0x1_0000 && cipher < 0x1_0000 && |id| <= 32 && |key| <= 48 ==> WellTyped(r.value.s))
  {
    hide Get, GetUint64;
    var f := Get(bs, Context(1));
    if f.Some? {
      Uint64Fits(f.value.value);
      var g := Get(f.value.rest, Context(2));
      if g.Some? { Uint64Fits(g.value.value); }
    }
  }

  lemma {:induction false} ContextFits(env: Env, r: Reading)
    requires Fits(env, r.s)
    ensures ReadContext(r).Some? ==> Fits(env, ReadContext(r).value.s)
  {
    hide GetOptional, ReadOctets, ReadNumber, SslAead.ProtocolVersion;
    var peer := GetOptional(r.rest, Context(3));
    if peer.Some? {
      var sid := ReadOctets(peer.value.rest, 4);
      if sid.Some? { NumberFits(sid.value.rest, 5, 0, 0x7fff_ffff_ffff_ffff); }
    }
  }

  lemma {:induction false} TicketFits(env: Env, r: Reading)
    requires Fits(env, r.s)
    ensures ReadTicket(r).Some? ==> Fits(env, ReadTicket(r).value.s)
  {
    hide GetOptional, ReadOctets, ReadNumber, SslAead.ProtocolVersion;
    var psk := ReadOctets(r.rest, 8);
    if psk.Some? { NumberFits(psk.value.rest, 9, 0, 0xffff_ffff); }
  }

  lemma {:induction false} HashesFit(env: Env, r: Reading)
    requires Fits(env, r.s)
    ensures ReadHashes(r).Some? ==> Fits(env, ReadHashes(r).value.s)
  {
    hide ReadOctets, SslAead.ProtocolVersion;
  }

  lemma {:induction false} GroupFits(env: Env, r: Reading)
    requires Fits(env, r.s)
    ensures ReadGroup(r).Some? ==> Fits(env, ReadGroup(r).value.s)
  {
    hide ReadBool, ReadNumber, SslAead.ProtocolVersion;
    var ems := ReadBool(r.rest, 17, false);
    if ems.Some? { NumberFits(ems.value.rest, 18, 0, 0xffff); }
  }

  /** The X.509 layer has taken the certificates. */
  lemma {:induction false} CertsFit(env: Env, r: Reading)
    requires Fits(env, r.s)
    ensures ReadCerts(env, r).Some? ==>
        Fits(env, ReadCerts(env, r).value.s) && env.takesCerts(ReadCerts(env, r).value.s.certs)
  {
    hide GetOptional, ReadChain, SslAead.ProtocolVersion;
  }

  lemma {:induction false} AgeFits(env: Env, r: Reading)
    requires Fits(env, r.s)
    ensures ReadAge(r).Some? ==> Fits(env, ReadAge(r).value.s) && ReadAge(r).value.s.certs == r.s.certs
  {
    hide ReadOctets, ReadBool, FromBigEndian, SslAead.ProtocolVersion;
    var age := ReadOctets(r.rest, 21);
    if age.Some? && age.value.value.Some? { BytesFit(age.value.value.value); }
  }

  lemma {:induction false} LimitsFit(env: Env, r: Reading)
    requires Fits(env, r.s)
    ensures ReadLimits(r).Some? ==> Fits(env, ReadLimits(r).value.s) && ReadLimits(r).value.s.certs == r.s.certs
  {
    hide ReadNumber, SslAead.ProtocolVersion;
    var alg := ReadNumber(r.rest, 23, 0, 0xffff);
    NumberFits(r.rest, 23, 0, 0xffff);
    if alg.Some? {
      var early := ReadNumber(alg.value.rest, 24, 0, 0xffff_ffff);
      NumberFits(alg.value.rest, 24, 0, 0xffff_ffff);
      if early.Some? { NumberFits(early.value.rest, 25, r.s.timeout, 0xffff_ffff); }
    }
  }

  lemma {:induction false} AlpnFits(env: Env, r: Reading)
    requires Fits(env, r.s)
    ensures ReadAlpn(r).Some? ==> Fits(env, ReadAlpn(r).value.s) && ReadAlpn(r).value.s.certs == r.s.certs
  {
    hide ReadOctets, SslAead.ProtocolVersion;
  }

  /** Whatever bytes are parsed, a session that is accepted fits its fields (32 bytes of session ID and
      of context, 48 of master key, 64 of handshake hash, 32 of peer hash, no NUL in the identity,
      every number within its width), has a known version and cipher, no negative verify result,
      and certificates that the X.509 layer takes. */
  lemma {:induction false} ParsedFits(env: Env, bs: seq<Byte>)
    ensures Parse(env, bs).Some? ==>
        Fits(env, Parse(env, bs).value.value) && env.takesCerts(Parse(env, bs).value.value.certs)
  {
    hide Get, ReadHead, ReadContext, ReadTicket, ReadHashes, ReadGroup, ReadCerts, ReadAge, ReadLimits, ReadAlpn, Fits;
    if Parse(env, bs).Some? {
      var a := ReadHead(env, Get(bs, SEQUENCE).value.value).value;
      HeadFits(env, Get(bs, SEQUENCE).value.value);
      ContextFits(env, a);
      var b := ReadContext(a).value;
      TicketFits(env, b);
      var c := ReadTicket(b).value;
      HashesFit(env, c);
      var d := ReadHashes(c).value;
      GroupFits(env, d);
      var e := ReadGroup(d).value;
      CertsFit(env, e);
      var f := ReadCerts(env, e).value;
      AgeFits(env, f);
      var g := ReadAge(f).value;
      LimitsFit(env, g);
      AlpnFits(env, ReadLimits(g).value);
    }
  }
}
