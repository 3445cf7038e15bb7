/** DTLS records and handshake fragments byte by byte (RFC 6347 sections 4.1 and 4.2.2). */
module DtlsLayout {
  import opened Words
  import opened Digits
  import opened SslAead
  import opened DtlsRecord
  import opened DtlsMessage

  lemma {:induction false} ThreeBytes(v: nat)
    ensures BigEndian(v, 3) == [v / 256 / 256 % 256, v / 256 % 256, v % 256]
  {
    TwoBytes(v / 256);
    assert BigEndian(v, 3) == BigEndian(v / 256, 2) + [v % 256];
  }

  /** The twelve bytes in front of a fragment: the type, the length of the message, its number, and
      where the fragment lies in it, high bytes first; then the fragment. */
  lemma {:induction false} FragmentLayout(f: Fragment)
    requires FragmentFits(f)
    ensures var bs := FragmentBytes(f);
      && |bs| == 12 + |f.body| && bs[0] == f.mtype
      && bs[1] == f.msgLen / 0x1_0000 && bs[2] == f.msgLen / 0x100 % 0x100 && bs[3] == f.msgLen % 0x100
      && bs[4] == f.seqNum / 0x100 && bs[5] == f.seqNum % 0x100
      && bs[6] == f.off / 0x1_0000 && bs[7] == f.off / 0x100 % 0x100 && bs[8] == f.off % 0x100
      && bs[9] == |f.body| / 0x1_0000 && bs[10] == |f.body| / 0x100 % 0x100 && bs[11] == |f.body| % 0x100
      && bs[12..] == f.body
  {
    hide BigEndian;
    var bs := FragmentBytes(f);
    SslAead.TwoBytes(f.seqNum);
    ThreeBytes(f.msgLen);
    ThreeBytes(f.off);
    ThreeBytes(|f.body|);
    assert bs[1..4] == BigEndian(f.msgLen, 3) && bs[4..6] == BigEndian(f.seqNum, 2);
    assert bs[6..9] == BigEndian(f.off, 3) && bs[9..12] == BigEndian(|f.body|, 3);
  }

  /** Epoch and number, as they stand in the header and go into nonces. */
  lemma {:induction false} SeqBytesLayout(epoch: nat, s: nat)
    requires epoch < 0x1_0000
    ensures var bs := SeqBytes(epoch, s);
      bs[0] == epoch / 0x100 && bs[1] == epoch % 0x100 && forall i :: 2 <= i < 8 ==> bs[i] == Digit(s, 256, 7 - i)
  {
    hide BigEndian, Digit;
    var bs := SeqBytes(epoch, s);
    SslAead.TwoBytes(epoch);
    forall i | 2 <= i < 8 ensures bs[i] == Digit(s, 256, 7 - i) {
      assert bs[i] == BigEndian(s, 6)[i - 2];
      BigEndianDigit(s, 6, i - 2);
    }
  }

  /** The thirteen bytes in front of a record's body: type, version, epoch, the number in the epoch,
      and the length of the body. */
  lemma {:induction false} RecordLayout(k: Key, recordType: Byte, version: nat, epoch: nat, s: nat, plain: seq<Byte>)
    requires WellFormed(k.context) && (!k.context.isNull && k.context.random ==> |k.iv(s)| == k.context.variableLen)
    requires version < 0x1_0000 && epoch < 0x1_0000
    ensures var bs, body := RecordBytes(k, recordType, version, epoch, s, plain), Body(k, recordType, version, epoch, s, plain);
      && |bs| == 13 + |body| && bs[0] == recordType
      && bs[1] == version / 0x100 && bs[2] == version % 0x100
      && bs[3] == epoch / 0x100 && bs[4] == epoch % 0x100
      && (forall i :: 5 <= i < 11 ==> bs[i] == Digit(s, 256, 10 - i))
      && (|body| < 0x1_0000 ==> bs[11] == |body| / 0x100 && bs[12] == |body| % 0x100)
      && bs[13..] == body
  {
    hide BigEndian, Body, SeqBytes, Digit, WellFormed;
    var bs, body := RecordBytes(k, recordType, version, epoch, s, plain), Body(k, recordType, version, epoch, s, plain);
    SslAead.TwoBytes(version);
    SslAead.TwoBytes(|body|);
    SeqBytesLayout(epoch, s);
    forall i | 5 <= i < 11 ensures bs[i] == Digit(s, 256, 10 - i) {
      assert bs[i] == SeqBytes(epoch, s)[i - 3];
    }
  }

  /** What a body is sealed with: the AEAD gets the eight bytes of epoch and number both in its nonce
      and in the additional data. */
  lemma {:induction false} RecordBody(k: Key, recordType: Byte, version: nat, epoch: nat, s: nat, plain: seq<Byte>)
    requires WellFormed(k.context) && (!k.context.isNull && k.context.random ==> |k.iv(s)| == k.context.variableLen)
    ensures var body := Body(k, recordType, version, epoch, s, plain); var c := k.context; var seqNum := SeqBytes(epoch, s);
      if c.isNull then body == plain
      else
        var v := if c.random then k.iv(s) else seqNum;
        var sent := if c.included then v else [];
        |sent| <= |body| && body[..|sent|] == sent
        && body[|sent|..] == k.aead.seal(Nonce(c, v), plain, AdditionalData(c, recordType, version, seqNum, |plain|))
  {
    hide Nonce, AdditionalData, SeqBytes, Sealed;
    SealedIs(k.context, k.aead, k.iv(s), recordType, version, SeqBytes(epoch, s), plain);
  }

  /** The versions on the wire: DTLS 1.0 before one is negotiated, then the negotiated one; without a
      cipher any version of DTLS is taken, with one only its own. */
  lemma {:induction false} VersionsOnTheWire(c: Context, version: nat)
    requires c.version == 0 || c.version == 0xfeff || c.version == 0xfefd
    ensures RecordVersion(c, true) == if c.version == 0 then 0xfeff else c.version
    ensures version < 0x1_0000 ==> (VersionOk(c, version) <==> if c.isNull then version / 0x100 == 0xfe else version == RecordVersion(c, true))
  {
  }
}
