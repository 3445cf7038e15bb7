/** DTLS handshake fragments as bytes, and messages as they are put together from fragments
    (RFC 6347 sections 4.2.2 and 4.2.3). */
module DtlsMessage {
  import opened Words

  const HM_HEADER_LENGTH: nat := 12
  const TWO16: nat := 0x1_0000
  const TWO24: nat := 0x100_0000

  /** A piece of a message of msgLen bytes, starting at byte off. */
  datatype Fragment = Fragment(mtype: Byte, msgLen: nat, seqNum: nat, off: nat, body: seq<Byte>)

  function Header(mtype: Byte, msgLen: nat, seqNum: nat, off: nat, len: nat): (bs: seq<Byte>)
    ensures |bs| == HM_HEADER_LENGTH
  {
    [mtype] + BigEndian(msgLen, 3) + BigEndian(seqNum, 2) + BigEndian(off, 3) + BigEndian(len, 3)
  }

  function FragmentBytes(f: Fragment): (bs: seq<Byte>)
    ensures |bs| == HM_HEADER_LENGTH + |f.body|
  {
    Header(f.mtype, f.msgLen, f.seqNum, f.off, |f.body|) + f.body
  }

  predicate FragmentFits(f: Fragment) {
    f.msgLen < TWO24 && f.seqNum < TWO16 && f.off < TWO24 && |f.body| < TWO24
  }

  datatype Parsed = Parsed(fragment: Fragment, rest: seq<Byte>)

  /** dtls1_parse_fragment. */
  function ParseFragment(bs: seq<Byte>): (r: Option<Parsed>)
    ensures r.Some? ==> |r.value.rest| < |bs|
  {
    if |bs| < HM_HEADER_LENGTH then None
    else
      var len := FromBigEndian(bs[9..12]);
      if HM_HEADER_LENGTH + len > |bs| then None
      else Some(Parsed(Fragment(bs[0], FromBigEndian(bs[1..4]), FromBigEndian(bs[4..6]), FromBigEndian(bs[6..9]),
                                bs[12..12 + len]), bs[12 + len..]))
  }

  lemma {:induction false} ThreeBytes(n: nat)
    requires n == 2 || n == 3
    ensures Shl(1, 8 * n) == if n == 2 then TWO16 else TWO24
  {
    ShlEight(8 * n - 8);
    ShlEight(8 * n - 16);
    if n == 3 { ShlEight(8 * n - 24); }
    assert Shl(1, 0) == 1;
  }

  /** Parsing undoes serializing, whatever follows. */
  lemma {:induction false} ParseBack(f: Fragment, rest: seq<Byte>)
    requires FragmentFits(f)
    ensures ParseFragment(FragmentBytes(f) + rest) == Some(Parsed(f, rest))
  {
    hide BigEndian, FromBigEndian, Shl;
    var bs := FragmentBytes(f) + rest;
    var two, three := 2, 3;
    ThreeBytes(two); ThreeBytes(three);
    assert bs[1..4] == BigEndian(f.msgLen, three) && bs[4..6] == BigEndian(f.seqNum, two);
    assert bs[6..9] == BigEndian(f.off, three) && bs[9..12] == BigEndian(|f.body|, three);
    BigEndianBack(f.msgLen, three);
    BigEndianBack(f.seqNum, two);
    BigEndianBack(f.off, three);
    BigEndianBack(|f.body|, three);
    assert bs[12..12 + |f.body|] == f.body && bs[12 + |f.body|..] == rest;
  }

  /** What a parser accepts is inside the bytes it was given, and its numbers fit. */
  lemma {:induction false} ParsedFits(bs: seq<Byte>)
    requires ParseFragment(bs).Some?
    ensures FragmentFits(ParseFragment(bs).value.fragment)
  {
    hide FromBigEndian, Shl;
    var two, three := 2, 3;
    ThreeBytes(two); ThreeBytes(three);
    FromBigEndianBack(bs[1..4]);
    FromBigEndianBack(bs[4..6]);
    FromBigEndianBack(bs[6..9]);
    FromBigEndianBack(bs[9..12]);
  }

  /** A whole handshake message. */
  datatype Message = Message(mtype: Byte, body: seq<Byte>)

  /** A message with its number as it is hashed and buffered: one fragment that is all of it. */
  function MessageBytes(m: Message, seqNum: nat): (bs: seq<Byte>)
    ensures |bs| == HM_HEADER_LENGTH + |m.body|
  {
    FragmentBytes(Fragment(m.mtype, |m.body|, seqNum, 0, m.body))
  }

  /** A message being put together: its bytes, as far as they have arrived. */
  datatype Assembly = Assembly(mtype: Byte, seqNum: nat, cells: seq<Option<Byte>>)

  predicate Complete(a: Assembly) {
    forall i :: 0 <= i < |a.cells| ==> a.cells[i].Some?
  }

  function BodyOf(a: Assembly): (body: seq<Byte>)
    requires Complete(a)
    ensures |body| == |a.cells|
  {
    seq(|a.cells|, i requires 0 <= i < |a.cells| => a.cells[i].value)
  }

  /** Writing bytes at off. */
  function Filled(a: Assembly, off: nat, bytes: seq<Byte>): Assembly {
    a.(cells := seq(|a.cells|, i requires 0 <= i < |a.cells| =>
                      if off <= i < off + |bytes| then Some(bytes[i - off]) else a.cells[i]))
  }

  function Nothing(n: nat): seq<Option<Byte>> {
    seq(n, i => None)
  }
}
