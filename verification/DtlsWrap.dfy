/** How long delivery can be relied on: handshake messages are numbered with 16 bits, and the
    65537th message has the number of the first. */
module DtlsWrap {
  import opened Words
  import opened SslAead
  import DtlsWindow
  import opened DtlsRecord
  import opened DtlsMessage
  import opened DtlsReceive
  import opened DtlsSend
  import opened DtlsRun
  import opened DtlsHistory

  const FIRST := Message(1, [])
  const OTHER := Message(2, [])
  const NO_MESSAGES: seq<Option<Assembly>> := [None, None, None, None, None, None, None]

  function Piece(m: Message, n: nat): Fragment { Fragment(m.mtype, 0, n, 0, []) }

  function Version(keys: nat -> Key): nat { RecordVersion(keys(0).context, true) }

  /** Record number s of the run below: it carries the message m with number n. */
  function RecordOf(keys: nat -> Key, s: nat, m: Message, n: nat): Desc {
    Desc(0, s, Version(keys), HANDSHAKE, FragmentBytes(Piece(m, n)))
  }

  /** A sender ready for the next message, after n messages and records under its first key. */
  predicate Idle(s: Sender, n: nat) {
    && (s.complete || (s.flight == [] && s.written == s.offset == 0))
    && s.writeSeq == n % DtlsMessage.TWO16 && s.records.changes == 0 && s.records.next == n && !s.records.wrapped
  }

  /** Message m with number n is the flight, and nothing of it is sent. */
  predicate Waiting(s: Sender, m: Message, n: nat) {
    && s.flight == [Outgoing(FragmentBytes(Piece(m, n)), 0, false)] && s.written == s.offset == 0 && s.records.changes == 0
  }

  // ------------------------------------------------------------- one message, sent

  lemma {:induction false} RecordLen(keys: nat -> Key, s: nat, m: Message, n: nat)
    requires KeysOk(keys)
    ensures |Bytes(keys, RecordOf(keys, s, m, n))| == 25
    ensures keys(0).context.isNull && MaxOverhead(keys(0).context, keys(0).aead) == 0
  {
    BytesLen(keys, RecordOf(keys, s, m, n));
  }

  lemma {:induction false} PieceParsed(m: Message, n: nat)
    requires n < DtlsMessage.TWO16 && m.body == []
    ensures MessageBytes(m, n) == FragmentBytes(Piece(m, n))
    ensures ParseFragment(FragmentBytes(Piece(m, n))) == Some(Parsed(Piece(m, n), []))
  {
    hide ParseFragment;
    ParseBack(Piece(m, n), []);
    assert FragmentBytes(Piece(m, n)) + [] == FragmentBytes(Piece(m, n));
  }

  lemma {:induction false} SealsWhole(keys: nat -> Key, s: Sender, m: Message, n: nat)
    requires KeysOk(keys) && n < DtlsMessage.TWO16 && m.body == [] && Waiting(s, m, n)
        && s.records.next + 1 < DtlsWindow.TWO48
    ensures var r := SealNext(keys, s, 100);
      && r.1 == Sealed(RecordOf(keys, s.records.next, m, n), Item(0, 0, 0), true) && r.0 == s.(records := r.0.records)
      && r.0.records == s.records.(next := s.records.next + 1, log := r.0.records.log)
  {
    hide KeysOk, Bytes, FragmentBytes, ParseFragment, RecordVersion;
    RecordLen(keys, s.records.next, m, n);
    PieceParsed(m, n);
  }

  lemma {:induction false} PacketOf(keys: nat -> Key, s: Sender, m: Message, n: nat)
    requires KeysOk(keys) && n < DtlsMessage.TWO16 && m.body == [] && Waiting(s, m, n)
        && s.records.next + 1 < DtlsWindow.TWO48
    ensures var r := SealPacket(keys, s, 100);
      && r.1 == Some(Packet([RecordOf(keys, s.records.next, m, n)], [Item(0, 0, 0)])) && r.0 == s.(written := 1, records := r.0.records)
      && r.0.records == s.records.(next := s.records.next + 1, log := r.0.records.log)
  {
    hide KeysOk, Bytes, FragmentBytes, SealNext, RecordOf;
    SealsWhole(keys, s, m, n);
    var t := SealNext(keys, s, 100).0.(written := 1);
    RecordLen(keys, s.records.next, m, n);
    assert FillPacket(keys, t, 75) == (t, Some(Packet([], [])));
    var d, i := RecordOf(keys, s.records.next, m, n), Item(0, 0, 0);
    assert FillPacket(keys, s, 100) == (t, Prepend(d, i, Some(Packet([], []))));
    assert [d] + [] == [d] && [i] + [] == [i];
  }

  lemma {:induction false} SendsOne(keys: nat -> Key, s: Sender, m: Message, n: nat)
    requires KeysOk(keys) && AtPlace(s) && n < DtlsMessage.TWO16 && m.body == [] && Waiting(s, m, n)
        && s.records.next + 1 < DtlsWindow.TWO48
    ensures var r := SendLoop(keys, s, 100, [true]);
      && r.packets == [Packet([RecordOf(keys, s.records.next, m, n)], [Item(0, 0, 0)])] && r.sender == s.(written := 1, records := r.sender.records)
      && r.sender.records == s.records.(next := s.records.next + 1, log := r.sender.records.log)
  {
    hide KeysOk, SealPacket, FragmentBytes, RecordOf, BodyLen;
    PacketOf(keys, s, m, n);
    FillPacketPlace(keys, s, 100);
    var t := SealPacket(keys, s, 100).0;
    assert SendLoop(keys, t, 100, []) == Sent(t, [], Finished);
  }

  lemma {:induction false} OnePacket(keys: nat -> Key, d: Desc, packets: seq<Packet>)
    requires KeysOk(keys) && |packets| == 1 && packets[0].descs == [d]
    ensures AllBytes(keys, packets) == [Bytes(keys, d)]
  {
    hide KeysOk, Bytes;
    assert PacketBytes(keys, [d]) == Bytes(keys, d) + PacketBytes(keys, [d][1..]);
    assert AllBytes(keys, packets)[0] == PacketBytes(keys, [d]) == Bytes(keys, d) + [] == Bytes(keys, d);
  }

  // ------------------------------------------------------------- and received

  lemma {:induction false} TakesPiece(r: Receiver, m: Message, n: nat)
    requires RingOk(r) && r.ring == NO_MESSAGES && n < DtlsMessage.TWO16 && r.readSeq == n && m.body == []
        && r.records.epoch == 0
    ensures TakeAll(r, FragmentBytes(Piece(m, n))) == (r.(ring := NO_MESSAGES[n % MAX_FLIGHT := Some(Assembly(m.mtype, n, []))]), None)
  {
    hide FragmentBytes, ParseFragment;
    PieceParsed(m, n);
    assert Nothing(0) == [] && Complete(Assembly(m.mtype, n, []));
    var q := TakeFragment(r, Piece(m, n)).0;
    TakeFragmentOk(r, Piece(m, n));
    assert TakeAll(q, []) == (q, None);
  }

  /** A new receiver takes the record, whatever its number. */
  lemma {:induction false} OpensPiece(keys: nat -> Key, maxLen: nat, s: nat, m: Message)
    requires KeysOk(keys) && m.body == [] && s < DtlsWindow.TWO48 && s > 0
    ensures WellFormed(keys(0).context)
    ensures var o := OpenHandshake(Initial(maxLen, keys(0)), Bytes(keys, RecordOf(keys, s, m, 0)));
      && o.receiver.readSeq == 0 && o.receiver.ring == NO_MESSAGES[0 := Some(Assembly(m.mtype, 0, []))]
  {
    hide KeysOk, RecordBytes, FragmentBytes, WellFormed, VersionOk, OpenRecord, TakeAll, Body, DtlsWindow.Recorded;
    var d := RecordOf(keys, s, m, 0);
    var r := Initial(maxLen, keys(0));
    FirstKey(keys);
    VersionsAgree(keys, 0, 0);
    RecordLen(keys, s, m, 0);
    BodyLength(keys, s, m, 0);
    RecordBack(keys(0), HANDSHAKE, Version(keys), 0, s, d.plain, r.records, []);
    assert Bytes(keys, d) + [] == Bytes(keys, d);
    assert r.ring == NO_MESSAGES;
    TakesPiece(r.(records := r.records.(window := DtlsWindow.Recorded(r.records.window, s))), m, 0);
  }

  lemma {:induction false} BodyLength(keys: nat -> Key, s: nat, m: Message, n: nat)
    requires KeysOk(keys)
    ensures KeyOk(keys(0)) && |Body(keys(0), HANDSHAKE, Version(keys), 0, s, FragmentBytes(Piece(m, n)))| == 12
  {
    hide SslAead.Sealed, FragmentBytes;
    RecordLen(keys, s, m, n);
  }

  lemma {:induction false} GetsPiece(r: Receiver, m: Message)
    requires RingOk(r) && r.readSeq == 0 && r.ring == NO_MESSAGES[0 := Some(Assembly(m.mtype, 0, []))] && m.body == []
    ensures GetMessage(r) == Some(m)
    ensures forall h :: var q := r.(hasMessage := h); RingOk(q) && GetMessage(q) == Some(m)
  {
    assert Complete(Assembly(m.mtype, 0, [])) && BodyOf(Assembly(m.mtype, 0, [])) == [];
    RingAlone(r);
  }

  // ------------------------------------------------------------- runs

  lemma {:induction false} RunFirst(keys: nat -> Key, w: World, a: Action, rest: seq<Action>)
    requires KeysOk(keys) && Ready(w)
    ensures Ready(Apply(keys, w, a)) && Run(keys, w, [a] + rest) == Run(keys, Apply(keys, w, a), rest)
  {
    hide KeysOk, Ready, Apply;
    ApplyReady(keys, w, a);
    assert ([a] + rest)[1..] == rest;
  }

  lemma {:induction false} RunThen(keys: nat -> Key, w: World, a: seq<Action>, b: seq<Action>)
    requires KeysOk(keys) && Ready(w)
    ensures Ready(Run(keys, w, a)) && Run(keys, w, a + b) == Run(keys, Run(keys, w, a), b)
    decreases |a|
  {
    hide KeysOk, Ready, Apply;
    if a == [] {
      assert [] + b == b;
    } else {
      ApplyReady(keys, w, a[0]);
      RunThen(keys, Apply(keys, w, a[0]), a[1..], b);
      assert (a + b)[0] == a[0] && (a + b)[1..] == a[1..] + b;
    }
  }

  lemma {:induction false} RunNothing(keys: nat -> Key, w: World)
    requires KeysOk(keys) && Ready(w)
    ensures Run(keys, w, []) == w
  {
  }

  lemma {:induction false} RunsTwo(keys: nat -> Key, w: World, a: Action, b: Action)
    requires KeysOk(keys) && Ready(w)
    ensures Ready(Apply(keys, w, a)) && Ready(Apply(keys, Apply(keys, w, a), b))
    ensures Run(keys, w, [a, b]) == Apply(keys, Apply(keys, w, a), b)
  {
    hide KeysOk, Ready, Apply, Run;
    RunFirst(keys, w, a, [b]);
    RunFirst(keys, Apply(keys, w, a), b, []);
    assert [a] + [b] == [a, b] && [b] + [] == [b];
    RunNothing(keys, Apply(keys, Apply(keys, w, a), b));
  }

  /** Putting a message on the network, in one packet. */
  lemma {:induction false} Sends(keys: nat -> Key, w: World, m: Message, n: nat)
    requires KeysOk(keys) && Ready(w) && Idle(w.sender, n) && m.body == [] && n <= DtlsMessage.TWO16
    ensures var u := Run(keys, w, [AddMessage(m), Flush(100, [true])]);
      && Ready(u) && Idle(u.sender, n + 1) && u.sent == w.sent + [m] && u.net == w.net + [Bytes(keys, RecordOf(keys, n, m, n % DtlsMessage.TWO16))]
      && u.receiver == w.receiver && u.delivered == w.delivered
  {
    hide KeysOk, RecordOf, FragmentBytes, Bytes, SendLoop, Run, RingOk, WellFormed, Piece;
    var k := n % DtlsMessage.TWO16;
    PieceParsed(m, k);
    RunsTwo(keys, w, AddMessage(m), Flush(100, [true]));
    var a := Apply(keys, w, AddMessage(m));
    var s := Completed(a.sender);
    SendsOne(keys, s, m, k);
    OnePacket(keys, RecordOf(keys, n, m, k), SendLoop(keys, s, 100, [true]).packets);
  }

  /** n messages have been sent, each in a packet of its own, and the network lost them all. */
  ghost predicate AllLost(keys: nat -> Key, maxLen: nat, w: World, n: nat) {
    && Idle(w.sender, n) && |w.sent| == n == |w.net| && (forall i :: 0 <= i < n ==> w.sent[i] == FIRST)
    && w.receiver == Initial(maxLen, keys(0)) && w.delivered == []
  }

  lemma {:induction false} NothingSent(keys: nat -> Key, maxLen: nat)
    requires KeysOk(keys)
    ensures AllLost(keys, maxLen, Start(keys, maxLen), 0)
  {
    hide KeysOk;
  }

  lemma {:induction false} Loses(keys: nat -> Key, maxLen: nat, n: nat) returns (script: seq<Action>)
    requires KeysOk(keys) && n <= DtlsMessage.TWO16
    ensures var w := Run(keys, Start(keys, maxLen), script); Ready(w) && AllLost(keys, maxLen, w, n)
    decreases n
  {
    hide KeysOk, Run, Start, Ready, Apply, Bytes, RecordOf, Initial;
    var w0 := Start(keys, maxLen);
    if n == 0 {
      NothingSent(keys, maxLen);
      RunNothing(keys, w0);
      script := [];
    } else {
      var before := Loses(keys, maxLen, n - 1);
      var w := Run(keys, w0, before);
      Sends(keys, w, FIRST, n - 1);
      RunThen(keys, w0, before, [AddMessage(FIRST), Flush(100, [true])]);
      script := before + [AddMessage(FIRST), Flush(100, [true])];
    }
  }

  /** Taking a message with number 0, by a receiver to which nothing has come yet. */
  lemma {:induction false} Takes(keys: nat -> Key, maxLen: nat, w: World, i: nat, s: nat, m: Message)
    requires KeysOk(keys) && Ready(w) && w.receiver == Initial(maxLen, keys(0)) && w.delivered == []
    requires i < |w.net| && 0 < s < DtlsWindow.TWO48 && m.body == [] && w.net[i] == Bytes(keys, RecordOf(keys, s, m, 0))
    ensures var u := Run(keys, w, [Action.Arrive(i), Open, Get, Next]);
      u.delivered == [m] && u.sent == w.sent && u.sender == w.sender
  {
    hide KeysOk, RecordOf, FragmentBytes, Bytes, OpenHandshake, Run, RingOk, WellFormed, AtPlace, Initial,
         GetMessage, NextMessage;
    OpensPiece(keys, maxLen, s, m);
    RunsTwo(keys, w, Action.Arrive(i), Open);
    var b := Apply(keys, Apply(keys, w, Action.Arrive(i)), Open);
    GetsPiece(b.receiver, m);
    RunsTwo(keys, b, Get, Next);
    RunThen(keys, w, [Action.Arrive(i), Open], [Get, Next]);
    assert [Action.Arrive(i), Open] + [Get, Next] == [Action.Arrive(i), Open, Get, Next];
  }

  /** 65536 messages are lost, the 65537th arrives and is delivered in the place of the first: a
      flight that was sent is forgotten by its sender when it adds the next message, whether or not
      any of it has arrived. */
  lemma {:induction false} NumberAgain(keys: nat -> Key, maxLen: nat) returns (script: seq<Action>)
    requires KeysOk(keys)
    ensures var w := Run(keys, Start(keys, maxLen), script);
      |w.sent| == DtlsMessage.TWO16 + 1 && !w.sender.records.wrapped && w.delivered == [OTHER] && w.sent[0] == FIRST
  {
    hide KeysOk, Run, Start, Ready, Apply, Bytes, RecordOf, Initial;
    var w0, n := Start(keys, maxLen), DtlsMessage.TWO16;
    var a := Loses(keys, maxLen, n);
    var w := Run(keys, w0, a);
    var b := [AddMessage(OTHER), Flush(100, [true])];
    Sends(keys, w, OTHER, n);
    var u := Run(keys, w, b);
    var c := [Action.Arrive(n), Open, Get, Next];
    Takes(keys, maxLen, u, n, n, OTHER);
    RunThen(keys, w0, a, b);
    RunThen(keys, w0, a + b, c);
    script := a + b + c;
  }

  /** As long as the sender's epochs and record numbers do not come around, what is delivered is a
      prefix of what was sent in every run with at most n messages, if and only if n is at most
      65536. */
  lemma {:induction false} PrefixExactly(keys: nat -> Key, maxLen: nat, n: nat)
    requires KeysOk(keys)
    ensures (forall actions :: var w := Run(keys, Start(keys, maxLen), actions); |w.sent| <= n && !w.sender.records.wrapped ==> w.delivered <= w.sent)
       <==> n <= DtlsMessage.TWO16
  {
    hide KeysOk, Run, Start, Ready;
    if n <= DtlsMessage.TWO16 {
      forall actions | var w := Run(keys, Start(keys, maxLen), actions); |w.sent| <= n && !w.sender.records.wrapped
        ensures var w := Run(keys, Start(keys, maxLen), actions); w.delivered <= w.sent
      {
        DeliveryToTheLast(keys, maxLen, actions);
      }
    } else {
      var script := NumberAgain(keys, maxLen);
      var w := Run(keys, Start(keys, maxLen), script);
      assert w.delivered[0] != w.sent[0];
    }
  }
}
