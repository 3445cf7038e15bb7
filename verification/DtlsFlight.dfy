/** From one end to the other: a flight that is sent, and of which every packet arrives, is taken
    out of the receiver message by message. */
module DtlsFlight {
  import opened Words
  import opened SslAead
  import DtlsWindow
  import opened DtlsRecord
  import opened DtlsMessage
  import opened DtlsReceive
  import opened DtlsSend
  import opened DtlsRun
  import opened DtlsHistory
  import opened DtlsArrival
  import opened DtlsDelivery

  // ------------------------------------------------------------- the records that are sent

  /** Sealed under one of the two keys in use, with the current version, within the MTU. */
  ghost predicate InUse(keys: nat -> Key, changes: nat, maxOut: nat, d: Desc)
    requires KeysOk(keys)
  {
    && (d.key == changes || d.key + 1 == changes) && d.version == RecordVersion(keys(changes).context, true)
    && |Bytes(keys, d)| <= maxOut
  }

  ghost predicate AllInUse(keys: nat -> Key, changes: nat, maxOut: nat, ds: seq<Desc>)
    requires KeysOk(keys)
  {
    forall k :: 0 <= k < |ds| ==> InUse(keys, changes, maxOut, ds[k])
  }

  lemma {:induction false} SealNextInUse(keys: nat -> Key, s: Sender, maxOut: nat)
    requires KeysOk(keys) && s.written < |s.flight|
    ensures var r := SealNext(keys, s, maxOut); r.1.Sealed? ==> InUse(keys, s.records.changes, maxOut, r.1.desc) && r.0.records.changes == s.records.changes
  {
    hide KeysOk, Bytes, ParseFragment, FragmentBytes, MaxOverhead, RecordVersion, DtlsSend.Whole, WriterNext;
    SealNextGrows(keys, s, maxOut);
  }

  lemma {:induction false} FillPacketInUse(keys: nat -> Key, s: Sender, maxOut: nat)
    requires KeysOk(keys) && s.written <= |s.flight|
    ensures var r := FillPacket(keys, s, maxOut); r.1.Some? ==> AllInUse(keys, s.records.changes, maxOut, r.1.value.descs)
    decreases |s.flight| - s.written
  {
    hide KeysOk, SealNext, Bytes, RecordVersion;
    if s.written < |s.flight| {
      SealNextInUse(keys, s, maxOut);
      var r := SealNext(keys, s, maxOut);
      if r.1.Sealed? && r.1.done { FillPacketInUse(keys, r.0.(written := s.written + 1), maxOut - |Bytes(keys, r.1.desc)|); }
    }
  }

  lemma {:induction false} SendLoopInUse(keys: nat -> Key, s: Sender, mtu: nat, writes: seq<bool>)
    requires KeysOk(keys) && AtPlace(s)
    ensures AllInUse(keys, s.records.changes, mtu, AllDescs(SendLoop(keys, s, mtu, writes).packets))
    decreases |s.flight| - s.written, if s.written < |s.flight| then BodyLen(s.flight[s.written]) - s.offset else 0
  {
    hide KeysOk, FillPacket, BodyLen, InUse;
    if s.written < |s.flight| {
      FillPacketInUse(keys, s, mtu);
      FillPacketGrows(keys, s, mtu);
      var r := SealPacket(keys, s, mtu);
      if r.1.Some? && writes != [] && writes[0] {
        FillPacketLeads(keys, s, mtu);
        PathAdvances(s.flight, s.written, s.offset, r.1.value.items, r.0.written, r.0.offset);
        SendLoopInUse(keys, r.0, mtu, writes[1..]);
        var rest := SendLoop(keys, r.0, mtu, writes[1..]);
        assert ([r.1.value] + rest.packets)[1..] == rest.packets;
      }
    }
  }

  /** Each record carries the item at its place in the path. */
  ghost predicate Paired(flight: seq<Outgoing>, ds: seq<Desc>, items: seq<Item>) {
    |ds| == |items| && forall k :: 0 <= k < |ds| ==> Carries(flight, ds[k], items[k])
  }

  lemma {:induction false} PairedThen(flight: seq<Outgoing>, a: seq<Desc>, i: seq<Item>, b: seq<Desc>, j: seq<Item>)
    requires Paired(flight, a, i) && Paired(flight, b, j)
    ensures Paired(flight, a + b, i + j)
  {
    hide Carries;
  }

  lemma {:induction false} SendLoopPaired(keys: nat -> Key, s: Sender, mtu: nat, writes: seq<bool>)
    requires KeysOk(keys) && AtPlace(s)
    ensures var ps := SendLoop(keys, s, mtu, writes).packets; Paired(s.flight, AllDescs(ps), AllItems(ps))
    decreases |s.flight| - s.written, if s.written < |s.flight| then BodyLen(s.flight[s.written]) - s.offset else 0
  {
    hide KeysOk, FillPacket, PacketBytes, BodyLen, Carries;
    if s.written < |s.flight| {
      var r := SealPacket(keys, s, mtu);
      if r.1.Some? && writes != [] && writes[0] {
        FillPacketLeads(keys, s, mtu);
        PathAdvances(s.flight, s.written, s.offset, r.1.value.items, r.0.written, r.0.offset);
        SendLoopPaired(keys, r.0, mtu, writes[1..]);
        var rest := SendLoop(keys, r.0, mtu, writes[1..]);
        assert ([r.1.value] + rest.packets)[1..] == rest.packets;
        PairedThen(s.flight, r.1.value.descs, r.1.value.items, AllDescs(rest.packets), AllItems(rest.packets));
      }
    }
  }

  /** A complete path visits every message from its start on. */
  lemma {:induction false} PathVisits(flight: seq<Outgoing>, w: nat, o: nat, items: seq<Item>, v: nat) returns (k: nat)
    requires Path(flight, w, o, items, |flight|, 0) && w <= v < |flight| && o <= BodyLen(flight[w])
    ensures k < |items| && items[k].index == v
    decreases |items|
  {
    hide BodyLen;
    if w == v {
      k := 0;
    } else {
      var i := items[0];
      if o + i.len == BodyLen(flight[w]) { k := PathVisits(flight, w + 1, 0, items[1..], v); }
      else { k := PathVisits(flight, w, o + i.len, items[1..], v); }
      k := k + 1;
    }
  }

  /** And has every byte of it in some item. */
  lemma {:induction false} PathCovers(flight: seq<Outgoing>, w: nat, o: nat, items: seq<Item>, v: nat,
      j: nat) returns (k: nat)
    requires Path(flight, w, o, items, |flight|, 0) && w <= v < |flight| && o <= BodyLen(flight[w])
        && j < BodyLen(flight[v]) && (w == v ==> o <= j)
    ensures k < |items| && items[k].index == v && items[k].off <= j < items[k].off + items[k].len
    decreases |items|
  {
    hide BodyLen;
    var i := items[0];
    if w == v && j < o + i.len {
      k := 0;
    } else {
      if o + i.len == BodyLen(flight[w]) { k := PathCovers(flight, w + 1, 0, items[1..], v, j); }
      else { k := PathCovers(flight, w, o + i.len, items[1..], v, j); }
      k := k + 1;
    }
  }

  // ------------------------------------------------------------- what the window has taken

  /** The window stands for numbers of records that the sender sealed under the reader's key. */
  ghost predicate Taken(log: seq<Desc>, readKey: nat, seen: set<nat>) {
    forall t :: t in seen ==> exists a :: 0 <= a < |log| && log[a].key == readKey && t == Number(readKey, log[a])
  }

  ghost predicate WindowKnown(w: World) {
    !w.receiver.records.closed && exists seen :: DtlsWindow.Means(w.receiver.records.window, seen) && Taken(w.log, w.readKey, seen)
  }

  lemma {:induction false} KnownGrows(w: World, v: World)
    requires WindowKnown(w) && w.log <= v.log && v.readKey == w.readKey
    requires v.receiver.records.window == w.receiver.records.window
        && v.receiver.records.closed == w.receiver.records.closed
    ensures WindowKnown(v)
  {
    hide DtlsWindow.Means;
    var seen :| DtlsWindow.Means(w.receiver.records.window, seen) && Taken(w.log, w.readKey, seen);
    forall t | t in seen ensures exists a :: 0 <= a < |v.log| && v.log[a].key == v.readKey && t == Number(v.readKey, v.log[a]) {
      var a :| 0 <= a < |w.log| && w.log[a].key == w.readKey && t == Number(w.readKey, w.log[a]);
      assert v.log[a] == w.log[a];
    }
    assert Taken(v.log, v.readKey, seen);
  }

  lemma {:induction false} OpenKnown(keys: nat -> Key, w: World)
    requires KeysOk(keys) && Ready(w) && Inv(keys, w) && WindowKnown(w)
    ensures WindowKnown(Apply(keys, w, Open))
  {
    hide KeysOk, Good, NetOk, FlightOk, MessagesOk, TrueDescs, TrueDesc, DtlsWindow.ShouldDiscard, DtlsWindow.Recorded,
         DtlsWindow.Means, OpenHandshake, TakeRecord,
         RingOk, WellFormed, AtPlace, TrueAssembly, DtlsWindow.Combined;
    var o := OpenTrue(keys, w.sent, w.log, w.readKey, w.receiver, w.input);
    if o.Some? {
      var d := o.value;
      var x :| 0 <= x < |w.log| && w.log[x] == d;
      DescAt(keys, w.sent, w.log, x);
      var r := WithNumber(w.readKey, w.receiver, d);
      TakeRing(keys, w.sent, r, d);
      RecordKnown(w, x);
      WithNumberRecords(w.readKey, w.receiver, d);
    }
  }

  lemma {:induction false} WithNumberRecords(k: nat, r: Receiver, d: Desc)
    requires RingOk(r)
    ensures WithNumber(k, r, d).records == r.records.(window := DtlsWindow.Recorded(r.records.window, Number(k, d)))
  {
    hide RingOk, DtlsWindow.Recorded, DtlsWindow.Combined;
  }

  lemma {:induction false} RecordKnown(w: World, x: nat)
    requires WindowKnown(w) && x < |w.log| && w.log[x].key == w.readKey
    requires !DtlsWindow.ShouldDiscard(w.receiver.records.window, Number(w.readKey, w.log[x]))
    ensures exists seen :: DtlsWindow.Means(DtlsWindow.Recorded(w.receiver.records.window, Number(w.readKey, w.log[x])), seen) && Taken(w.log, w.readKey, seen)
  {
    hide DtlsWindow.Means, DtlsWindow.ShouldDiscard, DtlsWindow.Recorded, Number;
    var seen :| DtlsWindow.Means(w.receiver.records.window, seen) && Taken(w.log, w.readKey, seen);
    var n := Number(w.readKey, w.log[x]);
    DtlsWindow.RecordMeans(w.receiver.records.window, seen, n);
    assert Taken(w.log, w.readKey, seen + {n});
  }

  lemma {:induction false} SendLog(keys: nat -> Key, w: World, s: Sender, mtu: nat, writes: seq<bool>)
    requires KeysOk(keys) && AtPlace(s)
    ensures var v := Send(keys, w, s, mtu, writes); w.log <= v.log && v.readKey == w.readKey && v.receiver == w.receiver
  {
    hide KeysOk, SendLoop, PacketBytes;
  }

  lemma {:induction false} FreshKnown(w: World)
    requires w.receiver.records.window == DtlsWindow.EMPTY && !w.receiver.records.closed
    ensures WindowKnown(w)
  {
    DtlsWindow.EmptyMeans();
    assert Taken(w.log, w.readKey, {});
  }

  lemma {:induction false} ApplyKnown(keys: nat -> Key, w: World, a: Action)
    requires KeysOk(keys) && Ready(w) && Inv(keys, w) && WindowKnown(w)
    ensures WindowKnown(Apply(keys, w, a))
  {
    hide KeysOk, Inv, RingOk, AtPlace, WellFormed, Send, OpenHandshake, AddOutgoing, Unprocessed, GetMessage,
         WindowKnown, NextMessage;
    var v := Apply(keys, w, a);
    match a {
      case Flush(mtu, writes) => SendLog(keys, w, Completed(w.sender), mtu, writes); KnownGrows(w, v);
      case Retransmit(mtu, writes) => SendLog(keys, w, Rewound(w.sender), mtu, writes); KnownGrows(w, v);
      case Open => OpenKnown(keys, w);
      case Next => NextWindow(w.receiver); KnownGrows(w, v);
      case NewReadKeys => KnownClosed(w); if Unprocessed(w.receiver) { KnownGrows(w, v); } else { FreshKnown(v); }
      case _ => KnownGrows(w, v);
    }
  }

  lemma {:induction false} KnownClosed(w: World)
    requires WindowKnown(w)
    ensures !w.receiver.records.closed
  {
  }

  lemma {:induction false} NextWindow(r: Receiver)
    requires RingOk(r)
    ensures GetMessage(r).Some? ==> NextMessage(r).records == r.records
  {
    hide RingOk, GetMessage;
    if GetMessage(r).Some? { NextParts(r); }
  }

  /** What holds in every state that a run reaches before anything comes around. */
  lemma {:induction false} Reached(keys: nat -> Key, w: World, actions: seq<Action>)
    requires KeysOk(keys) && Ready(w) && Inv(keys, w) && Hist(w) && WindowKnown(w) && Unwrapped(Run(keys, w, actions))
    ensures var v := Run(keys, w, actions); Ready(v) && Inv(keys, v) && Hist(v) && WindowKnown(v)
    decreases |actions|
  {
    hide KeysOk, Apply, Inv, Ready, Hist, NumbersLast, WindowKnown;
    if actions != [] {
      ApplyReady(keys, w, actions[0]);
      RunGrows(keys, w, actions);
      var v := Apply(keys, w, actions[0]);
      RunGrows(keys, v, actions[1..]);
      HistParts(w);
      FlightBound(keys, w, actions[0]);
      ApplyInv(keys, w, actions[0]);
      ApplyHist(keys, w, actions[0]);
      ApplyKnown(keys, w, actions[0]);
      Reached(keys, v, actions[1..]);
    }
  }

  lemma {:induction false} StartReached(keys: nat -> Key, maxLen: nat)
    requires KeysOk(keys)
    ensures var w := Start(keys, maxLen); Ready(w) && Inv(keys, w) && Hist(w) && WindowKnown(w)
  {
    hide KeysOk, Inv, Hist, WindowKnown;
    StartInv(keys, maxLen);
    StartHist(keys, maxLen);
    FreshKnown(Start(keys, maxLen));
  }

  // ------------------------------------------------------------- the flight and its receiver

  /** Message i waits in the flight, to be sealed under that key. */
  ghost predicate InFlight(flight: seq<Outgoing>, i: nat, key: nat) {
    exists k :: 0 <= k < |flight| && Entry(flight[k], i, key)
  }

  predicate Entry(m: Outgoing, i: nat, key: nat) { !m.isCcs && NumberIn(m.data) == i && m.epoch == key }

  /** The next c messages for the receiver are in the flight under the reader's key, and nothing in the
      flight under that key is refused: no message is too long, no ChangeCipherSpec is protected, and
      in epoch 1 there is only the next message. */
  ghost predicate Deliverable(w: World, c: nat) {
    && c > 0 && |w.delivered| + c <= |w.sent|
    && (forall i :: |w.delivered| <= i < |w.delivered| + c ==> InFlight(w.sender.flight, i, w.readKey))
    && forall k :: 0 <= k < |w.sender.flight| ==> Harmless(w, w.sender.flight[k])
  }

  predicate Harmless(w: World, m: Outgoing) {
    if m.isCcs then m.epoch == w.readKey ==> w.readKey == 0
    else BodyLen(m) <= w.receiver.maxLen && (m.epoch == w.readKey == 1 ==> NumberIn(m.data) == |w.delivered|)
  }

  /** The fragment in a record carries a part of the message it was cut from. */
  lemma {:induction false} PieceOf(flight: seq<Outgoing>, d: Desc, item: Item)
    requires Carries(flight, d, item) && !flight[item.index].isCcs
    ensures d.recordType == HANDSHAKE && Piece(d).seqNum == NumberIn(flight[item.index].data) == NumberIn(d.plain)
    ensures Piece(d).off == item.off && |Piece(d).body| == item.len && Piece(d).msgLen == BodyLen(flight[item.index])
  {
    hide ParseFragment, FragmentBytes;
    var m := flight[item.index];
    var p := ParseFragment(m.data).value.fragment;
    ParsedFits(m.data);
    WholeLen(m);
    var f := p.(off := item.off, body := p.body[item.off..item.off + item.len]);
    ParseBack(f, []);
    assert FragmentBytes(f) + [] == FragmentBytes(f);
  }

  /** When the records of a complete path have arrived, all of each message under the reader's key has. */
  lemma {:induction false} AllOfMessage(sent: seq<Message>, k: nat, r: Receiver, flight: seq<Outgoing>, ds: seq<Desc>,
      items: seq<Item>, v: nat, i: nat)
    requires Paired(flight, ds, items) && Path(flight, 0, 0, items, |flight|, 0) && AllHeld(k, r, ds)
        && k < DtlsRecord.TWO16
    requires forall x :: 0 <= x < |ds| ==> ds[x].key < DtlsRecord.TWO16
    requires v < |flight| && Entry(flight[v], i, k) && i < |sent| && r.readSeq <= i
        && BodyLen(flight[v]) == |sent[i].body|
    ensures HasAll(sent, r, i)
  {
    hide Path, ParseFragment, FragmentBytes, BodyLen, NumberIn, Carries, Holds, Got;
    var t := PathVisits(flight, 0, 0, items, v);
    ItemHeld(k, r, flight, ds, items, v, i, t);
    forall j: nat | j < |sent[i].body| ensures Got(r, i, j) {
      var u := PathCovers(flight, 0, 0, items, v, j);
      ItemHeld(k, r, flight, ds, items, v, i, u);
    }
  }

  lemma {:induction false} ItemHeld(k: nat, r: Receiver, flight: seq<Outgoing>, ds: seq<Desc>, items: seq<Item>, v: nat,
      i: nat, t: nat)
    requires Paired(flight, ds, items) && AllHeld(k, r, ds) && k < DtlsRecord.TWO16 && t < |ds|
        && ds[t].key < DtlsRecord.TWO16
    requires v < |flight| && Entry(flight[v], i, k) && r.readSeq <= i && items[t].index == v
    ensures Started(r, i) && forall j: nat :: items[t].off <= j < items[t].off + items[t].len ==> Got(r, i, j)
  {
    hide ParseFragment, FragmentBytes, BodyLen, Got, Piece, NumberIn, Started;
    assert Carries(flight, ds[t], items[t]);
    PieceOf(flight, ds[t], items[t]);
    assert ds[t].key == k;
    assert Holds(r, ds[t]);
    forall j: nat | items[t].off <= j < items[t].off + items[t].len ensures Got(r, i, j) { assert Inside(Piece(ds[t]), i, j); }
  }

  /** The body of the message that stands in the flight is that of the message sent. */
  lemma {:induction false} EntryBody(sent: seq<Message>, s: Sender, v: nat)
    requires FlightOk(sent, s) && MessagesOk(sent) && |sent| <= DtlsMessage.TWO16 && v < |s.flight|
        && !s.flight[v].isCcs
    ensures var i := NumberIn(s.flight[v].data); i < |sent| && BodyLen(s.flight[v]) == |sent[i].body|
  {
    hide FragmentBytes, ParseFragment, NumberIn;
    var i :| 0 <= i < |sent| && s.flight[v].data == MessageBytes(sent[i], i);
    NumberBack(sent[i], i);
  }

  /** No record of the flight raises an alert. */
  lemma {:induction false} RecordFits(keys: nat -> Key, w: World, c: nat, mtu: nat, d: Desc, item: Item)
    requires KeysOk(keys) && Inv(keys, w) && Hist(w) && Deliverable(w, c) && |w.sent| <= DtlsMessage.TWO16
        && mtu <= 16384
    requires TrueDesc(keys, w.sent, d) && InUse(keys, w.sender.records.changes, mtu, d)
        && Carries(w.sender.flight, d, item)
    requires w.readKey == w.sender.records.changes || w.readKey + 1 == w.sender.records.changes
    ensures Fits(keys, w.sent, w.readKey, w.receiver, d)
  {
    hide KeysOk, Good, NetOk, TrueDescs, RingOk, WellFormed, TrueAssembly, AddedOk, AllLogged, Ordered, TookAll,
         NoneInRing, MessagesOk, FlightOk, Bytes, VersionOk,
         ParseFragment, FragmentBytes, RecordVersion, TrueDesc, Carries, BodyLen, NumberIn, TrueFragment, AtPlace;
    VersionsAgree(keys, w.readKey, w.sender.records.changes);
    PlainShort(keys, d);
    TrueKey(keys, w.sent, d);
    DeliveredNext(w, c);
    if d.key == w.readKey {
      CarriesEpoch(w.sender.flight, d, item);
      var m := w.sender.flight[item.index];
      assert Harmless(w, m);
      if d.recordType == HANDSHAKE {
        PieceOf(w.sender.flight, d, item);
        PieceTrue(keys, w.sent, d);
        assert IsCarried(w.sender.flight, d);
        CarriedNumber(w.added, w.sender.flight, d);
      } else {
        NullFirst(keys);
      }
    }
  }

  lemma {:induction false} NullFirst(keys: nat -> Key)
    requires KeysOk(keys)
    ensures keys(0).context.isNull
  {
  }

  lemma {:induction false} CarriesEpoch(flight: seq<Outgoing>, d: Desc, item: Item)
    requires Carries(flight, d, item) && d.key < DtlsRecord.TWO16
    ensures item.index < |flight| && d.key == flight[item.index].epoch
    ensures flight[item.index].isCcs <==> d.recordType == CHANGE_CIPHER_SPEC
    ensures flight[item.index].isCcs || d.recordType == HANDSHAKE
  {
    hide ParseFragment, FragmentBytes, DtlsSend.Whole;
  }

  lemma {:induction false} TrueKey(keys: nat -> Key, sent: seq<Message>, d: Desc)
    requires KeysOk(keys) && TrueDesc(keys, sent, d)
    ensures d.key < DtlsRecord.TWO16
    ensures d.recordType == CHANGE_CIPHER_SPEC || d.recordType == HANDSHAKE
  {
    hide KeysOk, Bytes, FragmentBytes, VersionOk;
  }

  lemma {:induction false} PlainShort(keys: nat -> Key, d: Desc)
    requires KeysOk(keys)
    ensures |d.plain| <= |Bytes(keys, d)| - 13
  {
    hide KeysOk, Bytes;
    BytesLen(keys, d);
  }

  /** The flight still holds the message the receiver waits for, so it holds none beyond its window. */
  lemma {:induction false} DeliveredNext(w: World, c: nat)
    requires Hist(w) && Deliverable(w, c) && |w.sent| <= DtlsMessage.TWO16
    ensures |w.delivered| < DtlsMessage.TWO16 && |w.added| == |w.sent| <= |w.delivered| + 7
  {
    hide NumberIn, AddedOk, AllLogged, Ordered, TookAll, NoneInRing, BodyLen;
    var i := |w.delivered|;
    assert InFlight(w.sender.flight, i, w.readKey);
    var k :| 0 <= k < |w.sender.flight| && Entry(w.sender.flight[k], i, w.readKey);
    assert Numbered(w.added, w.sender.flight[k], |w.sender.flight| - k);
  }

  // ------------------------------------------------------------- main result

  function Packs(packets: seq<Packet>): (packs: seq<seq<Desc>>)
    ensures |packs| == |packets| && forall i :: 0 <= i < |packs| ==> packs[i] == packets[i].descs
  {
    seq(|packets|, i requires 0 <= i < |packets| => packets[i].descs)
  }

  /** Every record of the flight is in one of its packets. */
  lemma {:induction false} HeldTogether(k: nat, r: Receiver, packets: seq<Packet>)
    requires forall i :: 0 <= i < |packets| ==> AllHeld(k, r, packets[i].descs)
    ensures AllHeld(k, r, AllDescs(packets))
    decreases |packets|
  {
    hide Holds;
    if packets != [] {
      forall i | 0 <= i < |packets[1..]| ensures AllHeld(k, r, packets[1..][i].descs) { assert packets[1..][i] == packets[i + 1]; }
      HeldTogether(k, r, packets[1..]);
      assert AllHeld(k, r, packets[0].descs);
    }
  }

  lemma {:induction false} AmongAll(packets: seq<Packet>, i: nat)
    requires i < |packets|
    ensures Among(packets[i].descs, AllDescs(packets))
    decreases |packets|
  {
    if i > 0 {
      AmongAll(packets[1..], i - 1);
      assert packets[1..][i - 1] == packets[i];
    }
  }

  /** The sender at the start of its flight, sending all of it with this call. */
  ghost predicate SendsAll(keys: nat -> Key, w: World, s: Sender, mtu: nat, writes: seq<bool>)
    requires KeysOk(keys)
  {
    && AtPlace(s) && s.flight == w.sender.flight && s.records == w.sender.records && s.written == 0 && s.offset == 0
    && SendLoop(keys, s, mtu, writes).end == Finished
  }

  /** At most 64 record numbers are used up on the way. */
  predicate FewNumbers(c: Counters, e: Counters) { e.next <= c.next + 64 && e.lastNext <= c.lastNext + 64 }

  lemma {:induction false} SentPath(keys: nat -> Key, w: World, s: Sender, mtu: nat, writes: seq<bool>)
    requires KeysOk(keys) && SendsAll(keys, w, s, mtu, writes)
    ensures var ps := SendLoop(keys, s, mtu, writes).packets;
      Path(s.flight, 0, 0, AllItems(ps), |s.flight|, 0) && Paired(s.flight, AllDescs(ps), AllItems(ps)) && AllInUse(keys, s.records.changes, mtu, AllDescs(ps))
  {
    hide KeysOk, SendLoop, Path, Paired, AllInUse;
    var x, y := SendLoopLeads(keys, s, mtu, writes);
    SendLoopPaired(keys, s, mtu, writes);
    SendLoopInUse(keys, s, mtu, writes);
  }

  /** The reader's key is one of those in use. */
  lemma {:induction false} KeyInUse(keys: nat -> Key, w: World, c: nat, ds: seq<Desc>, items: seq<Item>, mtu: nat)
    requires KeysOk(keys) && Hist(w) && Deliverable(w, c) && w.sender.records.changes < DtlsRecord.TWO16
    requires Path(w.sender.flight, 0, 0, items, |w.sender.flight|, 0) && Paired(w.sender.flight, ds, items)
        && AllInUse(keys, w.sender.records.changes, mtu, ds)
    ensures w.readKey == w.sender.records.changes || w.readKey + 1 == w.sender.records.changes
  {
    hide KeysOk, Path, Carries, Hist, Harmless, BodyLen, NumberIn;
    assert InFlight(w.sender.flight, |w.delivered|, w.readKey);
    var v :| 0 <= v < |w.sender.flight| && Entry(w.sender.flight[v], |w.delivered|, w.readKey);
    var t := PathVisits(w.sender.flight, 0, 0, items, v);
    assert Carries(w.sender.flight, ds[t], items[t]) && InUse(keys, w.sender.records.changes, mtu, ds[t]);
    CarriesEpoch(w.sender.flight, ds[t], items[t]);
  }

  /** What the receiver has taken so far is older than the flight's records, and those are near each
      other. */
  lemma {:induction false} ExpectedAll(w: World, ds: seq<Desc>, e: Counters, seen: set<nat>)
    requires AllLogged(w.added, w.sender.records, w.log) && Taken(w.log, w.readKey, seen)
    requires Rising(w.sender.records, ds, e) && FewNumbers(w.sender.records, e)
    ensures forall i :: 0 <= i < |ds| && ds[i].key == w.readKey ==> Expected(w.readKey, w.receiver, ds[i], seen)
    ensures forall i, j :: 0 <= i < |ds| && 0 <= j < |ds| && ds[i].key == w.readKey && ds[j].key == w.readKey ==> Near(w.readKey, ds[i], ds[j])
    ensures Distinct(ds)
  {
    hide NumberIn, Holds;
    forall i | 0 <= i < |ds| && ds[i].key == w.readKey ensures Expected(w.readKey, w.receiver, ds[i], seen) {
      assert Between(w.sender.records, ds[i], e);
      forall t | t in seen ensures t < Number(w.readKey, ds[i]) {
        var a :| 0 <= a < |w.log| && w.log[a].key == w.readKey && t == Number(w.readKey, w.log[a]);
        assert Logged(w.added, w.sender.records, w.log[a]);
      }
    }
    forall i, j | 0 <= i < |ds| && 0 <= j < |ds| && ds[i].key == w.readKey && ds[j].key == w.readKey ensures Near(w.readKey, ds[i], ds[j]) {
      assert Between(w.sender.records, ds[i], e) && Between(w.sender.records, ds[j], e);
    }
  }

  lemma {:induction false} NowReceiving(keys: nat -> Key, w: World, c: nat, s: Sender, mtu: nat,
      writes: seq<bool>) returns (seen: set<nat>)
    requires KeysOk(keys) && Ready(w) && Inv(keys, w) && Hist(w) && WindowKnown(w) && Deliverable(w, c) && Within(w)
        && mtu <= 16384
    requires SendsAll(keys, w, s, mtu, writes) && !SendLoop(keys, s, mtu, writes).sender.records.wrapped
    requires FewNumbers(w.sender.records, SendLoop(keys, s, mtu, writes).sender.records)
    requires Inv(keys, Send(keys, w, s, mtu, writes))
    ensures Receiving(keys, w.sent, w.readKey, w.receiver, AllDescs(SendLoop(keys, s, mtu, writes).packets), seen)
  {
    hide KeysOk, Good, NetOk, SendLoop, RingOk, WellFormed, TrueAssembly, AddedOk, AllLogged, Ordered, TookAll,
         NoneInRing, MessagesOk, FlightOk, Path, Paired,
         AllInUse, Fits, DtlsWindow.Means, Taken, Expected, Near, Distinct, TrueDesc, AtPlace, FlightNumbered,
         Deliverable, Rising;
    var r := SendLoop(keys, s, mtu, writes);
    var ds, items := AllDescs(r.packets), AllItems(r.packets);
    SentPath(keys, w, s, mtu, writes);
    KeyInUse(keys, w, c, ds, items, mtu);
    SendLoopRises(keys, s, mtu, writes);
    seen :| DtlsWindow.Means(w.receiver.records.window, seen) && Taken(w.log, w.readKey, seen);
    ExpectedAll(w, ds, r.sender.records, seen);
    forall i | 0 <= i < |ds| ensures Fits(keys, w.sent, w.readKey, w.receiver, ds[i]) {
      TailTrue(keys, w.sent, w.log, ds, i);
      PairedAt(keys, w.sender.flight, ds, items, w.sender.records.changes, mtu, i);
      RecordFits(keys, w, c, mtu, ds[i], items[i]);
    }
  }

  lemma {:induction false} TailTrue(keys: nat -> Key, sent: seq<Message>, log: seq<Desc>, ds: seq<Desc>, i: nat)
    requires KeysOk(keys) && TrueDescs(keys, sent, log + ds) && i < |ds|
    ensures TrueDesc(keys, sent, ds[i])
  {
    hide KeysOk, TrueDesc;
    DescAt(keys, sent, log + ds, |log| + i);
    assert (log + ds)[|log| + i] == ds[i];
  }

  lemma {:induction false} PairedAt(keys: nat -> Key, flight: seq<Outgoing>, ds: seq<Desc>, items: seq<Item>,
      changes: nat, mtu: nat, i: nat)
    requires KeysOk(keys) && Paired(flight, ds, items) && AllInUse(keys, changes, mtu, ds) && i < |ds|
    ensures i < |items| && Carries(flight, ds[i], items[i]) && InUse(keys, changes, mtu, ds[i])
  {
    hide KeysOk, Carries, InUse;
  }

  /** The messages of the flight that the receiver waits for have arrived when its packets have. */
  lemma {:induction false} AllArrived(keys: nat -> Key, w: World, c: nat, s: Sender, mtu: nat, writes: seq<bool>,
      q: Receiver)
    requires KeysOk(keys) && Ready(w) && Inv(keys, w) && Hist(w) && Deliverable(w, c) && Within(w)
    requires SendsAll(keys, w, s, mtu, writes)
        && TrueDescs(keys, w.sent, w.log + AllDescs(SendLoop(keys, s, mtu, writes).packets))
    requires AllHeld(w.readKey, q, AllDescs(SendLoop(keys, s, mtu, writes).packets)) && q.readSeq == w.receiver.readSeq
    ensures forall n: nat :: |w.delivered| <= n < |w.delivered| + c ==> HasAll(w.sent, q, n)
  {
    hide KeysOk, Good, NetOk, SendLoop, RingOk, WellFormed, TrueAssembly, AddedOk, AllLogged, Ordered, TookAll,
         NoneInRing, Path, Paired, AllInUse, TrueDesc, AtPlace,
         FlightNumbered, AllHeld, HasAll, ReceiverOk, TrueDescs, FlightOk, MessagesOk, NumberIn, BodyLen, Harmless;
    var r := SendLoop(keys, s, mtu, writes);
    var ds, items := AllDescs(r.packets), AllItems(r.packets);
    SentPath(keys, w, s, mtu, writes);
    KeyInUse(keys, w, c, ds, items, mtu);
    DeliveredNext(w, c);
    forall x | 0 <= x < |ds| ensures ds[x].key < DtlsRecord.TWO16 {
      TailTrue(keys, w.sent, w.log, ds, x);
      TrueKey(keys, w.sent, ds[x]);
    }
    forall n: nat | |w.delivered| <= n < |w.delivered| + c ensures HasAll(w.sent, q, n) {
      assert InFlight(w.sender.flight, n, w.readKey);
      var v :| 0 <= v < |w.sender.flight| && Entry(w.sender.flight[v], n, w.readKey);
      EntryBody(w.sent, w.sender, v);
      AllOfMessage(w.sent, w.readKey, q, w.sender.flight, ds, items, v, n);
    }
  }

  /** From a reached state: when the flight has been sent and each of its packets arrives at least once,
      in any order, the messages the receiver waits for are taken out, without an alert on the way. */
  lemma {:induction false} ArrivesFrom(keys: nat -> Key, w: World, c: nat, s: Sender, mtu: nat, writes: seq<bool>,
      order: seq<nat>)
    requires KeysOk(keys) && Ready(w) && Inv(keys, w) && Hist(w) && WindowKnown(w) && Deliverable(w, c) && Within(w)
        && mtu <= 16384
    requires SendsAll(keys, w, s, mtu, writes) && !SendLoop(keys, s, mtu, writes).sender.records.wrapped
    requires FewNumbers(w.sender.records, SendLoop(keys, s, mtu, writes).sender.records)
    requires Inv(keys, Send(keys, w, s, mtu, writes)) && Ready(Send(keys, w, s, mtu, writes))
    requires var n := |SendLoop(keys, s, mtu, writes).packets|;
      (forall i :: 0 <= i < |order| ==> order[i] < n) && forall i :: 0 <= i < n ==> i in order
    ensures var v := Send(keys, w, s, mtu, writes); var script := Reading(|w.net|, Packs(SendLoop(keys, s, mtu, writes).packets), order) + Taking(c);
      Quiet(keys, v, script) && Run(keys, v, script).delivered == w.delivered + w.sent[|w.delivered|..|w.delivered| + c]
  {
    hide KeysOk, SendLoop, Inv, Hist, Receiving, Deliverable, AllHeld, WindowKnown, SendsAll, FewNumbers, Run, Quiet,
         Ready, HasAll, Reading, Taking, Grows, OnNet, RingTrue;
    SendsPlace(keys, w, s, mtu, writes);
    var v := Send(keys, w, s, mtu, writes);
    var r := SendLoop(keys, s, mtu, writes);
    var ds, packs := AllDescs(r.packets), Packs(r.packets);
    var seen := NowReceiving(keys, w, c, s, mtu, writes);
    forall i | 0 <= i < |packs| ensures Among(packs[i], ds) { AmongAll(r.packets, i); }
    PutOnNet(keys, w, s, mtu, writes);
    seen := ReadsAll(keys, v, ds, seen, |w.net|, packs, order);
    var u := Run(keys, v, Reading(|w.net|, packs, order));
    forall i | 0 <= i < |r.packets| ensures AllHeld(w.readKey, u.receiver, r.packets[i].descs) {
      assert i in order;
      var x :| 0 <= x < |order| && order[x] == i;
      assert packs[order[x]] == r.packets[i].descs;
    }
    HeldTogether(w.readKey, u.receiver, r.packets);
    InvLog(keys, v);
    GrowsSeq(v.receiver, u.receiver);
    AllArrived(keys, w, c, s, mtu, writes, u.receiver);
    StillTrue(keys, u.sent, u.readKey, u.receiver, ds, seen);
    Waits(keys, w, c);
    Takes(keys, u, c);
    RunThen(keys, v, Reading(|w.net|, packs, order), Taking(c));
  }

  lemma {:induction false} SendsPlace(keys: nat -> Key, w: World, s: Sender, mtu: nat, writes: seq<bool>)
    requires KeysOk(keys) && SendsAll(keys, w, s, mtu, writes)
    ensures AtPlace(s)
  {
    hide KeysOk, SendLoop, AtPlace;
  }

  lemma {:induction false} PutOnNet(keys: nat -> Key, w: World, s: Sender, mtu: nat, writes: seq<bool>)
    requires KeysOk(keys) && AtPlace(s)
    ensures OnNet(keys, Send(keys, w, s, mtu, writes), |w.net|, Packs(SendLoop(keys, s, mtu, writes).packets))
  {
    hide KeysOk, SendLoop, PacketBytes;
    var packets := SendLoop(keys, s, mtu, writes).packets;
    var bs := AllBytes(keys, packets);
    forall i | 0 <= i < |packets| ensures (w.net + bs)[|w.net| + i] == PacketBytes(keys, packets[i].descs) {
      assert (w.net + bs)[|w.net| + i] == bs[i];
    }
  }

  lemma {:induction false} InvLog(keys: nat -> Key, w: World)
    requires KeysOk(keys) && Inv(keys, w)
    ensures TrueDescs(keys, w.sent, w.log)
  {
    hide KeysOk, Good, TrueDescs, TrueAssembly;
  }

  lemma {:induction false} GrowsSeq(r: Receiver, q: Receiver)
    requires Grows(r, q)
    ensures q.readSeq == r.readSeq
  {
  }

  lemma {:induction false} StillTrue(keys: nat -> Key, sent: seq<Message>, k: nat, r: Receiver, ds: seq<Desc>,
      seen: set<nat>)
    requires KeysOk(keys) && Receiving(keys, sent, k, r, ds, seen)
    ensures RingTrue(sent, r)
  {
    hide KeysOk, TrueAssembly, RingOk, WellFormed, Fits, Expected, DtlsWindow.Means;
    RingLengthOf(keys, sent, k, r);
  }

  lemma {:induction false} RingLengthOf(keys: nat -> Key, sent: seq<Message>, k: nat, r: Receiver)
    requires KeysOk(keys) && ReceiverOk(keys, sent, k, r)
    ensures |r.ring| == 7
  {
    hide KeysOk, TrueAssembly, WellFormed, InSlot;
  }

  /** The receiver waits for the message with the number of those delivered. */
  lemma {:induction false} Waits(keys: nat -> Key, w: World, c: nat)
    requires KeysOk(keys) && Inv(keys, w) && Hist(w) && Deliverable(w, c) && Within(w)
    ensures w.receiver.readSeq == |w.delivered| && |w.delivered| + c <= |w.sent| <= DtlsMessage.TWO16
  {
    hide KeysOk, Good, NetOk, TrueDescs, ReceiverOk, FlightOk, MessagesOk, Hist;
    DeliveredNext(w, c);
  }

  /** RFC 6347 section 4.2.4: after any run, a flight that is sent or sent again, and of which every
      packet arrives at least once, in whatever order, is delivered: the messages the receiver waits
      for come out in order and whole, and no call raises an alert.  The flight holds those messages
      under the receiver's keys, with an MTU of at most 16384 and at most 64 records, so that none of
      them falls behind the replay window. */
  lemma {:induction false} FlightDelivered(keys: nat -> Key, maxLen: nat, before: seq<Action>, again: bool, mtu: nat,
      writes: seq<bool>, order: seq<nat>, c: nat)
    requires KeysOk(keys) && Ready(Run(keys, Start(keys, maxLen), before))
    requires var w := Run(keys, Start(keys, maxLen), before);
      var s := if again then Rewound(w.sender) else Completed(w.sender);
      var v := Apply(keys, w, if again then Retransmit(mtu, writes) else Flush(mtu, writes));
      && Deliverable(w, c) && SendsAll(keys, w, s, mtu, writes) && mtu <= 16384
      && Unwrapped(v) && FewNumbers(w.sender.records, v.sender.records)
      && var n := |SendLoop(keys, s, mtu, writes).packets|;
         (forall i :: 0 <= i < |order| ==> order[i] < n) && forall i :: 0 <= i < n ==> i in order
    ensures var w := Run(keys, Start(keys, maxLen), before);
      var s := if again then Rewound(w.sender) else Completed(w.sender);
      var a := if again then Retransmit(mtu, writes) else Flush(mtu, writes);
      var script := Reading(|w.net|, Packs(SendLoop(keys, s, mtu, writes).packets), order) + Taking(c);
      && Ready(Apply(keys, w, a)) && Quiet(keys, Apply(keys, w, a), script)
      && Run(keys, Apply(keys, w, a), script).delivered == w.delivered + w.sent[|w.delivered|..|w.delivered| + c]
  {
    hide KeysOk, SendLoop, Inv, Hist, Deliverable, WindowKnown, SendsAll, FewNumbers, Run, Quiet, Ready, Reading,
         Taking, Start, NumbersLast, Send;
    var w := Run(keys, Start(keys, maxLen), before);
    ReadyPlace(w);
    var s := if again then Rewound(w.sender) else Completed(w.sender);
    var a := if again then Retransmit(mtu, writes) else Flush(mtu, writes);
    SendsPlace(keys, w, s, mtu, writes);
    assert Apply(keys, w, a) == Send(keys, w, s, mtu, writes);
    ApplyReady(keys, w, a);
    ApplyGrows(keys, w, a);
    StartReached(keys, maxLen);
    Reached(keys, Start(keys, maxLen), before);
    HistParts(w);
    FlightBound(keys, w, a);
    ApplyInv(keys, w, a);
    SendWraps(keys, w, s, mtu, writes);
    ArrivesFrom(keys, w, c, s, mtu, writes, order);
  }

  lemma {:induction false} ReadyPlace(w: World)
    requires Ready(w)
    ensures AtPlace(w.sender)
  {
    hide AtPlace, RingOk, WellFormed;
  }

  lemma {:induction false} SendWraps(keys: nat -> Key, w: World, s: Sender, mtu: nat, writes: seq<bool>)
    requires KeysOk(keys) && AtPlace(s)
    ensures Send(keys, w, s, mtu, writes).sender == SendLoop(keys, s, mtu, writes).sender
  {
    hide KeysOk, SendLoop;
  }
}
